/** Service start order: Kahn's algorithm with a sorted ready list. */
module StartOrder {
  import opened Text
  import opened Graph

  datatype ServiceConfig = ServiceConfig(id: string, dependsOn: seq<string>)

  datatype OrderError = UnknownDependency(service: string, dep: string) | DependencyCycle

  datatype Outcome = Ok(order: seq<string>) | Err(error: OrderError)

  type Pair = (string, string)

  // --------------------------------------------------------- what is asked for

  /** The first `n` dependencies of a service, as (service, dependency) pairs. */
  function PairsOf(svc: ServiceConfig, n: nat): (r: seq<Pair>)
    requires n <= |svc.dependsOn|
    ensures |r| == n && forall i | 0 <= i < n :: r[i] == (svc.id, svc.dependsOn[i])
  {
    if n == 0 then [] else PairsOf(svc, n - 1) + [(svc.id, svc.dependsOn[n-1])]
  }

  /** Every (service, dependency) pair of the configuration, in order, repeats included. */
  function Dependencies(services: seq<ServiceConfig>): seq<Pair> {
    if services == [] then []
    else
      var last := services[|services|-1];
      Dependencies(services[..|services|-1]) + PairsOf(last, |last.dependsOn|)
  }

  function Ids(services: seq<ServiceConfig>): set<string> {
    set s | s in services :: s.id
  }

  ghost function DependsOn(services: seq<ServiceConfig>): Edges<string> {
    set e | e in Dependencies(services)
  }

  ghost predicate DistinctIds(services: seq<ServiceConfig>) {
    forall i, j | 0 <= i < j < |services| :: services[i].id != services[j].id
  }

  ghost predicate AllKnown(services: seq<ServiceConfig>) {
    forall e | e in Dependencies(services) :: e.1 in Ids(services)
  }

  /** `x` has not been started and everything it depends on has. */
  ghost predicate Startable(pairs: seq<Pair>, ids: set<string>, started: seq<string>, x: string) {
    x in ids && x !in started && forall e | e in pairs && e.0 == x :: e.1 in started
  }

  /** Every position holds the largest id that was startable at that point. */
  ghost predicate LargestFirst(pairs: seq<Pair>, ids: set<string>, order: seq<string>) {
    forall i | 0 <= i < |order| ::
      && Startable(pairs, ids, order[..i], order[i])
      && (forall y | Startable(pairs, ids, order[..i], y) :: !Less(order[i], y))
  }

  ghost predicate IsStartOrder(services: seq<ServiceConfig>, order: seq<string>) {
    && |order| == |services| && NoDuplicates(order)
    && (forall x :: x in order <==> x in Ids(services))
    && SuccessorsFirst(DependsOn(services), order)
    && LargestFirst(Dependencies(services), Ids(services), order)
  }

  // ------------------------------------------------------------------ sorting

  ghost predicate Sorted(s: seq<string>) {
    forall i, j | 0 <= i < j < |s| :: !Less(s[j], s[i])
  }

  function Insert(s: seq<string>, x: string): seq<string> {
    if s != [] && Less(x, s[|s|-1]) then Insert(s[..|s|-1], x) + [s[|s|-1]] else s + [x]
  }

  lemma SortedSnoc(s: seq<string>, x: string)
    requires Sorted(s) && forall i | 0 <= i < |s| :: !Less(x, s[i])
    ensures Sorted(s + [x])
  {
    hide Less;
  }

  lemma {:induction false} InsertContents(s: seq<string>, x: string)
    ensures multiset(Insert(s, x)) == multiset(s) + multiset{x}
  {
    hide Less;
    if s != [] {
      InsertContents(s[..|s|-1], x);
      assert s == s[..|s|-1] + [s[|s|-1]];
    }
  }

  lemma {:induction false} InsertSorted(s: seq<string>, x: string)
    requires Sorted(s)
    ensures Sorted(Insert(s, x))
  {
    hide Less;
    if s != [] && Less(x, s[|s|-1]) {
      var front, last := s[..|s|-1], s[|s|-1];
      InsertSorted(front, x);
      var r := Insert(front, x);
      InsertContents(front, x);
      LessIsAsymmetric(x, last);
      forall i | 0 <= i < |r| ensures !Less(last, r[i]) {
        assert r[i] in multiset(r);
        assert r[i] in front || r[i] == x;
      }
      SortedSnoc(r, last);
    } else {
      forall i | 0 <= i < |s| ensures !Less(x, s[i]) {
        NotBelow(x, s[i], s[|s|-1], i == |s|-1);
      }
      SortedSnoc(s, x);
    }
  }

  lemma NotBelow(x: string, y: string, last: string, same: bool)
    requires !Less(x, last) && (if same then y == last else !Less(last, y))
    ensures !Less(x, y)
  {
  }

  /** The library sort, as far as the algorithm depends on it. */
  function Sort(s: seq<string>): (r: seq<string>)
    ensures Sorted(r) && multiset(r) == multiset(s)
  {
    if s == [] then []
    else
      assert s == s[..|s|-1] + [s[|s|-1]];
      InsertSorted(Sort(s[..|s|-1]), s[|s|-1]);
      InsertContents(Sort(s[..|s|-1]), s[|s|-1]);
      Insert(Sort(s[..|s|-1]), s[|s|-1])
  }

  lemma SortKeeps(s: seq<string>)
    requires NoDuplicates(s)
    ensures NoDuplicates(Sort(s)) && forall x :: x in Sort(s) <==> x in s
  {
    var r := Sort(s);
    forall x ensures x in r <==> x in s {
      assert x in r <==> x in multiset(r);
      assert x in s <==> x in multiset(s);
    }
    forall x | x in s ensures multiset(s)[x] == 1 { CountOne(s, x); }
    if i, j :| 0 <= i < j < |r| && r[i] == r[j] {
      TwiceCounted(r, i, j);
    }
  }

  lemma CountOne(s: seq<string>, x: string)
    requires NoDuplicates(s) && x in s
    ensures multiset(s)[x] == 1
  {
    var i :| 0 <= i < |s| && s[i] == x;
    assert s == s[..i] + [x] + s[i+1..];
    assert multiset(s) == multiset(s[..i]) + multiset{x} + multiset(s[i+1..]);
    assert x !in s[..i] && x !in s[i+1..];
  }

  lemma TwiceCounted(s: seq<string>, i: nat, j: nat)
    requires i < j < |s| && s[i] == s[j]
    ensures multiset(s)[s[i]] >= 2
  {
    assert s == s[..i] + [s[i]] + s[i+1..];
    assert s[i+1..][j-i-1] == s[j];
    assert s[j] in multiset(s[i+1..]);
    assert multiset(s) == multiset(s[..i]) + multiset{s[i]} + multiset(s[i+1..]);
  }

  // ----------------------------------------------------------------- counting

  /** How many dependency pairs of `x` are not satisfied by `started`. */
  function CountLeft(pairs: seq<Pair>, x: string, started: seq<string>): nat {
    if pairs == [] then 0
    else
      var e := pairs[|pairs|-1];
      CountLeft(pairs[..|pairs|-1], x, started) + (if e.0 == x && e.1 !in started then 1 else 0)
  }

  /** The services that wait on `d`, one entry per pair. */
  function Waiting(pairs: seq<Pair>, d: string): seq<string> {
    if pairs == [] then []
    else
      var e := pairs[|pairs|-1];
      Waiting(pairs[..|pairs|-1], d) + (if e.1 == d then [e.0] else [])
  }

  lemma {:induction false} WaitingIsPaired(pairs: seq<Pair>, d: string, x: string)
    requires x in Waiting(pairs, d)
    ensures (x, d) in pairs
  {
    if x in Waiting(pairs[..|pairs|-1], d) {
      WaitingIsPaired(pairs[..|pairs|-1], d, x);
    }
  }

  lemma {:induction false} CountLeftZero(pairs: seq<Pair>, x: string, started: seq<string>)
    ensures CountLeft(pairs, x, started) == 0 <==> forall e | e in pairs && e.0 == x :: e.1 in started
  {
    if pairs != [] {
      var before, e := pairs[..|pairs|-1], pairs[|pairs|-1];
      assert pairs == before + [e];
      CountLeftZero(before, x, started);
      assert forall f | f in pairs :: f in before || f == e;
    }
  }

  /** Starting `d` satisfies exactly the pairs recorded as waiting on it. */
  lemma {:induction false} StartingReleases(pairs: seq<Pair>, x: string, started: seq<string>, d: string)
    requires d !in started
    ensures CountLeft(pairs, x, started) == CountLeft(pairs, x, started + [d]) + multiset(Waiting(pairs, d))[x]
  {
    if pairs != [] {
      StartingReleases(pairs[..|pairs|-1], x, started, d);
    }
  }

  // ---------------------------------------------------------------- algorithm

  function Get(children: map<string, seq<string>>, d: string): seq<string> {
    if d in children then children[d] else []
  }

  /** The two tables agree with the pairs read so far. */
  ghost predicate Tallied(pairs: seq<Pair>, ids: set<string>, indegree: map<string, nat>, children: map<string, seq<string>>) {
    && indegree.Keys == ids
    && (forall x | x in ids :: indegree[x] == CountLeft(pairs, x, []))
    && (forall d :: Get(children, d) == Waiting(pairs, d))
  }

  /** Count one more pair in both tables. */
  method Record(ids: set<string>, id: string, dep: string, ghost pairs: seq<Pair>,
                indegree0: map<string, nat>, children0: map<string, seq<string>>)
    returns (indegree: map<string, nat>, children: map<string, seq<string>>)
    requires id in ids && Tallied(pairs, ids, indegree0, children0)
    ensures Tallied(pairs + [(id, dep)], ids, indegree, children)
  {
    children := children0[dep := Get(children0, dep) + [id]];
    indegree := indegree0[id := indegree0[id] + 1];
    ghost var pairs' := pairs + [(id, dep)];
    assert pairs'[..|pairs|] == pairs && pairs'[|pairs|] == (id, dep);
    forall d
      ensures Get(children, d) == Waiting(pairs', d)
    {
      assert Get(children0, d) == Waiting(pairs, d);
    }
  }

  /** The error names a configured dependency that is no service. */
  ghost predicate NamesUnknown(services: seq<ServiceConfig>, e: OrderError) {
    e.UnknownDependency? && (e.service, e.dep) in Dependencies(services) && e.dep !in Ids(services)
  }

  /** Read the dependencies of one service into the tables. */
  method TallyOne(ids: set<string>, svc: ServiceConfig, ghost before: seq<Pair>,
                  indegree0: map<string, nat>, children0: map<string, seq<string>>)
    returns (known: Outcome, indegree: map<string, nat>, children: map<string, seq<string>>)
    requires svc.id in ids && Tallied(before, ids, indegree0, children0)
    ensures known.Ok? ==> Tallied(before + PairsOf(svc, |svc.dependsOn|), ids, indegree, children)
    ensures known.Ok? ==> forall j | 0 <= j < |svc.dependsOn| :: svc.dependsOn[j] in ids
    ensures known.Err? ==> known.error.UnknownDependency? && known.error.service == svc.id
    ensures known.Err? ==> known.error.dep in svc.dependsOn && known.error.dep !in ids
  {
    indegree, children, known := indegree0, children0, Ok([]);
    ghost var pairs := before;
    var j := 0;
    while j < |svc.dependsOn| && known.Ok?
      invariant 0 <= j <= |svc.dependsOn|
      invariant pairs == before + PairsOf(svc, j)
      invariant known.Ok? ==> Tallied(pairs, ids, indegree, children)
      invariant known.Ok? ==> forall i | 0 <= i < j :: svc.dependsOn[i] in ids
      invariant known.Err? ==> known.error.UnknownDependency? && known.error.service == svc.id
      invariant known.Err? ==> known.error.dep in svc.dependsOn && known.error.dep !in ids
    {
      var dep := svc.dependsOn[j];
      if dep !in indegree {
        known := Err(UnknownDependency(svc.id, dep));
      } else {
        indegree, children := Record(ids, svc.id, dep, pairs, indegree, children);
      }
      pairs := pairs + [(svc.id, dep)];
      j := j + 1;
    }
  }

  method Tally(services: seq<ServiceConfig>)
    returns (known: Outcome, indegree: map<string, nat>, children: map<string, seq<string>>)
    ensures known.Ok? <==> AllKnown(services)
    ensures known.Ok? ==> Tallied(Dependencies(services), Ids(services), indegree, children)
    ensures known.Err? ==> NamesUnknown(services, known.error)
  {
    hide Tallied, Dependencies, NamesUnknown, AllKnown;
    var ids := Ids(services);
    indegree := map x | x in ids :: 0;
    children := map[];
    known := Ok([]);
    EmptyTally(services, indegree, children);
    var i := 0;
    while i < |services| && known.Ok?
      invariant 0 <= i <= |services|
      invariant known.Ok? ==> Tallied(Dependencies(services[..i]), ids, indegree, children)
      invariant known.Ok? ==> forall e | e in Dependencies(services[..i]) :: e.1 in ids
      invariant known.Err? ==> NamesUnknown(services, known.error) && !AllKnown(services)
    {
      var svc := services[i];
      assert svc.id in ids;
      DependenciesSnoc(services, i);
      known, indegree, children := TallyOne(ids, svc, Dependencies(services[..i]), indegree, children);
      if known.Ok? {
        PairsKnown(svc, ids);
      } else {
        UnknownNamed(services, i, known.error);
      }
      i := i + 1;
    }
    if known.Ok? {
      assert services[..i] == services;
      KnownAll(services);
    }
  }

  lemma EmptyTally(services: seq<ServiceConfig>, indegree: map<string, nat>, children: map<string, seq<string>>)
    requires indegree == (map x | x in Ids(services) :: 0) && children == map[]
    ensures Dependencies(services[..0]) == [] && Tallied([], Ids(services), indegree, children)
  {
  }

  lemma DependenciesSnoc(services: seq<ServiceConfig>, i: nat)
    requires i < |services|
    ensures Dependencies(services[..i+1]) == Dependencies(services[..i]) + PairsOf(services[i], |services[i].dependsOn|)
  {
    assert services[..i+1][..i] == services[..i];
  }

  lemma PairsKnown(svc: ServiceConfig, ids: set<string>)
    requires forall j | 0 <= j < |svc.dependsOn| :: svc.dependsOn[j] in ids
    ensures forall e | e in PairsOf(svc, |svc.dependsOn|) :: e.1 in ids
  {
  }

  lemma UnknownNamed(services: seq<ServiceConfig>, i: nat, e: OrderError)
    requires i < |services| && e.UnknownDependency? && e.service == services[i].id
    requires e.dep in services[i].dependsOn && e.dep !in Ids(services)
    ensures NamesUnknown(services, e) && !AllKnown(services)
  {
    hide Dependencies;
    var j :| 0 <= j < |services[i].dependsOn| && services[i].dependsOn[j] == e.dep;
    PairListed(services, i, j);
  }

  lemma KnownAll(services: seq<ServiceConfig>)
    requires forall e | e in Dependencies(services) :: e.1 in Ids(services)
    ensures AllKnown(services)
  {
  }

  lemma {:induction false} PairListed(services: seq<ServiceConfig>, i: nat, j: nat)
    requires i < |services| && j < |services[i].dependsOn|
    ensures (services[i].id, services[i].dependsOn[j]) in Dependencies(services)
  {
    var n := |services| - 1;
    if i == n {
      assert PairsOf(services[n], |services[n].dependsOn|)[j] == (services[i].id, services[i].dependsOn[j]);
    } else {
      PairListed(services[..n], i, j);
    }
  }

  /** The state of the main loop between two starts. */
  ghost predicate LoopInv(pairs: seq<Pair>, ids: set<string>, indegree: map<string, nat>, queue: seq<string>, order: seq<string>) {
    && indegree.Keys == ids && (forall e | e in pairs :: e.0 in ids)
    && (forall x | x in ids :: indegree[x] == CountLeft(pairs, x, order))
    && (forall x :: x in queue <==> x in ids && x !in order && indegree[x] == 0)
    && NoDuplicates(queue) && Sorted(queue) && NoDuplicates(order)
    && LargestFirst(pairs, ids, order)
  }

  method FirstQueue(ids: set<string>, indegree: map<string, nat>) returns (queue: seq<string>)
    requires indegree.Keys == ids
    ensures forall x :: x in queue <==> x in ids && indegree[x] == 0
    ensures NoDuplicates(queue) && Sorted(queue)
  {
    queue := [];
    var rest := ids;
    while rest != {}
      invariant rest <= ids
      invariant forall x :: x in queue <==> x in ids - rest && indegree[x] == 0
      invariant NoDuplicates(queue)
    {
      var id :| id in rest;
      if indegree[id] == 0 {
        queue := queue + [id];
      }
      rest := rest - {id};
    }
    SortKeeps(queue);
    queue := Sort(queue);
  }

  /** The inner loop: decrement the waiting services of one started id, queueing those that reach zero. */
  method Release(ghost pairs: seq<Pair>, ids: set<string>, waiting: seq<string>, indegree0: map<string, nat>,
                 queue0: seq<string>, ghost order: seq<string>)
    returns (indegree: map<string, nat>, queue: seq<string>)
    requires indegree0.Keys == ids && (forall x | x in waiting :: x in ids && x !in order)
    requires forall x | x in ids :: indegree0[x] == CountLeft(pairs, x, order) + multiset(waiting)[x]
    requires forall x :: x in queue0 <==> x in ids && x !in order && indegree0[x] == 0
    requires NoDuplicates(queue0) && Sorted(queue0)
    ensures indegree.Keys == ids && forall x | x in ids :: indegree[x] == CountLeft(pairs, x, order)
    ensures forall x :: x in queue <==> x in ids && x !in order && indegree[x] == 0
    ensures NoDuplicates(queue) && Sorted(queue)
  {
    indegree, queue := indegree0, queue0;
    var k := 0;
    assert waiting[0..] == waiting;
    while k < |waiting|
      invariant 0 <= k <= |waiting| && indegree.Keys == ids
      invariant forall x | x in ids :: indegree[x] == CountLeft(pairs, x, order) + multiset(waiting[k..])[x]
      invariant forall x :: x in queue <==> x in ids && x !in order && indegree[x] == 0
      invariant NoDuplicates(queue) && Sorted(queue)
    {
      var child := waiting[k];
      assert waiting[k..] == [child] + waiting[k+1..];
      assert multiset(waiting[k..]) == multiset{child} + multiset(waiting[k+1..]);
      indegree := indegree[child := indegree[child] - 1];
      if indegree[child] == 0 {
        SortKeeps(queue + [child]);
        queue := Sort(queue + [child]);
      }
      k := k + 1;
    }
  }

  /** Popping the end of the sorted queue starts the largest startable id. */
  lemma PopsLargest(pairs: seq<Pair>, ids: set<string>, indegree: map<string, nat>, queue: seq<string>, order: seq<string>)
    requires LoopInv(pairs, ids, indegree, queue, order) && queue != []
    ensures var id := queue[|queue|-1];
      && NoDuplicates(order + [id]) && LargestFirst(pairs, ids, order + [id])
      && (forall x | x in Waiting(pairs, id) :: x in ids && x !in order + [id])
  {
    var id := queue[|queue|-1];
    assert id in queue;
    var order' := order + [id];
    forall x ensures Startable(pairs, ids, order, x) <==> x in queue { CountLeftZero(pairs, x, order); }
    forall i | 0 <= i < |order'|
      ensures Startable(pairs, ids, order'[..i], order'[i])
      ensures forall y | Startable(pairs, ids, order'[..i], y) :: !Less(order'[i], y)
    {
      assert order'[..i] == order[..i];
      if i == |order| {
        assert order[..i] == order;
        forall y | Startable(pairs, ids, order, y) ensures !Less(id, y) {
          var j :| 0 <= j < |queue| && queue[j] == y;
          if Less(id, y) { LessIsAsymmetric(id, y); }
        }
      }
    }
    forall x | x in Waiting(pairs, id)
      ensures x in ids && x !in order'
    {
      WaitingIsPaired(pairs, id, x);
    }
  }

  /** One round of the main loop. */
  method StartNext(ghost pairs: seq<Pair>, ids: set<string>, children: map<string, seq<string>>,
                   indegree0: map<string, nat>, queue0: seq<string>, ghost order: seq<string>)
    returns (indegree: map<string, nat>, queue: seq<string>)
    requires LoopInv(pairs, ids, indegree0, queue0, order) && queue0 != []
    requires forall d :: Get(children, d) == Waiting(pairs, d)
    ensures LoopInv(pairs, ids, indegree, queue, order + [queue0[|queue0|-1]])
  {
    PopsLargest(pairs, ids, indegree0, queue0, order);
    AfterPop(pairs, ids, indegree0, queue0, order);
    var id := queue0[|queue0|-1];
    indegree, queue := Release(pairs, ids, Get(children, id), indegree0, queue0[..|queue0|-1], order + [id]);
  }

  /** The tables just after a pop: the started id's waiting services are still counted. */
  lemma AfterPop(pairs: seq<Pair>, ids: set<string>, indegree: map<string, nat>, queue: seq<string>, order: seq<string>)
    requires LoopInv(pairs, ids, indegree, queue, order) && queue != []
    ensures var id, rest := queue[|queue|-1], queue[..|queue|-1];
      && (forall x | x in ids :: indegree[x] == CountLeft(pairs, x, order + [id]) + multiset(Waiting(pairs, id))[x])
      && (forall x :: x in rest <==> x in ids && x !in order + [id] && indegree[x] == 0)
      && NoDuplicates(rest) && Sorted(rest)
  {
    var id, rest := queue[|queue|-1], queue[..|queue|-1];
    assert queue == rest + [id] && id in queue;
    forall x | x in ids
      ensures indegree[x] == CountLeft(pairs, x, order + [id]) + multiset(Waiting(pairs, id))[x]
    {
      StartingReleases(pairs, x, order, id);
    }
  }

  method StartOrder(services: seq<ServiceConfig>) returns (r: Outcome)
    ensures r.Ok? <==> DistinctIds(services) && AllKnown(services) && Acyclic(DependsOn(services))
    ensures r.Ok? ==> IsStartOrder(services, r.order)
    ensures r.Err? ==> NamesUnknown(services, r.error) || (r.error.DependencyCycle? && AllKnown(services))
  {
    var known, indegree, children := Tally(services);
    if known.Err? {
      return known;
    }
    var ids := Ids(services);
    ghost var pairs := Dependencies(services);
    ServicesOnly(services);
    var queue := FirstQueue(ids, indegree);
    var order := [];
    while queue != []
      invariant LoopInv(pairs, ids, indegree, queue, order)
      decreases ids - Elements(order)
    {
      var id := queue[|queue|-1];
      assert id in queue;
      indegree, queue := StartNext(pairs, ids, children, indegree, queue, order);
      assert Elements(order + [id]) == Elements(order) + {id};
      order := order + [id];
    }
    if |order| != |services| {
      Incomplete(services, indegree, order);
      return Err(DependencyCycle);
    }
    Complete(services, indegree, order);
    r := Ok(order);
  }

  lemma {:induction false} ServicesOnly(services: seq<ServiceConfig>)
    ensures forall e | e in Dependencies(services) :: e.0 in Ids(services)
  {
    if services != [] {
      ServicesOnly(services[..|services|-1]);
    }
  }

  // ------------------------------------------------------------------ endings

  function Elements(s: seq<string>): set<string> {
    set x | x in s
  }

  lemma {:induction false} ElementsSize(s: seq<string>)
    ensures |Elements(s)| <= |s|
    ensures |Elements(s)| == |s| <==> NoDuplicates(s)
  {
    if s != [] {
      var front, last := s[..|s|-1], s[|s|-1];
      assert s == front + [last];
      ElementsSize(front);
      assert Elements(s) == Elements(front) + {last};
      if last in front {
        var i :| 0 <= i < |front| && front[i] == last;
        assert s[i] == s[|s|-1];
        assert Elements(s) == Elements(front);
      }
    }
  }

  lemma IdsSize(services: seq<ServiceConfig>)
    ensures |Ids(services)| <= |services|
    ensures |Ids(services)| == |services| <==> DistinctIds(services)
  {
    var s := seq(|services|, i requires 0 <= i < |services| => services[i].id);
    ElementsSize(s);
    assert NoDuplicates(s) <==> DistinctIds(services) by {
      assert forall i | 0 <= i < |s| :: s[i] == services[i].id;
    }
    assert Elements(s) == Ids(services) by {
      forall x | x in Ids(services) ensures x in s {
        var svc :| svc in services && svc.id == x;
        var i :| 0 <= i < |services| && services[i] == svc;
        assert s[i] == x;
      }
    }
  }

  /** Every id was started: the order is complete, so the ids are distinct and the graph acyclic. */
  lemma Complete(services: seq<ServiceConfig>, indegree: map<string, nat>, order: seq<string>)
    requires LoopInv(Dependencies(services), Ids(services), indegree, [], order) && AllKnown(services)
    requires |order| == |services|
    ensures DistinctIds(services) && Acyclic(DependsOn(services)) && IsStartOrder(services, order)
  {
    var pairs, ids := Dependencies(services), Ids(services);
    StartedAreIds(pairs, ids, order);
    ElementsSize(order);
    IdsSize(services);
    SubsetSize(Elements(order), ids);
    SameSize(Elements(order), ids);
    assert forall x :: x in order <==> x in Elements(order);
    DependenciesFirst(services, order);
    SuccessorsFirstIsAcyclic(DependsOn(services), order);
  }

  lemma StartedAreIds(pairs: seq<Pair>, ids: set<string>, order: seq<string>)
    requires LargestFirst(pairs, ids, order)
    ensures Elements(order) <= ids
  {
  }

  lemma {:induction false} SubsetSize(a: set<string>, b: set<string>)
    requires a <= b
    ensures |a| <= |b|
  {
    if a != {} {
      var x :| x in a;
      SubsetSize(a - {x}, b - {x});
    }
  }

  lemma SameSize(a: set<string>, b: set<string>)
    requires a <= b && |a| == |b|
    ensures a == b
  {
    if x :| x in b && x !in a {
      SubsetSize(a, b - {x});
    }
  }

  lemma DependenciesFirst(services: seq<ServiceConfig>, order: seq<string>)
    requires LargestFirst(Dependencies(services), Ids(services), order)
    requires forall x | x in Ids(services) :: x in order
    ensures SuccessorsFirst(DependsOn(services), order)
  {
    ServicesOnly(services);
    forall e | e in DependsOn(services)
      ensures exists i, j :: 0 <= i < j < |order| && order[j] == e.0 && order[i] == e.1
    {
      var j :| 0 <= j < |order| && order[j] == e.0;
      assert Startable(Dependencies(services), Ids(services), order[..j], order[j]);
      var i :| 0 <= i < j && order[..j][i] == e.1;
    }
  }

  /** With an empty queue, an id that was not started waits on another that was not started. */
  lemma StillWaits(services: seq<ServiceConfig>, indegree: map<string, nat>, order: seq<string>, x: string)
    requires LoopInv(Dependencies(services), Ids(services), indegree, [], order) && AllKnown(services)
    requires x in Ids(services) && x !in order
    ensures StepsInto(DependsOn(services), Ids(services) - Elements(order), x)
  {
    var pairs := Dependencies(services);
    assert indegree[x] != 0;
    CountLeftZero(pairs, x, order);
    var e :| e in pairs && e.0 == x && e.1 !in order;
    assert e == (x, e.1) && e in DependsOn(services);
  }

  /** Nothing is startable and something is missing: a repeated id or a cycle. */
  lemma Incomplete(services: seq<ServiceConfig>, indegree: map<string, nat>, order: seq<string>)
    requires LoopInv(Dependencies(services), Ids(services), indegree, [], order) && AllKnown(services)
    requires |order| != |services|
    ensures !(DistinctIds(services) && Acyclic(DependsOn(services)))
  {
    var left := Ids(services) - Elements(order);
    if left == {} {
      StartedAreIds(Dependencies(services), Ids(services), order);
      assert Elements(order) == Ids(services);
      IdsSize(services);
      ElementsSize(order);
    } else {
      forall x | x in left
        ensures StepsInto(DependsOn(services), left, x)
      {
        StillWaits(services, indegree, order, x);
      }
      NoSinkMeansCycle(DependsOn(services), left);
    }
  }

  /** At most one id can be the largest startable one. */
  lemma SamePick(pairs: seq<Pair>, ids: set<string>, started: seq<string>, x: string, y: string)
    requires Startable(pairs, ids, started, x) && Startable(pairs, ids, started, y)
    requires forall z | Startable(pairs, ids, started, z) :: !Less(x, z) && !Less(y, z)
    ensures x == y
  {
    LessIsTotal(x, y);
  }

  /** The order is a function of the configuration: no map or set iteration order shows through. */
  lemma {:induction false} OrderIsUnique(pairs: seq<Pair>, ids: set<string>, a: seq<string>, b: seq<string>, n: nat)
    requires LargestFirst(pairs, ids, a) && LargestFirst(pairs, ids, b) && n <= |a| && n <= |b|
    ensures a[..n] == b[..n]
  {
    if n > 0 {
      OrderIsUnique(pairs, ids, a, b, n - 1);
      SamePick(pairs, ids, a[..n-1], a[n-1], b[n-1]);
      assert a[..n] == a[..n-1] + [a[n-1]] && b[..n] == b[..n-1] + [b[n-1]];
    }
  }

  lemma StartOrderIsDetermined(services: seq<ServiceConfig>, a: seq<string>, b: seq<string>)
    requires IsStartOrder(services, a) && IsStartOrder(services, b)
    ensures a == b
  {
    OrderIsUnique(Dependencies(services), Ids(services), a, b, |a|);
    assert a[..|a|] == a && b[..|b|] == b;
  }
}
