/**
 What the interleaved machine's passes do when no one interferes: an owner pass settles the
 store as `ReconcileOwned` does, a consumer pass handles its inputs as the controllers do.
 */
module FinalizerPasses {
  import opened Resources
  import opened Store
  import opened Owned
  import opened Finalizer

  predicate Listed(objs: seq<Object>, k: Key) {
    exists i :: 0 <= i < |objs| && objs[i].Key() == k
  }

  /** Dropping the first of some objects with different keys unlists exactly its key. */
  lemma ListedTail(objs: seq<Object>)
    requires objs != [] && forall i, j | 0 <= i < j < |objs| :: objs[i].Key() != objs[j].Key()
    ensures forall k :: Listed(objs[1..], k) <==> Listed(objs, k) && k != objs[0].Key()
  {
    forall k | Listed(objs, k) && k != objs[0].Key() ensures Listed(objs[1..], k) {
      var i :| 0 <= i < |objs| && objs[i].Key() == k;
      assert objs[1..][i-1] == objs[i];
    }
  }

  // ------------------------------------------------------------------ the owner alone

  /** A step of an owner pass after its start. */
  predicate OwnerMove(step: Step) {
    step.OwnerRead? || step.OwnerWrite? || step.OwnerList? || step.OwnerCollect? || step.OwnerReread? || step.OwnerDestroy?
  }

  /** All but the last `|todo|` desired objects are upserted. */
  ghost predicate UpsertedBut(c: Config, desired: seq<Object>, s0: Objects, s: Objects, todo: seq<Object>) {
    && |todo| <= |desired| && todo == desired[|desired| - |todo|..]
    && Upserted(c.scope, desired[..|desired| - |todo|], s0, s)
  }

  /** What the pass leaves under a key, or what it finds there while the key is still on its listing. */
  function LeftAt(c: Config, desired: seq<Object>, todo: seq<Object>, k: Key, before: Option<Object>): Option<Object> {
    if Listed(todo, k) then UpsertAt(c.scope.owner, before, Wanted(desired, k)) else SettleAt(c.scope, desired, k, before)
  }

  ghost predicate Pending(c: Config, s: Objects, todo: seq<Object>) {
    && (forall i | 0 <= i < |todo| :: InScope(c.scope, todo[i].Key()) && Lookup(s, todo[i].Key()) == Some(todo[i]))
    && (forall i, j | 0 <= i < j < |todo| :: todo[i].Key() != todo[j].Key())
  }

  /** The key under collection is owned, undesired and free of finalizers. */
  ghost predicate Doomed(c: Config, desired: seq<Object>, s0: Objects, s: Objects, todo: seq<Object>, key: Key) {
    && Pending(c, s, todo) && !Listed(todo, key)
    && key in s && s[key].metadata.finalizers == [] && SettleAt(c.scope, desired, key, Lookup(s0, key)) == None
    && (forall k | k != key :: Lookup(s, k) == LeftAt(c, desired, todo, k, Lookup(s0, k)))
  }

  function IdsOf(desired: seq<Object>): set<string> {
    set o | o in desired :: o.metadata.id
  }

  /** How far a lone pass has got. */
  ghost predicate OwnerStage(c: Config, desired: seq<Object>, s0: Objects, s: System) {
    && WellKeyed(s.objects)
    && match s.owner
      case OwnerIdle => Settled(c.scope, desired, s0, s.objects)
      case Upserting(todo, ids) => ids == IdsOf(desired) && UpsertedBut(c, desired, s0, s.objects, todo)
      case UpsertRead(todo, ids, got) =>
        && ids == IdsOf(desired) && UpsertedBut(c, desired, s0, s.objects, todo)
        && todo != [] && got == Lookup(s.objects, todo[0].Key())
      case Collecting(todo, ids) =>
        && ids == IdsOf(desired) && Pending(c, s.objects, todo)
        && forall k :: Lookup(s.objects, k) == LeftAt(c, desired, todo, k, Lookup(s0, k))
      case Rereading(key, todo, ids) => ids == IdsOf(desired) && Doomed(c, desired, s0, s.objects, todo, key)
      case Destroying(key, version, todo, ids) =>
        && ids == IdsOf(desired) && Doomed(c, desired, s0, s.objects, todo, key)
        && version == s.objects[key].metadata.version
  }

  /** The write of one upsert. */
  lemma WriteCall(c: Config, s: System)
    requires WellKeyed(s.objects) && Enabled(c, s, OwnerWrite) && s.owner.got == Lookup(s.objects, s.owner.todo[0].Key())
    ensures var (want, s') := (s.owner.todo[0], Objects'(c, s, OwnerWrite));
      && ResultOf(c, s, OwnerWrite).Ok? && WellKeyed(s') && SameBut(s.objects, s', want.Key())
      && Lookup(s', want.Key()) == UpsertAt(c.scope.owner, Lookup(s.objects, want.Key()), Some(want))
  {
  }

  lemma WriteStage(c: Config, desired: seq<Object>, s0: Objects, s: System)
    requires DesiredFor(c.scope, desired) && OwnerStage(c, desired, s0, s) && Enabled(c, s, OwnerWrite)
    ensures OwnerStage(c, desired, s0, Next(c, s, OwnerWrite)) && Next(c, s, OwnerWrite).owner.Upserting?
  {
    hide IsListing, Settled, DesiredFor, UpsertAt, Perform, SameBut, Upserted, Objects', ResultOf;
    var n := |desired| - |s.owner.todo|;
    assert desired[n] == s.owner.todo[0] && s.owner.todo[1..] == desired[n+1..];
    WriteCall(c, s);
    UpsertedStep(c.scope, desired, n, s0, s.objects, Objects'(c, s, OwnerWrite));
  }

  lemma ListStage(c: Config, desired: seq<Object>, s0: Objects, s: System, listing: seq<Object>)
    requires DesiredFor(c.scope, desired) && OwnerStage(c, desired, s0, s) && Enabled(c, s, OwnerList(listing))
    ensures OwnerStage(c, desired, s0, Next(c, s, OwnerList(listing))) && Next(c, s, OwnerList(listing)).owner.Collecting?
  {
    hide UpsertAt, Wanted;
    assert desired[..|desired|] == desired;
    forall k ensures Lookup(s.objects, k) == LeftAt(c, desired, listing, k, Lookup(s0, k)) {
      assert Lookup(s.objects, k) == UpsertAt(c.scope.owner, Lookup(s0, k), Wanted(desired, k));
      if k in s.objects && InScope(c.scope, k) {
        assert s.objects[k] in listing;
      }
    }
  }

  lemma TeardownCall(s: Objects, x: Object)
    requires WellKeyed(s) && Lookup(s, x.Key()) == Some(x)
    ensures var o := Perform(s, Teardown(x.Key()));
      && o.result == Ok(x.metadata.finalizers == []) && Lookup(o.objects, x.Key()) == Some(TornDown(x))
      && SameBut(s, o.objects, x.Key()) && WellKeyed(o.objects)
  {
  }

  /** Looking at one listed object settles it, or finds its key doomed. */
  lemma CollectOne(c: Config, desired: seq<Object>, s0: Objects, s: Objects, todo: seq<Object>, s': Objects)
    requires DesiredFor(c.scope, desired) && Pending(c, s, todo) && todo != []
    requires forall k :: Lookup(s, k) == LeftAt(c, desired, todo, k, Lookup(s0, k))
    requires if Condemned(c, todo[0], IdsOf(desired)) then SameBut(s, s', todo[0].Key()) && Lookup(s', todo[0].Key()) == Some(TornDown(todo[0]))
             else s' == s
    ensures Pending(c, s', todo[1..])
    ensures if Condemned(c, todo[0], IdsOf(desired)) && todo[0].metadata.finalizers == []
            then Doomed(c, desired, s0, s', todo[1..], todo[0].Key())
            else forall k :: Lookup(s', k) == LeftAt(c, desired, todo[1..], k, Lookup(s0, k))
  {
    hide UpsertAt, Wanted, DesiredFor, Listed;
    var x := todo[0];
    assert Lookup(s, x.Key()) == Some(x);
    IdsName(c.scope, desired, x.Key());
    ListedTail(todo);
    assert Listed(todo, x.Key()) by { FirstListed(todo); }
  }

  lemma FirstListed(todo: seq<Object>)
    requires todo != []
    ensures Listed(todo, todo[0].Key())
  {
  }

  lemma CollectStage(c: Config, desired: seq<Object>, s0: Objects, s: System)
    requires DesiredFor(c.scope, desired) && OwnerStage(c, desired, s0, s) && Enabled(c, s, OwnerCollect)
    ensures OwnerStage(c, desired, s0, Next(c, s, OwnerCollect))
    ensures Next(c, s, OwnerCollect).owner.OwnerIdle? <==> s.owner.todo == []
  {
    hide Perform, LeftAt, Doomed, Condemned, DesiredFor, IsListing, TornDown, SameBut;
    var todo := s.owner.todo;
    if todo == [] {
      NothingPending(c, desired, s0, s.objects);
    } else {
      TeardownCall(s.objects, todo[0]);
      CollectOne(c, desired, s0, s.objects, todo, Objects'(c, s, OwnerCollect));
    }
  }

  lemma NothingPending(c: Config, desired: seq<Object>, s0: Objects, s: Objects)
    requires forall k :: Lookup(s, k) == LeftAt(c, desired, [], k, Lookup(s0, k))
    ensures Settled(c.scope, desired, s0, s)
  {
  }

  lemma DestroyStage(c: Config, desired: seq<Object>, s0: Objects, s: System)
    requires OwnerStage(c, desired, s0, s) && Enabled(c, s, OwnerDestroy)
    ensures OwnerStage(c, desired, s0, Next(c, s, OwnerDestroy)) && Next(c, s, OwnerDestroy).owner.Collecting?
  {
    hide UpsertAt, Wanted, SettleAt;
  }

  lemma OwnerStep(c: Config, desired: seq<Object>, s0: Objects, s: System, step: Step)
    requires DesiredFor(c.scope, desired) && OwnerStage(c, desired, s0, s) && OwnerMove(step) && Enabled(c, s, step)
    ensures OwnerStage(c, desired, s0, Next(c, s, step))
    ensures Next(c, s, step) == s.(objects := Next(c, s, step).objects, owner := Next(c, s, step).owner)
  {
    match step
    case OwnerWrite => WriteStage(c, desired, s0, s);
    case OwnerList(listing) => ListStage(c, desired, s0, s, listing);
    case OwnerCollect => CollectStage(c, desired, s0, s);
    case OwnerDestroy => DestroyStage(c, desired, s0, s);
    case _ =>
  }

  ghost predicate OwnerAlone(steps: seq<Step>) {
    forall i | 0 <= i < |steps| :: OwnerMove(steps[i])
  }

  lemma {:induction false} OwnerRun(c: Config, desired: seq<Object>, s0: Objects, s: System, steps: seq<Step>)
    requires DesiredFor(c.scope, desired) && OwnerStage(c, desired, s0, s) && OwnerAlone(steps) && IsRun(c, s, steps)
    ensures OwnerStage(c, desired, s0, After(c, s, steps))
    ensures After(c, s, steps) == s.(objects := After(c, s, steps).objects, owner := After(c, s, steps).owner)
    decreases |steps|
  {
    hide DesiredFor, OwnerStage, Enabled, Next, OwnerMove;
    if steps != [] {
      assert OwnerMove(steps[0]);
      OwnerStep(c, desired, s0, s, steps[0]);
      OwnerRun(c, desired, s0, Next(c, s, steps[0]), steps[1..]);
    }
  }

  lemma StartStage(c: Config, s: System, desired: seq<Object>)
    requires WellKeyed(s.objects) && Enabled(c, s, OwnerStart(desired))
    ensures OwnerStage(c, desired, s.objects, Next(c, s, OwnerStart(desired)))
  {
    assert desired[0..] == desired && desired[..0] == [];
  }

  /**
   An owner pass of the machine that no one interrupts settles the store as `ReconcileOwned`
   does: every way from its start back to idle leads there, so no call of it fails.
   */
  lemma LonePassSettles(c: Config, s: System, desired: seq<Object>, steps: seq<Step>)
    requires WellKeyed(s.objects) && OwnerAlone(steps) && IsRun(c, s, [OwnerStart(desired)] + steps)
    requires After(c, s, [OwnerStart(desired)] + steps).owner.OwnerIdle?
    ensures var s' := After(c, s, [OwnerStart(desired)] + steps);
      && Settled(c.scope, desired, s.objects, s'.objects) && s' == s.(objects := s'.objects)
      && (forall k | k in s.objects && InScope(c.scope, k) && Wanted(desired, k).None?
                     && s.objects[k].metadata.owner == Some(c.scope.owner) && s.objects[k].metadata.finalizers == [] ::
            k !in s'.objects)
  {
    hide Enabled, Next, Wanted;
    var all := [OwnerStart(desired)] + steps;
    assert all[0] == OwnerStart(desired) && all[1..] == steps;
    StartIdle(c, s, desired);
    StartStage(c, s, desired);
    OwnerRun(c, desired, s.objects, Next(c, s, OwnerStart(desired)), steps);
    var s' := After(c, s, all);
    forall k | k in s.objects && InScope(c.scope, k) && Wanted(desired, k).None?
               && s.objects[k].metadata.owner == Some(c.scope.owner) && s.objects[k].metadata.finalizers == []
      ensures k !in s'.objects
    {
      PassOutcome(c.scope, desired, s.objects, s'.objects, k);
    }
  }

  lemma StartIdle(c: Config, s: System, desired: seq<Object>)
    requires Enabled(c, s, OwnerStart(desired))
    ensures s.owner.OwnerIdle? && DesiredFor(c.scope, desired)
    ensures Next(c, s, OwnerStart(desired)) == s.(owner := Next(c, s, OwnerStart(desired)).owner)
  {
  }

  // -------------------------------------------------------- every lone pass can be completed

  lemma {:induction false} SomeListing(s: Objects, namespace: string, typ: ResourceType, keys: set<Key>) returns (r: seq<Object>)
    requires WellKeyed(s) && forall k | k in keys :: k in s && k.namespace == namespace && k.typ == typ
    ensures forall i | 0 <= i < |r| :: r[i].Key() in keys && s[r[i].Key()] == r[i]
    ensures forall k | k in keys :: s[k] in r
    ensures forall i, j | 0 <= i < j < |r| :: r[i].Key() != r[j].Key()
    decreases |keys|
  {
    r := [];
    if keys != {} {
      var k :| k in keys;
      var rest := SomeListing(s, namespace, typ, keys - {k});
      r := [s[k]] + rest;
    }
  }

  /** Steps of the owner alone from `s` to idle. */
  ghost predicate Completes(c: Config, s: System, steps: seq<Step>) {
    OwnerAlone(steps) && IsRun(c, s, steps) && After(c, s, steps).owner.OwnerIdle?
  }

  lemma {:induction false} CompletesCons(c: Config, s: System, step: Step, steps: seq<Step>)
    requires OwnerMove(step) && Enabled(c, s, step) && Completes(c, Next(c, s, step), steps)
    ensures Completes(c, s, [step] + steps)
  {
    hide Enabled, Next, OwnerMove;
    var all := [step] + steps;
    assert all[0] == step && all[1..] == steps;
    forall i | 0 <= i < |all| ensures OwnerMove(all[i]) {
      if i > 0 { assert all[i] == steps[i-1]; }
    }
  }

  lemma {:induction false} FinishCollecting(c: Config, desired: seq<Object>, s0: Objects, s: System) returns (steps: seq<Step>)
    requires DesiredFor(c.scope, desired) && OwnerStage(c, desired, s0, s) && s.owner.Collecting?
    ensures Completes(c, s, steps)
    decreases |s.owner.todo|
  {
    hide Completes, OwnerStage, DesiredFor;
    CollectStage(c, desired, s0, s);
    var s1 := Next(c, s, OwnerCollect);
    if s.owner.todo == [] {
      steps := [];
      NothingLeft(c, s1);
    } else if s1.owner.Collecting? {
      steps := FinishCollecting(c, desired, s0, s1);
    } else {
      OwnerStep(c, desired, s0, s1, OwnerReread);
      var s2 := Next(c, s1, OwnerReread);
      StillThere(c, desired, s0, s1);
      DestroyStage(c, desired, s0, s2);
      var s3 := Next(c, s2, OwnerDestroy);
      steps := FinishCollecting(c, desired, s0, s3);
      CompletesCons(c, s2, OwnerDestroy, steps);
      steps := [OwnerDestroy] + steps;
      CompletesCons(c, s1, OwnerReread, steps);
      steps := [OwnerReread] + steps;
    }
    CompletesCons(c, s, OwnerCollect, steps);
    steps := [OwnerCollect] + steps;
  }

  lemma NothingLeft(c: Config, s: System)
    requires s.owner.OwnerIdle?
    ensures Completes(c, s, [])
  {
  }

  lemma StillThere(c: Config, desired: seq<Object>, s0: Objects, s: System)
    requires OwnerStage(c, desired, s0, s) && s.owner.Rereading?
    ensures Next(c, s, OwnerReread).owner.Destroying? && Next(c, s, OwnerReread).owner.todo == s.owner.todo
  {
  }

  lemma {:induction false} FinishUpserting(c: Config, desired: seq<Object>, s0: Objects, s: System) returns (steps: seq<Step>)
    requires DesiredFor(c.scope, desired) && OwnerStage(c, desired, s0, s) && s.owner.Upserting?
    ensures Completes(c, s, steps)
    decreases |s.owner.todo|
  {
    hide Completes, DesiredFor, UpsertedBut;
    if s.owner.todo == [] {
      var listing := SomeListing(s.objects, c.scope.namespace, c.scope.typ,
                                 set k | k in s.objects && k.namespace == c.scope.namespace && k.typ == c.scope.typ);
      ListStage(c, desired, s0, s, listing);
      steps := FinishCollecting(c, desired, s0, Next(c, s, OwnerList(listing)));
      CompletesCons(c, s, OwnerList(listing), steps);
      steps := [OwnerList(listing)] + steps;
    } else {
      OwnerStep(c, desired, s0, s, OwnerRead);
      var s1 := Next(c, s, OwnerRead);
      WriteStage(c, desired, s0, s1);
      steps := FinishUpserting(c, desired, s0, Next(c, s1, OwnerWrite));
      CompletesCons(c, s1, OwnerWrite, steps);
      steps := [OwnerWrite] + steps;
      CompletesCons(c, s, OwnerRead, steps);
      steps := [OwnerRead] + steps;
    }
  }

  /** Whatever is stored, an owner pass that may start can be run to its end without failing. */
  lemma LonePassCompletes(c: Config, s: System, desired: seq<Object>) returns (steps: seq<Step>)
    requires WellKeyed(s.objects) && Enabled(c, s, OwnerStart(desired))
    ensures OwnerAlone(steps) && IsRun(c, s, [OwnerStart(desired)] + steps)
    ensures After(c, s, [OwnerStart(desired)] + steps).owner.OwnerIdle?
  {
    StartStage(c, s, desired);
    steps := FinishUpserting(c, desired, s.objects, Next(c, s, OwnerStart(desired)));
    var all := [OwnerStart(desired)] + steps;
    assert all[0] == OwnerStart(desired) && all[1..] == steps;
  }

  // --------------------------------------------------------------- the consumer alone

  /** A step of a consumer pass after its start, its effects succeeding. */
  predicate ConsumerMove(step: Step) {
    step.ConsumerFinalize? || step == ConsumerApply(true, true) || step == ConsumerRevert(true, true)
    || step.ConsumerRelease? || step.ConsumerFinish?
  }

  /** The store once the first `n` inputs of the listing have got or lost the finalizer. */
  ghost predicate StoreHandled(c: Config, s0: Objects, listing: seq<Object>, n: nat, s: Objects)
    requires n <= |listing|
  {
    forall k :: Lookup(s, k) == if k in s0 && Listed(listing[..n], k) then Some(InputAfter(s0[k], c.finalizer)) else Lookup(s0, k)
  }

  /** The keys and effects in force once the first `n` inputs have been applied or reverted. */
  ghost predicate EffectsHandled(s0: System, listing: seq<Object>, n: nat, applied: set<Key>, effects: set<(Key, Resource)>)
    requires n <= |listing|
  {
    && (forall k :: k in applied <==>
          if k in s0.objects && Listed(listing[..n], k) then s0.objects[k].metadata.phase == Running else k in s0.applied)
    && (forall e :: e in effects <==>
          if e.0 in s0.objects && Listed(listing[..n], e.0) && s0.objects[e.0].spec == e.1
          then s0.objects[e.0].metadata.phase == Running else e in s0.effects)
  }

  /** How far a lone consumer pass over `listing` has got. */
  ghost predicate ConsumerStage(c: Config, s0: System, listing: seq<Object>, s: System) {
    && WellKeyed(s.objects) && s.owner == s0.owner
    && match s.consumer
      case ConsumerIdle => StoreHandled(c, s0.objects, listing, |listing|, s.objects) && EffectsHandled(s0, listing, |listing|, s.applied, s.effects)
      case Handling(todo) =>
        && |todo| <= |listing| && todo == listing[|listing| - |todo|..]
        && StoreHandled(c, s0.objects, listing, |listing| - |todo|, s.objects) && EffectsHandled(s0, listing, |listing| - |todo|, s.applied, s.effects)
      case Applying(obj, todo) =>
        && |todo| < |listing| && [obj] + todo == listing[|listing| - |todo| - 1..] && obj.metadata.phase == Running
        && StoreHandled(c, s0.objects, listing, |listing| - |todo|, s.objects) && EffectsHandled(s0, listing, |listing| - |todo| - 1, s.applied, s.effects)
      case Releasing(obj, todo) =>
        && |todo| < |listing| && [obj] + todo == listing[|listing| - |todo| - 1..] && obj.metadata.phase == TearingDown
        && StoreHandled(c, s0.objects, listing, |listing| - |todo| - 1, s.objects) && EffectsHandled(s0, listing, |listing| - |todo|, s.applied, s.effects)
  }

  lemma ListedSnoc(listing: seq<Object>, n: nat)
    requires n < |listing|
    ensures forall k :: Listed(listing[..n+1], k) <==> Listed(listing[..n], k) || k == listing[n].Key()
  {
    forall k | Listed(listing[..n], k) ensures Listed(listing[..n+1], k) {
      var i :| 0 <= i < n && listing[..n][i].Key() == k;
      assert listing[..n+1][i].Key() == k;
    }
    assert listing[..n+1][n] == listing[n];
  }

  /** Input `n` has not been handled before. */
  lemma ListedOnce(s0: Objects, namespace: string, typ: ResourceType, listing: seq<Object>, n: nat)
    requires IsListing(s0, namespace, typ, listing) && n < |listing|
    ensures Lookup(s0, listing[n].Key()) == Some(listing[n]) && !Listed(listing[..n], listing[n].Key())
  {
  }

  lemma StoreStep(c: Config, s0: Objects, listing: seq<Object>, n: nat, s: Objects, op: Op)
    requires IsListing(s0, c.scope.namespace, c.scope.typ, listing) && n < |listing| && WellKeyed(s)
    requires StoreHandled(c, s0, listing, n, s)
    requires op == match listing[n].metadata.phase
                   case Running => AddFinalizer(listing[n].Key(), c.finalizer)
                   case TearingDown => RemoveFinalizer(listing[n].Key(), c.finalizer)
    ensures Perform(s, op).result.Ok? && StoreHandled(c, s0, listing, n + 1, Perform(s, op).objects)
  {
    hide IsListing, Listed;
    ListedOnce(s0, c.scope.namespace, c.scope.typ, listing, n);
    ListedSnoc(listing, n);
    assert Lookup(s, listing[n].Key()) == Some(listing[n]);
  }

  lemma EffectsStep(s0: System, namespace: string, typ: ResourceType, listing: seq<Object>, n: nat, s: System, s': System)
    requires IsListing(s0.objects, namespace, typ, listing) && n < |listing| && EffectsHandled(s0, listing, n, s.applied, s.effects)
    requires var x := listing[n];
      if x.metadata.phase == Running then s'.applied == s.applied + {x.Key()} && s'.effects == s.effects + {(x.Key(), x.spec)}
      else s'.applied == s.applied - {x.Key()} && s'.effects == s.effects - {(x.Key(), x.spec)}
    ensures EffectsHandled(s0, listing, n + 1, s'.applied, s'.effects)
  {
    hide IsListing, Listed;
    ListedOnce(s0.objects, namespace, typ, listing, n);
    ListedSnoc(listing, n);
  }

  lemma SuffixHead(listing: seq<Object>, todo: seq<Object>)
    requires 0 < |todo| <= |listing| && todo == listing[|listing| - |todo|..]
    ensures listing[|listing| - |todo|] == todo[0] && [todo[0]] + todo[1..] == todo
  {
  }

  lemma SuffixTail(listing: seq<Object>, obj: Object, todo: seq<Object>)
    requires |todo| < |listing| && [obj] + todo == listing[|listing| - |todo| - 1..]
    ensures listing[|listing| - |todo| - 1] == obj && todo == listing[|listing| - |todo|..]
  {
    var rest := listing[|listing| - |todo| - 1..];
    assert rest[0] == obj && rest[1..] == todo;
  }

  /** The first of the two steps that handle an input. */
  lemma TakeInput(c: Config, s0: System, listing: seq<Object>, s: System, step: Step)
    requires IsListing(s0.objects, c.scope.namespace, c.scope.typ, listing) && ConsumerStage(c, s0, listing, s)
    requires (step.ConsumerFinalize? || step == ConsumerRevert(true, true)) && Enabled(c, s, step)
    ensures ConsumerStage(c, s0, listing, Next(c, s, step)) && !Next(c, s, step).consumer.ConsumerIdle?
  {
    hide IsListing, Perform, WellKeyed, StoreHandled, EffectsHandled, OwnerPc';
    WellKeyedAfterStep(c, s, step);
    var n := |listing| - |s.consumer.todo|;
    SuffixHead(listing, s.consumer.todo);
    if step.ConsumerFinalize? {
      StoreStep(c, s0.objects, listing, n, s.objects, AddFinalizer(listing[n].Key(), c.finalizer));
    } else {
      EffectsStep(s0, c.scope.namespace, c.scope.typ, listing, n, s, Next(c, s, step));
    }
    assert OwnerPc'(c, s, step) == s.owner by { OwnerRests(c, s, step); }
  }

  lemma OwnerRests(c: Config, s: System, step: Step)
    requires ConsumerMove(step) && Enabled(c, s, step)
    ensures OwnerPc'(c, s, step) == s.owner
  {
  }

  /** The second of the two steps that handle an input. */
  lemma LeaveInput(c: Config, s0: System, listing: seq<Object>, s: System, step: Step)
    requires IsListing(s0.objects, c.scope.namespace, c.scope.typ, listing) && ConsumerStage(c, s0, listing, s)
    requires (step.ConsumerRelease? || step == ConsumerApply(true, true)) && Enabled(c, s, step)
    ensures ConsumerStage(c, s0, listing, Next(c, s, step)) && Next(c, s, step).consumer == Handling(s.consumer.todo)
  {
    hide IsListing, Perform, WellKeyed, StoreHandled, EffectsHandled, OwnerPc';
    WellKeyedAfterStep(c, s, step);
    var n := |listing| - |s.consumer.todo| - 1;
    SuffixTail(listing, s.consumer.obj, s.consumer.todo);
    if step.ConsumerRelease? {
      StoreStep(c, s0.objects, listing, n, s.objects, RemoveFinalizer(listing[n].Key(), c.finalizer));
    } else {
      EffectsStep(s0, c.scope.namespace, c.scope.typ, listing, n, s, Next(c, s, step));
    }
    assert OwnerPc'(c, s, step) == s.owner by { OwnerRests(c, s, step); }
  }

  lemma ConsumerStep(c: Config, s0: System, listing: seq<Object>, s: System, step: Step)
    requires IsListing(s0.objects, c.scope.namespace, c.scope.typ, listing) && ConsumerStage(c, s0, listing, s)
    requires ConsumerMove(step) && Enabled(c, s, step)
    ensures ConsumerStage(c, s0, listing, Next(c, s, step))
  {
    hide IsListing, WellKeyed, StoreHandled, EffectsHandled;
    match step
    case ConsumerFinalize => TakeInput(c, s0, listing, s, step);
    case ConsumerRevert(_, _) => TakeInput(c, s0, listing, s, step);
    case ConsumerApply(_, _) => LeaveInput(c, s0, listing, s, step);
    case ConsumerRelease => LeaveInput(c, s0, listing, s, step);
    case ConsumerFinish =>
  }

  ghost predicate ConsumerAlone(steps: seq<Step>) {
    forall i | 0 <= i < |steps| :: ConsumerMove(steps[i])
  }

  lemma {:induction false} ConsumerRun(c: Config, s0: System, listing: seq<Object>, s: System, steps: seq<Step>)
    requires IsListing(s0.objects, c.scope.namespace, c.scope.typ, listing) && ConsumerStage(c, s0, listing, s)
    requires ConsumerAlone(steps) && IsRun(c, s, steps)
    ensures ConsumerStage(c, s0, listing, After(c, s, steps))
    decreases |steps|
  {
    hide IsListing, ConsumerStage, Enabled, Next, ConsumerMove;
    if steps != [] {
      assert ConsumerMove(steps[0]);
      ConsumerStep(c, s0, listing, s, steps[0]);
      ConsumerRun(c, s0, listing, Next(c, s, steps[0]), steps[1..]);
    }
  }

  lemma ConsumerStartStage(c: Config, s: System, listing: seq<Object>)
    requires WellKeyed(s.objects) && Enabled(c, s, ConsumerStart(listing))
    ensures ConsumerStage(c, s, listing, Next(c, s, ConsumerStart(listing)))
  {
    assert listing[0..] == listing && listing[..0] == [];
  }

  /**
   A consumer pass of the machine that no one interrupts and whose effects succeed: each stored
   input in scope is held and applied if Running, released and not applied if TearingDown, and
   left as the controllers' own passes leave it; nothing else changes.
   */
  lemma LonePassConsumes(c: Config, s: System, listing: seq<Object>, steps: seq<Step>, k: Key)
    requires WellKeyed(s.objects) && ConsumerAlone(steps) && IsRun(c, s, [ConsumerStart(listing)] + steps)
    requires After(c, s, [ConsumerStart(listing)] + steps).consumer.ConsumerIdle?
    ensures var s' := After(c, s, [ConsumerStart(listing)] + steps);
      if k in s.objects && InScope(c.scope, k) then
        var x := s.objects[k];
        && Lookup(s'.objects, k) == Some(InputAfter(x, c.finalizer))
        && (x.metadata.phase == Running ==> Held(c, s'.objects, k) && k in s'.applied && (k, x.spec) in s'.effects)
        && (x.metadata.phase == TearingDown ==>
              k in s'.objects && !Held(c, s'.objects, k) && k !in s'.applied && (k, x.spec) !in s'.effects)
      else Lookup(s'.objects, k) == Lookup(s.objects, k) && (k in s'.applied <==> k in s.applied)
  {
    hide Next, ConsumerMove;
    var all := [ConsumerStart(listing)] + steps;
    assert all[0] == ConsumerStart(listing) && all[1..] == steps;
    ConsumerStartStage(c, s, listing);
    ConsumerRun(c, s, listing, Next(c, s, ConsumerStart(listing)), steps);
    assert listing[..|listing|] == listing;
    if k in s.objects && InScope(c.scope, k) {
      assert s.objects[k] in listing;
      assert Listed(listing, k);
    } else {
      assert k in s.objects ==> !Listed(listing, k);
    }
  }

  /** Steps of the consumer alone from `s` to idle. */
  ghost predicate Finishes(c: Config, s: System, steps: seq<Step>) {
    ConsumerAlone(steps) && IsRun(c, s, steps) && After(c, s, steps).consumer.ConsumerIdle?
  }

  lemma {:induction false} FinishesCons(c: Config, s: System, step: Step, steps: seq<Step>)
    requires ConsumerMove(step) && Enabled(c, s, step) && Finishes(c, Next(c, s, step), steps)
    ensures Finishes(c, s, [step] + steps)
  {
    hide Enabled, Next, ConsumerMove;
    var all := [step] + steps;
    assert all[0] == step && all[1..] == steps;
    forall i | 0 <= i < |all| ensures ConsumerMove(all[i]) {
      if i > 0 { assert all[i] == steps[i-1]; }
    }
  }

  /** The two steps that handle an input: finalizer then apply, or revert then release. */
  lemma HandlingEnds(c: Config, s0: System, listing: seq<Object>, s: System) returns (first: Step, second: Step)
    requires IsListing(s0.objects, c.scope.namespace, c.scope.typ, listing) && ConsumerStage(c, s0, listing, s)
    requires s.consumer.Handling? && s.consumer.todo != []
    ensures ConsumerMove(first) && ConsumerMove(second) && Enabled(c, s, first) && Enabled(c, Next(c, s, first), second)
    ensures Next(c, Next(c, s, first), second).consumer == Handling(s.consumer.todo[1..])
  {
    hide IsListing, Perform, StoreHandled, EffectsHandled, ConsumerStage, OwnerPc', Objects';
    if s.consumer.todo[0].metadata.phase == Running {
      first, second := ConsumerFinalize, ConsumerApply(true, true);
    } else {
      first, second := ConsumerRevert(true, true), ConsumerRelease;
    }
    TakeInput(c, s0, listing, s, first);
    LeaveInput(c, s0, listing, Next(c, s, first), second);
  }

  lemma {:induction false} FinishConsuming(c: Config, s0: System, listing: seq<Object>, s: System) returns (steps: seq<Step>)
    requires IsListing(s0.objects, c.scope.namespace, c.scope.typ, listing) && ConsumerStage(c, s0, listing, s)
    requires s.consumer.Handling?
    ensures Finishes(c, s, steps)
    decreases |s.consumer.todo|
  {
    hide IsListing, ConsumerStage, ConsumerMove, ResultOf;
    if s.consumer.todo == [] {
      assert Finishes(c, Next(c, s, ConsumerFinish), []);
      assert ConsumerMove(ConsumerFinish) by { LastMove(); }
      steps := [ConsumerFinish] + [];
      FinishesCons(c, s, ConsumerFinish, []);
    } else {
      hide Finishes, Enabled, Next;
      var first, second := HandlingEnds(c, s0, listing, s);
      var s1 := Next(c, s, first);
      ConsumerStep(c, s0, listing, s, first);
      ConsumerStep(c, s0, listing, s1, second);
      steps := FinishConsuming(c, s0, listing, Next(c, s1, second));
      FinishesCons(c, s1, second, steps);
      FinishesCons(c, s, first, [second] + steps);
      steps := [first] + ([second] + steps);
    }
  }

  lemma LastMove()
    ensures ConsumerMove(ConsumerFinish)
  {
  }

  /** Whatever is stored, a consumer pass that may start can be run to its end if its effects succeed. */
  lemma LoneConsumerCompletes(c: Config, s: System, listing: seq<Object>) returns (steps: seq<Step>)
    requires WellKeyed(s.objects) && Enabled(c, s, ConsumerStart(listing))
    ensures ConsumerAlone(steps) && IsRun(c, s, [ConsumerStart(listing)] + steps)
    ensures After(c, s, [ConsumerStart(listing)] + steps).consumer.ConsumerIdle?
  {
    ConsumerStartStage(c, s, listing);
    steps := FinishConsuming(c, s, listing, Next(c, s, ConsumerStart(listing)));
    var all := [ConsumerStart(listing)] + steps;
    assert all[0] == ConsumerStart(listing) && all[1..] == steps;
  }

  // --------------------------------------------------------------------- the others

  function OtherWrites(ops: seq<Op>): seq<Step> {
    seq(|ops|, i requires 0 <= i < |ops| => OtherWriter(ops[i]))
  }

  /** At any point others may make any calls that are allowed them, and those do what the store says. */
  lemma {:induction false} OthersInterfere(c: Config, s: System, ops: seq<Op>)
    requires forall op | op in ops :: AllowedOp(c, op)
    ensures IsRun(c, s, OtherWrites(ops)) && After(c, s, OtherWrites(ops)) == s.(objects := Exec(s.objects, ops))
    decreases |ops|
  {
    hide Perform, AllowedOp;
    var steps := OtherWrites(ops);
    if ops == [] {
      assert steps == [];
    } else {
      var front := ops[..|ops|-1];
      OthersInterfere(c, s, front);
      var last := ops[|ops|-1];
      assert last in ops;
      assert steps == OtherWrites(front) + [OtherWriter(last)];
      RunSnoc(c, s, OtherWrites(front), OtherWriter(last));
    }
  }

  /** The step's store call or effect fails, or what it reads is gone. */
  predicate Fails(c: Config, s: System, step: Step) {
    || ResultOf(c, s, step).Err? || (step.OwnerReread? && s.owner.Rereading? && s.owner.key !in s.objects)
    || (step.ConsumerApply? && !step.ok) || (step.ConsumerRevert? && !step.ok)
  }

  /** A failure changes no stored object and ends its actor's pass, and only that; an effect that did not happen leaves no trace. */
  lemma FailureEndsPass(c: Config, s: System, step: Step)
    requires Enabled(c, s, step) && Fails(c, s, step)
    ensures Next(c, s, step).objects == s.objects
    ensures !(step.ConsumerApply? && step.happened) && !(step.ConsumerRevert? && step.happened) ==>
      Next(c, s, step).applied == s.applied && Next(c, s, step).effects == s.effects
    ensures Next(c, s, step).owner == if OwnerMove(step) then OwnerIdle else s.owner
    ensures Next(c, s, step).consumer == if OwnerMove(step) || step.OtherWriter? then s.consumer else ConsumerIdle
  {
    hide Perform;
    if CallOf(c, s, step).Some? {
      PerformResult(s.objects, CallOf(c, s, step).value);
    }
  }
}
