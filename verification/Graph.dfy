/** Finite directed graphs as sets of edges: paths, reachability and cycles. */
module Graph {

  type Edges<T(==)> = set<(T, T)>

  ghost predicate IsPath<T>(g: Edges<T>, p: seq<T>) {
    |p| > 0 && forall i, j | 0 <= i && i + 1 == j < |p| :: (p[i], p[j]) in g
  }

  ghost predicate PathFrom<T>(g: Edges<T>, p: seq<T>, x: T, y: T) {
    IsPath(g, p) && p[0] == x && p[|p|-1] == y
  }

  /** `y` can be reached from `x` in zero or more steps. */
  ghost predicate Reach<T(!new)>(g: Edges<T>, x: T, y: T) {
    exists p :: PathFrom(g, p, x, y)
  }

  ghost predicate Acyclic<T(!new)>(g: Edges<T>) {
    !exists p :: IsPath(g, p) && |p| > 1 && p[0] == p[|p|-1]
  }

  lemma PathNonempty<T>(g: Edges<T>, p: seq<T>)
    requires IsPath(g, p)
    ensures |p| > 0
  {
  }

  lemma PathSnoc<T>(g: Edges<T>, p: seq<T>, y: T)
    requires IsPath(g, p) && (p[|p|-1], y) in g
    ensures IsPath(g, p + [y])
  {
  }

  lemma ReachSelf<T(!new)>(g: Edges<T>, x: T)
    ensures Reach(g, x, x)
  {
    assert PathFrom(g, [x], x, x);
  }

  lemma ReachStep<T(!new)>(g: Edges<T>, x: T, y: T, z: T)
    requires Reach(g, x, y) && (y, z) in g
    ensures Reach(g, x, z)
  {
    var p :| PathFrom(g, p, x, y);
    PathSnoc(g, p, z);
    assert PathFrom(g, p + [z], x, z);
  }

  lemma StepReach<T(!new)>(g: Edges<T>, x: T, y: T, z: T)
    requires (x, y) in g && Reach(g, y, z)
    ensures Reach(g, x, z)
  {
    var p :| PathFrom(g, p, y, z);
    assert PathFrom(g, [x] + p, x, z);
  }

  lemma StepAndBackIsCycle<T(!new)>(g: Edges<T>, x: T, y: T)
    requires (x, y) in g && Reach(g, y, x)
    ensures !Acyclic(g)
  {
    var p :| PathFrom(g, p, y, x);
    var c := [x] + p;
    assert IsPath(g, c);
  }

  /** A set that contains `x` and is closed under the edges contains all that `x` reaches. */
  lemma {:induction false} ClosedUnderPath<T>(g: Edges<T>, s: set<T>, p: seq<T>)
    requires IsPath(g, p) && p[0] in s
    requires forall e | e in g && e.0 in s :: e.1 in s
    ensures p[|p|-1] in s
    decreases |p|
  {
    if |p| > 1 {
      assert (p[0], p[1]) in g;
      ClosedUnderPath(g, s, p[1..]);
    }
  }

  ghost predicate StepsInto<T>(g: Edges<T>, r: set<T>, x: T) {
    exists y :: y in r && (x, y) in g
  }

  /** If every vertex of a non-empty set has a successor in the set, there is a cycle. */
  lemma NoSinkMeansCycle<T(!new)>(g: Edges<T>, r: set<T>)
    requires r != {} && forall x | x in r :: StepsInto(g, r, x)
    ensures !Acyclic(g)
  {
    var x :| x in r;
    WalkOn(g, r, r, [x]);
  }

  /** Keep walking inside `r` until a vertex repeats; `rest` is what the walk has not met yet. */
  lemma {:induction false} WalkOn<T(!new)>(g: Edges<T>, r: set<T>, rest: set<T>, p: seq<T>)
    requires IsPath(g, p) && p[|p|-1] in r && (forall x | x in r :: x in p || x in rest)
    requires forall x | x in r :: StepsInto(g, r, x)
    ensures !Acyclic(g)
    decreases rest
  {
    hide IsPath, Acyclic;
    PathNonempty(g, p);
    assert StepsInto(g, r, p[|p|-1]);
    var y :| y in r && (p[|p|-1], y) in g;
    PathSnoc(g, p, y);
    if y in p {
      var i :| 0 <= i < |p| && p[i] == y;
      Suffix(g, p + [y], i);
    } else {
      WalkOn(g, r, rest - {y}, p + [y]);
    }
  }

  lemma Suffix<T(!new)>(g: Edges<T>, p: seq<T>, i: nat)
    requires IsPath(g, p) && i < |p| - 1 && p[i] == p[|p|-1]
    ensures !Acyclic(g)
  {
    var c := p[i..];
    assert IsPath(g, c) && |c| > 1 && c[0] == c[|c|-1];
  }

  /** Position of each vertex in a sequence that lists every successor first rules out cycles. */
  ghost predicate SuccessorsFirst<T>(g: Edges<T>, order: seq<T>) {
    forall e | e in g :: exists i, j :: 0 <= i < j < |order| && order[j] == e.0 && order[i] == e.1
  }

  ghost predicate NoDuplicates<T>(s: seq<T>) {
    forall i, j | 0 <= i < j < |s| :: s[i] != s[j]
  }

  lemma {:induction false} PathGoesEarlier<T>(g: Edges<T>, order: seq<T>, p: seq<T>, a: nat, b: nat)
    requires SuccessorsFirst(g, order) && NoDuplicates(order) && IsPath(g, p) && |p| > 1
    requires a < |order| && b < |order| && order[a] == p[0] && order[b] == p[|p|-1]
    ensures b < a
    decreases |p|
  {
    assert (p[0], p[1]) in g;
    var i, j :| 0 <= i < j < |order| && order[j] == p[0] && order[i] == p[1];
    if |p| > 2 {
      PathGoesEarlier(g, order, p[1..], i, b);
    }
  }

  lemma SuccessorsFirstIsAcyclic<T(!new)>(g: Edges<T>, order: seq<T>)
    requires SuccessorsFirst(g, order) && NoDuplicates(order)
    ensures Acyclic(g)
  {
    if p :| IsPath(g, p) && |p| > 1 && p[0] == p[|p|-1] {
      assert (p[0], p[1]) in g;
      var i, j :| 0 <= i < j < |order| && order[j] == p[0] && order[i] == p[1];
      PathGoesEarlier(g, order, p, j, j);
    }
  }
}
