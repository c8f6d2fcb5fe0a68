/**
 The owner-side pass: upsert every desired resource, then tear down and destroy the
 owned ones that are no longer desired.
 */
module Owned {
  import opened Resources
  import opened Store

  /** The resources one owner manages: one namespace and type. */
  datatype Scope = Scope(owner: string, namespace: string, typ: ResourceType)

  predicate InScope(scope: Scope, k: Key) {
    k.namespace == scope.namespace && k.typ == scope.typ
  }

  /** The caller's side of the contract: one namespace and type, ids unique. */
  ghost predicate DesiredFor(scope: Scope, desired: seq<Object>) {
    && (forall i | 0 <= i < |desired| :: InScope(scope, desired[i].Key()))
    && (forall i, j | 0 <= i < j < |desired| :: desired[i].Key() != desired[j].Key())
  }

  /** The desired object named `k`, if any. */
  function Wanted(desired: seq<Object>, k: Key): (w: Option<Object>)
    ensures w.Some? ==> w.value in desired && w.value.Key() == k
    ensures w.None? ==> forall o | o in desired :: o.Key() != k
  {
    if desired == [] then None
    else if desired[|desired|-1].Key() == k then Some(desired[|desired|-1])
    else Wanted(desired[..|desired|-1], k)
  }

  lemma WantedIsUnique(scope: Scope, desired: seq<Object>, i: nat)
    requires DesiredFor(scope, desired) && i < |desired|
    ensures Wanted(desired, desired[i].Key()) == Some(desired[i])
    ensures Wanted(desired[..i], desired[i].Key()) == None
  {
  }

  /** What the upsert leaves under a key. */
  function UpsertAt(owner: string, before: Option<Object>, want: Option<Object>): Option<Object> {
    match (want, before)
    case (None, _) => before
    case (Some(w), None) =>
      Some(w.(metadata := w.metadata.(owner := Some(owner), version := 1, phase := Running)))
    case (Some(w), Some(x)) =>
      if x.spec == w.spec then before
      else Some(x.(spec := w.spec, metadata := x.metadata.(version := x.metadata.version + 1)))
  }

  /** Is the object under `k` one this owner should garbage-collect? */
  predicate Unwanted(scope: Scope, k: Key, before: Option<Object>, wanted: bool) {
    InScope(scope, k) && !wanted && before.Some? && before.value.metadata.owner == Some(scope.owner)
  }

  function TornDown(x: Object): Object {
    if x.metadata.phase == TearingDown then x
    else x.(metadata := x.metadata.(phase := TearingDown, version := x.metadata.version + 1))
  }

  /** What garbage collection leaves under a key. */
  function CollectAt(scope: Scope, k: Key, before: Option<Object>, wanted: bool): Option<Object> {
    if !Unwanted(scope, k, before, wanted) then before
    else if before.value.metadata.finalizers == [] then None
    else Some(TornDown(before.value))
  }

  /** What a whole pass leaves under a key. */
  function SettleAt(scope: Scope, desired: seq<Object>, k: Key, before: Option<Object>): Option<Object> {
    var want := Wanted(desired, k);
    CollectAt(scope, k, UpsertAt(scope.owner, before, want), want.Some?)
  }

  ghost predicate Settled(scope: Scope, desired: seq<Object>, s: Objects, s': Objects) {
    forall k :: Lookup(s', k) == SettleAt(scope, desired, k, Lookup(s, k))
  }

  /** `s'` differs from `s` at most under `k`. */
  ghost predicate SameBut(s: Objects, s': Objects, k: Key) {
    forall x | x != k :: Lookup(s', x) == Lookup(s, x)
  }

  method UpsertOne(state: State, owner: string, obj: Object) returns (r: Result<bool>)
    requires state.Valid()
    modifies state
    ensures state.Valid() && r.Ok? && SameBut(old(state.objects), state.objects, obj.Key())
    ensures Lookup(state.objects, obj.Key()) == UpsertAt(owner, Lookup(old(state.objects), obj.Key()), Some(obj))
    ensures Lookup(state.objects, obj.Key()) == Lookup(old(state.objects), obj.Key()) ==> state.sent == old(state.sent)
  {
    r := Ok(true);
    var key := obj.Key();
    var got := state.Get(key);
    if got.Ok? {
      if got.value.spec != obj.spec {
        r := state.Update(key, got.value.metadata.version, obj.spec);
      }
    } else {
      r := state.Create(obj.(metadata := obj.metadata.(owner := Some(owner))));
    }
  }

  method CollectOne(state: State, scope: Scope, existing: Object, wanted: bool) returns (r: Result<bool>)
    requires state.Valid() && Lookup(state.objects, existing.Key()) == Some(existing)
    requires InScope(scope, existing.Key())
    modifies state
    ensures state.Valid() && r.Ok? && SameBut(old(state.objects), state.objects, existing.Key())
    ensures Lookup(state.objects, existing.Key()) == CollectAt(scope, existing.Key(), Some(existing), wanted)
    ensures Lookup(state.objects, existing.Key()) == Some(existing) ==> state.sent == old(state.sent)
  {
    r := Ok(true);
    if existing.metadata.owner == Some(scope.owner) && !wanted {
      var key := existing.Key();
      r := state.Teardown(key);
      if r.Ok? && r.value {
        var cur := state.Get(key);
        if cur.Ok? {
          r := state.Destroy(key, cur.value.metadata.version);
        }
      }
    }
  }

  ghost predicate Upserted(scope: Scope, desired: seq<Object>, s0: Objects, s: Objects) {
    forall k :: Lookup(s, k) == UpsertAt(scope.owner, Lookup(s0, k), Wanted(desired, k))
  }

  /** Handling each key at most once, a loop cannot come back to its starting map. */
  lemma NoWayBack(s0: Objects, s: Objects, s': Objects, k: Key)
    requires SameBut(s, s', k) && Lookup(s, k) == Lookup(s0, k)
    ensures s' == s0 ==> s == s0 && Lookup(s', k) == Lookup(s, k)
  {
    if s' == s0 {
      forall x ensures Lookup(s, x) == Lookup(s0, x) {
        if x != k { assert Lookup(s', x) == Lookup(s, x); }
      }
      SameLookups(s, s0);
    }
  }

  lemma UpsertedStep(scope: Scope, desired: seq<Object>, i: nat, s0: Objects, s: Objects, s': Objects)
    requires DesiredFor(scope, desired) && i < |desired|
    requires Upserted(scope, desired[..i], s0, s) && SameBut(s, s', desired[i].Key())
    requires Lookup(s', desired[i].Key()) == UpsertAt(scope.owner, Lookup(s, desired[i].Key()), Some(desired[i]))
    ensures Upserted(scope, desired[..i+1], s0, s')
    ensures Lookup(s, desired[i].Key()) == Lookup(s0, desired[i].Key())
  {
  }

  /**
   One pass with no one else writing. It always succeeds, and a pass that changes
   nothing emits nothing.
   */
  method ReconcileOwned(state: State, scope: Scope, desired: seq<Object>) returns (r: Result<bool>)
    requires state.Valid() && DesiredFor(scope, desired)
    modifies state
    ensures state.Valid() && r.Ok?
    ensures Settled(scope, desired, old(state.objects), state.objects)
    ensures state.objects == old(state.objects) ==> state.sent == old(state.sent)
  {
    ghost var s0 := state.objects;
    var ids := set o | o in desired :: o.metadata.id;
    r := Ok(true);
    var i := 0;
    while i < |desired| && r.Ok?
      invariant 0 <= i <= |desired| && r.Ok? && state.Valid()
      invariant Upserted(scope, desired[..i], s0, state.objects)
      invariant state.objects == s0 ==> state.sent == old(state.sent)
    {
      ghost var s := state.objects;
      r := UpsertOne(state, scope.owner, desired[i]);
      UpsertedStep(scope, desired, i, s0, s, state.objects);
      NoWayBack(s0, s, state.objects, desired[i].Key());
      i := i + 1;
    }
    if r.Ok? {
      assert desired[..i] == desired;
      r := Collect(state, scope, desired, ids, s0);
    }
  }

  /** The second half of a pass: garbage-collect what is owned and not desired. */
  method Collect(state: State, scope: Scope, desired: seq<Object>, ids: set<string>, ghost s0: Objects)
    returns (r: Result<bool>)
    requires state.Valid() && DesiredFor(scope, desired)
    requires ids == set o | o in desired :: o.metadata.id
    requires Upserted(scope, desired, s0, state.objects)
    modifies state
    ensures state.Valid() && r.Ok?
    ensures Settled(scope, desired, s0, state.objects)
    ensures state.objects == s0 ==> old(state.objects) == s0 && state.sent == old(state.sent)
  {
    hide CollectAt, UpsertAt, Settled, Upserted, Wanted;
    ghost var mid := state.objects;
    ghost var done: set<Key> := {};
    var listing := state.List(scope.namespace, scope.typ);
    r := Ok(true);
    var j := 0;
    while j < |listing| && r.Ok?
      invariant 0 <= j <= |listing| && r.Ok? && state.Valid()
      invariant forall i | 0 <= i < j :: listing[i].Key() in done
      invariant forall i | j <= i < |listing| :: listing[i].Key() !in done
      invariant forall k :: Lookup(state.objects, k) ==
                            if k in done then CollectAt(scope, k, Lookup(mid, k), Wanted(desired, k).Some?) else Lookup(mid, k)
      invariant state.objects == mid ==> state.sent == old(state.sent)
    {
      ghost var key, s := listing[j].Key(), state.objects;
      IdsName(scope, desired, key);
      r := CollectOne(state, scope, listing[j], listing[j].metadata.id in ids);
      NoWayBack(mid, s, state.objects, key);
      done := done + {key};
      j := j + 1;
    }
    AllCollected(scope, desired, s0, mid, state.objects, listing, done);
    Unreverted(scope, desired, s0, mid, state.objects);
  }

  /** Every key was collected or needed no collecting. */
  lemma AllCollected(scope: Scope, desired: seq<Object>, s0: Objects, mid: Objects, s: Objects, listing: seq<Object>, done: set<Key>)
    requires Upserted(scope, desired, s0, mid) && WellKeyed(mid) && IsListing(mid, scope.namespace, scope.typ, listing)
    requires forall i | 0 <= i < |listing| :: listing[i].Key() in done
    requires forall k :: Lookup(s, k) ==
                         if k in done then CollectAt(scope, k, Lookup(mid, k), Wanted(desired, k).Some?) else Lookup(mid, k)
    ensures Settled(scope, desired, s0, s)
  {
    hide UpsertAt, Wanted, TornDown;
    forall k ensures Lookup(s, k) == SettleAt(scope, desired, k, Lookup(s0, k)) {
      assert Lookup(mid, k) == UpsertAt(scope.owner, Lookup(s0, k), Wanted(desired, k));
      if k in mid && InScope(scope, k) { assert mid[k] in listing; }
    }
  }

  /** Collection only touches keys the upsert left alone, so it cannot undo an upsert. */
  lemma Unreverted(scope: Scope, desired: seq<Object>, s0: Objects, mid: Objects, s: Objects)
    requires Upserted(scope, desired, s0, mid)
    requires forall k :: Lookup(s, k) == Lookup(mid, k) || Lookup(s, k) == CollectAt(scope, k, Lookup(mid, k), Wanted(desired, k).Some?)
    ensures s == s0 ==> mid == s0
  {
    if s == s0 {
      forall k ensures Lookup(mid, k) == Lookup(s0, k) {
        assert Lookup(s, k) == Lookup(mid, k) || Lookup(s, k) == CollectAt(scope, k, Lookup(mid, k), Wanted(desired, k).Some?);
      }
      SameLookups(mid, s0);
    }
  }

  lemma IdsName(scope: Scope, desired: seq<Object>, k: Key)
    requires DesiredFor(scope, desired) && InScope(scope, k)
    ensures k.id in (set o | o in desired :: o.metadata.id) <==> Wanted(desired, k).Some?
  {
  }

  /** What a consumer that holds its inputs under `finalizer` leaves of one: held while Running, released once TearingDown. */
  function InputAfter(x: Object, finalizer: string): Object {
    var m := x.metadata;
    match m.phase
    case Running =>
      if finalizer in m.finalizers then x
      else x.(metadata := m.(finalizers := m.finalizers + [finalizer], version := m.version + 1))
    case TearingDown =>
      if finalizer !in m.finalizers then x
      else x.(metadata := m.(finalizers := Without(m.finalizers, finalizer), version := m.version + 1))
  }

  /** What the owner is promised about each key after a pass, in the store's own terms. */
  lemma PassOutcome(scope: Scope, desired: seq<Object>, s: Objects, s': Objects, k: Key)
    requires DesiredFor(scope, desired) && Settled(scope, desired, s, s')
    ensures Wanted(desired, k).Some? ==> k in s' && s'[k].spec == Wanted(desired, k).value.spec
    ensures Wanted(desired, k).Some? && k in s ==>
      s'[k].metadata.(version := 0) == s[k].metadata.(version := 0)
    ensures Wanted(desired, k).Some? && k !in s ==>
      s'[k].metadata.owner == Some(scope.owner) && s'[k].metadata.phase == Running && s'[k].metadata.version == 1
    ensures Unwanted(scope, k, Lookup(s, k), Wanted(desired, k).Some?) ==>
      (k in s' <==> s[k].metadata.finalizers != []) && (k in s' ==> s'[k].metadata.phase == TearingDown)
    ensures Wanted(desired, k).None? && !Unwanted(scope, k, Lookup(s, k), false) ==> Lookup(s', k) == Lookup(s, k)
  {
    assert Lookup(s', k) == SettleAt(scope, desired, k, Lookup(s, k));
  }

  /** A second identical pass finds nothing to do. */
  lemma PassIsIdempotent(scope: Scope, desired: seq<Object>, s: Objects, s1: Objects, s2: Objects)
    requires DesiredFor(scope, desired)
    requires Settled(scope, desired, s, s1) && Settled(scope, desired, s1, s2)
    ensures s2 == s1
  {
    forall k
      ensures Lookup(s2, k) == Lookup(s1, k)
    {
      assert Lookup(s1, k) == SettleAt(scope, desired, k, Lookup(s, k));
      assert Lookup(s2, k) == SettleAt(scope, desired, k, Lookup(s1, k));
    }
    SameLookups(s2, s1);
  }
}
