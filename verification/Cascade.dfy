/**
 The teardown cascade: owner pass, consumer pass, owner pass. What it leaves in the store
 and in the kernel, when it converges, and when it cannot.
 */
module Cascade {
  import opened Resources
  import opened Store
  import opened Owned
  import opened Address

  const SCOPE := Scope("network-config", NS, AddressSpecType)

  function PairOf(x: Object): Pair
    requires x.spec.AddressSpec?
  {
    (x.spec.link, x.spec.address)
  }

  /** All address specs belong to the one owner, and only the address controller finalizes them. */
  ghost predicate Managed(s: Objects) {
    && WellKeyed(s)
    && (forall k | k in s && InScope(SCOPE, k) ::
          && s[k].spec.AddressSpec? && s[k].metadata.owner == Some(SCOPE.owner)
          && (s[k].metadata.finalizers == [] || s[k].metadata.finalizers == [FINALIZER]))
  }

  /** Freshly built address specs. */
  ghost predicate Desirable(desired: seq<Object>) {
    DesiredFor(SCOPE, desired) && forall o | o in desired :: o.spec.AddressSpec? && o.metadata.finalizers == []
  }

  predicate Dying(s: Objects, k: Key) {
    k in s && s[k].metadata.phase == TearingDown
  }

  /** The three passes, with every store call and effect succeeding. */
  ghost predicate Passes(desired: seq<Object>, s0: Objects, s1: Objects, s2: Objects, s3: Objects) {
    && Managed(s0) && Desirable(desired)
    && Settled(SCOPE, desired, s0, s1) && Consumed(s1, s2) && Settled(SCOPE, desired, s2, s3)
  }

  /**
   The store after the cascade: exactly the desired specs are left. A desired spec ends up
   running under the finalizer if and only if it was not being torn down at the start.
   */
  lemma StoreAfterCascade(desired: seq<Object>, s0: Objects, s1: Objects, s2: Objects, s3: Objects, k: Key)
    requires Passes(desired, s0, s1, s2, s3) && InScope(SCOPE, k)
    ensures k in s3 <==> Wanted(desired, k).Some?
    ensures k in s3 ==> s3[k].spec == Wanted(desired, k).value.spec
    ensures k in s3 ==>
      (s3[k].metadata.phase == Running && s3[k].metadata.finalizers == [FINALIZER] <==> !Dying(s0, k))
    ensures k in s3 && Dying(s0, k) ==> s3[k].metadata.phase == TearingDown && s3[k].metadata.finalizers == []
  {
    assert Lookup(s1, k) == SettleAt(SCOPE, desired, k, Lookup(s0, k));
    assert Lookup(s2, k) == ConsumeAt(s1, k);
    assert Lookup(s3, k) == SettleAt(SCOPE, desired, k, Lookup(s2, k));
    assert Without([FINALIZER], FINALIZER) == [];
    assert [] + [FINALIZER] == [FINALIZER];
  }

  /** A status the cascade cannot remove: held by a finalizer, or no finalized spec is left to trigger its removal. */
  predicate Leftover(desired: seq<Object>, s: Objects, id: string) {
    && StatusKey(id) in s
    && (s[StatusKey(id)].metadata.finalizers != []
        || (Wanted(desired, SpecKey(id)).None? && !(SpecKey(id) in s && s[SpecKey(id)].metadata.finalizers != [])))
  }

  /** The statuses after the cascade are those of the desired specs not dying at the start, and the leftovers. */
  lemma StatusAfterCascade(desired: seq<Object>, s0: Objects, s1: Objects, s2: Objects, s3: Objects, id: string)
    requires Passes(desired, s0, s1, s2, s3)
    ensures StatusKey(id) in s3 <==>
      (Wanted(desired, SpecKey(id)).Some? && !Dying(s0, SpecKey(id))) || Leftover(desired, s0, id)
    ensures Wanted(desired, SpecKey(id)).Some? && !Dying(s0, SpecKey(id)) ==>
      var w := Wanted(desired, SpecKey(id)).value;
      s3[StatusKey(id)].spec == AddressStatus(w.spec.link, w.spec.address)
  {
    var k, t := SpecKey(id), StatusKey(id);
    assert Lookup(s1, k) == SettleAt(SCOPE, desired, k, Lookup(s0, k));
    assert Lookup(s1, t) == SettleAt(SCOPE, desired, t, Lookup(s0, t)) == Lookup(s0, t) by {
      assert Wanted(desired, t).None?;
    }
    assert Lookup(s2, t) == ConsumeAt(s1, t);
    assert Lookup(s3, t) == SettleAt(SCOPE, desired, t, Lookup(s2, t)) == Lookup(s2, t);
  }

  /** The stores between passes of the owner and the consumer, any number of each in any order. */
  ghost predicate ArePasses(desired: seq<Object>, ss: seq<Objects>) {
    forall i, j | 0 <= i && j == i + 1 < |ss| :: Consumed(ss[i], ss[j]) || Settled(SCOPE, desired, ss[i], ss[j])
  }

  lemma StuckOnePass(desired: seq<Object>, s: Objects, s': Objects, k: Key)
    requires InScope(SCOPE, k) && Wanted(desired, k).Some? && Dying(s, k)
    requires Consumed(s, s') || Settled(SCOPE, desired, s, s')
    ensures Dying(s', k)
    ensures s[k].metadata.finalizers == [] && s[k].spec == Wanted(desired, k).value.spec ==> s'[k] == s[k]
  {
    if Consumed(s, s') {
      assert Lookup(s', k) == ConsumeAt(s, k);
    } else {
      assert Lookup(s', k) == SettleAt(SCOPE, desired, k, Lookup(s, k));
    }
  }

  /**
   A desired spec caught in TearingDown is never revived, however many passes follow; once its
   finalizer is gone and its spec is as desired, no pass touches it again.
   */
  lemma {:induction false} StuckForever(desired: seq<Object>, ss: seq<Objects>, n: nat, k: Key)
    requires ArePasses(desired, ss) && n < |ss|
    requires InScope(SCOPE, k) && Wanted(desired, k).Some? && Dying(ss[0], k)
    ensures Dying(ss[n], k)
    ensures ss[0][k].metadata.finalizers == [] && ss[0][k].spec == Wanted(desired, k).value.spec ==> ss[n][k] == ss[0][k]
  {
    hide Consumed, Settled;
    if n > 0 {
      StuckForever(desired, ss, n - 1, k);
      StuckOnePass(desired, ss[n-1], ss[n], k);
    }
  }

  // ------------------------------------------------------------------ kernel

  ghost predicate Listed(listing: seq<Object>, phase: Phase, p: Pair) {
    exists x :: x in listing && x.metadata.phase == phase && x.spec.AddressSpec? && PairOf(x) == p
  }

  /** An address that is not both applied and reverted in a pass: order does not matter for it. */
  lemma {:induction false} KernelAt(kernel: set<Pair>, listing: seq<Object>, p: Pair)
    requires !(Listed(listing, Running, p) && Listed(listing, TearingDown, p))
    ensures p in KernelAfter(kernel, listing) <==>
            Listed(listing, Running, p) || (p in kernel && !Listed(listing, TearingDown, p))
  {
    if listing != [] {
      var before, x := listing[..|listing|-1], listing[|listing|-1];
      assert listing == before + [x];
      forall phase
        ensures Listed(listing, phase, p) <==>
                Listed(before, phase, p) || (x.metadata.phase == phase && x.spec.AddressSpec? && PairOf(x) == p)
      {
        ListedSnoc(before, x, phase, p);
      }
      KernelAt(kernel, before, p);
    }
  }

  lemma ListedSnoc(before: seq<Object>, x: Object, phase: Phase, p: Pair)
    ensures Listed(before + [x], phase, p) <==>
            Listed(before, phase, p) || (x.metadata.phase == phase && x.spec.AddressSpec? && PairOf(x) == p)
  {
  }

  /** A pass whose listing ends with the torn-down specs reverts last. */
  lemma {:induction false} RevertedLast(kernel: set<Pair>, a: seq<Object>, b: seq<Object>, p: Pair)
    requires forall x | x in b :: x.metadata.phase == TearingDown
    requires Listed(b, TearingDown, p)
    ensures p !in KernelAfter(kernel, a + b)
  {
    var before, x := b[..|b|-1], b[|b|-1];
    assert b == before + [x];
    assert (a + b)[..|a + b| - 1] == a + before;
    ListedSnoc(before, x, TearingDown, p);
    if Listed(before, TearingDown, p) {
      RevertedLast(kernel, a, before, p);
    }
  }

  /** The addresses of the specs in scope. */
  ghost predicate HasPair(s: Objects, p: Pair) {
    exists k :: k in s && InScope(SCOPE, k) && s[k].spec.AddressSpec? && PairOf(s[k]) == p
  }

  ghost predicate WantsPair(desired: seq<Object>, p: Pair) {
    exists o :: o in desired && o.spec.AddressSpec? && PairOf(o) == p
  }

  /** `k` is applied (or may be) and about to be dropped. */
  predicate Dropped(s: Objects, desired: seq<Object>, k: Key) {
    k in s && InScope(SCOPE, k) && Wanted(desired, k).None? && s[k].metadata.finalizers != []
  }

  /** Exactly the desired addresses, and whatever never belonged to a spec. */
  ghost predicate KernelExact(s0: Objects, desired: seq<Object>, kernel: set<Pair>, kernel': set<Pair>) {
    forall p :: p in kernel' <==> WantsPair(desired, p) || (p in kernel && !HasPair(s0, p))
  }

  /** The store after the first owner pass. */
  ghost predicate Ready(desired: seq<Object>, s0: Objects, s1: Objects) {
    Managed(s0) && Desirable(desired) && Settled(SCOPE, desired, s0, s1)
  }

  /** After the owner pass the running specs are the desired ones that were not dying; the rest are torn down. */
  lemma AfterOwnerPass(desired: seq<Object>, s0: Objects, s1: Objects, k: Key)
    requires Ready(desired, s0, s1) && InScope(SCOPE, k)
    ensures k in s1 <==> Wanted(desired, k).Some? || Dropped(s0, desired, k)
    ensures k in s1 ==> s1[k].spec.AddressSpec? && s1[k].Key() == k
    ensures Wanted(desired, k).Some? ==>
      s1[k].spec == Wanted(desired, k).value.spec && s1[k].metadata.phase == if Dying(s0, k) then TearingDown else Running
    ensures Dropped(s0, desired, k) ==> s1[k].metadata.phase == TearingDown && s1[k].spec == s0[k].spec
  {
    assert Lookup(s1, k) == SettleAt(SCOPE, desired, k, Lookup(s0, k));
  }

  ghost predicate DropsPair(s: Objects, desired: seq<Object>, p: Pair) {
    exists k :: Dropped(s, desired, k) && s[k].spec.AddressSpec? && PairOf(s[k]) == p
  }

  /** What a caller can check before the cascade: no dropped spec has the address of a desired one; */
  ghost predicate NothingShared(s: Objects, desired: seq<Object>) {
    forall p | DropsPair(s, desired, p) :: !WantsPair(desired, p)
  }

  /** no desired spec is being torn down; */
  ghost predicate NothingDying(s: Objects, desired: seq<Object>) {
    forall o | o in desired :: !Dying(s, o.Key())
  }

  /** and every applied address that is no longer desired belongs to a spec that is dropped, not to one that moves. */
  ghost predicate NothingMoved(s: Objects, desired: seq<Object>, kernel: set<Pair>) {
    forall p | p in kernel && HasPair(s, p) && !WantsPair(desired, p) :: DropsPair(s, desired, p)
  }

  ghost predicate Clean(s: Objects, desired: seq<Object>, kernel: set<Pair>) {
    NothingShared(s, desired) && NothingDying(s, desired) && NothingMoved(s, desired, kernel)
  }

  lemma RunningAfterOwnerPass(desired: seq<Object>, s0: Objects, s1: Objects, listing: seq<Object>, p: Pair)
    requires Ready(desired, s0, s1) && IsListing(s1, NS, AddressSpecType, listing)
    ensures Listed(listing, Running, p) ==> WantsPair(desired, p)
    ensures NothingDying(s0, desired) && WantsPair(desired, p) ==> Listed(listing, Running, p)
  {
    if NothingDying(s0, desired) && WantsPair(desired, p) {
      var o :| o in desired && o.spec.AddressSpec? && PairOf(o) == p;
      var i :| 0 <= i < |desired| && desired[i] == o;
      WantedIsUnique(SCOPE, desired, i);
      AfterOwnerPass(desired, s0, s1, o.Key());
      assert s1[o.Key()] in listing;
    }
    if Listed(listing, Running, p) {
      var x :| x in listing && x.metadata.phase == Running && x.spec.AddressSpec? && PairOf(x) == p;
      AfterOwnerPass(desired, s0, s1, x.Key());
      assert Wanted(desired, x.Key()).value in desired;
    }
  }

  lemma DyingAfterOwnerPass(desired: seq<Object>, s0: Objects, s1: Objects, listing: seq<Object>, p: Pair)
    requires Ready(desired, s0, s1) && IsListing(s1, NS, AddressSpecType, listing) && NothingDying(s0, desired)
    ensures Listed(listing, TearingDown, p) <==> DropsPair(s0, desired, p)
  {
    if DropsPair(s0, desired, p) {
      var k :| Dropped(s0, desired, k) && s0[k].spec.AddressSpec? && PairOf(s0[k]) == p;
      AfterOwnerPass(desired, s0, s1, k);
      assert s1[k] in listing;
    }
    if Listed(listing, TearingDown, p) {
      var x :| x in listing && x.metadata.phase == TearingDown && x.spec.AddressSpec? && PairOf(x) == p;
      AfterOwnerPass(desired, s0, s1, x.Key());
      assert Dropped(s0, desired, x.Key());
    }
  }

  /** With nothing dying or shared, the kernel gains the desired addresses and loses the dropped ones. */
  lemma KernelAfterPasses(desired: seq<Object>, s0: Objects, s1: Objects, kernel: set<Pair>, listing: seq<Object>, p: Pair)
    requires Ready(desired, s0, s1) && IsListing(s1, NS, AddressSpecType, listing)
    requires NothingShared(s0, desired) && NothingDying(s0, desired)
    ensures p in KernelAfter(kernel, listing) <==> WantsPair(desired, p) || (p in kernel && !DropsPair(s0, desired, p))
  {
    hide Ready, IsListing, KernelAfter, NothingDying, WantsPair, DropsPair, Listed;
    RunningAfterOwnerPass(desired, s0, s1, listing, p);
    DyingAfterOwnerPass(desired, s0, s1, listing, p);
    KernelAt(kernel, listing, p);
  }

  lemma ExactWhenClean(desired: seq<Object>, s0: Objects, s1: Objects, kernel: set<Pair>, listing: seq<Object>)
    requires Ready(desired, s0, s1) && IsListing(s1, NS, AddressSpecType, listing)
    requires NothingShared(s0, desired) && NothingDying(s0, desired)
    ensures KernelExact(s0, desired, kernel, KernelAfter(kernel, listing)) <==> NothingMoved(s0, desired, kernel)
  {
    hide Ready, IsListing, KernelAfter, NothingShared, NothingDying, WantsPair, HasPair;
    forall p
      ensures p in KernelAfter(kernel, listing) <==> WantsPair(desired, p) || (p in kernel && !DropsPair(s0, desired, p))
      ensures DropsPair(s0, desired, p) ==> HasPair(s0, p)
    {
      KernelAfterPasses(desired, s0, s1, kernel, listing, p);
      if DropsPair(s0, desired, p) { DroppedIsThere(s0, desired, p); }
    }
  }

  lemma DroppedIsThere(s: Objects, desired: seq<Object>, p: Pair)
    requires DropsPair(s, desired, p)
    ensures HasPair(s, p)
  {
  }

  /** Any finite set of stored keys can be listed. */
  lemma {:induction false} ListOf(s: Objects, ks: set<Key>) returns (r: seq<Object>)
    requires WellKeyed(s) && forall k | k in ks :: k in s
    ensures forall i | 0 <= i < |r| :: r[i].Key() in ks && s[r[i].Key()] == r[i]
    ensures forall k | k in ks :: s[k] in r
    ensures forall i, j | 0 <= i < j < |r| :: r[i].Key() != r[j].Key()
  {
    if ks == {} {
      r := [];
    } else {
      var k :| k in ks;
      r := ListOf(s, ks - {k});
      r := r + [s[k]];
    }
  }

  /** Some listing ends with the specs being torn down. */
  lemma TornDownLast(s: Objects) returns (a: seq<Object>, b: seq<Object>)
    requires WellKeyed(s)
    ensures IsListing(s, NS, AddressSpecType, a + b)
    ensures forall x | x in b :: x.metadata.phase == TearingDown
    ensures forall k | k in s && InScope(SCOPE, k) && s[k].metadata.phase == TearingDown :: s[k] in b
  {
    var dying := set x | x in s && InScope(SCOPE, x) && s[x].metadata.phase == TearingDown;
    var live := set x | x in s && InScope(SCOPE, x) && s[x].metadata.phase == Running;
    a := ListOf(s, live);
    b := ListOf(s, dying);
    forall x | x in s && x.namespace == NS && x.typ == AddressSpecType
      ensures s[x] in a + b
    {
      assert x in live || x in dying;
    }
  }

  /** A desired address that some spec reverts is lost in a listing that ends with the reverts. */
  lemma LostWhenReverted(desired: seq<Object>, s0: Objects, s1: Objects, kernel: set<Pair>, k: Key)
    requires WellKeyed(s1) && k in s1 && InScope(SCOPE, k) && s1[k].metadata.phase == TearingDown
    requires s1[k].spec.AddressSpec? && WantsPair(desired, PairOf(s1[k]))
    ensures exists listing :: IsListing(s1, NS, AddressSpecType, listing) && !KernelExact(s0, desired, kernel, KernelAfter(kernel, listing))
  {
    var a, b := TornDownLast(s1);
    assert s1[k] in b;
    RevertedLast(kernel, a, b, PairOf(s1[k]));
    assert PairOf(s1[k]) !in KernelAfter(kernel, a + b);
  }

  /** With a shared address, or a desired spec that is dying, some listing order loses a desired address. */
  lemma LostUnlessClean(desired: seq<Object>, s0: Objects, s1: Objects, kernel: set<Pair>)
    requires Ready(desired, s0, s1) && WellKeyed(s1) && !(NothingShared(s0, desired) && NothingDying(s0, desired))
    ensures exists listing :: IsListing(s1, NS, AddressSpecType, listing) && !KernelExact(s0, desired, kernel, KernelAfter(kernel, listing))
  {
    hide KernelExact, KernelAfter, IsListing, Managed, Settled;
    var k: Key;
    if !NothingShared(s0, desired) {
      var p :| DropsPair(s0, desired, p) && WantsPair(desired, p);
      k :| Dropped(s0, desired, k) && s0[k].spec.AddressSpec? && PairOf(s0[k]) == p;
    } else {
      var o :| o in desired && Dying(s0, o.Key());
      var i :| 0 <= i < |desired| && desired[i] == o;
      WantedIsUnique(SCOPE, desired, i);
      k := o.Key();
      assert o.spec.AddressSpec? && WantsPair(desired, PairOf(o));
    }
    AfterOwnerPass(desired, s0, s1, k);
    LostWhenReverted(desired, s0, s1, kernel, k);
  }

  /**
   The kernel after the cascade holds exactly the desired addresses, whatever order the store
   lists in, if and only if no dropped spec shares its address with a desired one, no desired
   spec is dying, and no applied spec moves to another address.
   */
  lemma KernelAfterCascade(desired: seq<Object>, s0: Objects, s1: Objects, kernel: set<Pair>)
    requires Ready(desired, s0, s1) && WellKeyed(s1)
    ensures Clean(s0, desired, kernel) <==>
      forall listing | IsListing(s1, NS, AddressSpecType, listing) :: KernelExact(s0, desired, kernel, KernelAfter(kernel, listing))
  {
    hide Ready, IsListing, KernelExact, KernelAfter, NothingShared, NothingDying, NothingMoved, WellKeyed;
    if NothingShared(s0, desired) && NothingDying(s0, desired) {
      forall listing | IsListing(s1, NS, AddressSpecType, listing)
        ensures KernelExact(s0, desired, kernel, KernelAfter(kernel, listing)) <==> NothingMoved(s0, desired, kernel)
      {
        ExactWhenClean(desired, s0, s1, kernel, listing);
      }
      var a, b := TornDownLast(s1);
    } else {
      LostUnlessClean(desired, s0, s1, kernel);
    }
  }

  /** Every desired spec that gets applied names a known link. */
  ghost predicate LinksKnown(s: Objects, desired: seq<Object>, links: set<string>) {
    forall o | o in desired && !Dying(s, o.Key()) && o.spec.AddressSpec? :: o.spec.link in links
  }

  /** The three passes run on the store and the simulated kernel; an unknown link ends them after the second. */
  method RunCascade(state: State, backend: FakeNetworkBackend, desired: seq<Object>) returns (r: Result<bool>)
    requires state.Valid() && Managed(state.objects) && Desirable(desired)
    modifies state, backend`addrs
    ensures state.Valid() && (r.Ok? <==> LinksKnown(old(state.objects), desired, backend.links))
    ensures r.Ok? ==> forall k | InScope(SCOPE, k) :: k in state.objects <==> Wanted(desired, k).Some?
    ensures r.Ok? ==> forall k | InScope(SCOPE, k) && k in state.objects ::
      && state.objects[k].spec == Wanted(desired, k).value.spec
      && if Dying(old(state.objects), k)
         then state.objects[k].metadata.phase == TearingDown && state.objects[k].metadata.finalizers == []
         else state.objects[k].metadata.phase == Running && state.objects[k].metadata.finalizers == [FINALIZER]
    ensures r.Ok? && Clean(old(state.objects), desired, old(backend.Addresses())) ==>
      KernelExact(old(state.objects), desired, old(backend.Addresses()), backend.Addresses())
  {
    hide KernelExact, KernelAfter, NothingShared, NothingDying, NothingMoved, Managed, Settled, Consumed, LinksKnown, Reachable, Desirable;
    ghost var s0, kernel := state.objects, backend.Addresses();
    DesirableFor(desired);
    r := ReconcileOwned(state, SCOPE, desired);
    ghost var s1 := state.objects;
    ghost var listing;
    r, listing := Reconcile(state, backend);
    ReachableIffKnown(desired, s0, s1, listing, backend.links);
    if r.Ok? {
      if NothingShared(s0, desired) && NothingDying(s0, desired) {
        ExactWhenClean(desired, s0, s1, kernel, listing);
      }
      ghost var s2 := state.objects;
      r := ReconcileOwned(state, SCOPE, desired);
      forall k | InScope(SCOPE, k)
        ensures k in state.objects <==> Wanted(desired, k).Some?
        ensures k in state.objects ==>
          && state.objects[k].spec == Wanted(desired, k).value.spec
          && if Dying(s0, k)
             then state.objects[k].metadata.phase == TearingDown && state.objects[k].metadata.finalizers == []
             else state.objects[k].metadata.phase == Running && state.objects[k].metadata.finalizers == [FINALIZER]
      {
        StoreAfterCascade(desired, s0, s1, s2, state.objects, k);
      }
    }
  }

  lemma DesirableFor(desired: seq<Object>)
    requires Desirable(desired)
    ensures DesiredFor(SCOPE, desired)
  {
  }

  lemma ReachableIffKnown(desired: seq<Object>, s0: Objects, s1: Objects, listing: seq<Object>, links: set<string>)
    requires Ready(desired, s0, s1) && IsListing(s1, NS, AddressSpecType, listing)
    ensures (forall x | x in listing :: Reachable(links, x)) <==> LinksKnown(s0, desired, links)
  {
    hide Managed, Settled;
    forall x | x in listing
      ensures LinksKnown(s0, desired, links) ==> Reachable(links, x)
    {
      AfterOwnerPass(desired, s0, s1, x.Key());
      if Wanted(desired, x.Key()).Some? { assert Wanted(desired, x.Key()).value in desired; }
    }
    forall o | o in desired && !Dying(s0, o.Key())
      ensures o.Key() in s1 && s1[o.Key()] in listing && s1[o.Key()].metadata.phase == Running && s1[o.Key()].spec == o.spec
    {
      var i :| 0 <= i < |desired| && desired[i] == o;
      WantedIsUnique(SCOPE, desired, i);
      AfterOwnerPass(desired, s0, s1, o.Key());
    }
  }
}
