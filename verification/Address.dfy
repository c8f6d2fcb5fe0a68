/**
 The concrete consumer: the address controller over the simulated kernel, and what the
 owner/consumer/owner cascade leaves in the store and in the kernel.
 */
module Address {
  import opened Resources
  import opened Store
  import opened Owned

  const NS := "network"
  const FINALIZER := "address-controller"

  function SpecKey(id: string): Key {
    Named(NS, AddressSpecType, id)
  }

  function StatusKey(id: string): Key {
    Named(NS, AddressStatusType, id)
  }

  type Pair = (string, AddrCidr)

  /** The simulated kernel: known links, and the addresses on each. */
  class FakeNetworkBackend {
    var links: set<string>
    var addrs: map<string, seq<AddrCidr>>

    function Addresses(): set<Pair>
      reads this
    {
      set l, a | l in addrs && a in addrs[l] :: (l, a)
    }

    method AddAddress(link: string, addr: AddrCidr) returns (ok: bool)
      modifies this`addrs
      ensures ok <==> link in links
      ensures Addresses() == if ok then old(Addresses()) + {(link, addr)} else old(Addresses())
    {
      if link !in links {
        return false;
      }
      var list := if link in addrs then addrs[link] else [];
      if addr !in list {
        list := list + [addr];
      }
      addrs := addrs[link := list];
      ok := true;
    }

    method DelAddress(link: string, addr: AddrCidr)
      modifies this`addrs
      ensures Addresses() == old(Addresses()) - {(link, addr)}
    {
      if link in addrs {
        var kept := Retain(addrs[link], addr);
        addrs := addrs[link := kept];
      }
    }
  }

  function Retain(list: seq<AddrCidr>, addr: AddrCidr): (r: seq<AddrCidr>)
    ensures forall a :: a in r <==> a in list && a != addr
  {
    if list == [] then []
    else
      var rest := Retain(list[1..], addr);
      if list[0] == addr then rest else [list[0]] + rest
  }

  // ------------------------------------------------- one consumer pass, per key

  /** What a pass leaves of a spec resource. */
  function SpecAfter(x: Object): Object {
    InputAfter(x, FINALIZER)
  }

  /** What a pass leaves of the status published for spec `x`. */
  function StatusAfter(x: Object, before: Option<Object>): Option<Object> {
    if !x.spec.AddressSpec? then before
    else
      match x.metadata.phase
      case Running =>
        var status := AddressStatus(x.spec.link, x.spec.address);
        (match before
         case None => Some(NewObject(NS, x.metadata.id, status).(metadata := NewObject(NS, x.metadata.id, status).metadata.(version := 1)))
         case Some(y) => Some(y.(spec := status, metadata := y.metadata.(version := y.metadata.version + 1))))
      case TearingDown =>
        if before.Some? && before.value.metadata.finalizers == [] then None else before
  }

  /** What a whole successful pass leaves under a key. */
  function ConsumeAt(s: Objects, k: Key): Option<Object> {
    if k.namespace == NS && k.typ == AddressSpecType && k in s then Some(SpecAfter(s[k]))
    else if k.namespace == NS && k.typ == AddressStatusType && SpecKey(k.id) in s
    then StatusAfter(s[SpecKey(k.id)], Lookup(s, k))
    else Lookup(s, k)
  }

  ghost predicate Consumed(s: Objects, s': Objects) {
    forall k :: Lookup(s', k) == ConsumeAt(s, k)
  }

  /** The kernel after handling a snapshot in order. */
  function KernelAfter(kernel: set<Pair>, listing: seq<Object>): set<Pair> {
    if listing == [] then kernel
    else
      var x := listing[|listing|-1];
      var before := KernelAfter(kernel, listing[..|listing|-1]);
      if !x.spec.AddressSpec? then before
      else if x.metadata.phase == Running then before + {(x.spec.link, x.spec.address)}
      else before - {(x.spec.link, x.spec.address)}
  }

  predicate Reachable(links: set<string>, x: Object) {
    x.metadata.phase == Running && x.spec.AddressSpec? ==> x.spec.link in links
  }

  method PublishStatus(state: State, id: string, spec: Resource)
    requires state.Valid() && spec.AddressStatus?
    modifies state
    ensures state.Valid() && SameBut(old(state.objects), state.objects, StatusKey(id))
    ensures forall x: Object | x.metadata.id == id && x.metadata.phase == Running && x.spec == AddressSpec(spec.link, spec.address) ::
      Lookup(state.objects, StatusKey(id)) == StatusAfter(x, Lookup(old(state.objects), StatusKey(id)))
  {
    var key := StatusKey(id);
    var got := state.Get(key);
    if got.Ok? {
      var _ := state.Update(key, got.value.metadata.version, spec);
    } else {
      var _ := state.Create(NewObject(NS, id, spec));
    }
  }

  method DestroyStatus(state: State, id: string)
    requires state.Valid()
    modifies state
    ensures state.Valid() && SameBut(old(state.objects), state.objects, StatusKey(id))
    ensures forall x: Object | x.metadata.phase == TearingDown && x.spec.AddressSpec? ::
      Lookup(state.objects, StatusKey(id)) == StatusAfter(x, Lookup(old(state.objects), StatusKey(id)))
  {
    var key := StatusKey(id);
    var got := state.Get(key);
    if got.Ok? {
      var _ := state.Destroy(key, got.value.metadata.version);
    }
  }

  /** Apply or revert one input under the finalizer. */
  method HandleOne(state: State, backend: FakeNetworkBackend, x: Object) returns (r: Result<bool>)
    requires state.Valid() && Lookup(state.objects, x.Key()) == Some(x) && x.Key() == SpecKey(x.metadata.id)
    modifies state, backend`addrs
    ensures state.Valid() && (r.Ok? <==> Reachable(backend.links, x))
    ensures Lookup(state.objects, x.Key()) == Some(SpecAfter(x))
    ensures r.Ok? ==> Lookup(state.objects, StatusKey(x.metadata.id)) == StatusAfter(x, Lookup(old(state.objects), StatusKey(x.metadata.id)))
    ensures forall k | k != x.Key() && k != StatusKey(x.metadata.id) :: Lookup(state.objects, k) == Lookup(old(state.objects), k)
    ensures r.Ok? ==> backend.Addresses() == KernelAfter(old(backend.Addresses()), [x])
  {
    var key := x.Key();
    match x.metadata.phase {
      case Running =>
        r := state.AddFinalizer(key, FINALIZER);
        if x.spec.AddressSpec? {
          var ok := backend.AddAddress(x.spec.link, x.spec.address);
          if !ok {
            return Err(Controller("link not found"));
          }
          PublishStatus(state, x.metadata.id, AddressStatus(x.spec.link, x.spec.address));
        }
      case TearingDown =>
        if x.spec.AddressSpec? {
          backend.DelAddress(x.spec.link, x.spec.address);
          DestroyStatus(state, x.metadata.id);
        }
        r := state.RemoveFinalizer(key, FINALIZER);
    }
  }

  /** The keys a pass over `listing` handles. */
  ghost predicate Handles(listing: seq<Object>, k: Key) {
    exists i :: 0 <= i < |listing| && (k == listing[i].Key() || k == StatusKey(listing[i].metadata.id))
  }

  /** One pass of the address controller with no one else writing. */
  method Reconcile(state: State, backend: FakeNetworkBackend) returns (r: Result<bool>, ghost listing: seq<Object>)
    requires state.Valid()
    modifies state, backend`addrs
    ensures state.Valid() && IsListing(old(state.objects), NS, AddressSpecType, listing)
    ensures r.Ok? <==> forall x | x in listing :: Reachable(backend.links, x)
    ensures r.Ok? ==> Consumed(old(state.objects), state.objects)
    ensures r.Ok? ==> backend.Addresses() == KernelAfter(old(backend.Addresses()), listing)
  {
    hide SpecAfter, StatusAfter, ConsumeAt, Handles;
    var specs := state.List(NS, AddressSpecType);
    listing := specs;
    ghost var s0 := state.objects;
    r := Ok(true);
    HandlesNothing(specs);
    var i := 0;
    while i < |specs| && r.Ok?
      invariant 0 <= i <= |specs| && state.Valid()
      invariant r.Ok? ==> forall x | x in specs[..i] :: Reachable(backend.links, x)
      invariant r.Err? ==> i > 0 && !Reachable(backend.links, specs[i-1])
      invariant r.Ok? ==> backend.Addresses() == KernelAfter(old(backend.Addresses()), specs[..i])
      invariant r.Ok? ==> forall k :: Lookup(state.objects, k) == if Handles(specs[..i], k) then ConsumeAt(s0, k) else Lookup(s0, k)
    {
      ghost var s := state.objects;
      HandledOnce(s0, specs, i);
      r := HandleOne(state, backend, specs[i]);
      assert specs[..i+1][..i] == specs[..i];
      assert specs[..i+1] == specs[..i] + [specs[i]];
      if r.Ok? {
        ConsumeStep(s0, specs, i, s, state.objects);
      }
      i := i + 1;
    }
    if r.Ok? {
      assert specs[..i] == specs;
      HandlesAll(s0, specs);
    }
  }

  lemma HandledOnce(s0: Objects, specs: seq<Object>, i: nat)
    requires WellKeyed(s0) && IsListing(s0, NS, AddressSpecType, specs) && i < |specs|
    ensures specs[i].Key() == SpecKey(specs[i].metadata.id)
    ensures !Handles(specs[..i], specs[i].Key()) && !Handles(specs[..i], StatusKey(specs[i].metadata.id))
    ensures Lookup(s0, specs[i].Key()) == Some(specs[i])
  {
  }

  lemma ConsumeStep(s0: Objects, specs: seq<Object>, i: nat, s: Objects, s': Objects)
    requires WellKeyed(s0) && IsListing(s0, NS, AddressSpecType, specs) && i < |specs|
    requires forall k :: Lookup(s, k) == if Handles(specs[..i], k) then ConsumeAt(s0, k) else Lookup(s0, k)
    requires var x := specs[i];
      && Lookup(s', x.Key()) == Some(SpecAfter(x))
      && Lookup(s', StatusKey(x.metadata.id)) == StatusAfter(x, Lookup(s, StatusKey(x.metadata.id)))
      && (forall k | k != x.Key() && k != StatusKey(x.metadata.id) :: Lookup(s', k) == Lookup(s, k))
    ensures forall k :: Lookup(s', k) == if Handles(specs[..i+1], k) then ConsumeAt(s0, k) else Lookup(s0, k)
  {
    HandledOnce(s0, specs, i);
    forall k
      ensures Lookup(s', k) == if Handles(specs[..i+1], k) then ConsumeAt(s0, k) else Lookup(s0, k)
    {
      HandlesSnoc(specs, i, k);
    }
  }

  lemma HandlesNothing(specs: seq<Object>)
    ensures forall k :: !Handles(specs[..0], k)
  {
  }

  lemma HandlesSnoc(specs: seq<Object>, i: nat, k: Key)
    requires i < |specs|
    ensures Handles(specs[..i+1], k) <==> Handles(specs[..i], k) || k == specs[i].Key() || k == StatusKey(specs[i].metadata.id)
  {
  }

  lemma HandlesAll(s0: Objects, specs: seq<Object>)
    requires WellKeyed(s0) && IsListing(s0, NS, AddressSpecType, specs)
    ensures forall k | !Handles(specs, k) :: ConsumeAt(s0, k) == Lookup(s0, k)
  {
  }
}
