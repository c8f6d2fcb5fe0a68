/**
 The in-memory resource store: versioned compare-and-swap, finalizers, teardown
 and the change events it emits.

 `Perform` says what one call does to the stored map; class `State` is the store
 that updates its map in place. The lemmas are about whole sequences of calls.
 */
module Store {
  import opened Resources

  type Objects = map<Key, Object>

  datatype EventKind = Created | Updated | Destroyed

  /** Post-change object, or the removed object for `Destroyed`. */
  datatype Event = Event(kind: EventKind, obj: Object)

  datatype Op =
    | Create(obj: Object)
    | Update(key: Key, expected: nat, spec: Resource)
    | AddFinalizer(key: Key, finalizer: string)
    | RemoveFinalizer(key: Key, finalizer: string)
    | Teardown(key: Key)
    | Destroy(key: Key, expected: nat)

  datatype Outcome = Outcome(objects: Objects, result: Result<bool>, event: Option<Event>)

  ghost predicate WellKeyed(s: Objects) {
    forall k | k in s :: s[k].Key() == k
  }

  function Lookup(s: Objects, k: Key): Option<Object> {
    if k in s then Some(s[k]) else None
  }

  function Without(finalizers: seq<string>, f: string): (r: seq<string>)
    ensures f !in r
    ensures forall g | g != f :: g in r <==> g in finalizers
    ensures |r| <= |finalizers|
    ensures |r| == |finalizers| <==> f !in finalizers
    ensures |r| == |finalizers| ==> r == finalizers
  {
    if finalizers == [] then []
    else if finalizers[0] == f then
      assert finalizers == [f] + finalizers[1..];
      Without(finalizers[1..], f)
    else
      assert finalizers == [finalizers[0]] + finalizers[1..];
      [finalizers[0]] + Without(finalizers[1..], f)
  }

  /** Store `o` under its key with the version raised by one, and announce it. */
  function Bump(s: Objects, o: Object, result: bool): Outcome {
    var o' := o.(metadata := o.metadata.(version := o.metadata.version + 1));
    Outcome(s[o'.Key() := o'], Ok(result), Some(Event(Updated, o')))
  }

  /** One store call, as a function of the stored map. Only `Teardown` has a meaningful boolean. */
  function Perform(s: Objects, op: Op): Outcome {
    match op
    case Create(o) =>
      if o.Key() in s then Outcome(s, Err(AlreadyExists(o.Key())), None)
      else
        var o' := o.(metadata := o.metadata.(version := 1, phase := Running));
        Outcome(s[o'.Key() := o'], Ok(true), Some(Event(Created, o')))
    case Update(k, expected, spec) =>
      if k !in s then Outcome(s, Err(NotFound(k)), None)
      else if s[k].metadata.version != expected then
        Outcome(s, Err(Conflict(k, expected, s[k].metadata.version)), None)
      else Bump(s, s[k].(spec := spec), true)
    case AddFinalizer(k, f) =>
      if k !in s then Outcome(s, Err(NotFound(k)), None)
      else if f in s[k].metadata.finalizers then Outcome(s, Ok(true), None)
      else Bump(s, s[k].(metadata := s[k].metadata.(finalizers := s[k].metadata.finalizers + [f])), true)
    case RemoveFinalizer(k, f) =>
      if k !in s then Outcome(s, Err(NotFound(k)), None)
      else
        var kept := Without(s[k].metadata.finalizers, f);
        if |kept| == |s[k].metadata.finalizers| then Outcome(s, Ok(true), None)
        else Bump(s, s[k].(metadata := s[k].metadata.(finalizers := kept)), true)
    case Teardown(k) =>
      if k !in s then Outcome(s, Err(NotFound(k)), None)
      else
        var ready := s[k].metadata.finalizers == [];
        if s[k].metadata.phase == TearingDown then Outcome(s, Ok(ready), None)
        else Bump(s, s[k].(metadata := s[k].metadata.(phase := TearingDown)), ready)
    case Destroy(k, expected) =>
      if k !in s then Outcome(s, Err(NotFound(k)), None)
      else if s[k].metadata.version != expected then
        Outcome(s, Err(Conflict(k, expected, s[k].metadata.version)), None)
      else if s[k].metadata.finalizers != [] then Outcome(s, Err(HasFinalizers(k)), None)
      else Outcome(s - {k}, Ok(true), Some(Event(Destroyed, s[k])))
  }

  /** `r` holds every stored object of the namespace and type once, in some order. */
  ghost predicate IsListing(s: Objects, namespace: string, typ: ResourceType, r: seq<Object>) {
    && (forall i | 0 <= i < |r| ::
          && r[i].Key() in s && s[r[i].Key()] == r[i]
          && r[i].metadata.namespace == namespace && r[i].metadata.typ == typ)
    && (forall k | k in s && k.namespace == namespace && k.typ == typ :: s[k] in r)
    && (forall i, j | 0 <= i < j < |r| :: r[i].Key() != r[j].Key())
  }

  /** The store a `State` handle shares: calls update `objects` in place and append to `sent`. */
  class State {
    var objects: Objects
    var sent: seq<Event>

    ghost predicate Valid()
      reads this
    {
      WellKeyed(objects)
    }

    constructor ()
      ensures Valid() && objects == map[] && sent == []
    {
      objects := map[];
      sent := [];
    }

    method Emit(e: Event)
      modifies this`sent
      ensures sent == old(sent) + [e]
    {
      sent := sent + [e];
    }

    /** The new state of a call: map, result and events are those of `Perform`. */
    twostate predicate Did(op: Op, new result: Result<bool>)
      reads this
    {
      var o := Perform(old(objects), op);
      && objects == o.objects
      && result == o.result
      && sent == old(sent) + (if o.event.Some? then [o.event.value] else [])
    }

    method Get(key: Key) returns (r: Result<Object>)
      ensures r == if key in objects then Ok(objects[key]) else Err(NotFound(key))
    {
      if key in objects {
        r := Ok(objects[key]);
      } else {
        r := Err(NotFound(key));
      }
    }

    method List(namespace: string, typ: ResourceType) returns (r: seq<Object>)
      requires Valid()
      ensures IsListing(objects, namespace, typ, r)
    {
      r := [];
      var rest := set k | k in objects && k.namespace == namespace && k.typ == typ;
      ghost var all := rest;
      while rest != {}
        invariant rest <= all
        invariant forall i | 0 <= i < |r| :: r[i].Key() in all - rest && objects[r[i].Key()] == r[i]
        invariant forall k | k in all - rest :: objects[k] in r
        invariant forall i, j | 0 <= i < j < |r| :: r[i].Key() != r[j].Key()
      {
        var k :| k in rest;
        r := r + [objects[k]];
        rest := rest - {k};
      }
    }

    method Create(obj: Object) returns (r: Result<bool>)
      requires Valid()
      modifies this
      ensures Valid() && Did(Op.Create(obj), r)
    {
      if obj.Key() in objects {
        return Err(AlreadyExists(obj.Key()));
      }
      var stored := obj.(metadata := obj.metadata.(version := 1, phase := Running));
      objects := objects[stored.Key() := stored];
      Emit(Event(Created, stored));
      r := Ok(true);
    }

    method Update(key: Key, expected: nat, spec: Resource) returns (r: Result<bool>)
      requires Valid()
      modifies this
      ensures Valid() && Did(Op.Update(key, expected, spec), r)
    {
      if key !in objects {
        return Err(NotFound(key));
      }
      var obj := objects[key];
      if obj.metadata.version != expected {
        return Err(Conflict(key, expected, obj.metadata.version));
      }
      obj := obj.(spec := spec, metadata := obj.metadata.(version := obj.metadata.version + 1));
      objects := objects[key := obj];
      Emit(Event(Updated, obj));
      r := Ok(true);
    }

    method AddFinalizer(key: Key, finalizer: string) returns (r: Result<bool>)
      requires Valid()
      modifies this
      ensures Valid() && Did(Op.AddFinalizer(key, finalizer), r)
    {
      if key !in objects {
        return Err(NotFound(key));
      }
      var m := objects[key].metadata;
      if finalizer !in m.finalizers {
        var obj := objects[key].(
          metadata := m.(finalizers := m.finalizers + [finalizer], version := m.version + 1));
        objects := objects[key := obj];
        Emit(Event(Updated, obj));
      }
      r := Ok(true);
    }

    method RemoveFinalizer(key: Key, finalizer: string) returns (r: Result<bool>)
      requires Valid()
      modifies this
      ensures Valid() && Did(Op.RemoveFinalizer(key, finalizer), r)
    {
      if key !in objects {
        return Err(NotFound(key));
      }
      var m := objects[key].metadata;
      var kept := Without(m.finalizers, finalizer);
      if |kept| != |m.finalizers| {
        var obj := objects[key].(metadata := m.(finalizers := kept, version := m.version + 1));
        objects := objects[key := obj];
        Emit(Event(Updated, obj));
      }
      r := Ok(true);
    }

    method Teardown(key: Key) returns (r: Result<bool>)
      requires Valid()
      modifies this
      ensures Valid() && Did(Op.Teardown(key), r)
    {
      if key !in objects {
        return Err(NotFound(key));
      }
      var m := objects[key].metadata;
      if m.phase != TearingDown {
        var obj := objects[key].(metadata := m.(phase := TearingDown, version := m.version + 1));
        objects := objects[key := obj];
        Emit(Event(Updated, obj));
      }
      r := Ok(m.finalizers == []);
    }

    method Destroy(key: Key, expected: nat) returns (r: Result<bool>)
      requires Valid()
      modifies this
      ensures Valid() && Did(Op.Destroy(key, expected), r)
    {
      if key !in objects {
        return Err(NotFound(key));
      }
      var m := objects[key].metadata;
      if m.version != expected {
        return Err(Conflict(key, expected, m.version));
      }
      if m.finalizers != [] {
        return Err(HasFinalizers(key));
      }
      var removed := objects[key];
      objects := objects - {key};
      Emit(Event(Destroyed, removed));
      r := Ok(true);
    }
  }

  // ---------------------------------------------------------------- whole runs

  /** The stored map after a sequence of calls. */
  function Exec(s: Objects, ops: seq<Op>): Objects {
    if ops == [] then s else Perform(Exec(s, ops[..|ops|-1]), ops[|ops|-1]).objects
  }

  function EventsOf(o: Outcome): seq<Event> {
    if o.event.Some? then [o.event.value] else []
  }

  /** The events of a sequence of calls, in mutation order. */
  function Emitted(s: Objects, ops: seq<Op>): seq<Event> {
    if ops == [] then []
    else Emitted(s, ops[..|ops|-1]) + EventsOf(Perform(Exec(s, ops[..|ops|-1]), ops[|ops|-1]))
  }

  function ApplyEvent(s: Objects, e: Event): Objects {
    if e.kind.Destroyed? then s - {e.obj.Key()} else s[e.obj.Key() := e.obj]
  }

  /** What a watcher that starts from `s` reconstructs from a sequence of events. */
  function Replay(s: Objects, events: seq<Event>): Objects {
    if events == [] then s else ApplyEvent(Replay(s, events[..|events|-1]), events[|events|-1])
  }

  /** A raised version is always a change, and the event carries it. */
  lemma BumpEvent(s: Objects, o: Object, result: bool)
    requires WellKeyed(s) && o.Key() in s && o.metadata.version == s[o.Key()].metadata.version
    ensures var r := Bump(s, o, result);
      r.event.Some? && WellKeyed(r.objects) && r.objects != s && ApplyEvent(s, r.event.value) == r.objects
  {
  }

  /** When a call succeeds, call by call; one that does not changes nothing and emits nothing. */
  lemma PerformResult(s: Objects, op: Op)
    ensures Perform(s, op).result.Ok? <==>
      match op
      case Create(o) => o.Key() !in s
      case Update(k, expected, _) => k in s && s[k].metadata.version == expected
      case Destroy(k, expected) => k in s && s[k].metadata.version == expected && s[k].metadata.finalizers == []
      case AddFinalizer(k, _) => k in s
      case RemoveFinalizer(k, _) => k in s
      case Teardown(k) => k in s
    ensures op.Teardown? && op.key in s ==> Perform(s, op).result == Ok(s[op.key].metadata.finalizers == [])
    ensures Perform(s, op).result.Err? ==> Perform(s, op).objects == s && Perform(s, op).event.None?
  {
  }

  /** One call: an event is emitted exactly when the map changed, and it carries the change. */
  lemma PerformEvent(s: Objects, op: Op)
    requires WellKeyed(s)
    ensures WellKeyed(Perform(s, op).objects)
    ensures Perform(s, op).event.Some? <==> Perform(s, op).objects != s
    ensures Perform(s, op).event.Some? ==> ApplyEvent(s, Perform(s, op).event.value) == Perform(s, op).objects
  {
    var o := Perform(s, op);
    if o.event.Some? {
      match op
      case Create(obj) =>
        assert obj.Key() in o.objects;
      case Destroy(k, _) =>
        assert k !in o.objects && k in s;
      case Update(k, _, spec) =>
        hide Bump, ApplyEvent, WellKeyed;
        BumpEvent(s, s[k].(spec := spec), true);
      case AddFinalizer(k, f) =>
        hide Bump, ApplyEvent, WellKeyed;
        BumpEvent(s, s[k].(metadata := s[k].metadata.(finalizers := s[k].metadata.finalizers + [f])), true);
      case RemoveFinalizer(k, f) =>
        hide Bump, ApplyEvent, WellKeyed, Without;
        BumpEvent(s, s[k].(metadata := s[k].metadata.(finalizers := Without(s[k].metadata.finalizers, f))), true);
      case Teardown(k) =>
        hide Bump, ApplyEvent, WellKeyed;
        BumpEvent(s, s[k].(metadata := s[k].metadata.(phase := TearingDown)), s[k].metadata.finalizers == []);
    }
  }

  lemma {:induction false} ExecWellKeyed(s: Objects, ops: seq<Op>)
    requires WellKeyed(s)
    ensures WellKeyed(Exec(s, ops))
  {
    if ops != [] {
      ExecWellKeyed(s, ops[..|ops|-1]);
      PerformEvent(Exec(s, ops[..|ops|-1]), ops[|ops|-1]);
    }
  }

  /** Event replay: folding the events of any run reproduces the store. */
  lemma {:induction false} ReplayReproduces(s: Objects, ops: seq<Op>)
    requires WellKeyed(s)
    ensures Replay(s, Emitted(s, ops)) == Exec(s, ops)
  {
    if ops != [] {
      var before := ops[..|ops|-1];
      ReplayReproduces(s, before);
      ExecWellKeyed(s, before);
      var o := Perform(Exec(s, before), ops[|ops|-1]);
      PerformEvent(Exec(s, before), ops[|ops|-1]);
      var es := Emitted(s, before);
      if o.event.Some? {
        assert (es + [o.event.value])[..|es|] == es;
      } else {
        assert es + [] == es;
      }
    }
  }

  // ---------------------------------------------------------------- versions

  /** The events of `events` that are about `k`, in order. */
  function About(events: seq<Event>, k: Key): (r: seq<Event>)
    ensures forall e | e in r :: e.obj.Key() == k
  {
    if events == [] then []
    else
      var last := events[|events|-1];
      About(events[..|events|-1], k) + (if last.obj.Key() == k then [last] else [])
  }

  ghost predicate Destroys(events: seq<Event>, k: Key) {
    exists e :: e in About(events, k) && e.kind.Destroyed?
  }

  lemma AboutSnoc(events: seq<Event>, e: Event, k: Key)
    ensures About(events + [e], k) == About(events, k) + (if e.obj.Key() == k then [e] else [])
  {
    assert (events + [e])[..|events|] == events;
  }

  /** What one call can do to one stored object. */
  lemma PerformAt(s: Objects, op: Op, k: Key)
    requires WellKeyed(s)
    ensures var o := Perform(s, op);
      match o.event
      case None => Lookup(o.objects, k) == Lookup(s, k)
      case Some(e) =>
        if e.obj.Key() != k then Lookup(o.objects, k) == Lookup(s, k)
        else match e.kind
          case Created => k !in s && Lookup(o.objects, k) == Some(e.obj) && e.obj.metadata.version == 1
          case Destroyed => k in s && Lookup(o.objects, k) == None && s[k].metadata.finalizers == []
          case Updated =>
            && k in s && Lookup(o.objects, k) == Some(e.obj)
            && e.obj.metadata.version == s[k].metadata.version + 1
            && e.obj.metadata.owner == s[k].metadata.owner
            && (s[k].metadata.phase == TearingDown ==> e.obj.metadata.phase == TearingDown)
  {
  }

  /**
   Version fidelity: while a key is not destroyed, its version counts its changes exactly,
   its owner stays, it never leaves TearingDown, and equal versions mean equal objects.
   */
  lemma {:induction false} VersionFidelity(s: Objects, ops: seq<Op>, k: Key)
    requires WellKeyed(s) && k in s
    requires !Destroys(Emitted(s, ops), k)
    ensures k in Exec(s, ops)
    ensures var now := Exec(s, ops)[k].metadata;
      && now.version == s[k].metadata.version + |About(Emitted(s, ops), k)|
      && now.owner == s[k].metadata.owner
      && (s[k].metadata.phase == TearingDown ==> now.phase == TearingDown)
    ensures Exec(s, ops)[k].metadata.version == s[k].metadata.version <==> Exec(s, ops)[k] == s[k]
  {
    if ops != [] {
      var before, op := ops[..|ops|-1], ops[|ops|-1];
      var es := Emitted(s, before);
      var mid := Exec(s, before);
      var o := Perform(mid, op);
      ExecWellKeyed(s, before);
      if o.event.Some? {
        AboutSnoc(es, o.event.value, k);
        assert Emitted(s, ops) == es + [o.event.value];
      } else {
        assert Emitted(s, ops) == es;
      }
      assert forall e | e in About(es, k) :: e in About(Emitted(s, ops), k);
      VersionFidelity(s, before, k);
      PerformAt(mid, op, k);
      if o.event.Some? && o.event.value.obj.Key() == k {
        assert o.event.value in About(Emitted(s, ops), k);
      }
    }
  }

  /**
   What a successful compare-and-swap proves. `s` is the map when the caller read `k`, `ops`
   are the calls made since. If the caller's update or destroy succeeds, then nothing has
   happened to the key since the read if and only if it was not destroyed since the read.
   */
  lemma SuccessProvesUntouched(s: Objects, ops: seq<Op>, k: Key, op: Op)
    requires WellKeyed(s) && k in s
    requires op == Op.Destroy(k, s[k].metadata.version) || (op.Update? && op.key == k && op.expected == s[k].metadata.version)
    requires Perform(Exec(s, ops), op).result.Ok?
    ensures About(Emitted(s, ops), k) == [] <==> !Destroys(Emitted(s, ops), k)
    ensures !Destroys(Emitted(s, ops), k) ==> Exec(s, ops)[k] == s[k]
  {
    hide Perform, Exec, Emitted, About;
    SwappedAt(Exec(s, ops), op, k, s[k].metadata.version);
    if !Destroys(Emitted(s, ops), k) {
      VersionFidelity(s, ops, k);
    }
  }

  /** A successful update or destroy found the version it expected. */
  lemma SwappedAt(s: Objects, op: Op, k: Key, version: nat)
    requires op == Op.Destroy(k, version) || (op.Update? && op.key == k && op.expected == version)
    requires Perform(s, op).result.Ok?
    ensures k in s && s[k].metadata.version == version
  {
  }

  /** Versions restart at 1, so across a destroy a stale read can still win the swap. */
  lemma StaleReadWinsAfterRecreation(k: Key, was: Resource, now: Resource, mine: Resource)
    requires was != now
    ensures exists s: Objects, ops: seq<Op> ::
      && WellKeyed(s) && k in s && s[k].spec == was
      && Perform(Exec(s, ops), Update(k, s[k].metadata.version, mine)).result.Ok?
      && k in Exec(s, ops) && Exec(s, ops)[k].spec == now
  {
    var o := Object(Metadata(k.namespace, k.typ, k.id, 1, None, [], Running), was);
    var s: Objects := map[k := o];
    var ops := [Destroy(k, 1), Create(o.(spec := now))];
    assert ops[..1] == [ops[0]] && ops[..1][..0] == [];
    assert Exec(s, ops[..1]) == Perform(s, ops[0]).objects == map[];
    assert Exec(s, ops) == Perform(map[], ops[1]).objects;
    assert Exec(s, ops)[k] == o.(spec := now);
    assert Perform(Exec(s, ops), Update(k, s[k].metadata.version, mine)).result.Ok?;
  }

  // ------------------------------------------- events sent after the lock is dropped

  /** What the last event about `k` says is stored there; without one, what was there before. */
  function LastSays(s: Objects, events: seq<Event>, k: Key): Option<Object> {
    var es := About(events, k);
    if es == [] then Lookup(s, k)
    else if es[|es|-1].kind.Destroyed? then None
    else Some(es[|es|-1].obj)
  }

  /** Of a whole replay only the last event about each key matters. */
  lemma {:induction false} ReplayAt(s: Objects, events: seq<Event>, k: Key)
    ensures Lookup(Replay(s, events), k) == LastSays(s, events, k)
  {
    if events != [] {
      ReplayAt(s, events[..|events|-1], k);
    }
  }

  /** A watcher ends up right iff, key by key, the last event it gets says what the last one sent says. */
  lemma WatcherRightIff(s: Objects, ops: seq<Op>, channel: seq<Event>)
    requires WellKeyed(s)
    ensures Replay(s, channel) == Exec(s, ops) <==>
            forall k :: LastSays(s, channel, k) == LastSays(s, Emitted(s, ops), k)
  {
    hide Replay, Exec, Emitted, LastSays;
    var es := Emitted(s, ops);
    ReplayReproduces(s, ops);
    forall k
      ensures Lookup(Replay(s, channel), k) == LastSays(s, channel, k)
      ensures Lookup(Replay(s, es), k) == LastSays(s, es, k)
    {
      ReplayAt(s, channel, k);
      ReplayAt(s, es, k);
    }
    if forall k :: LastSays(s, channel, k) == LastSays(s, es, k) {
      SameLookups(Replay(s, channel), Replay(s, es));
    }
  }

  /** The two last events about a key both destroy it, or both leave the same object. */
  predicate EndAlike(a: Event, b: Event) {
    if a.kind.Destroyed? then b.kind.Destroyed? else !b.kind.Destroyed? && a.obj == b.obj
  }

  /** For each key the two sequences of events end alike. */
  ghost predicate SameEndings(a: seq<Event>, b: seq<Event>) {
    forall k | About(b, k) != [] :: About(a, k) != [] && EndAlike(About(a, k)[|About(a, k)|-1], About(b, k)[|About(b, k)|-1])
  }

  lemma {:induction false} AboutMembers(events: seq<Event>, k: Key)
    ensures forall e :: e in About(events, k) <==> e in events && e.obj.Key() == k
  {
    if events != [] {
      AboutMembers(events[..|events|-1], k);
      assert events == events[..|events|-1] + [events[|events|-1]];
    }
  }

  lemma SameSubjects(a: seq<Event>, b: seq<Event>, k: Key)
    requires multiset(a) == multiset(b)
    ensures About(a, k) == [] <==> About(b, k) == []
  {
    AboutMembers(a, k);
    AboutMembers(b, k);
    assert forall e :: e in a <==> e in multiset(a);
    assert forall e :: e in b <==> e in multiset(b);
    if About(a, k) != [] { assert About(a, k)[0] in About(b, k); }
    if About(b, k) != [] { assert About(b, k)[0] in About(a, k); }
  }

  /**
   Emits happen after the lock is dropped, so the channel carries some permutation of them. The
   watcher ends up right iff for each key the last event received and the last one due end alike.
   */
  lemma ReorderedRightIff(s: Objects, ops: seq<Op>, channel: seq<Event>)
    requires WellKeyed(s) && multiset(channel) == multiset(Emitted(s, ops))
    ensures Replay(s, channel) == Exec(s, ops) <==> SameEndings(channel, Emitted(s, ops))
  {
    hide Replay, Exec, Emitted, About;
    var es := Emitted(s, ops);
    WatcherRightIff(s, ops, channel);
    forall k
      ensures About(channel, k) == [] <==> About(es, k) == []
    {
      SameSubjects(channel, es, k);
    }
    if Replay(s, channel) == Exec(s, ops) {
      forall k | About(es, k) != []
        ensures EndAlike(About(channel, k)[|About(channel, k)|-1], About(es, k)[|About(es, k)|-1])
      {
        assert LastSays(s, channel, k) == LastSays(s, es, k);
      }
    }
  }

  /** Every event about a key ends like the last one about it. */
  ghost predicate AllEndAlike(events: seq<Event>) {
    forall k, e | e in About(events, k) :: EndAlike(e, About(events, k)[|About(events, k)|-1])
  }

  /** Some order of the events ends with this one. */
  lemma MovedLast(events: seq<Event>, e: Event) returns (channel: seq<Event>)
    requires e in events
    ensures multiset(channel) == multiset(events)
    ensures About(channel, e.obj.Key()) != [] && About(channel, e.obj.Key())[|About(channel, e.obj.Key())|-1] == e
  {
    var i :| 0 <= i < |events| && events[i] == e;
    var rest := events[..i] + events[i+1..];
    channel := rest + [e];
    assert events == events[..i] + [e] + events[i+1..];
    AboutSnoc(rest, e, e.obj.Key());
  }

  /** The calls alone decide: every order of their events serves a watcher iff for each key all events end like the last. */
  lemma AnyOrderRightIff(s: Objects, ops: seq<Op>)
    requires WellKeyed(s)
    ensures (forall channel | multiset(channel) == multiset(Emitted(s, ops)) :: Replay(s, channel) == Exec(s, ops)) <==>
            AllEndAlike(Emitted(s, ops))
  {
    hide Replay, Exec, Emitted, About, EndAlike;
    var es := Emitted(s, ops);
    if AllEndAlike(es) {
      forall channel | multiset(channel) == multiset(es) ensures Replay(s, channel) == Exec(s, ops) {
        LastIsOne(channel, es);
        ReorderedRightIff(s, ops, channel);
      }
    } else {
      var k, e :| e in About(es, k) && !EndAlike(e, About(es, k)[|About(es, k)|-1]);
      AboutMembers(es, k);
      var channel := MovedLast(es, e);
      ReorderedRightIff(s, ops, channel);
    }
  }

  /** The last event about a key is one of those about it, in whatever order they come. */
  lemma LastIsOne(channel: seq<Event>, es: seq<Event>)
    requires multiset(channel) == multiset(es) && AllEndAlike(es)
    ensures SameEndings(channel, es)
  {
    hide About, EndAlike;
    forall k | About(es, k) != []
      ensures About(channel, k) != [] && EndAlike(About(channel, k)[|About(channel, k)|-1], About(es, k)[|About(es, k)|-1])
    {
      SameSubjects(channel, es, k);
      AboutMembers(channel, k);
      AboutMembers(es, k);
      var last := About(channel, k)[|About(channel, k)|-1];
      assert last in About(channel, k) && last in multiset(channel);
      assert last in About(es, k);
    }
  }

  /** In particular a channel that keeps each key's own order serves every watcher. */
  lemma PerKeyOrderSuffices(s: Objects, ops: seq<Op>, channel: seq<Event>)
    requires WellKeyed(s)
    requires forall k :: About(channel, k) == About(Emitted(s, ops), k)
    ensures Replay(s, channel) == Exec(s, ops)
  {
    hide Replay, Exec, Emitted, About;
    WatcherRightIff(s, ops, channel);
    forall k ensures LastSays(s, channel, k) == LastSays(s, Emitted(s, ops), k) {
      assert About(channel, k) == About(Emitted(s, ops), k);
    }
  }

  lemma SameLookups(a: Objects, b: Objects)
    requires forall k :: Lookup(a, k) == Lookup(b, k)
    ensures a == b
  {
    forall k
      ensures k in a <==> k in b
      ensures k in a ==> a[k] == b[k]
    {
      assert Lookup(a, k) == Lookup(b, k);
    }
  }

  /** Two calls on one key whose emits are swapped leave a replaying watcher with the older object. */
  lemma SwappedEmitsMislead(o: Object, spec: Resource)
    requires o.spec != spec
    ensures var ops := [Create(o), Update(o.Key(), 1, spec)];
      var es := Emitted(map[], ops);
      |es| == 2 && Replay(map[], [es[1], es[0]]) != Exec(map[], ops)
  {
    var s0: Objects := map[];
    var ops := [Create(o), Update(o.Key(), 1, spec)];
    var es := CreateThenUpdate(o, spec);
    var swapped := [es[1], es[0]];
    assert swapped == [es[1]] + [es[0]] && es == [es[0]] + [es[1]];
    AboutSnoc([es[1]], es[0], o.Key());
    AboutSnoc([es[0]], es[1], o.Key());
    assert LastSays(s0, swapped, o.Key()) == Some(es[0].obj) && LastSays(s0, es, o.Key()) == Some(es[1].obj);
    WatcherRightIff(s0, ops, swapped);
  }

  lemma CreateThenUpdate(o: Object, spec: Resource) returns (es: seq<Event>)
    ensures es == Emitted(map[], [Create(o), Update(o.Key(), 1, spec)]) && |es| == 2
    ensures es[0].kind == Created && es[0].obj.Key() == o.Key() && es[0].obj.spec == o.spec
    ensures es[1].kind == Updated && es[1].obj.Key() == o.Key() && es[1].obj.spec == spec
  {
    var ops := [Create(o), Update(o.Key(), 1, spec)];
    assert ops[..1] == [ops[0]] && ops[..1][..0] == [];
    var s0: Objects := map[];
    var s1 := Perform(s0, ops[0]).objects;
    assert Exec(s0, ops[..1]) == s1;
    assert Emitted(s0, ops[..1]) == EventsOf(Perform(s0, ops[0]));
    es := EventsOf(Perform(s0, ops[0])) + EventsOf(Perform(s1, ops[1]));
  }
}
