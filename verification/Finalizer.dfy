/**
 Owner passes, one consumer's passes and other writers interleaved at the granularity of
 single store calls. Snapshots may be stale by the time they are used, and `apply` and
 `revert` may fail with or without their effect having happened.
 */
module Finalizer {
  import opened Resources
  import opened Store
  import opened Owned

  /** `allowed` are the (key, spec) pairs writers may ask for within the scope. */
  datatype Config = Config(scope: Scope, finalizer: string, allowed: iset<(Key, Resource)>)

  ghost predicate ScopedConfig(c: Config) {
    forall e | e in c.allowed :: InScope(c.scope, e.0)
  }

  datatype OwnerPc =
    | OwnerIdle
      // next: read the key of todo[0], or list when nothing is left
    | Upserting(todo: seq<Object>, ids: set<string>)
      // read done, next: write
    | UpsertRead(todo: seq<Object>, ids: set<string>, got: Option<Object>)
      // next: look at todo[0] of the listing
    | Collecting(todo: seq<Object>, ids: set<string>)
      // teardown reported ready, next: re-read for the version
    | Rereading(key: Key, todo: seq<Object>, ids: set<string>)
    | Destroying(key: Key, version: nat, todo: seq<Object>, ids: set<string>)

  datatype ConsumerPc =
    | ConsumerIdle
      // next: handle todo[0] of the snapshot
    | Handling(todo: seq<Object>)
      // finalizer added, next: apply
    | Applying(obj: Object, todo: seq<Object>)
      // reverted, next: remove the finalizer
    | Releasing(obj: Object, todo: seq<Object>)

  /**
   `applied` are the keys applied and not reverted since; `effects` are the applied and not yet
   reverted effects, each with the spec it was applied for.
   */
  datatype System = System(objects: Objects, applied: set<Key>, effects: set<(Key, Resource)>, owner: OwnerPc, consumer: ConsumerPc)

  datatype Step =
    | OwnerStart(desired: seq<Object>)
    | OwnerRead
    | OwnerWrite
    | OwnerList(listing: seq<Object>)
    | OwnerCollect
    | OwnerReread
    | OwnerDestroy
    | ConsumerStart(listing: seq<Object>)
    | ConsumerFinalize
    | ConsumerApply(ok: bool, happened: bool)
    | ConsumerRevert(ok: bool, happened: bool)
    | ConsumerRelease
    | ConsumerFinish
    | OtherWriter(op: Op)

  function Start(): System {
    System(map[], {}, {}, OwnerIdle, ConsumerIdle)
  }

  ghost predicate AllowedSpec(c: Config, k: Key, spec: Resource) {
    InScope(c.scope, k) ==> (k, spec) in c.allowed
  }

  /** Everyone but the consumer leaves its finalizer alone and asks for allowed specs. */
  ghost predicate AllowedOp(c: Config, op: Op) {
    match op
    case Create(o) => AllowedSpec(c, o.Key(), o.spec)
    case Update(k, _, spec) => AllowedSpec(c, k, spec)
    case RemoveFinalizer(_, f) => f != c.finalizer
    case _ => true
  }

  ghost predicate Enabled(c: Config, s: System, step: Step) {
    match step
    case OwnerStart(desired) =>
      && s.owner.OwnerIdle? && DesiredFor(c.scope, desired)
      && (forall o | o in desired :: AllowedSpec(c, o.Key(), o.spec))
    case OwnerRead => s.owner.Upserting? && s.owner.todo != []
    case OwnerWrite => s.owner.UpsertRead? && s.owner.todo != []
    case OwnerList(listing) =>
      && s.owner.Upserting? && s.owner.todo == []
      && IsListing(s.objects, c.scope.namespace, c.scope.typ, listing)
    case OwnerCollect => s.owner.Collecting?
    case OwnerReread => s.owner.Rereading?
    case OwnerDestroy => s.owner.Destroying?
    case ConsumerStart(listing) =>
      s.consumer.ConsumerIdle? && IsListing(s.objects, c.scope.namespace, c.scope.typ, listing)
    case ConsumerFinalize => s.consumer.Handling? && s.consumer.todo != [] && s.consumer.todo[0].metadata.phase == Running
    case ConsumerApply(ok, happened) => s.consumer.Applying? && (ok ==> happened)
    case ConsumerRevert(ok, happened) =>
      s.consumer.Handling? && s.consumer.todo != [] && s.consumer.todo[0].metadata.phase == TearingDown && (ok ==> happened)
    case ConsumerRelease => s.consumer.Releasing?
    case ConsumerFinish => s.consumer.Handling? && s.consumer.todo == []
    case OtherWriter(op) => AllowedOp(c, op)
  }

  /** The store call, if any, that a step makes. */
  function CallOf(c: Config, s: System, step: Step): Option<Op> {
    match step
    case OwnerWrite =>
      if !s.owner.UpsertRead? || s.owner.todo == [] then None
      else
        var want := s.owner.todo[0];
        (match s.owner.got
         case None => Some(Create(want.(metadata := want.metadata.(owner := Some(c.scope.owner)))))
         case Some(x) =>
           if x.spec == want.spec then None else Some(Update(want.Key(), x.metadata.version, want.spec)))
    case OwnerCollect =>
      if s.owner.Collecting? && s.owner.todo != [] && Condemned(c, s.owner.todo[0], s.owner.ids)
      then Some(Teardown(s.owner.todo[0].Key())) else None
    case OwnerDestroy => if s.owner.Destroying? then Some(Destroy(s.owner.key, s.owner.version)) else None
    case ConsumerFinalize =>
      if s.consumer.Handling? && s.consumer.todo != [] then Some(AddFinalizer(s.consumer.todo[0].Key(), c.finalizer)) else None
    case ConsumerRelease =>
      if s.consumer.Releasing? then Some(RemoveFinalizer(s.consumer.obj.Key(), c.finalizer)) else None
    case OtherWriter(op) => Some(op)
    case _ => None
  }

  predicate Condemned(c: Config, existing: Object, ids: set<string>) {
    existing.metadata.owner == Some(c.scope.owner) && existing.metadata.id !in ids
  }

  /** What the step's store call returned; `Ok(true)` when it made none. */
  function ResultOf(c: Config, s: System, step: Step): Result<bool> {
    match CallOf(c, s, step)
    case None => Ok(true)
    case Some(op) => Perform(s.objects, op).result
  }

  function Objects'(c: Config, s: System, step: Step): Objects {
    match CallOf(c, s, step)
    case None => s.objects
    case Some(op) => Perform(s.objects, op).objects
  }

  /** An error from a store call or effect ends the pass. */
  ghost function OwnerPc'(c: Config, s: System, step: Step): OwnerPc
    requires Enabled(c, s, step)
  {
    var r := ResultOf(c, s, step);
    match step
    case OwnerStart(desired) => Upserting(desired, set o | o in desired :: o.metadata.id)
    case OwnerRead => UpsertRead(s.owner.todo, s.owner.ids, Lookup(s.objects, s.owner.todo[0].Key()))
    case OwnerWrite => if r.Err? then OwnerIdle else Upserting(s.owner.todo[1..], s.owner.ids)
    case OwnerList(listing) => Collecting(listing, s.owner.ids)
    case OwnerCollect =>
      if s.owner.todo == [] || r.Err? then OwnerIdle
      else if Condemned(c, s.owner.todo[0], s.owner.ids) && r.value
      then Rereading(s.owner.todo[0].Key(), s.owner.todo[1..], s.owner.ids)
      else Collecting(s.owner.todo[1..], s.owner.ids)
    case OwnerReread =>
      if s.owner.key !in s.objects then OwnerIdle
      else Destroying(s.owner.key, s.objects[s.owner.key].metadata.version, s.owner.todo, s.owner.ids)
    case OwnerDestroy => if r.Err? then OwnerIdle else Collecting(s.owner.todo, s.owner.ids)
    case _ => s.owner
  }

  ghost function ConsumerPc'(c: Config, s: System, step: Step): ConsumerPc
    requires Enabled(c, s, step)
  {
    var r := ResultOf(c, s, step);
    match step
    case ConsumerStart(listing) => Handling(listing)
    case ConsumerFinalize => if r.Err? then ConsumerIdle else Applying(s.consumer.todo[0], s.consumer.todo[1..])
    case ConsumerApply(ok, _) => if ok then Handling(s.consumer.todo) else ConsumerIdle
    case ConsumerRevert(ok, _) => if ok then Releasing(s.consumer.todo[0], s.consumer.todo[1..]) else ConsumerIdle
    case ConsumerRelease => if r.Err? then ConsumerIdle else Handling(s.consumer.todo)
    case ConsumerFinish => ConsumerIdle
    case _ => s.consumer
  }

  ghost function Applied'(c: Config, s: System, step: Step): set<Key>
    requires Enabled(c, s, step)
  {
    match step
    case ConsumerApply(_, happened) => if happened then s.applied + {s.consumer.obj.Key()} else s.applied
    case ConsumerRevert(_, happened) => if happened then s.applied - {s.consumer.todo[0].Key()} else s.applied
    case _ => s.applied
  }

  ghost function Effects'(c: Config, s: System, step: Step): set<(Key, Resource)>
    requires Enabled(c, s, step)
  {
    match step
    case ConsumerApply(_, happened) =>
      if happened then s.effects + {(s.consumer.obj.Key(), s.consumer.obj.spec)} else s.effects
    case ConsumerRevert(_, happened) =>
      if happened then s.effects - {(s.consumer.todo[0].Key(), s.consumer.todo[0].spec)} else s.effects
    case _ => s.effects
  }

  ghost function Next(c: Config, s: System, step: Step): System
    requires Enabled(c, s, step)
  {
    System(Objects'(c, s, step), Applied'(c, s, step), Effects'(c, s, step), OwnerPc'(c, s, step), ConsumerPc'(c, s, step))
  }

  /** `steps` can be taken in order from `s`. */
  ghost predicate IsRun(c: Config, s: System, steps: seq<Step>)
    decreases |steps|
  {
    steps == [] || (Enabled(c, s, steps[0]) && IsRun(c, Next(c, s, steps[0]), steps[1..]))
  }

  ghost function After(c: Config, s: System, steps: seq<Step>): System
    requires IsRun(c, s, steps)
    decreases |steps|
  {
    if steps == [] then s else After(c, Next(c, s, steps[0]), steps[1..])
  }

  // ------------------------------------------------------------------ safety

  predicate Held(c: Config, s: Objects, k: Key) {
    k in s && c.finalizer in s[k].metadata.finalizers
  }

  /** Every applied key is stored and carries the finalizer, and stays so until it is reverted and released. */
  ghost predicate KeyInv(c: Config, s: System) {
    && WellKeyed(s.objects)
    && (forall k | k in s.applied :: Held(c, s.objects, k))
    && (s.consumer.Applying? ==> Held(c, s.objects, s.consumer.obj.Key()))
    && (s.consumer.Releasing? ==> s.consumer.obj.Key() !in s.applied)
  }

  /** A store call that does not remove the finalizer cannot take a held key away. */
  lemma HeldStays(c: Config, s: Objects, op: Op, k: Key)
    requires WellKeyed(s) && Held(c, s, k)
    requires op != RemoveFinalizer(k, c.finalizer)
    ensures Held(c, Perform(s, op).objects, k)
  {
  }

  /** A key held before a step is held after it, but for the one the consumer releases. */
  lemma HeldAfterStep(c: Config, s: System, step: Step, k: Key)
    requires WellKeyed(s.objects) && Enabled(c, s, step) && Held(c, s.objects, k)
    requires !(step.ConsumerRelease? && s.consumer.obj.Key() == k)
    ensures Held(c, Objects'(c, s, step), k)
  {
    hide Perform, IsListing, DesiredFor, Condemned, Held;
    var op := CallOf(c, s, step);
    if op.Some? {
      HeldStays(c, s.objects, op.value, k);
    }
  }

  /** Adding the finalizer succeeds only on a stored key, and leaves it held. */
  lemma Finalized(c: Config, s: Objects, k: Key)
    requires WellKeyed(s) && Perform(s, AddFinalizer(k, c.finalizer)).result.Ok?
    ensures Held(c, Perform(s, AddFinalizer(k, c.finalizer)).objects, k)
  {
  }

  lemma WellKeyedAfterStep(c: Config, s: System, step: Step)
    requires WellKeyed(s.objects)
    ensures WellKeyed(Objects'(c, s, step))
  {
    hide Perform;
    var op := CallOf(c, s, step);
    if op.Some? {
      PerformEvent(s.objects, op.value);
    }
  }

  /** Every step of every actor keeps it, whatever specs are asked for. */
  lemma InvStep(c: Config, s: System, step: Step)
    requires Enabled(c, s, step) && KeyInv(c, s)
    ensures KeyInv(c, Next(c, s, step))
  {
    hide Perform, IsListing, DesiredFor, Condemned, Held, WellKeyed;
    WellKeyedAfterStep(c, s, step);
    forall k | Held(c, s.objects, k) && !(step.ConsumerRelease? && s.consumer.obj.Key() == k)
      ensures Held(c, Objects'(c, s, step), k)
    {
      HeldAfterStep(c, s, step, k);
    }
    if step.ConsumerFinalize? && ResultOf(c, s, step).Ok? {
      Finalized(c, s.objects, s.consumer.todo[0].Key());
    }
  }

  lemma {:induction false} InvRun(c: Config, s: System, steps: seq<Step>)
    requires KeyInv(c, s) && IsRun(c, s, steps)
    ensures KeyInv(c, After(c, s, steps))
    decreases |steps|
  {
    hide KeyInv, Enabled, Next;
    if steps != [] {
      InvStep(c, s, steps[0]);
      InvRun(c, Next(c, s, steps[0]), steps[1..]);
    }
  }

  /**
   Finalizer safety: over every interleaving, with any updates of specs, stale snapshots and
   failing effects, each key applied and not reverted since is stored and carries the finalizer.
   */
  lemma FinalizerSafety(c: Config, steps: seq<Step>)
    requires IsRun(c, Start(), steps)
    ensures var s := After(c, Start(), steps); forall k | k in s.applied :: Held(c, s.objects, k)
  {
    InvRun(c, Start(), steps);
  }

  // ------------------------------------------------------ safety effect by effect

  /** Every effect still in force belongs to a stored resource that carries the finalizer. */
  ghost predicate Safe(c: Config, s: System) {
    forall e | e in s.effects :: Held(c, s.objects, e.0)
  }

  /** No key may be asked for with two different specs. */
  ghost predicate Functional(c: Config) {
    forall e, f | e in c.allowed && f in c.allowed && e.0 == f.0 :: e.1 == f.1
  }

  ghost predicate AllowedAll(c: Config, objs: seq<Object>) {
    forall o | o in objs :: InScope(c.scope, o.Key()) && (o.Key(), o.spec) in c.allowed
  }

  ghost predicate AllowedStore(c: Config, s: Objects) {
    WellKeyed(s) && forall k | k in s :: AllowedSpec(c, k, s[k].spec)
  }

  ghost predicate OwnerInv(c: Config, pc: OwnerPc) {
    match pc
    case Upserting(todo, _) => AllowedAll(c, todo)
    case UpsertRead(todo, _, _) => AllowedAll(c, todo)
    case _ => true
  }

  ghost predicate ConsumerInv(c: Config, s: System) {
    match s.consumer
    case ConsumerIdle => true
    case Handling(todo) => AllowedAll(c, todo)
    case Applying(obj, todo) => AllowedAll(c, [obj] + todo) && Held(c, s.objects, obj.Key())
    case Releasing(obj, todo) => AllowedAll(c, todo) && forall e | e in s.effects :: e.0 != obj.Key()
  }

  ghost predicate Inv(c: Config, s: System) {
    && AllowedStore(c, s.objects) && (forall e | e in s.effects :: e in c.allowed)
    && Safe(c, s) && OwnerInv(c, s.owner) && ConsumerInv(c, s)
  }

  ghost predicate AsksAllowed(c: Config, op: Op) {
    match op
    case Create(o) => AllowedSpec(c, o.Key(), o.spec)
    case Update(k, _, spec) => AllowedSpec(c, k, spec)
    case _ => true
  }

  lemma OpKeepsStore(c: Config, s: Objects, op: Op)
    requires AllowedStore(c, s) && AsksAllowed(c, op)
    ensures AllowedStore(c, Perform(s, op).objects)
  {
    hide InScope;
    PerformEvent(s, op);
  }

  lemma CallKeepsStore(c: Config, s: System, step: Step)
    requires Enabled(c, s, step) && Inv(c, s)
    ensures AllowedStore(c, Objects'(c, s, step))
  {
    hide Perform, AllowedStore, IsListing, DesiredFor, Condemned;
    var op := CallOf(c, s, step);
    if op.Some? {
      if step.OwnerWrite? {
        assert s.owner.todo[0] in s.owner.todo;
      }
      OpKeepsStore(c, s.objects, op.value);
    }
  }

  lemma ListingAllowed(c: Config, s: Objects, listing: seq<Object>)
    requires AllowedStore(c, s) && IsListing(s, c.scope.namespace, c.scope.typ, listing)
    ensures AllowedAll(c, listing)
  {
  }

  lemma TailAllowed(c: Config, todo: seq<Object>)
    requires AllowedAll(c, todo) && todo != []
    ensures AllowedAll(c, todo[1..]) && AllowedAll(c, [todo[0]] + todo[1..])
  {
  }

  lemma SafeStep(c: Config, s: System, step: Step)
    requires Functional(c) && Enabled(c, s, step) && Inv(c, s)
    ensures Safe(c, Next(c, s, step))
    ensures s.consumer.Applying? && !step.ConsumerApply? ==> Held(c, Next(c, s, step).objects, s.consumer.obj.Key())
  {
    hide Perform, IsListing, DesiredFor, Condemned, Held, AllowedStore, ResultOf;
    StoreIsKeyed(c, s.objects);
    forall k | Held(c, s.objects, k) && !(step.ConsumerRelease? && s.consumer.obj.Key() == k)
      ensures Held(c, Objects'(c, s, step), k)
    {
      HeldAfterStep(c, s, step, k);
    }
  }

  lemma StoreIsKeyed(c: Config, s: Objects)
    requires AllowedStore(c, s)
    ensures WellKeyed(s)
  {
  }

  lemma ConsumerInvStep(c: Config, s: System, step: Step)
    requires Functional(c) && Enabled(c, s, step) && Inv(c, s)
    ensures ConsumerInv(c, Next(c, s, step))
  {
    SafeStep(c, s, step);
    match step
    case ConsumerStart(listing) => ListingAllowed(c, s.objects, listing);
    case ConsumerFinalize => TailAllowed(c, s.consumer.todo);
    case ConsumerRevert(ok, _) => TailAllowed(c, s.consumer.todo);
      assert s.consumer.todo[0] in s.consumer.todo;
    case ConsumerApply(_, _) =>
      assert forall o | o in s.consumer.todo :: o in [s.consumer.obj] + s.consumer.todo;
    case _ =>
  }

  lemma EffectInvStep(c: Config, s: System, step: Step)
    requires Functional(c) && Enabled(c, s, step) && Inv(c, s)
    ensures Inv(c, Next(c, s, step))
  {
    CallKeepsStore(c, s, step);
    SafeStep(c, s, step);
    ConsumerInvStep(c, s, step);
    match step
    case OwnerWrite => TailAllowed(c, s.owner.todo);
    case ConsumerApply(_, _) => assert s.consumer.obj in [s.consumer.obj] + s.consumer.todo;
    case _ =>
  }

  lemma {:induction false} EffectInvRun(c: Config, s: System, steps: seq<Step>)
    requires Functional(c) && Inv(c, s) && IsRun(c, s, steps)
    ensures Inv(c, After(c, s, steps))
    decreases |steps|
  {
    if steps != [] {
      EffectInvStep(c, s, steps[0]);
      EffectInvRun(c, Next(c, s, steps[0]), steps[1..]);
    }
  }

  /** While each key is only ever asked for with one spec, no single effect outlives its finalizer either. */
  lemma EffectSafety(c: Config, steps: seq<Step>)
    requires Functional(c) && IsRun(c, Start(), steps)
    ensures Safe(c, After(c, Start(), steps))
  {
    EffectInvRun(c, Start(), steps);
  }

  // ------------------------------------------- the condition is necessary

  ghost predicate Reaches(c: Config, s: System, t: System) {
    exists steps :: IsRun(c, s, steps) && After(c, s, steps) == t
  }

  lemma {:induction false} RunSnoc(c: Config, s: System, steps: seq<Step>, step: Step)
    requires IsRun(c, s, steps) && Enabled(c, After(c, s, steps), step)
    ensures IsRun(c, s, steps + [step])
    ensures After(c, s, steps + [step]) == Next(c, After(c, s, steps), step)
    decreases |steps|
  {
    if steps == [] {
      assert (steps + [step])[1..] == [];
    } else {
      RunSnoc(c, Next(c, s, steps[0]), steps[1..], step);
      assert (steps + [step])[1..] == steps[1..] + [step];
    }
  }

  /** Extend a run by one step. */
  lemma Take(c: Config, s: System, t: System, step: Step) returns (u: System)
    requires Reaches(c, s, t) && Enabled(c, t, step)
    ensures Reaches(c, s, u) && u == Next(c, t, step)
  {
    var steps :| IsRun(c, s, steps) && After(c, s, steps) == t;
    RunSnoc(c, s, steps, step);
    u := Next(c, t, step);
  }

  /** Between passes, with a single stored object. */
  predicate Quiet(s: System, x: Object) {
    s.objects == map[x.Key() := x] && s.owner.OwnerIdle? && s.consumer.ConsumerIdle?
  }

  function Raised(x: Object): Object {
    x.(metadata := x.metadata.(version := x.metadata.version + 1))
  }

  /** The upsert half of an owner pass that wants exactly `want`; `got` is what it finds under that key. */
  lemma UpsertPass(c: Config, t: System, want: Object, got: Option<Object>) returns (u: System, x: Object)
    requires Reaches(c, Start(), t) && t.owner.OwnerIdle? && t.consumer.ConsumerIdle?
    requires InScope(c.scope, want.Key()) && (want.Key(), want.spec) in c.allowed
    requires match got case None => t.objects == map[] case Some(y) => y.Key() == want.Key() && t.objects == map[y.Key() := y]
    ensures Some(x) == UpsertAt(c.scope.owner, got, Some(want)) && x.Key() == want.Key()
    ensures Reaches(c, Start(), u) && u == System(map[x.Key() := x], t.applied, t.effects, Upserting([], {want.metadata.id}), ConsumerIdle)
  {
    hide Reaches;
    x := UpsertAt(c.scope.owner, got, Some(want)).value;
    assert want in [want];
    u := Take(c, Start(), t, OwnerStart([want]));
    assert u.owner.ids == {want.metadata.id};
    u := Take(c, Start(), u, OwnerRead);
    assert u.owner.got == got;
    var v := u;
    u := Take(c, Start(), v, OwnerWrite);
    assert v.owner.todo[1..] == [];
    assert u.objects == map[x.Key() := x];
    assert u.owner == Upserting([], {want.metadata.id});
  }

  /** An owner pass that wants exactly `want`. */
  lemma OwnerPass(c: Config, t: System, want: Object, got: Option<Object>) returns (u: System, x: Object)
    requires Reaches(c, Start(), t) && t.owner.OwnerIdle? && t.consumer.ConsumerIdle?
    requires InScope(c.scope, want.Key()) && (want.Key(), want.spec) in c.allowed
    requires match got case None => t.objects == map[] case Some(y) => y.Key() == want.Key() && t.objects == map[y.Key() := y]
    ensures Reaches(c, Start(), u) && Quiet(u, x) && u.effects == t.effects
    ensures Some(x) == UpsertAt(c.scope.owner, got, Some(want))
  {
    hide Reaches, UpsertAt, Perform;
    u, x := UpsertPass(c, t, want, got);
    u := Take(c, Start(), u, OwnerList([x]));
    u := Take(c, Start(), u, OwnerCollect);
    u := Take(c, Start(), u, OwnerCollect);
  }

  lemma ConsumerPass(c: Config, t: System, x: Object) returns (u: System)
    requires Reaches(c, Start(), t) && Quiet(t, x)
    requires InScope(c.scope, x.Key()) && x.metadata.phase == Running && c.finalizer !in x.metadata.finalizers
    ensures Reaches(c, Start(), u) && u.effects == t.effects + {(x.Key(), x.spec)}
    ensures Quiet(u, Raised(x.(metadata := x.metadata.(finalizers := x.metadata.finalizers + [c.finalizer]))))
  {
    hide Reaches;
    u := Take(c, Start(), t, ConsumerStart([x]));
    u := Take(c, Start(), u, ConsumerFinalize);
    u := Take(c, Start(), u, ConsumerApply(true, true));
    u := Take(c, Start(), u, ConsumerFinish);
  }

  lemma DropPass(c: Config, t: System, x: Object) returns (u: System)
    requires Reaches(c, Start(), t) && Quiet(t, x)
    requires InScope(c.scope, x.Key()) && x.metadata.phase == Running && x.metadata.owner == Some(c.scope.owner)
    requires x.metadata.finalizers != []
    ensures Reaches(c, Start(), u) && u.effects == t.effects
    ensures Quiet(u, Raised(x.(metadata := x.metadata.(phase := TearingDown))))
  {
    hide Reaches;
    u := Take(c, Start(), t, OwnerStart([]));
    u := Take(c, Start(), u, OwnerList([x]));
    u := Take(c, Start(), u, OwnerCollect);
    u := Take(c, Start(), u, OwnerCollect);
  }

  lemma RevertPass(c: Config, t: System, x: Object) returns (u: System)
    requires Reaches(c, Start(), t) && Quiet(t, x)
    requires InScope(c.scope, x.Key()) && x.metadata.phase == TearingDown && c.finalizer in x.metadata.finalizers
    ensures Reaches(c, Start(), u) && u.effects == t.effects - {(x.Key(), x.spec)} && !Held(c, u.objects, x.Key())
  {
    hide Reaches;
    u := Take(c, Start(), t, ConsumerStart([x]));
    u := Take(c, Start(), u, ConsumerRevert(true, true));
    u := Take(c, Start(), u, ConsumerRelease);
  }

  /** If some key may be asked for with two specs, a run of plain passes leaks the first effect. */
  lemma SpecChangeLeaks(c: Config, k: Key, r1: Resource, r2: Resource)
    requires ScopedConfig(c) && (k, r1) in c.allowed && (k, r2) in c.allowed && r1 != r2
    ensures exists steps :: IsRun(c, Start(), steps) && !Safe(c, After(c, Start(), steps))
  {
    var want1 := Object(Metadata(k.namespace, k.typ, k.id, 0, None, [], Running), r1);
    assert IsRun(c, Start(), []) && After(c, Start(), []) == Start();
    var t, x := OwnerPass(c, Start(), want1, None);
    t := ConsumerPass(c, t, x);
    x := Raised(x.(metadata := x.metadata.(finalizers := x.metadata.finalizers + [c.finalizer])));
    t, x := OwnerPass(c, t, want1.(spec := r2), Some(x));
    t := DropPass(c, t, x);
    t := RevertPass(c, t, Raised(x.(metadata := x.metadata.(phase := TearingDown))));
    assert (k, r1) in t.effects && !Safe(c, t);
  }

  /** Every interleaving is safe if and only if writers never change the spec of a key. */
  lemma SafetyIffFunctional(c: Config)
    requires ScopedConfig(c)
    ensures Functional(c) <==> forall steps | IsRun(c, Start(), steps) :: Safe(c, After(c, Start(), steps))
  {
    if Functional(c) {
      forall steps | IsRun(c, Start(), steps) ensures Safe(c, After(c, Start(), steps)) {
        EffectSafety(c, steps);
      }
    } else {
      var e, f :| e in c.allowed && f in c.allowed && e.0 == f.0 && e.1 != f.1;
      SpecChangeLeaks(c, e.0, e.1, f.1);
    }
  }
}
