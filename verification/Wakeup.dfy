/**
 One controller loop fed by the store's bounded broadcast channel. Store calls happen at
 any moment, each event is sent some time after its mutation, and a slow receiver is
 overrun and told that it lagged.
 */
module Wakeup {
  import opened Resources
  import opened Store

  const CHANNEL_CAPACITY: nat := 1024

  datatype Input = Input(namespace: string, typ: ResourceType)

  datatype Pc =
    | Unsubscribed
    | Due             // committed: the next thing it does is reconcile
    | Reconciling
    | Selecting       // waiting for shutdown, a tick or an event
    | Debouncing      // woken, sleeping out the debounce window
    | Draining        // discarding whatever is queued
    | Stopped

  /**
   `log` holds the events in mutation order; `unsent` are the positions whose emit is still
   to come; `channel` holds positions in send order, and the receiver reads from `cursor`.
   `covered` and `seen` are the log length and the store when the last reconcile began.
   */
  datatype World = World(
    objects: Objects,
    log: seq<Event>,
    unsent: set<nat>,
    channel: seq<nat>,
    cursor: nat,
    pc: Pc,
    covered: nat,
    seen: Objects)

  datatype Step =
    | Mutate(op: Op)
    | Emit(m: nat)
    | Subscribe
    | BeginReconcile
    | EndReconcile
    | Tick
    | RecvEvent
    | RecvLagged
    | EndDebounce
    | DrainOne
    | DrainStop
    | Shutdown

  function Boot(objects: Objects): World {
    World(objects, [], {}, [], 0, Unsubscribed, 0, objects)
  }

  predicate MatchesInputs(inputs: seq<Input>, e: Event) {
    exists i :: 0 <= i < |inputs| && inputs[i].typ == e.obj.metadata.typ && inputs[i].namespace == e.obj.metadata.namespace
  }

  lemma MatchIff(inputs: seq<Input>, e: Event)
    ensures MatchesInputs(inputs, e) <==> Input(e.obj.metadata.namespace, e.obj.metadata.typ) in inputs
  {
    if MatchesInputs(inputs, e) {
      var i :| 0 <= i < |inputs| && inputs[i].typ == e.obj.metadata.typ && inputs[i].namespace == e.obj.metadata.namespace;
      assert inputs[i] == Input(e.obj.metadata.namespace, e.obj.metadata.typ);
    }
  }

  /** The slot the receiver would read next has been overwritten. */
  predicate Lagged(w: World) {
    w.cursor + CHANNEL_CAPACITY < |w.channel|
  }

  predicate Readable(w: World) {
    w.cursor < |w.channel| && !Lagged(w)
  }

  predicate Enabled(w: World, step: Step) {
    match step
    case Mutate(_) => true
    case Emit(m) => m in w.unsent
    case Subscribe => w.pc.Unsubscribed?
    case BeginReconcile => w.pc.Due?
    case EndReconcile => w.pc.Reconciling?
    case Tick => w.pc.Selecting?
    case RecvEvent => w.pc.Selecting? && Readable(w) && w.channel[w.cursor] < |w.log|
    case RecvLagged => w.pc.Selecting? && Lagged(w)
    case EndDebounce => w.pc.Debouncing?
    case DrainOne => w.pc.Draining? && Readable(w)
    case DrainStop => w.pc.Draining? && !Readable(w)
    case Shutdown => w.pc.Selecting?
  }

  function Next(inputs: seq<Input>, w: World, step: Step): World
    requires Enabled(w, step)
  {
    match step
    case Mutate(op) =>
      var o := Perform(w.objects, op);
      if o.event.None? then w.(objects := o.objects)
      else w.(objects := o.objects, log := w.log + [o.event.value], unsent := w.unsent + {|w.log|})
    case Emit(m) => w.(unsent := w.unsent - {m}, channel := w.channel + [m])
    case Subscribe => w.(cursor := |w.channel|, pc := Due)
    case BeginReconcile => w.(pc := Reconciling, covered := |w.log|, seen := w.objects)
    case EndReconcile => w.(pc := Selecting)
    case Tick => w.(pc := Due)
    case RecvEvent =>
      var e := w.log[w.channel[w.cursor]];
      w.(cursor := w.cursor + 1, pc := if MatchesInputs(inputs, e) then Debouncing else Selecting)
    case RecvLagged => w.(cursor := |w.channel| - CHANNEL_CAPACITY, pc := Debouncing)
    case EndDebounce => w.(pc := Draining)
    case DrainOne => w.(cursor := w.cursor + 1)
    // an empty or a lagged receiver ends the drain; a lagged one is also moved forward
    case DrainStop => w.(cursor := if Lagged(w) then |w.channel| - CHANNEL_CAPACITY else w.cursor, pc := Due)
    case Shutdown => w.(pc := Stopped)
  }

  predicate IsRun(inputs: seq<Input>, w: World, steps: seq<Step>)
    decreases |steps|
  {
    steps == [] || (Enabled(w, steps[0]) && IsRun(inputs, Next(inputs, w, steps[0]), steps[1..]))
  }

  function After(inputs: seq<Input>, w: World, steps: seq<Step>): World
    requires IsRun(inputs, w, steps)
    decreases |steps|
  {
    if steps == [] then w else After(inputs, Next(inputs, w, steps[0]), steps[1..])
  }

  // ----------------------------------------------------------- no lost wake-up

  /** A reconcile will begin without any further event. */
  predicate Committed(w: World) {
    w.pc.Unsubscribed? || w.pc.Due? || w.pc.Debouncing? || w.pc.Draining?
  }

  /** Mutation `m` is in the channel, not yet read and not overwritten. */
  ghost predicate Queued(w: World, m: nat) {
    exists j :: w.cursor <= j < |w.channel| && |w.channel| - CHANNEL_CAPACITY <= j && w.channel[j] == m
  }

  /** Mutation `m` matters to the controller and no reconcile has begun since. */
  ghost predicate Uncovered(inputs: seq<Input>, w: World, m: nat) {
    w.covered <= m < |w.log| && MatchesInputs(inputs, w.log[m])
  }

  ghost predicate Pending(inputs: seq<Input>, w: World, m: nat) {
    m in w.unsent || Queued(w, m) || Lagged(w) || Committed(w) || w.pc.Stopped?
  }

  ghost predicate Inv(inputs: seq<Input>, w: World) {
    && WellKeyed(w.objects) && w.covered <= |w.log| && w.cursor <= |w.channel|
    && (forall m | m in w.unsent :: m < |w.log|)
    && (forall j | 0 <= j < |w.channel| :: w.channel[j] < |w.log|)
    && Replay(w.seen, w.log[w.covered..]) == w.objects
    && (forall m | Uncovered(inputs, w, m) :: Pending(inputs, w, m))
  }

  lemma ReplaySnoc(s: Objects, es: seq<Event>, e: Event)
    ensures Replay(s, es + [e]) == ApplyEvent(Replay(s, es), e)
  {
    assert (es + [e])[..|es|] == es;
  }

  /** The frame part of the invariant. */
  lemma FrameStep(inputs: seq<Input>, w: World, step: Step)
    requires Enabled(w, step) && Inv(inputs, w)
    ensures var w' := Next(inputs, w, step);
      && WellKeyed(w'.objects) && w'.covered <= |w'.log| && w'.cursor <= |w'.channel|
      && (forall m | m in w'.unsent :: m < |w'.log|)
      && (forall j | 0 <= j < |w'.channel| :: w'.channel[j] < |w'.log|)
      && Replay(w'.seen, w'.log[w'.covered..]) == w'.objects
  {
    match step
    case Mutate(op) =>
      PerformEvent(w.objects, op);
      var o := Perform(w.objects, op);
      if o.event.Some? {
        var tail := w.log[w.covered..];
        ReplaySnoc(w.seen, tail, o.event.value);
        assert (w.log + [o.event.value])[w.covered..] == tail + [o.event.value];
      }
    case BeginReconcile =>
      assert w.log[|w.log|..] == [];
    case _ =>
  }

  lemma PendingStep(inputs: seq<Input>, w: World, step: Step, m: nat)
    requires Enabled(w, step) && Inv(inputs, w) && Uncovered(inputs, Next(inputs, w, step), m)
    ensures Pending(inputs, Next(inputs, w, step), m)
  {
    hide Perform, MatchesInputs, Replay, WellKeyed;
    var w' := Next(inputs, w, step);
    if m < |w.log| {
      assert w'.log[m] == w.log[m];
      assert Uncovered(inputs, w, m) && Pending(inputs, w, m);
      if step.Emit? {
        assert w'.channel[|w.channel|] == step.m;
        assert Queued(w', step.m);
      }
      if Queued(w, m) {
        var j :| w.cursor <= j < |w.channel| && |w.channel| - CHANNEL_CAPACITY <= j && w.channel[j] == m;
        assert w'.channel[j] == m;
      }
    }
  }

  lemma InvStep(inputs: seq<Input>, w: World, step: Step)
    requires Enabled(w, step) && Inv(inputs, w)
    ensures Inv(inputs, Next(inputs, w, step))
  {
    FrameStep(inputs, w, step);
    forall m | Uncovered(inputs, Next(inputs, w, step), m)
      ensures Pending(inputs, Next(inputs, w, step), m)
    {
      PendingStep(inputs, w, step, m);
    }
  }

  lemma {:induction false} InvRun(inputs: seq<Input>, w: World, steps: seq<Step>)
    requires Inv(inputs, w) && IsRun(inputs, w, steps)
    ensures Inv(inputs, After(inputs, w, steps))
    decreases |steps|
  {
    if steps != [] {
      InvStep(inputs, w, steps[0]);
      InvRun(inputs, Next(inputs, w, steps[0]), steps[1..]);
    }
  }

  /**
   No lost wake-up: in every interleaving, a relevant mutation that no reconcile has begun
   after is still to be emitted, is queued, is behind a lag report, or the loop is already
   on its way to reconcile (or was shut down).
   */
  lemma NoLostWakeup(inputs: seq<Input>, objects: Objects, steps: seq<Step>, m: nat)
    requires WellKeyed(objects) && IsRun(inputs, Boot(objects), steps)
    requires Uncovered(inputs, After(inputs, Boot(objects), steps), m)
    ensures Pending(inputs, After(inputs, Boot(objects), steps), m)
  {
    InvRun(inputs, Boot(objects), steps);
  }

  // ------------------------------------------------------------ no needless wake-up

  /** What wakes a parked loop: a tick, a lag report, or an event of one of its own inputs. */
  predicate Wakes(inputs: seq<Input>, w: World, step: Step)
    requires Enabled(w, step)
  {
    || step.Tick? || step.RecvLagged?
    || (step.RecvEvent? && var o := w.log[w.channel[w.cursor]].obj; Input(o.metadata.namespace, o.metadata.typ) in inputs)
  }

  predicate Woken(inputs: seq<Input>, w: World, steps: seq<Step>)
    requires IsRun(inputs, w, steps)
    decreases |steps|
  {
    steps != [] && (Wakes(inputs, w, steps[0]) || Woken(inputs, Next(inputs, w, steps[0]), steps[1..]))
  }

  predicate Parked(w: World) {
    w.pc.Reconciling? || w.pc.Selecting? || w.pc.Stopped?
  }

  lemma WakesIff(inputs: seq<Input>, w: World, step: Step)
    requires Enabled(w, step) && Parked(w)
    ensures Committed(Next(inputs, w, step)) <==> Wakes(inputs, w, step)
    ensures Committed(Next(inputs, w, step)) || Parked(Next(inputs, w, step))
  {
    if step.RecvEvent? {
      MatchIff(inputs, w.log[w.channel[w.cursor]]);
    }
  }

  /** Once a reconcile has begun, no run commits the loop to another one without something that wakes it. */
  lemma {:induction false} NoNeedlessReconcile(inputs: seq<Input>, w: World, steps: seq<Step>)
    requires IsRun(inputs, w, steps) && Parked(w) && !Woken(inputs, w, steps)
    ensures Parked(After(inputs, w, steps))
    decreases |steps|
  {
    hide Enabled, Next, Wakes;
    if steps != [] {
      WakesIff(inputs, w, steps[0]);
      NoNeedlessReconcile(inputs, Next(inputs, w, steps[0]), steps[1..]);
    }
  }

  // -------------------------------------------------- level-triggered: what it saw

  predicate Watched(inputs: seq<Input>, k: Key) {
    exists i :: 0 <= i < |inputs| && inputs[i].typ == k.typ && inputs[i].namespace == k.namespace
  }

  /** Nothing in flight and the loop parked. */
  predicate Idle(w: World) {
    w.pc.Selecting? && w.unsent == {} && w.cursor == |w.channel|
  }

  lemma {:induction false} IrrelevantEvents(inputs: seq<Input>, s: Objects, es: seq<Event>, k: Key)
    requires Watched(inputs, k) && forall i | 0 <= i < |es| :: !MatchesInputs(inputs, es[i])
    ensures Lookup(Replay(s, es), k) == Lookup(s, k)
  {
    if es != [] {
      IrrelevantEvents(inputs, s, es[..|es|-1], k);
      assert !MatchesInputs(inputs, es[|es|-1]);
    }
  }

  /** Whenever the loop is at rest, its last reconcile began on the inputs as they are now. */
  lemma AtRestUpToDate(inputs: seq<Input>, objects: Objects, steps: seq<Step>, k: Key)
    requires WellKeyed(objects) && IsRun(inputs, Boot(objects), steps)
    requires Idle(After(inputs, Boot(objects), steps)) && Watched(inputs, k)
    ensures var w := After(inputs, Boot(objects), steps); Lookup(w.seen, k) == Lookup(w.objects, k)
  {
    InvRun(inputs, Boot(objects), steps);
    var w := After(inputs, Boot(objects), steps);
    var es := w.log[w.covered..];
    forall i | 0 <= i < |es|
      ensures !MatchesInputs(inputs, es[i])
    {
      if MatchesInputs(inputs, es[i]) {
        assert Uncovered(inputs, w, w.covered + i);
      }
    }
    IrrelevantEvents(inputs, w.seen, es, k);
  }

  // ------------------------------------------------------------------- progress

  function Rank(pc: Pc): nat {
    match pc
    case Reconciling => 5
    case Selecting => 4
    case Debouncing => 3
    case Draining => 2
    case Unsubscribed => 2
    case Due => 1
    case Stopped => 0
  }

  /** How many steps can pass before a reconcile begins, if nothing new is mutated. */
  function Distance(w: World): int {
    6 * (2 * |w.unsent| + (|w.channel| - w.cursor)) + Rank(w.pc)
  }

  predicate Internal(step: Step) {
    !step.Mutate? && !step.Shutdown? && !step.BeginReconcile?
  }

  lemma InternalStepApproaches(inputs: seq<Input>, w: World, step: Step)
    requires Inv(inputs, w) && Enabled(w, step) && Internal(step)
    ensures Distance(Next(inputs, w, step)) < Distance(w)
  {
    if step.Emit? {
      assert |w.unsent - {step.m}| == |w.unsent| - 1;
    }
  }

  /** While a relevant mutation is uncovered the system is never stuck short of a reconcile. */
  lemma UncoveredMeansEnabled(inputs: seq<Input>, w: World, m: nat)
    requires Inv(inputs, w) && Uncovered(inputs, w, m) && !w.pc.Stopped?
    ensures exists step :: Enabled(w, step) && (Internal(step) || step.BeginReconcile?) && !step.Tick?
  {
    match w.pc
    case Unsubscribed => assert Enabled(w, Subscribe);
    case Due => assert Enabled(w, BeginReconcile);
    case Reconciling => assert Enabled(w, EndReconcile);
    case Debouncing => assert Enabled(w, EndDebounce);
    case Draining => assert Enabled(w, DrainOne) || Enabled(w, DrainStop);
    case Selecting =>
      assert Pending(inputs, w, m);
      if m in w.unsent {
        assert Enabled(w, Emit(m));
      } else {
        assert Enabled(w, RecvLagged) || Enabled(w, RecvEvent);
      }
  }

  /** Once mutations stop, a reconcile begins within `Distance` steps, whatever the schedule. */
  lemma {:induction false} ReconcileWithinDistance(inputs: seq<Input>, w: World, steps: seq<Step>)
    requires Inv(inputs, w) && IsRun(inputs, w, steps) && |steps| > Distance(w)
    requires forall i | 0 <= i < |steps| :: !steps[i].Mutate? && !steps[i].Shutdown?
    ensures exists i :: 0 <= i < |steps| && steps[i].BeginReconcile?
    decreases |steps|
  {
    if !steps[0].BeginReconcile? {
      InternalStepApproaches(inputs, w, steps[0]);
      InvStep(inputs, w, steps[0]);
      var w', rest := Next(inputs, w, steps[0]), steps[1..];
      ReconcileWithinDistance(inputs, w', rest);
      var i :| 0 <= i < |rest| && rest[i].BeginReconcile?;
      assert steps[i + 1].BeginReconcile?;
    }
  }
}
