/**
 What the wake-up machine's parts do: the store and its log, the channel, the receiver and
 one round of the loop.
 */
module WakeupLoop {
  import opened Resources
  import opened Store
  import opened Wakeup

  // ------------------------------------------------------------------ store and channel

  function OpsOf(steps: seq<Step>): seq<Op> {
    if steps == [] then []
    else OpsOf(steps[..|steps|-1]) + if steps[|steps|-1].Mutate? then [steps[|steps|-1].op] else []
  }

  lemma {:induction false} RunFront(inputs: seq<Input>, w: World, steps: seq<Step>)
    requires IsRun(inputs, w, steps) && steps != []
    ensures var front := steps[..|steps|-1];
      && IsRun(inputs, w, front) && Enabled(After(inputs, w, front), steps[|steps|-1])
      && After(inputs, w, steps) == Next(inputs, After(inputs, w, front), steps[|steps|-1])
    decreases |steps|
  {
    hide Enabled, Next;
    var front := steps[..|steps|-1];
    if front != [] {
      assert steps[1..][..|steps|-2] == front[1..];
      RunFront(inputs, Next(inputs, w, steps[0]), steps[1..]);
    }
  }

  lemma LogStep(inputs: seq<Input>, w: World, step: Step)
    requires Enabled(w, step)
    ensures var w' := Next(inputs, w, step);
      if step.Mutate? then
        w'.objects == Perform(w.objects, step.op).objects && w'.log == w.log + EventsOf(Perform(w.objects, step.op))
      else w'.objects == w.objects && w'.log == w.log
  {
    hide Perform;
  }

  /** In every run the store is what the calls made of it, and the log holds their events in order. */
  lemma {:induction false} LogIsFaithful(inputs: seq<Input>, objects: Objects, steps: seq<Step>)
    requires IsRun(inputs, Boot(objects), steps)
    ensures var w := After(inputs, Boot(objects), steps);
      w.objects == Exec(objects, OpsOf(steps)) && w.log == Emitted(objects, OpsOf(steps))
    decreases |steps|
  {
    hide Perform, Enabled, Next, EventsOf;
    if steps != [] {
      var front, last := steps[..|steps|-1], steps[|steps|-1];
      RunFront(inputs, Boot(objects), steps);
      LogIsFaithful(inputs, objects, front);
      hide IsRun, After;
      LogStep(inputs, After(inputs, Boot(objects), front), last);
      if last.Mutate? {
        var ops := OpsOf(front) + [last.op];
        assert ops[..|ops|-1] == OpsOf(front);
      } else {
        assert OpsOf(steps) == OpsOf(front);
      }
    }
  }

  /** Each logged event is still unsent or sent exactly once. */
  ghost predicate SentOnce(w: World) {
    && (forall m :: m in w.unsent || m in w.channel <==> 0 <= m < |w.log|)
    && (forall m | m in w.unsent :: m !in w.channel)
    && (forall i, j | 0 <= i < j < |w.channel| :: w.channel[i] != w.channel[j])
  }

  lemma {:induction false} EveryEventSentOnce(inputs: seq<Input>, objects: Objects, steps: seq<Step>)
    requires IsRun(inputs, Boot(objects), steps)
    ensures SentOnce(After(inputs, Boot(objects), steps))
    decreases |steps|
  {
    hide Perform, MatchesInputs;
    if steps != [] {
      RunFront(inputs, Boot(objects), steps);
      EveryEventSentOnce(inputs, objects, steps[..|steps|-1]);
    }
  }

  /** Any unsent event can be sent at any time, and then it is the newest on the channel. */
  lemma SendAnyTime(inputs: seq<Input>, w: World, m: nat)
    requires m in w.unsent
    ensures Enabled(w, Emit(m))
    ensures Next(inputs, w, Emit(m)) == w.(unsent := w.unsent - {m}, channel := w.channel + [m])
  {
  }

  // ---------------------------------------------------------------------- the receiver

  function Unread(w: World): int {
    |w.channel| - w.cursor
  }

  /** A subscriber sees only what is sent from then on; a lag is reported iff more than 1024 are unread, and leaves exactly 1024 to read. */
  lemma ReceiverBounds(inputs: seq<Input>, w: World)
    requires 0 <= Unread(w)
    ensures w.pc.Unsubscribed? ==> Unread(Next(inputs, w, Subscribe)) == 0
    ensures w.pc.Selecting? ==> (Enabled(w, RecvLagged) <==> Unread(w) > 1024)
    ensures Enabled(w, RecvLagged) ==> Unread(Next(inputs, w, RecvLagged)) == 1024 && Readable(Next(inputs, w, RecvLagged))
    ensures Enabled(w, DrainStop) ==> Unread(Next(inputs, w, DrainStop)) == if Unread(w) > 1024 then 1024 else 0
    ensures Enabled(w, DrainOne) <==> w.pc.Draining? && 0 < Unread(w) <= 1024
  {
  }

  /** The channel positions a run of the loop takes from the channel, in order. */
  function Taken(inputs: seq<Input>, w: World, steps: seq<Step>): seq<nat>
    requires IsRun(inputs, w, steps)
    decreases |steps|
  {
    if steps == [] then []
    else (if steps[0].RecvEvent? || steps[0].DrainOne? then [w.cursor] else []) + Taken(inputs, Next(inputs, w, steps[0]), steps[1..])
  }

  predicate NoSubscribe(steps: seq<Step>) {
    forall i | 0 <= i < |steps| :: !steps[i].Subscribe?
  }

  /** The receiver takes positions in order and at most once, and passes over one only if it has been overwritten. */
  lemma {:induction false} TakenInOrder(inputs: seq<Input>, w: World, steps: seq<Step>)
    requires IsRun(inputs, w, steps) && w.cursor <= |w.channel| && NoSubscribe(steps)
    ensures var (w', taken) := (After(inputs, w, steps), Taken(inputs, w, steps));
      && w.channel <= w'.channel && w.cursor <= w'.cursor <= |w'.channel|
      && (forall i | 0 <= i < |taken| :: w.cursor <= taken[i] < w'.cursor)
      && (forall i, j | 0 <= i < j < |taken| :: taken[i] < taken[j])
      && (forall p | w.cursor <= p < w'.cursor :: p in taken || p + 1024 < |w'.channel|)
    decreases |steps|
  {
    if steps != [] {
      var w1 := Next(inputs, w, steps[0]);
      TakeOne(inputs, w, steps[0]);
      hide Next, Enabled;
      TakenInOrder(inputs, w1, steps[1..]);
      var (w', rest) := (After(inputs, w, steps), Taken(inputs, w1, steps[1..]));
      var head := if steps[0].RecvEvent? || steps[0].DrainOne? then [w.cursor] else [];
      assert Taken(inputs, w, steps) == head + rest;
      forall p | w.cursor <= p < w'.cursor ensures p in head + rest || p + 1024 < |w'.channel| {
      }
    }
  }

  lemma TakeOne(inputs: seq<Input>, w: World, step: Step)
    requires Enabled(w, step) && w.cursor <= |w.channel| && !step.Subscribe?
    ensures var w' := Next(inputs, w, step);
      && w.channel <= w'.channel && w.cursor <= w'.cursor <= |w'.channel|
      && (step.RecvEvent? || step.DrainOne? ==> w'.cursor == w.cursor + 1)
      && (!step.RecvEvent? && !step.DrainOne? ==> w'.cursor == w.cursor || w'.cursor + 1024 <= |w'.channel|)
  {
  }

  // ------------------------------------------------------------------------- the loop

  /** `n` reads of the drain. */
  function Drain(n: nat): seq<Step> {
    seq(n, _ => DrainOne)
  }

  lemma {:induction false} Drains(inputs: seq<Input>, w: World, rest: seq<Step>)
    requires w.pc.Draining? && 0 <= Unread(w) <= 1024
    requires IsRun(inputs, w.(cursor := |w.channel|), rest)
    ensures IsRun(inputs, w, Drain(Unread(w)) + rest)
    ensures After(inputs, w, Drain(Unread(w)) + rest) == After(inputs, w.(cursor := |w.channel|), rest)
    decreases Unread(w)
  {
    hide MatchesInputs;
    var steps := Drain(Unread(w)) + rest;
    if Unread(w) == 0 {
      assert steps == rest && w.(cursor := |w.channel|) == w;
    } else {
      var w1 := Next(inputs, w, DrainOne);
      assert steps[0] == DrainOne && steps[1..] == Drain(Unread(w1)) + rest;
      Drains(inputs, w1, rest);
    }
  }

  /** Undisturbed, a woken loop waits out the debounce, empties the queue, reconciles once on the store as it is and parks. */
  lemma OneRound(inputs: seq<Input>, w: World)
    requires w.pc.Debouncing? && 0 <= Unread(w) <= 1024
    ensures var steps := [EndDebounce] + (Drain(Unread(w)) + [DrainStop, BeginReconcile, EndReconcile]);
      && IsRun(inputs, w, steps)
      && After(inputs, w, steps) == w.(pc := Selecting, cursor := |w.channel|, covered := |w.log|, seen := w.objects)
  {
    var (w1, rest) := (w.(pc := Draining), [DrainStop, BeginReconcile, EndReconcile]);
    var steps := [EndDebounce] + (Drain(Unread(w)) + rest);
    EndOfRound(inputs, w1.(cursor := |w.channel|));
    Drains(inputs, w1, rest);
    assert steps[0] == EndDebounce && steps[1..] == Drain(Unread(w1)) + rest;
  }

  lemma {:induction false} EndOfRound(inputs: seq<Input>, w: World)
    requires w.pc.Draining? && Unread(w) == 0
    ensures var rest := [DrainStop, BeginReconcile, EndReconcile];
      IsRun(inputs, w, rest) && After(inputs, w, rest) == w.(pc := Selecting, covered := |w.log|, seen := w.objects)
  {
    var w1 := w.(pc := Due);
    var w2 := w.(pc := Reconciling, covered := |w.log|, seen := w.objects);
    var w3 := w2.(pc := Selecting);
    assert Next(inputs, w, DrainStop) == w1 && Next(inputs, w1, BeginReconcile) == w2 && Next(inputs, w2, EndReconcile) == w3;
    ThreeSteps(inputs, w, DrainStop, BeginReconcile, EndReconcile);
  }

  lemma {:induction false} ThreeSteps(inputs: seq<Input>, w: World, a: Step, b: Step, c: Step)
    requires Enabled(w, a) && Enabled(Next(inputs, w, a), b) && Enabled(Next(inputs, Next(inputs, w, a), b), c)
    ensures IsRun(inputs, w, [a, b, c])
    ensures After(inputs, w, [a, b, c]) == Next(inputs, Next(inputs, Next(inputs, w, a), b), c)
  {
    hide Enabled, Next;
    var (w1, w2) := (Next(inputs, w, a), Next(inputs, Next(inputs, w, a), b));
    assert [a, b, c][1..] == [b, c] && [b, c][1..] == [c] && [c][1..] == [];
    assert IsRun(inputs, w2, [c]) && After(inputs, w2, [c]) == Next(inputs, w2, c);
    assert IsRun(inputs, w1, [b, c]) && After(inputs, w1, [b, c]) == After(inputs, w2, [c]);
  }

  /** At boot the loop subscribes, reconciles on the store it finds and parks. */
  lemma FirstRound(inputs: seq<Input>, objects: Objects)
    ensures var steps := [Subscribe, BeginReconcile, EndReconcile];
      IsRun(inputs, Boot(objects), steps) && After(inputs, Boot(objects), steps) == Boot(objects).(pc := Selecting)
  {
    ThreeSteps(inputs, Boot(objects), Subscribe, BeginReconcile, EndReconcile);
  }

  /** A call that changes the store while the loop is parked and caught up wakes it, once its event is sent, iff the event is of one of its inputs. */
  lemma EventWakes(inputs: seq<Input>, w: World, op: Op)
    requires w.pc.Selecting? && Unread(w) == 0 && Perform(w.objects, op).event.Some?
    ensures var (steps, e) := ([Mutate(op), Emit(|w.log|), RecvEvent], Perform(w.objects, op).event.value);
      && IsRun(inputs, w, steps)
      && After(inputs, w, steps).objects == Perform(w.objects, op).objects
      && (After(inputs, w, steps).pc == if Input(e.obj.metadata.namespace, e.obj.metadata.typ) in inputs then Debouncing else Selecting)
  {
    hide Perform, MatchesInputs;
    var e := Perform(w.objects, op).event.value;
    MatchIff(inputs, e);
    var w1 := Next(inputs, w, Mutate(op));
    assert |w.log| in w1.unsent && w1.log[|w.log|] == e;
    var w2 := Next(inputs, w1, Emit(|w.log|));
    assert w2.channel[w2.cursor] == |w.log|;
    ThreeSteps(inputs, w, Mutate(op), Emit(|w.log|), RecvEvent);
  }

  /** A parked loop can tick at any moment and is then due; it can be shut down at any moment and then never runs again. */
  lemma TickAndShutdown(inputs: seq<Input>, w: World)
    requires w.pc.Selecting?
    ensures Enabled(w, Tick) && Next(inputs, w, Tick) == w.(pc := Due)
    ensures Enabled(w, Shutdown) && Next(inputs, w, Shutdown) == w.(pc := Stopped)
  {
  }

  lemma {:induction false} StoppedForGood(inputs: seq<Input>, w: World, steps: seq<Step>)
    requires IsRun(inputs, w, steps) && w.pc.Stopped?
    ensures After(inputs, w, steps).pc.Stopped? && After(inputs, w, steps).seen == w.seen
    decreases |steps|
  {
    hide Perform, MatchesInputs;
    if steps != [] {
      StoppedForGood(inputs, Next(inputs, w, steps[0]), steps[1..]);
    }
  }
}
