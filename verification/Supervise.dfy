/**
 Supervising one service: gate on its dependencies, run it, apply the restart policy with
 exponential backoff, until the policy or a stop intent ends it.
 */
module Supervise {
  import opened Resources

  datatype Policy = Never | OnFailure | Always

  datatype RunOutcome = Success | Failure | Stopped

  datatype ServiceState = Preparing | Waiting | Stopped | Running | Finished | Skipped | Failed

  datatype Status = Status(state: ServiceState, healthy: bool)

  /** Durations are in nanoseconds. */
  const SECOND: nat := 1_000_000_000

  predicate ShouldRestart(policy: Policy, outcome: RunOutcome) {
    match policy
    case Never => false
    case OnFailure => outcome == Failure
    case Always => outcome != RunOutcome.Stopped
  }

  function Min(a: nat, b: nat): nat {
    if a < b then a else b
  }

  /** (delay to sleep now, next backoff) */
  function BackoffStep(current: nat, ranFor: nat): (nat, nat) {
    var delay := if ranFor >= 60 * SECOND then SECOND else current;
    (delay, Min(delay * 2, 30 * SECOND))
  }

  /** Running and healthy, or a run-once dependency that finished. */
  predicate IsReady(statuses: map<string, Status>, dep: string) {
    dep in statuses && ((statuses[dep].state == ServiceState.Running && statuses[dep].healthy) || statuses[dep].state == Finished)
  }

  // ------------------------------------------------------------ the surroundings

  /** How one run ends; a runner error counts as a failure. */
  datatype Exit = Exit(outcome: RunOutcome, ranFor: nat)

  /**
   Everything the loop does not control, by logical time: the statuses published by the other
   services, how each run ends, and when (if ever) the stop intent is set.
   */
  datatype Env = Env(statuses: nat -> map<string, Status>, exits: nat -> Exit, stopAt: Option<nat>)

  predicate StopSet(env: Env, t: nat) {
    env.stopAt.Some? && env.stopAt.value <= t
  }

  datatype Entry =
    | DepReady(attempt: nat, dep: string, at: nat)
    | Started(attempt: nat, at: nat)
    | Exited(attempt: nat, exit: Exit)
    | SleptFor(attempt: nat, delay: nat)
    | PublishedStopped(at: nat)

  // -------------------------------------------------------------- what is promised

  function Pow2(n: nat): nat {
    if n == 0 then 1 else 2 * Pow2(n - 1)
  }

  /** Index of the last run of 60 s or more, or of the first run if there is none. */
  function LastReset(rans: seq<nat>): (m: nat)
    requires rans != []
    ensures m < |rans|
    ensures m > 0 ==> rans[m] >= 60 * SECOND
    ensures forall i | m < i < |rans| :: rans[i] < 60 * SECOND
  {
    if |rans| == 1 || rans[|rans|-1] >= 60 * SECOND then |rans| - 1 else LastReset(rans[..|rans|-1])
  }

  /** min(2^j, 30) seconds, with j the restarts since the last long run or since the start. */
  function DelayAfter(rans: seq<nat>): nat
    requires rans != []
  {
    Min(Pow2(|rans| - 1 - LastReset(rans)) * SECOND, 30 * SECOND)
  }

  /** How long each of the first `n` runs lasted. */
  function Rans(env: Env, n: nat): (r: seq<nat>)
    ensures |r| == n
  {
    if n == 0 then [] else Rans(env, n - 1) + [env.exits(n - 1).ranFor]
  }

  /** Each dependency was observed ready during this attempt, before position `i` of the log. */
  ghost predicate Gated(deps: seq<string>, log: seq<Entry>, i: nat, attempt: nat) {
    forall d | d in deps :: exists j :: 0 <= j < i && j < |log| && log[j].DepReady? && log[j].attempt == attempt && log[j].dep == d
  }

  ghost predicate EntryOk(env: Env, policy: Policy, deps: seq<string>, log: seq<Entry>, i: nat)
    requires i < |log|
  {
    match log[i]
    case DepReady(_, d, at) => IsReady(env.statuses(at), d)
    case Started(a, _) =>
      && Gated(deps, log, i, a)
      && (a > 0 ==>
            && ShouldRestart(policy, env.exits(a - 1).outcome)
            && Exited(a - 1, env.exits(a - 1)) in log[..i]
            && SleptFor(a - 1, DelayAfter(Rans(env, a))) in log[..i])
    case Exited(a, e) => e == env.exits(a)
    case SleptFor(a, delay) => delay == DelayAfter(Rans(env, a + 1))
    case PublishedStopped(at) => StopSet(env, at)
  }

  /** At most one run starts at or after the moment the stop intent is set. */
  ghost predicate OneLateStart(env: Env, log: seq<Entry>) {
    forall i, j | 0 <= i < j < |log| && log[i].Started? && log[j].Started? ::
      !StopSet(env, log[i].at) && log[i].at < log[j].at
  }

  ghost predicate GoodLog(env: Env, policy: Policy, deps: seq<string>, log: seq<Entry>) {
    (forall i | 0 <= i < |log| :: EntryOk(env, policy, deps, log, i)) && OneLateStart(env, log)
  }

  /** What follows an exit: a stop, or the policy's verdict. A log may end there only if the policy does not restart. */
  predicate Follows(policy: Policy, log: seq<Entry>, i: nat)
    requires i < |log|
  {
    log[i].Exited? ==>
      if i + 1 == |log| then !ShouldRestart(policy, log[i].exit.outcome)
      else log[i+1].PublishedStopped? || (log[i+1].SleptFor? && ShouldRestart(policy, log[i].exit.outcome))
  }

  ghost predicate Explained(policy: Policy, log: seq<Entry>) {
    forall i | 0 <= i < |log| :: Follows(policy, log, i)
  }

  /** The loop is over: stopped, or ended by the policy. */
  predicate Ended(policy: Policy, log: seq<Entry>) {
    log != [] && (log[|log|-1].PublishedStopped? || (log[|log|-1].Exited? && !ShouldRestart(policy, log[|log|-1].exit.outcome)))
  }

  /** Nothing holds the service back: dependencies are always ready and no one stops it. */
  ghost predicate Unhindered(env: Env, deps: seq<string>) {
    env.stopAt.None? && forall d, t | d in deps :: IsReady(env.statuses(t), d)
  }

  ghost predicate HasStarted(log: seq<Entry>, n: nat) {
    exists i :: 0 <= i < |log| && log[i].Started? && log[i].attempt == n
  }

  /** The policy restarts each of the first `k` runs. */
  ghost predicate RestartedUpTo(env: Env, policy: Policy, k: nat) {
    forall i | 0 <= i < k :: ShouldRestart(policy, env.exits(i).outcome)
  }

  /** Every start the policy allows and a round of `size` looks leaves time for has happened. */
  ghost predicate StartsAllowed(env: Env, policy: Policy, size: nat, horizon: nat, log: seq<Entry>) {
    forall k: nat | Round(k, size) + 1 < horizon && RestartedUpTo(env, policy, k) :: HasStarted(log, k)
  }

  // ------------------------------------------------- the policies, outcome by outcome

  /** The outcomes after which each policy runs the service again. */
  function Again(policy: Policy): set<RunOutcome> {
    match policy
    case Never => {}
    case OnFailure => {Failure}
    case Always => {Success, Failure}
  }

  lemma PolicyTable(policy: Policy, outcome: RunOutcome)
    ensures ShouldRestart(policy, outcome) <==> outcome in Again(policy)
  {
  }

  /**
   Under `Never` nothing starts twice; a restart follows an exit with an outcome of the policy; an
   exit with one leads to a sleep or a stop, any other ends the log or leads to a stop.
   */
  ghost predicate AsThePolicySays(policy: Policy, log: seq<Entry>) {
    && (policy == Never ==> forall i | 0 <= i < |log| && log[i].Started? :: log[i].attempt == 0)
    && (forall i | 0 <= i < |log| && log[i].Started? && log[i].attempt > 0 ::
          exists j :: 0 <= j < i && log[j].Exited? && log[j].attempt == log[i].attempt - 1 && log[j].exit.outcome in Again(policy))
    && (forall i | 0 <= i < |log| && log[i].Exited? && log[i].exit.outcome in Again(policy) ::
          i + 1 < |log| && (log[i+1].SleptFor? || log[i+1].PublishedStopped?))
    && (forall i | 0 <= i < |log| && log[i].Exited? && log[i].exit.outcome !in Again(policy) ::
          i + 1 < |log| ==> log[i+1].PublishedStopped?)
  }

  /** Each start comes after every dependency was seen finished, or running and healthy, in this attempt. */
  ghost predicate StartsGated(env: Env, deps: seq<string>, log: seq<Entry>) {
    forall i, d | 0 <= i < |log| && log[i].Started? && d in deps :: UpBefore(env, log, i, d)
  }

  ghost predicate UpBefore(env: Env, log: seq<Entry>, i: nat, d: string)
    requires i < |log| && log[i].Started?
  {
    exists j ::
      && 0 <= j < i && log[j].DepReady? && log[j].attempt == log[i].attempt && log[j].dep == d
      && SeenUp(env.statuses(log[j].at), d)
  }

  predicate SeenUp(statuses: map<string, Status>, d: string) {
    d in statuses && (statuses[d].state == Finished || statuses[d] == Status(ServiceState.Running, true))
  }

  /** `Stopped` is published, and the last start comes, only at or after the moment of the stop. */
  ghost predicate StopRespected(env: Env, log: seq<Entry>) {
    && (forall i | 0 <= i < |log| && log[i].PublishedStopped? :: env.stopAt.Some? && env.stopAt.value <= log[i].at)
    && (forall i, j | 0 <= i < j < |log| && log[i].Started? && log[j].Started? :: env.stopAt.Some? ==> log[i].at < env.stopAt.value)
  }

  lemma GateAndStopKept(env: Env, policy: Policy, deps: seq<string>, log: seq<Entry>)
    requires GoodLog(env, policy, deps, log)
    ensures StartsGated(env, deps, log) && StopRespected(env, log)
  {
    hide ShouldRestart, DelayAfter;
    forall i, d | 0 <= i < |log| && log[i].Started? && d in deps
      ensures UpBefore(env, log, i, d)
    {
      assert EntryOk(env, policy, deps, log, i);
      var j :| 0 <= j < i && j < |log| && log[j].DepReady? && log[j].attempt == log[i].attempt && log[j].dep == d;
      assert EntryOk(env, policy, deps, log, j);
      ReadyIff(env.statuses(log[j].at), d);
    }
    forall i | 0 <= i < |log| && log[i].PublishedStopped? ensures env.stopAt.Some? && env.stopAt.value <= log[i].at {
      assert EntryOk(env, policy, deps, log, i);
    }
  }

  lemma ReadyIff(statuses: map<string, Status>, d: string)
    ensures IsReady(statuses, d) <==> SeenUp(statuses, d)
  {
  }

  /** Restarts of short runs wait 1, 2, 4, 8, 16 and then always 30 seconds; a run of a minute starts over. */
  lemma DelayTable(rans: seq<nat>)
    requires rans != [] && forall i | 0 < i < |rans| :: rans[i] < 60_000_000_000
    ensures DelayAfter(rans) ==
      match |rans|
      case 1 => 1_000_000_000
      case 2 => 2_000_000_000
      case 3 => 4_000_000_000
      case 4 => 8_000_000_000
      case 5 => 16_000_000_000
      case _ => 30_000_000_000
    ensures forall ran | ran >= 60_000_000_000 :: DelayAfter(rans + [ran]) == 1_000_000_000
  {
    hide LastReset;
    assert LastReset(rans) == 0;
    assert Pow2(1) == 2 && Pow2(2) == 4 && Pow2(3) == 8 && Pow2(4) == 16 && Pow2(5) == 32;
    if |rans| > 5 {
      Pow2Grows(5, |rans| - 1);
    }
    forall ran | ran >= 60_000_000_000 ensures DelayAfter(rans + [ran]) == 1_000_000_000 {
      DelayResets(rans, ran);
    }
  }

  lemma {:induction false} Pow2Grows(m: nat, n: nat)
    requires m <= n
    ensures Pow2(m) <= Pow2(n)
  {
    if m < n {
      Pow2Grows(m, n - 1);
    }
  }

  lemma PolicyKept(env: Env, policy: Policy, deps: seq<string>, log: seq<Entry>)
    requires GoodLog(env, policy, deps, log) && Explained(policy, log)
    ensures AsThePolicySays(policy, log)
  {
    hide ShouldRestart, Again, Gated, DelayAfter;
    forall outcome ensures ShouldRestart(policy, outcome) <==> outcome in Again(policy) {
      PolicyTable(policy, outcome);
    }
    forall i | 0 <= i < |log| && log[i].Started? && log[i].attempt > 0
      ensures exists j :: 0 <= j < i && log[j].Exited? && log[j].attempt == log[i].attempt - 1 && log[j].exit.outcome in Again(policy)
    {
      assert EntryOk(env, policy, deps, log, i);
      var a := log[i].attempt;
      var j :| 0 <= j < i && log[..i][j] == Exited(a - 1, env.exits(a - 1));
      assert log[j] == Exited(a - 1, env.exits(a - 1));
    }
    if policy == Never {
      NeverAgain();
    }
    forall i | 0 <= i < |log| && log[i].Exited? ensures Follows(policy, log, i) {
    }
  }

  lemma NeverAgain()
    ensures Again(Never) == {}
  {
  }

  // -------------------------------------------------------------------- proofs

  lemma ExplainedAppend(policy: Policy, log: seq<Entry>, e: Entry)
    requires Explained(policy, log) && (log != [] ==> !log[|log|-1].Exited?)
    requires e.Exited? ==> !ShouldRestart(policy, e.exit.outcome)
    ensures Explained(policy, log + [e])
  {
    forall i | 0 <= i < |log + [e]| ensures Follows(policy, log + [e], i) {
      if i < |log| {
        assert Follows(policy, log, i);
      }
    }
  }

  /** An exit and what comes after it, appended together. */
  lemma ExplainedExit(policy: Policy, log: seq<Entry>, exited: Entry, e: Entry)
    requires Explained(policy, log) && (log != [] ==> !log[|log|-1].Exited?)
    requires exited.Exited? && (e.PublishedStopped? || (e.SleptFor? && ShouldRestart(policy, exited.exit.outcome)))
    ensures Explained(policy, log + [exited] + [e])
  {
    forall i | 0 <= i < |log| + 2 ensures Follows(policy, log + [exited] + [e], i) {
      if i < |log| {
        assert Follows(policy, log, i);
      }
    }
  }

  lemma StartedStays(log: seq<Entry>, log': seq<Entry>, n: nat)
    requires HasStarted(log, n) && log <= log'
    ensures HasStarted(log', n)
  {
    var i :| 0 <= i < |log| && log[i].Started? && log[i].attempt == n;
    assert log'[i] == log[i];
  }

  lemma CapDoubles(p: nat)
    ensures Min(Min(p * SECOND, 30 * SECOND) * 2, 30 * SECOND) == Min(2 * p * SECOND, 30 * SECOND)
  {
  }

  /** A short run after at least one other moves the delay one power of two up. */
  lemma DelayGrows(rans: seq<nat>, ran: nat)
    requires rans != [] && ran < 60 * SECOND
    ensures DelayAfter(rans + [ran]) == Min(DelayAfter(rans) * 2, 30 * SECOND)
  {
    assert (rans + [ran])[..|rans|] == rans;
    assert LastReset(rans + [ran]) == LastReset(rans);
    CapDoubles(Pow2(|rans| - 1 - LastReset(rans)));
  }

  lemma DelayResets(rans: seq<nat>, ran: nat)
    requires rans == [] || ran >= 60 * SECOND
    ensures DelayAfter(rans + [ran]) == SECOND
  {
    assert LastReset(rans + [ran]) == |rans|;
  }

  lemma DelayStep(env: Env, n: nat, backoff: nat)
    requires n == 0 ==> backoff == SECOND
    requires n > 0 ==> backoff == Min(DelayAfter(Rans(env, n)) * 2, 30 * SECOND)
    ensures BackoffStep(backoff, env.exits(n).ranFor).0 == DelayAfter(Rans(env, n + 1))
  {
    hide DelayAfter;
    var rans, ran := Rans(env, n), env.exits(n).ranFor;
    if n == 0 || ran >= 60 * SECOND {
      DelayResets(rans, ran);
    } else {
      DelayGrows(rans, ran);
    }
  }

  /** Appending an entry leaves the earlier ones as they were. */
  lemma Append(env: Env, policy: Policy, deps: seq<string>, log: seq<Entry>, e: Entry)
    requires GoodLog(env, policy, deps, log)
    requires EntryOk(env, policy, deps, log + [e], |log|)
    requires e.Started? ==> forall i | 0 <= i < |log| && log[i].Started? :: !StopSet(env, log[i].at) && log[i].at < e.at
    ensures GoodLog(env, policy, deps, log + [e])
  {
    var log' := log + [e];
    forall i | 0 <= i < |log|
      ensures EntryOk(env, policy, deps, log', i)
    {
      assert EntryOk(env, policy, deps, log, i);
      assert log'[..i] == log[..i];
      if log[i].Started? {
        forall d | d in deps
          ensures exists j :: 0 <= j < i && j < |log'| && log'[j].DepReady? && log'[j].attempt == log[i].attempt && log'[j].dep == d
        {
          var j :| 0 <= j < i && j < |log| && log[j].DepReady? && log[j].attempt == log[i].attempt && log[j].dep == d;
          assert log'[j] == log[j];
        }
      }
    }
  }

  predicate AfterExit(log: seq<Entry>) {
    log != [] && log[|log|-1].Exited?
  }

  /** Only readiness observations were added. */
  ghost predicate GateExtends(log0: seq<Entry>, log: seq<Entry>) {
    log0 <= log && forall i | |log0| <= i < |log| :: log[i].DepReady?
  }

  /**
   Poll every dependency in order until one poll finds them all ready, or until the stop
   intent is seen. Each look takes its own moment.
   */
  method Gate(env: Env, policy: Policy, deps: seq<string>, attempt: nat, t0: nat, horizon: nat, log0: seq<Entry>)
    returns (ready: bool, t: nat, log: seq<Entry>)
    requires GoodLog(env, policy, deps, log0) && Explained(policy, log0) && !AfterExit(log0)
    ensures t0 <= t && GoodLog(env, policy, deps, log) && GateExtends(log0, log)
    ensures Explained(policy, log) && !AfterExit(log)
    ensures ready ==> Gated(deps, log, |log|, attempt)
    ensures !ready ==> t >= horizon || StopSet(env, t)
    ensures ready ==> t0 < horizon
    ensures Unhindered(env, deps) && t0 < horizon ==> ready && t == t0 + |deps|
  {
    hide GoodLog, Explained;
    t, log := t0, log0;
    while t < horizon && !StopSet(env, t)
      invariant t0 <= t && GoodLog(env, policy, deps, log) && GateExtends(log0, log)
      invariant Explained(policy, log) && !AfterExit(log)
      invariant Unhindered(env, deps) ==> t == t0
      decreases horizon - t
    {
      ready := true;
      var i := 0;
      ghost var t1 := t;
      while i < |deps| && ready
        invariant 0 <= i <= |deps| && t1 + i == t && GoodLog(env, policy, deps, log) && GateExtends(log0, log)
        invariant Explained(policy, log) && !AfterExit(log)
        invariant ready ==> Gated(deps[..i], log, |log|, attempt)
        invariant !ready ==> i > 0 && !Unhindered(env, deps)
      {
        assert deps[i] in deps;
        ready := IsReady(env.statuses(t), deps[i]);
        if ready {
          var e := DepReady(attempt, deps[i], t);
          ObservedReady(env, policy, deps, log, e);
          GatedMore(deps[..i], log, e);
          assert deps[..i+1] == deps[..i] + [deps[i]];
          log := log + [e];
        }
        t := t + 1;
        i := i + 1;
      }
      if ready {
        assert deps[..i] == deps;
        return;
      }
    }
    ready := false;
  }

  lemma ObservedReady(env: Env, policy: Policy, deps: seq<string>, log: seq<Entry>, e: Entry)
    requires GoodLog(env, policy, deps, log) && Explained(policy, log) && !AfterExit(log)
    requires e.DepReady? && IsReady(env.statuses(e.at), e.dep)
    ensures GoodLog(env, policy, deps, log + [e]) && Explained(policy, log + [e]) && !AfterExit(log + [e])
  {
    Append(env, policy, deps, log, e);
    ExplainedAppend(policy, log, e);
  }

  lemma GatedMore(deps: seq<string>, log: seq<Entry>, e: Entry)
    requires e.DepReady? && Gated(deps, log, |log|, e.attempt)
    ensures Gated(deps + [e.dep], log + [e], |log| + 1, e.attempt)
  {
    var log' := log + [e];
    forall d | d in deps + [e.dep]
      ensures exists j :: 0 <= j < |log'| && log'[j].DepReady? && log'[j].attempt == e.attempt && log'[j].dep == d
    {
      if d in deps {
        var j :| 0 <= j < |log| && log[j].DepReady? && log[j].attempt == e.attempt && log[j].dep == d;
        assert log'[j] == log[j];
      } else {
        assert log'[|log|] == e;
      }
    }
  }

  /** Attempt `n - 1` ended in a way the policy restarts, and its backoff was slept. */
  ghost predicate Restartable(env: Env, policy: Policy, log: seq<Entry>, n: nat)
    requires n > 0
  {
    && ShouldRestart(policy, env.exits(n - 1).outcome)
    && Exited(n - 1, env.exits(n - 1)) in log
    && SleptFor(n - 1, DelayAfter(Rans(env, n))) in log
  }

  /** Where the loop stands at the top of attempt `n`. */
  ghost predicate LoopInv(env: Env, policy: Policy, deps: seq<string>, log: seq<Entry>, n: nat, t: nat, backoff: nat) {
    && GoodLog(env, policy, deps, log) && Explained(policy, log) && !AfterExit(log)
    && (forall i | 0 <= i < |log| && log[i].Started? :: !StopSet(env, log[i].at) && log[i].at < t)
    && (n == 0 ==> backoff == SECOND)
    && (n > 0 ==> backoff == Min(DelayAfter(Rans(env, n)) * 2, 30 * SECOND))
    && (n > 0 ==> Restartable(env, policy, log, n))
  }

  /** The second stop check fails: the run is never started, and the loop is over. */
  lemma StopEnds(env: Env, policy: Policy, deps: seq<string>, log: seq<Entry>, t: nat)
    requires GoodLog(env, policy, deps, log) && Explained(policy, log) && !AfterExit(log) && StopSet(env, t)
    ensures GoodLog(env, policy, deps, log + [PublishedStopped(t)]) && Explained(policy, log + [PublishedStopped(t)])
    ensures Ended(policy, log + [PublishedStopped(t)])
  {
    Append(env, policy, deps, log, PublishedStopped(t));
    ExplainedAppend(policy, log, PublishedStopped(t));
  }

  /** Run the service once and decide what follows; `t` is the moment of the last stop check. */
  method RunOnce(env: Env, policy: Policy, deps: seq<string>, log0: seq<Entry>, ghost log1: seq<Entry>, n: nat, t: nat, backoff: nat)
    returns (again: bool, log: seq<Entry>, next: nat)
    requires LoopInv(env, policy, deps, log1, n, t, backoff)
    requires GoodLog(env, policy, deps, log0) && GateExtends(log1, log0) && Gated(deps, log0, |log0|, n)
    requires Explained(policy, log0) && !AfterExit(log0)
    ensures GoodLog(env, policy, deps, log) && Explained(policy, log) && log0 + [Started(n, t + 1)] <= log
    ensures again ==> LoopInv(env, policy, deps, log, n + 1, t + 3, next) && !StopSet(env, t + 2)
    ensures !again ==> Ended(policy, log)
    ensures env.stopAt.None? && ShouldRestart(policy, env.exits(n).outcome) ==> again
  {
    hide Explained, DelayAfter;
    again, next := false, backoff;
    // the intent may be set between the check and the start
    StartOk(env, policy, deps, log1, log0, n, t);
    ghost var started := log0 + [Started(n, t + 1)];
    ExplainedAppend(policy, log0, Started(n, t + 1));
    log := log0 + [Started(n, t + 1)];
    var exit := env.exits(n);
    Append(env, policy, deps, log, Exited(n, exit));
    log := log + [Exited(n, exit)];
    if StopSet(env, t + 2) {
      Append(env, policy, deps, log, PublishedStopped(t + 2));
      ExplainedExit(policy, started, Exited(n, exit), PublishedStopped(t + 2));
      return false, log + [PublishedStopped(t + 2)], backoff;
    }
    if !ShouldRestart(policy, exit.outcome) {
      ExplainedAppend(policy, started, Exited(n, exit));
      return;
    }
    var (delay, nextBackoff) := BackoffStep(backoff, exit.ranFor);
    DelayStep(env, n, backoff);
    Append(env, policy, deps, log, SleptFor(n, delay));
    ExplainedExit(policy, started, Exited(n, exit), SleptFor(n, delay));
    again, log, next := true, log + [SleptFor(n, delay)], nextBackoff;
  }

  /** One turn of the loop: check, gate, check, run. */
  method Attempt(env: Env, policy: Policy, deps: seq<string>, log0: seq<Entry>, n: nat, t0: nat, backoff0: nat, horizon: nat)
    returns (again: bool, log: seq<Entry>, t: nat, backoff: nat)
    requires LoopInv(env, policy, deps, log0, n, t0, backoff0) && t0 < horizon
    ensures GoodLog(env, policy, deps, log) && Explained(policy, log) && log0 <= log
    ensures again ==> LoopInv(env, policy, deps, log, n + 1, t, backoff) && t0 < t && !StopSet(env, t - 1) && HasStarted(log, n)
    ensures !again ==> Ended(policy, log) || (horizon <= t && !StopSet(env, t))
    ensures again ==> t0 + 1 < horizon
    ensures Unhindered(env, deps) && t0 + 1 < horizon ==>
      && HasStarted(log, n)
      && (if again then t == t0 + |deps| + 4 else !ShouldRestart(policy, env.exits(n).outcome))
  {
    hide GoodLog, Explained, ShouldRestart, Gated, DelayAfter;
    again, log, t, backoff := false, log0, t0, backoff0;
    if StopSet(env, t) {
      StopEnds(env, policy, deps, log, t);
      return false, log + [PublishedStopped(t)], t, backoff;
    }
    var ready;
    ready, t, log := Gate(env, policy, deps, n, t + 1, horizon, log);
    if StopSet(env, t) {
      StopEnds(env, policy, deps, log, t);
      return false, log + [PublishedStopped(t)], t, backoff;
    }
    if !ready {
      return; // still waiting at the horizon
    }
    ghost var gated := log;
    again, log, backoff := RunOnce(env, policy, deps, log, log0, n, t, backoff);
    assert log[|gated|] == Started(n, t + 1);
    t := t + 3;
  }

  /**
   Any prefix of a supervised run: up to `horizon`, with whatever the environment does. The log
   is good and every exit is followed as the policy says; a stop set before the horizon ends the
   loop; and an unhindered service gets every start its policy allows.
   */
  method RunSupervised(env: Env, policy: Policy, deps: seq<string>, horizon: nat) returns (log: seq<Entry>)
    ensures GoodLog(env, policy, deps, log) && Explained(policy, log)
    ensures AsThePolicySays(policy, log) && StartsGated(env, deps, log) && StopRespected(env, log)
    ensures horizon > 0 && StopSet(env, horizon - 1) ==> Ended(policy, log)
    ensures Unhindered(env, deps) ==> StartsAllowed(env, policy, |deps|, horizon, log)
  {
    hide GoodLog, Explained, HasStarted, StartsAllowed, Unhindered, LoopInv, ShouldRestart, Round, AsThePolicySays, StartsGated, StopRespected;
    log := [];
    EmptyLog(env, policy, deps);
    var backoff := SECOND;
    var t, n := 0, 0;
    NextRound(n, |deps|);
    while t < horizon
      invariant LoopInv(env, policy, deps, log, n, t, backoff)
      invariant if n > 0 then t > 0 && !StopSet(env, t - 1) else t == 0
      invariant Unhindered(env, deps) ==> t == Round(n, |deps|)
      invariant forall k | 0 <= k < n :: HasStarted(log, k)
      decreases horizon - t
    {
      ghost var before, t0 := log, t;
      var again;
      again, log, t, backoff := Attempt(env, policy, deps, log, n, t, backoff, horizon);
      AllStarted(before, log, n);
      if !again {
        if Unhindered(env, deps) {
          if t0 + 1 < horizon {
            StartedUntil(env, policy, |deps|, horizon, log, n);
          } else {
            StartedBefore(env, policy, |deps|, horizon, log, n);
          }
        }
        PolicyKept(env, policy, deps, log);
        GateAndStopKept(env, policy, deps, log);
        return;
      }
      NextRound(n, |deps|);
      n := n + 1;
    }
    LoopGood(env, policy, deps, log, n, t, backoff);
    PolicyKept(env, policy, deps, log);
    GateAndStopKept(env, policy, deps, log);
    if Unhindered(env, deps) {
      StartedBefore(env, policy, |deps|, horizon, log, n);
    }
  }

  lemma LoopGood(env: Env, policy: Policy, deps: seq<string>, log: seq<Entry>, n: nat, t: nat, backoff: nat)
    requires LoopInv(env, policy, deps, log, n, t, backoff)
    ensures GoodLog(env, policy, deps, log) && Explained(policy, log)
  {
  }

  lemma EmptyLog(env: Env, policy: Policy, deps: seq<string>)
    ensures LoopInv(env, policy, deps, [], 0, 0, SECOND)
  {
  }

  lemma AllStarted(log: seq<Entry>, log': seq<Entry>, n: nat)
    requires log <= log' && forall k | 0 <= k < n :: HasStarted(log, k)
    ensures forall k | 0 <= k < n :: HasStarted(log', k)
  {
    forall k | 0 <= k < n ensures HasStarted(log', k) {
      StartedStays(log, log', k);
    }
  }

  /** When round `n` of an unhindered service with `size` dependencies begins. */
  function Round(n: nat, size: nat): nat {
    n * (size + 4)
  }

  lemma NextRound(n: nat, size: nat)
    ensures Round(0, size) == 0
    ensures Round(n + 1, size) == Round(n, size) + size + 4
  {
  }

  lemma Monotone(n: nat, k: nat, size: nat)
    requires n <= k
    ensures Round(n, size) <= Round(k, size)
  {
  }

  /** The horizon comes before round `n`, and all earlier rounds have started. */
  lemma StartedBefore(env: Env, policy: Policy, size: nat, horizon: nat, log: seq<Entry>, n: nat)
    requires horizon <= Round(n, size) + 1 && forall k | 0 <= k < n :: HasStarted(log, k)
    ensures StartsAllowed(env, policy, size, horizon, log)
  {
    hide Round;
    forall k: nat | Round(k, size) + 1 < horizon && RestartedUpTo(env, policy, k) ensures HasStarted(log, k) {
      if n <= k {
        Monotone(n, k, size);
      }
    }
  }

  /** The policy ended the loop after round `n`. */
  lemma StartedUntil(env: Env, policy: Policy, size: nat, horizon: nat, log: seq<Entry>, n: nat)
    requires !ShouldRestart(policy, env.exits(n).outcome) && forall k | 0 <= k <= n :: HasStarted(log, k)
    ensures StartsAllowed(env, policy, size, horizon, log)
  {
    hide ShouldRestart, HasStarted;
  }

  /** A start right after the gate and the second stop check keeps the log good. */
  lemma StartOk(env: Env, policy: Policy, deps: seq<string>, log1: seq<Entry>, log: seq<Entry>, n: nat, t: nat)
    requires GoodLog(env, policy, deps, log) && GateExtends(log1, log) && Gated(deps, log, |log|, n)
    requires forall i | 0 <= i < |log1| && log1[i].Started? :: !StopSet(env, log1[i].at) && log1[i].at < t
    requires n > 0 ==> Restartable(env, policy, log1, n)
    ensures GoodLog(env, policy, deps, log + [Started(n, t + 1)])
    ensures forall i | 0 <= i < |log| && log[i].Started? :: !StopSet(env, log[i].at) && log[i].at < t
  {
    var e := Started(n, t + 1);
    var log' := log + [e];
    assert log'[..|log|] == log;
    forall d | d in deps
      ensures exists j :: 0 <= j < |log| && j < |log'| && log'[j].DepReady? && log'[j].attempt == n && log'[j].dep == d
    {
      var j :| 0 <= j < |log| && log[j].DepReady? && log[j].attempt == n && log[j].dep == d;
      assert log'[j] == log[j];
    }
    Append(env, policy, deps, log, e);
  }
}
