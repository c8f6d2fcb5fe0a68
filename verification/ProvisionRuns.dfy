/** Provisioning without wipe, over every run of discovery, passes, resets and reboots. */
module ProvisionRuns {
  import opened Block
  import opened Provision
  import opened ProvisionMachine

  // ------------------------------------------------- what holds whatever discovery says

  predicate Appended(vs: seq<Volume>, m: Machine) {
    |vs| < |m.volumes|
  }

  predicate Named(calls: seq<FormatCall>, device: string) {
    exists c | c in calls :: c.device == device
  }

  /** The initial partitions, untouched but by resets, then nothing or our two. */
  ghost predicate Disks(disk: string, vs: seq<Volume>, w: World) {
    var all := w.m.volumes;
    && |vs| <= |all| && DistinctIds(all)
    && (forall i | 0 <= i < |vs| :: SamePartition(vs[i], all[i]) && (all[i] == vs[i] || Named(w.resets, vs[i].device)))
    && (Appended(vs, w.m) ==>
          && |all| == |vs| + 2
          && all[|vs|].disk == Leaf(disk) && all[|vs|].partLabel == STATE
          && all[|vs|+1].disk == Leaf(disk) && all[|vs|+1].partLabel == EPHEMERAL)
  }

  /** The passes' format calls go to the appended partitions, once each and in order. */
  ghost predicate Formats(vs: seq<Volume>, w: World) {
    && |w.m.formats| <= |w.m.volumes| - |vs|
    && (forall i, j | 0 <= i < |w.m.formats| && j == |vs| + i :: w.m.formats[i].device == w.m.volumes[j].device)
    && (!Appended(vs, w.m) ==> !w.job.Formatting?)
  }

  /** While a pass formats, exactly the partitions it is done with have a filesystem. */
  ghost predicate Progress(vs: seq<Volume>, w: World) {
    && !w.job.Creating?
    && (w.job.Formatting? ==>
          && Appended(vs, w.m) && |w.m.volumes| == |vs| + 2
          && w.job.plan == APPENDED_LAYOUT && |w.job.devices| == 2 && w.job.done <= 2 && |w.m.formats| == w.job.done
          && w.m.volumes[|vs|].device == w.job.devices[0] && w.m.volumes[|vs|+1].device == w.job.devices[1]
          && (w.m.volumes[|vs|].fs.Some? <==> 0 < w.job.done) && (w.m.volumes[|vs|+1].fs.Some? <==> 1 < w.job.done))
  }

  ghost predicate Core(s: Setup, vs: seq<Volume>, w: World) {
    Disks(s.disk, vs, w) && Formats(vs, w) && Progress(vs, w)
  }

  lemma AppendedCollides(disk: string, vs: seq<Volume>, w: World)
    requires Disks(disk, vs, w) && Appended(vs, w.m)
    ensures Collides(w.m.volumes, Leaf(disk), APPENDED_LAYOUT)
  {
    hide Leaf;
    assert w.m.volumes[|vs|] in w.m.volumes;
    assert HasName(w.m.volumes, Leaf(disk), APPENDED_LAYOUT[0].name);
  }

  /** The appending call. */
  lemma AppendCore(s: Setup, vs: seq<Volume>, w: World, devices: seq<string>, from: Statuses)
    requires Core(s, vs, w) && !Appended(vs, w.m) && Fresh(w.m.volumes, devices) && |devices| == |APPENDED_LAYOUT|
    ensures Core(s, vs, Laid(s, w, APPENDED_LAYOUT, devices, from))
    ensures Grows(w.m.volumes, Laid(s, w, APPENDED_LAYOUT, devices, from).m.volumes)
  {
    hide Leaf;
    var all, k := w.m.volumes, |vs|;
    var r := Laid(s, w, APPENDED_LAYOUT, devices, from).m.volumes;
    assert forall i | 0 <= i < k :: r[i] == all[i];
    forall i, j | 0 <= i < j < |r| ensures Leaf(r[i].device) != Leaf(r[j].device) {
      if k <= i {
        assert r[i].device == devices[0] && r[j].device == devices[1];
      } else if k <= j {
        assert r[i] in all && r[j].device in devices;
      }
    }
  }

  lemma ActCore(s: Setup, vs: seq<Volume>, w: World, devices: seq<string>, held: set<string>)
    requires Core(s, vs, w) && !s.wipe && Enabled(s, w, Act(devices, held))
    ensures Core(s, vs, Acted(s, w, devices, held))
    ensures Grows(w.m.volumes, Acted(s, w, devices, held).m.volumes)
    ensures Appended(vs, w.m) ==> Acted(s, w, devices, held).job.NoJob? && Acted(s, w, devices, held).m.volumes == w.m.volumes
  {
    hide Leaf, PlanProvisioning, StatusesFromDiscovered, Publish, Collides, Fresh, Laid;
    PlanExact(s.disk, false, w.job.seen);
    if Appended(vs, w.m) { AppendedCollides(s.disk, vs, w); }
    if DecisionOn(s, w.job.seen).CompleteLayout? && !Collides(w.m.volumes, Leaf(s.disk), APPENDED_LAYOUT) {
      AppendCore(s, vs, w, devices, StatusesFromDiscovered(s.disk, w.job.seen));
    }
  }

  lemma FormatCore(s: Setup, vs: seq<Volume>, w: World)
    requires Core(s, vs, w) && Enabled(s, w, FormatNext)
    ensures Core(s, vs, Next(s, w, FormatNext)) && Grows(w.m.volumes, Next(s, w, FormatNext).m.volumes)
  {
    hide Leaf, SetFs;
    var i, fs := |vs| + w.job.done, CallFor(w.job).fs;
    var all, all' := w.m.volumes, Next(s, w, FormatNext).m.volumes;
    assert all[i].device == CallFor(w.job).device;
    SetFsHits(all, i, fs);
    SetFsGrows(all, all[i].device, fs);
    SameIdsDistinct(all, all');
  }

  lemma ResetCore(s: Setup, vs: seq<Volume>, w: World, fails: set<string>)
    requires Core(s, vs, w) && Enabled(s, w, Reset(fails))
    ensures Core(s, vs, Next(s, w, Reset(fails))) && Grows(w.m.volumes, Next(s, w, Reset(fails)).m.volumes)
  {
    hide Leaf, AfterReset, ResetCalls;
    var all, w' := w.m.volumes, Next(s, w, Reset(fails));
    ResetGrows(all, w.m.statuses, fails);
    SameIdsDistinct(all, w'.m.volumes);
    forall i | 0 <= i < |vs| ensures SamePartition(vs[i], w'.m.volumes[i]) && (w'.m.volumes[i] == vs[i] || Named(w'.resets, vs[i].device)) {
      ResetEffect(all, w.m.statuses, fails, i);
    }
  }

  /** The machine and the pass decide; `Formatting` aside, where the pass stands does not matter. */
  lemma CoreFrame(s: Setup, vs: seq<Volume>, w: World, w': World)
    requires Core(s, vs, w) && w'.m.volumes == w.m.volumes && w'.m.formats == w.m.formats && w'.resets == w.resets
    requires w'.job == w.job || !(w'.job.Formatting? || w'.job.Creating?)
    ensures Core(s, vs, w') && Grows(w.m.volumes, w'.m.volumes)
  {
    hide Leaf, DistinctIds;
  }

  lemma ErrorCore(s: Setup, vs: seq<Volume>, w: World)
    requires Core(s, vs, w) && Enabled(s, w, FormatError)
    ensures Core(s, vs, Next(s, w, FormatError)) && Next(s, w, FormatError).m.volumes == w.m.volumes
  {
    hide Leaf, DistinctIds;
    assert w.m.volumes[|vs| + w.job.done].device == w.job.devices[w.job.done];
  }

  lemma CoreStep(s: Setup, vs: seq<Volume>, w: World, step: Step)
    requires Core(s, vs, w) && !s.wipe && Enabled(s, w, step)
    ensures Core(s, vs, Next(s, w, step)) && Grows(w.m.volumes, Next(s, w, step).m.volumes)
  {
    hide AllTruthful, Lists, Ids, Acted, DecisionOn, SetFs, AfterReset, Fresh, Core;
    NeverCreates(s, vs, w);
    match step
    case Act(devices, held) => ActCore(s, vs, w, devices, held);
    case FormatNext => FormatCore(s, vs, w);
    case FormatError => ErrorCore(s, vs, w); GrowsSelf(w.m.volumes);
    case Reset(fails) => ResetCore(s, vs, w, fails);
    case Create(_) =>
    case _ => CoreFrame(s, vs, w, Next(s, w, step));
  }

  lemma {:induction false} CoreRun(s: Setup, vs: seq<Volume>, w: World, steps: seq<Step>)
    requires Core(s, vs, w) && !s.wipe && IsRun(s, w, steps)
    ensures Core(s, vs, After(s, w, steps)) && Grows(w.m.volumes, After(s, w, steps).m.volumes)
    decreases |steps|
  {
    hide Core, Next, Enabled, Grows;
    if steps != [] {
      CoreStep(s, vs, w, steps[0]);
      CoreRun(s, vs, Next(s, w, steps[0]), steps[1..]);
      GrowsOn(w.m.volumes, Next(s, w, steps[0]).m.volumes, After(s, w, steps).m.volumes);
    } else {
      GrowsSelf(w.m.volumes);
    }
  }

  lemma GrowsSelf(vs: seq<Volume>)
    ensures Grows(vs, vs)
  {
  }

  lemma StartCore(s: Setup, vs: seq<Volume>)
    requires DistinctIds(vs)
    ensures Core(s, vs, Start(vs))
  {
  }

  /**
   Whatever discovery reports and passes list, wherever a call fails and with resets and reboots
   anywhere: no initial partition is removed or relabelled, none is changed but by a reset, no pass
   names one in a format call, and no pass formats a partition twice.
   */
  lemma SafeWithoutWipe(s: Setup, vs: seq<Volume>, steps: seq<Step>)
    requires !s.wipe && DistinctIds(vs) && IsRun(s, Start(vs), steps)
    ensures var w := After(s, Start(vs), steps);
      && |vs| <= |w.m.volumes|
      && (forall i | 0 <= i < |vs| ::
            SamePartition(vs[i], w.m.volumes[i]) && (w.m.volumes[i] == vs[i] || Named(w.resets, vs[i].device)))
      && (forall f, v | f in w.m.formats && v in vs :: f.device != v.device)
      && (forall i, j | 0 <= i < j < |w.m.formats| :: w.m.formats[i].device != w.m.formats[j].device)
  {
    hide Leaf;
    var w := After(s, Start(vs), steps);
    StartCore(s, vs);
    CoreRun(s, vs, Start(vs), steps);
    var all := w.m.volumes;
    forall f, v | f in w.m.formats && v in vs ensures f.device != v.device {
      var i :| 0 <= i < |w.m.formats| && w.m.formats[i] == f;
      var j :| 0 <= j < |vs| && vs[j] == v;
      assert SamePartition(vs[j], all[j]);
      assert Leaf(all[j].device) != Leaf(all[|vs| + i].device);
    }
    forall i, j | 0 <= i < j < |w.m.formats| ensures w.m.formats[i].device != w.m.formats[j].device {
      assert Leaf(all[|vs| + i].device) != Leaf(all[|vs| + j].device);
    }
  }

  // ------------------------------------------- when an appended partition has a filesystem

  /** The step cuts the appending pass short before its partition `i` is formatted. */
  predicate Cuts(w: World, step: Step, i: nat) {
    w.job.Formatting? && w.job.done <= i && (step.GiveUp? || step.FormatError? || step.Reboot?)
  }

  ghost predicate CutShort(s: Setup, w: World, steps: seq<Step>, i: nat)
    requires IsRun(s, w, steps)
    decreases |steps|
  {
    steps != [] && (Cuts(w, steps[0], i) || CutShort(s, Next(s, w, steps[0]), steps[1..], i))
  }

  /** The step is a reset taken while the partition with this device is there and published, and its format succeeds. */
  predicate ResetsIt(w: World, step: Step, device: string) {
    step.Reset? && Formatted(w.m.statuses, step.fails, device) && exists v | v in w.m.volumes :: v.device == device
  }

  ghost predicate WasReset(s: Setup, w: World, steps: seq<Step>, device: string)
    requires IsRun(s, w, steps)
    decreases |steps|
  {
    steps != [] && (ResetsIt(w, steps[0], device) || WasReset(s, Next(s, w, steps[0]), steps[1..], device))
  }

  /** The append is over: no pass is formatting. */
  ghost predicate Settled(s: Setup, vs: seq<Volume>, w: World) {
    Core(s, vs, w) && Appended(vs, w.m) && !w.job.Formatting?
  }

  /** Once the appending pass is over only a reset changes a partition, and no pass formats again. */
  lemma SettledStep(s: Setup, vs: seq<Volume>, w: World, step: Step)
    requires Settled(s, vs, w) && !s.wipe && Enabled(s, w, step)
    ensures Settled(s, vs, Next(s, w, step)) && Next(s, w, step).m.formats == w.m.formats
    ensures !step.Reset? ==> Next(s, w, step).m.volumes == w.m.volumes
  {
    CoreStep(s, vs, w, step);
    hide Disks, Formats, Progress, Leaf, PlanProvisioning, Collides, Lists, Fresh, AfterReset;
    if step.Act? {
      ActCore(s, vs, w, step.devices, step.held);
      PlanExact(s.disk, false, w.job.seen);
    }
    if step.Reset? { ResetGrows(w.m.volumes, w.m.statuses, step.fails); }
  }

  lemma SettledReset(s: Setup, vs: seq<Volume>, w: World, step: Step, i: nat)
    requires Settled(s, vs, w) && !s.wipe && Enabled(s, w, step) && i < |w.m.volumes|
    ensures var w' := Next(s, w, step);
      && |w'.m.volumes| == |w.m.volumes| && w'.m.volumes[i].device == w.m.volumes[i].device
      && w'.m.volumes[i].fs.Some? == (w.m.volumes[i].fs.Some? || ResetsIt(w, step, w.m.volumes[i].device))
  {
    hide Formats, Progress, Leaf, AfterReset, Formatted;
    SettledStep(s, vs, w, step);
    assert w.m.volumes[i] in w.m.volumes;
    if step.Reset? {
      ResetEffect(w.m.volumes, w.m.statuses, step.fails, i);
      SameDevice(w.m.volumes, Next(s, w, step).m.volumes, i);
    }
  }

  lemma {:induction false} SettledRun(s: Setup, vs: seq<Volume>, w: World, steps: seq<Step>, i: nat, k: nat)
    requires Settled(s, vs, w) && !s.wipe && IsRun(s, w, steps) && i < |w.m.volumes|
    ensures var w' := After(s, w, steps);
      && Settled(s, vs, w') && w'.m.formats == w.m.formats && |w'.m.volumes| == |w.m.volumes|
      && w'.m.volumes[i].device == w.m.volumes[i].device
      && w'.m.volumes[i].fs.Some? == (w.m.volumes[i].fs.Some? || WasReset(s, w, steps, w.m.volumes[i].device))
    ensures !CutShort(s, w, steps, k)
    decreases |steps|
  {
    hide Next, Enabled, ResetsIt, Core;
    if steps != [] {
      SettledStep(s, vs, w, steps[0]);
      SettledReset(s, vs, w, steps[0], i);
      SettledRun(s, vs, Next(s, w, steps[0]), steps[1..], i, k);
    }
  }

  /** A step taken while the appending pass formats goes on with it, or ends it with the partitions it is done with. */
  lemma FormattingStep(s: Setup, vs: seq<Volume>, w: World, step: Step, i: nat)
    requires Core(s, vs, w) && !s.wipe && w.job.Formatting? && Enabled(s, w, step) && i < 2
    ensures var (k, w') := (|vs| + i, Next(s, w, step));
      && Core(s, vs, w') && Appended(vs, w'.m) && |w.m.volumes| == |w'.m.volumes| == |vs| + 2 && !step.Reset?
      && w'.m.volumes[k].device == w.m.volumes[k].device
      && (w'.job.Formatting? ==> !Cuts(w, step, i))
      && (!w'.job.Formatting? ==> w'.m.volumes[k].fs.Some? == !Cuts(w, step, i))
  {
    hide Disks, Formats, SetFs, Leaf, AllTruthful, Lists, Ids, Acted, AfterReset;
    CoreStep(s, vs, w, step);
    SameDevice(w.m.volumes, Next(s, w, step).m.volumes, |vs| + i);
    if step.FormatNext? { SetFsGrows(w.m.volumes, CallFor(w.job).device, CallFor(w.job).fs); }
  }

  /** From inside the appending pass. */
  lemma {:induction false} FormattingRun(s: Setup, vs: seq<Volume>, w: World, steps: seq<Step>, i: nat)
    requires Core(s, vs, w) && !s.wipe && w.job.Formatting? && IsRun(s, w, steps) && i < 2
    requires !After(s, w, steps).job.Formatting?
    ensures var (k, w') := (|vs| + i, After(s, w, steps));
      && |w.m.volumes| == |w'.m.volumes| == |vs| + 2 && w'.m.volumes[k].device == w.m.volumes[k].device
      && w'.m.volumes[k].fs.Some? == (!CutShort(s, w, steps, i) || WasReset(s, w, steps, w.m.volumes[k].device))
    decreases |steps|
  {
    hide Core, Next, Enabled, Cuts, Formatted;
    var w1 := Next(s, w, steps[0]);
    FormattingStep(s, vs, w, steps[0], i);
    if w1.job.Formatting? {
      FormattingRun(s, vs, w1, steps[1..], i);
    } else {
      SettledRun(s, vs, w1, steps[1..], |vs| + i, i);
    }
  }

  /** Before the append no reset can have touched what is appended later. */
  lemma {:induction false} FreshRun(s: Setup, vs: seq<Volume>, w: World, steps: seq<Step>, i: nat)
    requires Core(s, vs, w) && !s.wipe && !Appended(vs, w.m) && IsRun(s, w, steps) && i < 2
    requires var w' := After(s, w, steps); Appended(vs, w'.m) && !w'.job.Formatting?
    ensures var (k, w') := (|vs| + i, After(s, w, steps));
      && |w'.m.volumes| == |vs| + 2
      && w'.m.volumes[k].fs.Some? == (!CutShort(s, w, steps, i) || WasReset(s, w, steps, w'.m.volumes[k].device))
    decreases |steps|
  {
    hide Formats, SetFs, Leaf, DistinctIds, AfterReset, Acted;
    var (k, step, w1, end) := (|vs| + i, steps[0], Next(s, w, steps[0]), After(s, w, steps));
    CoreStep(s, vs, w, step);
    CoreRun(s, vs, w1, steps[1..]);
    if Appended(vs, w1.m) {
      AppendsFormatting(s, vs, w, step);
      FormattingRun(s, vs, w1, steps[1..], i);
      SameDevice(w1.m.volumes, end.m.volumes, k);
    } else {
      FreshRun(s, vs, w1, steps[1..], i);
    }
    NotThereYet(s, vs, w, end, k);
  }

  /** Only the appending call appends, and it leaves the pass formatting. */
  lemma AppendsFormatting(s: Setup, vs: seq<Volume>, w: World, step: Step)
    requires Core(s, vs, w) && !s.wipe && !Appended(vs, w.m) && Enabled(s, w, step) && Appended(vs, Next(s, w, step).m)
    ensures Next(s, w, step).job.Formatting? && !step.Reset?
  {
    hide Leaf, PlanProvisioning, Collides, Fresh, Lists, StatusesFromDiscovered, Publish, AfterReset;
    if step.Reset? { ResetGrows(w.m.volumes, w.m.statuses, step.fails); }
    if step.Act? { PlanExact(s.disk, false, w.job.seen); }
  }

  lemma NotThereYet(s: Setup, vs: seq<Volume>, w: World, end: World, k: nat)
    requires Core(s, vs, w) && Core(s, vs, end) && !Appended(vs, w.m) && Grows(w.m.volumes, end.m.volumes) && |vs| <= k < |end.m.volumes|
    ensures forall v | v in w.m.volumes :: v.device != end.m.volumes[k].device
  {
    hide Leaf, Formats, Progress;
    forall v | v in w.m.volumes ensures v.device != end.m.volumes[k].device {
      var j :| 0 <= j < |w.m.volumes| && w.m.volumes[j] == v;
      assert SamePartition(w.m.volumes[j], end.m.volumes[j]);
      assert Leaf(end.m.volumes[j].device) != Leaf(end.m.volumes[k].device);
    }
  }

  /**
   After any run in which our partitions were appended and that pass is over, each of them has a
   filesystem iff its pass was not cut short before formatting it, by a failing call or a reboot, or a
   reset was taken while it was published and its format succeeded.
   */
  lemma FilesystemIff(s: Setup, vs: seq<Volume>, steps: seq<Step>, i: nat)
    requires !s.wipe && DistinctIds(vs) && IsRun(s, Start(vs), steps) && i < 2
    requires var w := After(s, Start(vs), steps); Appended(vs, w.m) && !w.job.Formatting?
    ensures var (k, w) := (|vs| + i, After(s, Start(vs), steps));
      && |w.m.volumes| == |vs| + 2
      && w.m.volumes[k].fs.Some? == (!CutShort(s, Start(vs), steps, i) || WasReset(s, Start(vs), steps, w.m.volumes[k].device))
  {
    hide Core;
    StartCore(s, vs);
    FreshRun(s, vs, Start(vs), steps, i);
  }

  /** From then on a partition without filesystem gets one iff such a reset is taken. */
  lemma FormattedLaterIff(s: Setup, vs: seq<Volume>, steps: seq<Step>, more: seq<Step>, i: nat)
    requires !s.wipe && DistinctIds(vs) && IsRun(s, Start(vs), steps) && i < 2
    requires var w := After(s, Start(vs), steps);
      && Appended(vs, w.m) && !w.job.Formatting? && |w.m.volumes| == |vs| + 2 && w.m.volumes[|vs| + i].fs.None? && IsRun(s, w, more)
    ensures var w := After(s, Start(vs), steps);
      var w' := After(s, w, more);
      && |w'.m.volumes| == |vs| + 2 && w'.m.formats == w.m.formats
      && (w'.m.volumes[|vs| + i].fs.Some? <==> WasReset(s, w, more, w.m.volumes[|vs| + i].device))
  {
    hide Core;
    StartCore(s, vs);
    CoreRun(s, vs, Start(vs), steps);
    SettledRun(s, vs, After(s, Start(vs), steps), more, |vs| + i, i);
  }

  // ------------------------------------------------- what holds when discovery is honest

  /** Everything discovery and the passes have in hand names partitions that are there. */
  ghost predicate Truth(w: World) {
    var all := w.m.volumes;
    && (forall id | id in w.shown :: Leaf(w.shown[id].device) == id && Truthful(all, w.shown[id]))
    && AllTruthful(all, w.scanned)
    && (w.scan.Showing? ==> AllTruthful(all, w.scan.found) && forall v | v in w.scan.todo :: v in w.scan.found)
    && (w.job.Decided? ==> AllTruthful(all, w.job.seen))
    && (w.job.Formatting? ==> Names(all, w.job.from))
    && Names(all, w.m.statuses)
    && (forall c | c in w.resets :: c.name in {STATE, EPHEMERAL} && IsNamed(all, c.name, c.device))
  }

  lemma TruthGrows(w: World, m: Machine)
    requires Truth(w) && Grows(w.m.volumes, m.volumes) && m.statuses == w.m.statuses
    ensures Truth(w.(m := m))
  {
    hide Leaf, Grows, Truthful, IsNamed;
    TruthStays(w.m.volumes, m.volumes);
  }

  lemma ScanTruth(s: Setup, w: World, step: Step)
    requires Truth(w) && !s.trust.Anything? && Enabled(s, w, step) && IsScanStep(step)
    ensures Truth(Next(s, w, step))
  {
    hide Leaf, Truthful, IsNamed;
    if step.Show? {
      assert w.scan.todo[0] in w.scan.found;
    }
  }

  lemma ActTruth(s: Setup, vs: seq<Volume>, w: World, devices: seq<string>, held: set<string>)
    requires Core(s, vs, w) && Truth(w) && !s.wipe && Enabled(s, w, Act(devices, held))
    ensures Truth(Acted(s, w, devices, held))
  {
    hide Leaf, PlanProvisioning, StatusesFromDiscovered, Publish, Collides, Fresh, Truthful, IsNamed, Core, Grows;
    var (w', from) := (Acted(s, w, devices, held), StatusesFromDiscovered(s.disk, w.job.seen));
    ActCore(s, vs, w, devices, held);
    PlanExact(s.disk, false, w.job.seen);
    DiscoveredNames(s.disk, w.m.volumes, w.job.seen);
    PublishNames(w.m.volumes, w.m.statuses, from, held);
    TruthGrows(w, w'.m.(statuses := w.m.statuses));
    TruthStays(w.m.volumes, w'.m.volumes);
  }

  lemma PublishTruth(s: Setup, vs: seq<Volume>, w: World, held: set<string>)
    requires Core(s, vs, w) && Truth(w) && Enabled(s, w, PublishAll(held))
    ensures Truth(Next(s, w, PublishAll(held)))
  {
    hide Leaf, DistinctIds, Truthful, WithPlanned, Publish;
    var (all, devices) := (w.m.volumes, w.job.devices);
    var planned := WithPlanned(w.job.from, APPENDED_LAYOUT, devices, 2);
    forall n | n in planned ensures IsNamed(all, n, planned[n].device) {
      FromPlan(w.job.from, APPENDED_LAYOUT, devices, 2, n);
      assert all[|vs|] in all && all[|vs|+1] in all;
    }
    PublishNames(all, w.m.statuses, planned, held);
  }

  lemma ResetTruth(s: Setup, w: World, fails: set<string>)
    requires Truth(w) && Enabled(s, w, Reset(fails))
    ensures Truth(Next(s, w, Reset(fails)))
  {
    hide Leaf, Truthful, AfterReset, ResetFs;
    ResetGrows(w.m.volumes, w.m.statuses, fails);
    TruthStays(w.m.volumes, Next(s, w, Reset(fails)).m.volumes);
  }

  lemma TruthStep(s: Setup, vs: seq<Volume>, w: World, step: Step)
    requires Core(s, vs, w) && Truth(w) && !s.wipe && !s.trust.Anything? && Enabled(s, w, step)
    ensures Truth(Next(s, w, step))
  {
    hide Leaf, Truthful, IsNamed, Core, DistinctIds;
    if IsScanStep(step) {
      ScanTruth(s, w, step);
    } else {
      match step
      case Act(devices, held) => ActTruth(s, vs, w, devices, held);
      case PublishAll(held) => PublishTruth(s, vs, w, held);
      case Reset(fails) => ResetTruth(s, w, fails);
      case FormatNext =>
        SetFsGrows(w.m.volumes, CallFor(w.job).device, CallFor(w.job).fs);
        TruthGrows(w, Next(s, w, step).m);
      case List(seen) =>
        forall v | v in seen ensures Truthful(w.m.volumes, v) { assert w.shown[Leaf(v.device)] == v; }
      case Create(_) => NeverCreates(s, vs, w);
      case _ =>
    }
  }

  lemma NeverCreates(s: Setup, vs: seq<Volume>, w: World)
    requires Core(s, vs, w)
    ensures !w.job.Creating?
  {
  }

  lemma {:induction false} TruthRun(s: Setup, vs: seq<Volume>, w: World, steps: seq<Step>)
    requires Core(s, vs, w) && Truth(w) && !s.wipe && !s.trust.Anything? && IsRun(s, w, steps)
    ensures Truth(After(s, w, steps))
    decreases |steps|
  {
    hide Core, Truth, Next, Enabled;
    if steps != [] {
      CoreStep(s, vs, w, steps[0]);
      TruthStep(s, vs, w, steps[0]);
      TruthRun(s, vs, Next(s, w, steps[0]), steps[1..]);
    }
  }

  /** Every format call any reset of a run has made went to a partition labelled STATE or EPHEMERAL, never to EFI. */
  lemma ResetSparesEfi(s: Setup, vs: seq<Volume>, steps: seq<Step>, call: FormatCall, u: Volume)
    requires !s.wipe && !s.trust.Anything? && DistinctIds(vs) && IsRun(s, Start(vs), steps)
    requires var w := After(s, Start(vs), steps); call in w.resets && u in w.m.volumes && u.device == call.device
    ensures u.partLabel == call.name && call.name in {STATE, EPHEMERAL} && u.partLabel != EFI
  {
    hide Leaf, Formats, Progress, Truthful;
    var w := After(s, Start(vs), steps);
    StartCore(s, vs);
    CoreRun(s, vs, Start(vs), steps);
    TruthRun(s, vs, Start(vs), steps);
    NamesDiffer();
    var x :| x in w.m.volumes && x.device == call.device && x.partLabel == call.name;
    SameId(w.m.volumes, u, x);
  }

  // --------------------------------------------- what holds when scans also miss nothing

  /** Scans and listings past the barrier cover the initial partitions, and the append went to an image disk. */
  ghost predicate Coverage(s: Setup, vs: seq<Volume>, w: World) {
    && Ids(w.scanned) <= w.shown.Keys
    && (w.barrier ==> Ids(vs) <= Ids(w.scanned))
    && (w.scan.Showing? ==> Ids(vs) <= Ids(w.scan.found) && Ids(w.scanned) <= Ids(w.scan.found) <= w.shown.Keys + Ids(w.scan.todo))
    && (w.job.Gated? ==> Ids(vs) <= w.shown.Keys)
    && (w.job.Decided? ==> Sees(vs, w.job.seen))
    && (Appended(vs, w.m) ==> NamesOn(s.disk, vs) == {EFI})
  }

  ghost predicate Inv(s: Setup, vs: seq<Volume>, w: World) {
    Core(s, vs, w) && Truth(w) && Coverage(s, vs, w)
  }

  lemma InitialIds(disk: string, vs: seq<Volume>, w: World)
    requires Disks(disk, vs, w)
    ensures Ids(vs) <= Ids(w.m.volumes)
  {
    hide Leaf;
    forall v | v in vs ensures Leaf(v.device) in Ids(w.m.volumes) {
      var i :| 0 <= i < |vs| && vs[i] == v;
      assert SamePartition(vs[i], w.m.volumes[i]) && w.m.volumes[i] in w.m.volumes;
    }
  }

  lemma TruthfulIds(vs: seq<Volume>, seen: seq<Volume>)
    requires AllTruthful(vs, seen)
    ensures Ids(seen) <= Ids(vs)
  {
    hide Leaf;
    forall v | v in seen ensures Leaf(v.device) in Ids(vs) {
      var u :| u in vs && SamePartition(u, v);
    }
  }

  lemma ScanCoverage(s: Setup, vs: seq<Volume>, w: World, step: Step)
    requires Inv(s, vs, w) && s.trust.Complete? && Enabled(s, w, step) && IsScanStep(step)
    ensures Coverage(s, vs, Next(s, w, step))
  {
    hide Formats, Progress, Names, Leaf, Truthful, NamesOn, DistinctIds, Sees;
    match step
    case BeginScan(found) =>
      InitialIds(s.disk, vs, w);
      TruthfulIds(w.m.volumes, w.scanned);
    case Show =>
      assert w.scan.todo == [w.scan.todo[0]] + w.scan.todo[1..];
      assert Ids(w.scan.todo) <= Ids(w.scan.todo[1..]) + {Leaf(w.scan.todo[0].device)};
    case _ => NoIds();
  }

  /** A shown volume with the id of a partition on the disks is that partition. */
  lemma ShownIsReal(w: World, u: Volume)
    requires Truth(w) && DistinctIds(w.m.volumes) && u in w.m.volumes && Leaf(u.device) in w.shown
    ensures SamePartition(u, w.shown[Leaf(u.device)]) && (u.fs.None? ==> w.shown[Leaf(u.device)].fs.None?)
  {
    hide Leaf, Names, IsNamed;
    var v := w.shown[Leaf(u.device)];
    assert Truthful(w.m.volumes, v);
    var x :| x in w.m.volumes && SamePartition(x, v) && (x.fs.None? ==> v.fs.None?);
    SameId(w.m.volumes, u, x);
  }

  /** A listing shows every partition whose id is published. */
  lemma ListingShows(w: World, seen: seq<Volume>, some: seq<Volume>)
    requires Truth(w) && DistinctIds(w.m.volumes) && Lists(w.shown, seen) && Ids(some) <= w.shown.Keys
    requires forall u | u in some :: exists x | x in w.m.volumes :: SamePartition(x, u)
    ensures Sees(some, seen) && AllTruthful(w.m.volumes, seen)
  {
    hide Leaf, Names, IsNamed, Truthful, DistinctIds;
    forall u | u in some ensures exists v | v in seen :: SamePartition(u, v) {
      var x :| x in w.m.volumes && SamePartition(x, u);
      assert Leaf(u.device) in Ids(some);
      ShownIsReal(w, x);
      assert w.shown[Leaf(u.device)] in seen;
    }
    forall v | v in seen ensures Truthful(w.m.volumes, v) {
      assert w.shown[Leaf(v.device)] == v;
    }
  }

  lemma InitialThere(disk: string, vs: seq<Volume>, w: World)
    requires Disks(disk, vs, w)
    ensures forall u | u in vs :: exists x | x in w.m.volumes :: SamePartition(x, u)
  {
    hide Leaf, DistinctIds;
    forall u | u in vs ensures exists x | x in w.m.volumes :: SamePartition(x, u) {
      var i :| 0 <= i < |vs| && vs[i] == u;
      assert SamePartition(vs[i], w.m.volumes[i]) && w.m.volumes[i] in w.m.volumes;
    }
  }

  /** If a pass decides to complete the layout and the call is accepted, the disk was an image. */
  lemma ImageForReal(s: Setup, vs: seq<Volume>, w: World)
    requires Inv(s, vs, w) && !s.wipe && w.job.Decided? && !Appended(vs, w.m) && DecisionOn(s, w.job.seen).CompleteLayout?
    ensures NamesOn(s.disk, vs) == {EFI}
  {
    hide Leaf, PlanProvisioning, NamesOn, Formats, Progress, Truthful, DistinctIds;
    PlanExact(s.disk, false, w.job.seen);
    NamesSeen(s.disk, vs, w.job.seen);
    NamesSeen(s.disk, w.m.volumes, w.job.seen);
    NamesKept(s.disk, vs, w.m.volumes);
  }

  lemma ActCoverage(s: Setup, vs: seq<Volume>, w: World, devices: seq<string>, held: set<string>)
    requires Inv(s, vs, w) && !s.wipe && Enabled(s, w, Act(devices, held))
    ensures Coverage(s, vs, Acted(s, w, devices, held))
  {
    hide Leaf, PlanProvisioning, StatusesFromDiscovered, Publish, Collides, Fresh, Truth, Core, NamesOn, Sees, Ids;
    PlanExact(s.disk, false, w.job.seen);
    if !Appended(vs, w.m) && DecisionOn(s, w.job.seen).CompleteLayout? {
      ImageForReal(s, vs, w);
    } else if Appended(vs, w.m) {
      ActCore(s, vs, w, devices, held);
    }
  }

  /** Scans, single calls of passes, failures, resets and reboots, in any order, keep all of it. */
  lemma InvStep(s: Setup, vs: seq<Volume>, w: World, step: Step)
    requires Inv(s, vs, w) && !s.wipe && s.trust.Complete? && Enabled(s, w, step)
    ensures Inv(s, vs, Next(s, w, step))
  {
    CoreStep(s, vs, w, step);
    TruthStep(s, vs, w, step);
    hide Truth, Formats, Progress, Leaf, NamesOn, Ids, DistinctIds, Lists, Sees, SetFs, AfterReset;
    if IsScanStep(step) {
      ScanCoverage(s, vs, w, step);
    } else {
      match step
      case Act(devices, held) => ActCoverage(s, vs, w, devices, held);
      case List(seen) =>
        InitialThere(s.disk, vs, w);
        ListingShows(w, seen, vs);
      case FormatNext => SetFsGrows(w.m.volumes, CallFor(w.job).device, CallFor(w.job).fs);
      case Reset(fails) =>
        ResetGrows(w.m.volumes, w.m.statuses, fails);
        assert Ids([]) == {} by { NoIds(); }
      case Reboot => assert Ids([]) == {} by { NoIds(); }
      case _ =>
    }
  }

  lemma NoIds()
    ensures Ids([]) == {}
  {
  }

  lemma {:induction false} InvRun(s: Setup, vs: seq<Volume>, w: World, steps: seq<Step>)
    requires Inv(s, vs, w) && !s.wipe && s.trust.Complete? && IsRun(s, w, steps)
    ensures Inv(s, vs, After(s, w, steps))
    decreases |steps|
  {
    hide Inv, Next, Enabled;
    if steps != [] {
      InvStep(s, vs, w, steps[0]);
      InvRun(s, vs, Next(s, w, steps[0]), steps[1..]);
    }
  }

  lemma StartInv(s: Setup, vs: seq<Volume>)
    requires DistinctIds(vs)
    ensures Inv(s, vs, Start(vs))
  {
    hide Leaf;
    StartCore(s, vs);
  }

  /** With complete scans a pass past the barrier lists every initial partition and all that the latest completed scan found. */
  lemma BarrierShowsAll(s: Setup, vs: seq<Volume>, steps: seq<Step>, seen: seq<Volume>)
    requires !s.wipe && s.trust.Complete? && DistinctIds(vs) && IsRun(s, Start(vs), steps)
    requires var w := After(s, Start(vs), steps); w.job.Gated? && Lists(w.shown, seen)
    ensures Sees(vs, seen) && Sees(After(s, Start(vs), steps).scanned, seen)
  {
    hide Leaf, Lists, Formats, Progress, Names, IsNamed, DistinctIds, Ids;
    var w := After(s, Start(vs), steps);
    StartInv(s, vs);
    InvRun(s, vs, Start(vs), steps);
    InitialThere(s.disk, vs, w);
    ListingShows(w, seen, vs);
    forall u | u in w.scanned ensures exists x | x in w.m.volumes :: SamePartition(x, u) {
      assert Truthful(w.m.volumes, u);
    }
    ListingShows(w, seen, w.scanned);
  }

  // -------------------------------------------------------------------- convergence

  lemma AppendedIds(s: Setup, vs: seq<Volume>, w: World, step: Step)
    requires Core(s, vs, w) && !s.wipe && Appended(vs, w.m) && Enabled(s, w, step)
    ensures Appended(vs, Next(s, w, step).m) && Ids(Next(s, w, step).m.volumes) == Ids(w.m.volumes)
  {
    hide Leaf, Formats, Progress, DistinctIds, SetFs, AfterReset, Fresh, PlanProvisioning;
    CoreStep(s, vs, w, step);
    SameIds(w.m.volumes, Next(s, w, step).m.volumes);
  }

  /** The scan in progress found everything that is there. */
  ghost predicate ScanningAll(w: World) {
    w.scan.Showing? && Ids(w.m.volumes) <= Ids(w.scan.found)
  }

  /** Whatever a pass can list, now or later, is everything that is there. */
  ghost predicate UpToDate(w: World) {
    && (w.barrier || w.job.Gated? ==> Ids(w.m.volumes) <= w.shown.Keys)
    && (w.scan.Showing? ==> ScanningAll(w))
  }

  predicate EndsScan(step: Step) {
    step.EndScan? || step.AbortScan? || step.Reboot? || step.Reset?
  }

  /** A pass's own calls leave what discovery shows alone. */
  lemma PassKeepsShown(s: Setup, w: World, step: Step)
    requires Enabled(s, w, step) && !IsScanStep(step) && !step.Reset? && !step.Reboot?
    ensures var w' := Next(s, w, step); w'.scan == w.scan && w'.shown == w.shown && w'.barrier == w.barrier
    ensures Next(s, w, step).job.Gated? ==> w.barrier || w.job.Gated?
  {
    hide PlanProvisioning, Leaf, Collides, Fresh, Lists, StatusesFromDiscovered;
  }

  lemma {:induction false} KeepScanning(s: Setup, vs: seq<Volume>, w: World, steps: seq<Step>)
    requires Inv(s, vs, w) && !s.wipe && s.trust.Complete? && Appended(vs, w.m) && ScanningAll(w)
    requires IsRun(s, w, steps) && forall i | 0 <= i < |steps| :: !EndsScan(steps[i])
    ensures var w' := After(s, w, steps); Inv(s, vs, w') && Appended(vs, w'.m) && ScanningAll(w')
    decreases |steps|
  {
    hide Core, Truth, Coverage, Appended, Ids, Lists, Acted, AllTruthful;
    if steps != [] {
      var step := steps[0];
      InvStep(s, vs, w, step);
      AppendedIds(s, vs, w, step);
      assert !EndsScan(step);
      if !IsScanStep(step) { PassKeepsShown(s, w, step); }
      KeepScanning(s, vs, Next(s, w, step), steps[1..]);
    }
  }

  lemma UpToDateStep(s: Setup, vs: seq<Volume>, w: World, step: Step)
    requires Inv(s, vs, w) && !s.wipe && s.trust.Complete? && Appended(vs, w.m) && UpToDate(w) && Enabled(s, w, step)
    ensures UpToDate(Next(s, w, step))
  {
    hide Core, Truth, Appended, Ids, Lists, Acted, AllTruthful;
    AppendedIds(s, vs, w, step);
    if !IsScanStep(step) && !step.Reset? && !step.Reboot? { PassKeepsShown(s, w, step); }
    if step.EndScan? { NoIds(); }
  }

  lemma {:induction false} UpToDateRun(s: Setup, vs: seq<Volume>, w: World, steps: seq<Step>)
    requires Inv(s, vs, w) && !s.wipe && s.trust.Complete? && Appended(vs, w.m) && UpToDate(w) && IsRun(s, w, steps)
    ensures var w' := After(s, w, steps); Inv(s, vs, w') && Appended(vs, w'.m) && UpToDate(w')
    decreases |steps|
  {
    hide Core, Truth, Coverage, Appended, UpToDate, Next, Enabled;
    if steps != [] {
      InvStep(s, vs, w, steps[0]);
      AppendedIds(s, vs, w, steps[0]);
      UpToDateStep(s, vs, w, steps[0]);
      UpToDateRun(s, vs, Next(s, w, steps[0]), steps[1..]);
    }
  }

  /** From `w` a scan begins, `during` happens, the scan completes, `later` happens. */
  ghost predicate Rescans(s: Setup, w: World, found: seq<Volume>, during: seq<Step>, listed: bool, later: seq<Step>) {
    && Enabled(s, w, BeginScan(found))
    && var w1 := Next(s, w, BeginScan(found));
      && IsRun(s, w1, during) && (forall i | 0 <= i < |during| :: !EndsScan(during[i]))
      && var w2 := After(s, w1, during);
        Enabled(s, w2, EndScan(listed)) && IsRun(s, Next(s, w2, EndScan(listed)), later)
  }

  ghost function AfterRescan(s: Setup, w: World, found: seq<Volume>, during: seq<Step>, listed: bool, later: seq<Step>): World
    requires Rescans(s, w, found, during, listed, later)
  {
    After(s, Next(s, After(s, Next(s, w, BeginScan(found)), during), EndScan(listed)), later)
  }

  lemma RescanUpToDate(s: Setup, vs: seq<Volume>, w: World, found: seq<Volume>, during: seq<Step>, listed: bool, later: seq<Step>)
    requires Inv(s, vs, w) && !s.wipe && s.trust.Complete? && Appended(vs, w.m) && Rescans(s, w, found, during, listed, later)
    ensures var w' := AfterRescan(s, w, found, during, listed, later); Inv(s, vs, w') && Appended(vs, w'.m) && UpToDate(w')
  {
    hide Core, Truth, Appended, Ids, Lists, Acted, AllTruthful;
    var w1 := Next(s, w, BeginScan(found));
    InvStep(s, vs, w, BeginScan(found));
    AppendedIds(s, vs, w, BeginScan(found));
    KeepScanning(s, vs, w1, during);
    var w2 := After(s, w1, during);
    InvStep(s, vs, w2, EndScan(listed));
    AppendedIds(s, vs, w2, EndScan(listed));
    NoIds();
    UpToDateRun(s, vs, Next(s, w2, EndScan(listed)), later);
  }

  lemma OursNow(s: Setup, vs: seq<Volume>, w: World)
    requires Disks(s.disk, vs, w) && Appended(vs, w.m) && NamesOn(s.disk, vs) == {EFI}
    ensures Ours(s.disk, w.m.volumes)
  {
    hide Leaf;
    var (all, k) := (w.m.volumes, |vs|);
    NamesKept(s.disk, vs, all[..k]);
    assert all == all[..k] + [all[k], all[k+1]];
    NamesGrow(s.disk, all[..k], all[k], all[k+1]);
  }

  lemma NamesGrow(disk: string, vs: seq<Volume>, a: Volume, b: Volume)
    requires Of(disk, a) && Of(disk, b)
    ensures NamesOn(disk, vs + [a, b]) == NamesOn(disk, vs) + {a.partLabel, b.partLabel}
  {
  }

  /** A pass that lists an up-to-date store finds our layout. */
  lemma UpToDateDecidesSkip(s: Setup, vs: seq<Volume>, w: World, seen: seq<Volume>)
    requires Inv(s, vs, w) && Appended(vs, w.m) && UpToDate(w) && w.job.Gated? && Lists(w.shown, seen)
    ensures Sees(w.m.volumes, seen) && AllTruthful(w.m.volumes, seen)
    ensures DecisionOn(s, seen) == Skip
  {
    hide Leaf, Formats, Progress, Truth, PlanProvisioning, Lists, NamesOn, Sees, AllTruthful, DistinctIds, Ids;
    assert forall u | u in w.m.volumes :: SamePartition(u, u);
    ListingShows(w, seen, w.m.volumes);
    NamesSeen(s.disk, w.m.volumes, seen);
    OursNow(s, vs, w);
    PlanExact(s.disk, s.wipe, seen);
  }

  /**
   With complete scans, in every run: after an append, and a scan that began after it and completed,
   every later pass past the barrier decides Skip. Once the appending pass is over no pass formats
   anything, and partitions change only by resets.
   */
  lemma SkipForGood(s: Setup, vs: seq<Volume>, steps: seq<Step>, found: seq<Volume>, during: seq<Step>, listed: bool,
                    later: seq<Step>, seen: seq<Volume>)
    requires !s.wipe && s.trust.Complete? && DistinctIds(vs) && IsRun(s, Start(vs), steps)
    requires var w := After(s, Start(vs), steps);
      && Appended(vs, w.m) && Rescans(s, w, found, during, listed, later)
      && AfterRescan(s, w, found, during, listed, later).job.Gated?
      && Lists(AfterRescan(s, w, found, during, listed, later).shown, seen)
    ensures DecisionOn(s, seen) == Skip
    ensures var w := After(s, Start(vs), steps);
      var w' := AfterRescan(s, w, found, during, listed, later);
      Grows(w.m.volumes, w'.m.volumes) && |w'.m.volumes| == |w.m.volumes| && (!w.job.Formatting? ==> w'.m.formats == w.m.formats)
  {
    hide Core, Truth, Coverage, Appended, UpToDate, PlanProvisioning, Rescans, AfterRescan, Lists, Grows;
    var w := After(s, Start(vs), steps);
    StartInv(s, vs);
    InvRun(s, vs, Start(vs), steps);
    RescanUpToDate(s, vs, w, found, during, listed, later);
    UpToDateDecidesSkip(s, vs, AfterRescan(s, w, found, during, listed, later), seen);
    RescanGrows(s, vs, w, found, during, listed, later);
  }

  lemma RescanGrows(s: Setup, vs: seq<Volume>, w: World, found: seq<Volume>, during: seq<Step>, listed: bool, later: seq<Step>)
    requires Core(s, vs, w) && !s.wipe && Appended(vs, w.m) && Rescans(s, w, found, during, listed, later)
    ensures var w' := AfterRescan(s, w, found, during, listed, later);
      && Core(s, vs, w') && Grows(w.m.volumes, w'.m.volumes) && |w'.m.volumes| == |w.m.volumes|
      && (!w.job.Formatting? ==> w'.m.formats == w.m.formats)
  {
    hide Formats, Progress, Next, Enabled, Grows, DistinctIds;
    var (w1, w') := (Next(s, w, BeginScan(found)), AfterRescan(s, w, found, during, listed, later));
    var w2 := After(s, w1, during);
    var w3 := Next(s, w2, EndScan(listed));
    CoreStep(s, vs, w, BeginScan(found));
    CoreRun(s, vs, w1, during);
    CoreStep(s, vs, w2, EndScan(listed));
    CoreRun(s, vs, w3, later);
    GrowsOn(w.m.volumes, w1.m.volumes, w2.m.volumes);
    GrowsOn(w.m.volumes, w2.m.volumes, w3.m.volumes);
    GrowsOn(w.m.volumes, w3.m.volumes, w'.m.volumes);
    LongEnough(w.m.volumes, w'.m.volumes);
    if !w.job.Formatting? {
      SettledStep(s, vs, w, BeginScan(found));
      SettledRun(s, vs, w1, during, |vs|, 0);
      SettledStep(s, vs, w2, EndScan(listed));
      SettledRun(s, vs, w3, later, |vs|, 0);
    }
  }

  lemma LongEnough(a: seq<Volume>, b: seq<Volume>)
    requires Grows(a, b)
    ensures |a| <= |b|
  {
  }

  // ------------------------------------------------- what a partition left unformatted meets

  /** A partition without filesystem that is the only one of its name gets a status without filesystem. */
  lemma TheirStatus(disk: string, vols: seq<Volume>, seen: seq<Volume>, u: Volume)
    requires AllTruthful(vols, seen) && u.fs.None? && u.partLabel in StatusesFromDiscovered(disk, seen)
    requires forall y | y in vols && y.disk == Leaf(disk) && y.partLabel == u.partLabel :: y == u
    ensures StatusesFromDiscovered(disk, seen)[u.partLabel] == Status(u.device, "")
  {
    hide Leaf, StatusesFromDiscovered;
    FromDiscovered(disk, seen, u.partLabel);
    var x :| x in seen && x.disk == Leaf(disk) && x.partLabel == u.partLabel &&
      StatusesFromDiscovered(disk, seen)[u.partLabel] == Status(x.device, if x.fs.Some? then x.fs.value else "");
    assert Truthful(vols, x);
  }

  lemma {:induction false} NameIsThere(disk: string, seen: seq<Volume>, v: Volume)
    requires v in seen && v.disk == Leaf(disk) && v.partLabel in NAMES
    ensures v.partLabel in StatusesFromDiscovered(disk, seen)
  {
    hide Leaf;
    if seen[|seen|-1] != v {
      NameIsThere(disk, seen[..|seen|-1], v);
    }
  }

  lemma OnlyOne(s: Setup, vs: seq<Volume>, w: World, i: nat, y: Volume)
    requires Disks(s.disk, vs, w) && Appended(vs, w.m) && NamesOn(s.disk, vs) == {EFI} && |vs| <= i < |w.m.volumes|
    requires y in w.m.volumes && y.disk == Leaf(s.disk) && y.partLabel == w.m.volumes[i].partLabel
    ensures y == w.m.volumes[i]
  {
    hide Leaf, DistinctIds;
    NamesDiffer();
    var j :| 0 <= j < |w.m.volumes| && w.m.volumes[j] == y;
    assert j < |vs| ==> vs[j] in vs && SamePartition(vs[j], y);
    assert forall v | v in vs && v.disk == Leaf(s.disk) :: v.partLabel in NamesOn(s.disk, vs);
  }

  /** The appended partition is the only one of its name, so in an up-to-date listing its status is its own. */
  lemma StatusOfAppended(s: Setup, vs: seq<Volume>, w: World, seen: seq<Volume>, i: nat)
    requires Inv(s, vs, w) && Appended(vs, w.m) && |vs| <= i < |w.m.volumes| && w.m.volumes[i].fs.None?
    requires Sees(w.m.volumes, seen) && AllTruthful(w.m.volumes, seen)
    ensures var u := w.m.volumes[i];
      && u.partLabel in {STATE, EPHEMERAL} && u.partLabel in StatusesFromDiscovered(s.disk, seen)
      && StatusesFromDiscovered(s.disk, seen)[u.partLabel] == Status(u.device, "")
  {
    hide Leaf, Truth, Formats, Progress, StatusesFromDiscovered, AllTruthful, NamesOn, DistinctIds;
    var u := w.m.volumes[i];
    assert u in w.m.volumes;
    var v :| v in seen && SamePartition(u, v);
    NameIsThere(s.disk, seen, v);
    forall y | y in w.m.volumes && y.disk == Leaf(s.disk) && y.partLabel == u.partLabel ensures y == u {
      OnlyOne(s, vs, w, i, y);
    }
    TheirStatus(s.disk, w.m.volumes, seen, u);
  }

  lemma ResetTargets(statuses: Statuses, name: string, device: string)
    requires name in {STATE, EPHEMERAL} && name in statuses && statuses[name] == Status(device, "")
    ensures FormatCall(device, "ext4", name) in ResetCalls(statuses)
    ensures forall fails | name !in fails :: Formatted(statuses, fails, device)
  {
    assert "" != "ext4" && "" != "vfat" && "" != "xfs" && "" != "swap" by {
      assert |""| != |"ext4"| && |""| != |"vfat"| && |""| != |"xfs"| && |""| != |"swap"|;
    }
    var call := FormatCall(device, "ext4", name);
    assert ResetCall(statuses, name) == [call];
    assert call in ResetCall(statuses, name);
  }

  /**
   With complete scans: as long as an appended partition has no filesystem, every pass over a scan
   completed since the append decides Skip and publishes it as provisioned all the same, and the reset
   that may follow formats it.
   */
  lemma UnformattedIsPublished(s: Setup, vs: seq<Volume>, steps: seq<Step>, found: seq<Volume>, during: seq<Step>, listed: bool,
                               later: seq<Step>, seen: seq<Volume>, held: set<string>, i: nat)
    requires !s.wipe && s.trust.Complete? && DistinctIds(vs) && IsRun(s, Start(vs), steps)
    requires var w := After(s, Start(vs), steps);
      && Appended(vs, w.m) && Rescans(s, w, found, during, listed, later)
      && var now := AfterRescan(s, w, found, during, listed, later);
        && now.job.Gated? && Lists(now.shown, seen)
        && |vs| <= i < |now.m.volumes| && now.m.volumes[i].fs.None?
    ensures var now := AfterRescan(s, After(s, Start(vs), steps), found, during, listed, later);
      var u := now.m.volumes[i];
      var w1 := Next(s, now, List(seen));
      && Enabled(s, w1, Act([], held))
      && var w2 := Next(s, w1, Act([], held));
        && w2.m.volumes == now.m.volumes && w2.job.NoJob?
        && u.partLabel in w2.m.statuses && w2.m.statuses[u.partLabel] == Status(u.device, "")
        && FormatCall(u.device, "ext4", u.partLabel) in ResetCalls(w2.m.statuses)
        && (forall fails | u.partLabel !in fails :: ResetsIt(w2, Reset(fails), u.device))
  {
    hide Core, Truth, Coverage, Appended, UpToDate, PlanProvisioning, Rescans, AfterRescan, Lists, StatusesFromDiscovered, ResetCalls, Formatted;
    var w := After(s, Start(vs), steps);
    var now := AfterRescan(s, w, found, during, listed, later);
    StartInv(s, vs);
    InvRun(s, vs, Start(vs), steps);
    RescanUpToDate(s, vs, w, found, during, listed, later);
    UpToDateDecidesSkip(s, vs, now, seen);
    StatusOfAppended(s, vs, now, seen, i);
    var w2 := Next(s, Next(s, now, List(seen)), Act([], held));
    var u := now.m.volumes[i];
    assert u in w2.m.volumes;
    ResetTargets(w2.m.statuses, u.partLabel, u.device);
  }
}
