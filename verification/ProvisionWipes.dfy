/** Provisioning with wipe: what a pass does to the disk, depending on what it has listed, and when that ends. */
module ProvisionWipes {
  import opened Block
  import opened Provision
  import opened ProvisionMachine

  /** A pass, as the machine runs it. */
  datatype WipePass = WipePass(seen: seq<Volume>, devices: seq<string>, fault: Fault, held: set<string>)

  ghost predicate CanPass(disk: string, m: Machine, p: WipePass) {
    && |p.devices| == |PlanFor(PlanProvisioning(disk, true, p.seen))|
    && Fresh(Cleared(Config(disk, true), m.volumes, p.seen), p.devices)
  }

  ghost function Passed(disk: string, m: Machine, p: WipePass): Machine
    requires CanPass(disk, m, p)
  {
    PassOf(Config(disk, true), m, p.seen, p.devices, p.fault, p.held)
  }

  lemma NamesOfLayout(disk: string, vs: seq<Volume>, r: seq<Volume>, devices: seq<string>, n: nat)
    requires |devices| == |FIXED_LAYOUT| && Shape(r, vs, Leaf(disk), FIXED_LAYOUT, devices, n)
    requires forall v | v in vs :: !Of(disk, v)
    ensures Ours(disk, r)
  {
    hide Leaf;
    var k := |vs|;
    forall name ensures name in NamesOn(disk, r) <==> name in {EFI, STATE, EPHEMERAL} {
      if name in NamesOn(disk, r) {
        var v :| v in r && Of(disk, v) && v.partLabel == name;
        var i :| 0 <= i < |r| && r[i] == v;
        assert name == FIXED_LAYOUT[i - k].name;
      }
      assert r[k] in r && r[k+1] in r && r[k+2] in r;
      assert r[k].partLabel == EFI && r[k+1].partLabel == STATE && r[k+2].partLabel == EPHEMERAL;
    }
  }

  /** A pass with wipe on a fresh scan of a disk that is not ours makes it ours, whatever format fails. */
  lemma FreshWipeConverges(disk: string, m: Machine, p: WipePass)
    requires CanPass(disk, m, p) && multiset(p.seen) == multiset(m.volumes) && !Ours(disk, p.seen)
    requires !p.fault.WipeFails? && !p.fault.TableFails?
    requires forall v | v in m.volumes && v.device == disk :: v.disk == Leaf(disk)
    ensures Ours(disk, Passed(disk, m, p).volumes)
  {
    hide Leaf, PlanProvisioning, LaidOut, Ours, Fresh;
    PlanExact(disk, true, p.seen);
    var cleared := m.(volumes := Cleared(Config(disk, true), m.volumes, p.seen));
    if p.seen == [] {
      assert |multiset(p.seen)| == 0 && |multiset(m.volumes)| == |m.volumes|;
    }
    LaidOutShape(cleared, disk, FIXED_LAYOUT, p.devices, map[], p.fault, p.held);
    NamesOfLayout(disk, cleared.volumes, Passed(disk, m, p).volumes, p.devices, Done(p.fault, 3));
  }

  /** Does the pass end before it formats anything? */
  predicate StopsEarly(p: WipePass) {
    p.fault.TableFails? || p.fault.TableFailsLate? || (p.fault.WipeFails? && p.seen != [])
  }

  /**
   With wipe, whatever fails: nothing is formatted iff the listing shows our layout or a call fails
   before the formats; and unless our layout is listed, no partition of the disk survives the wipe call.
   */
  lemma WipesUnlessSeenAsOurs(disk: string, m: Machine, p: WipePass)
    requires CanPass(disk, m, p)
    ensures Passed(disk, m, p).formats == m.formats <==> Ours(disk, p.seen) || StopsEarly(p)
    ensures Ours(disk, p.seen) || (p.fault.WipeFails? && p.seen != []) ==> Passed(disk, m, p).volumes == m.volumes
    ensures !Ours(disk, p.seen) && p.seen != [] && !p.fault.WipeFails? ==>
      |p.devices| == 3 && var (r, others) := (Passed(disk, m, p).volumes, Wiped(m.volumes, Leaf(disk)));
      if p.fault.TableFails? then r == others else Shape(r, others, Leaf(disk), FIXED_LAYOUT, p.devices, Done(p.fault, 3))
  {
    hide Leaf, PlanProvisioning, FormattedTo, Ours, Fresh, Shape, Publish, WithPlanned;
    PlanExact(disk, true, p.seen);
    if !Ours(disk, p.seen) {
      var cleared := m.(volumes := Cleared(Config(disk, true), m.volumes, p.seen));
      LaidOutShape(cleared, disk, FIXED_LAYOUT, p.devices, map[], p.fault, p.held);
      assert !StopsEarly(p) ==> |Passed(disk, m, p).formats| > |m.formats|;
    }
  }

  /** The same pass can run again: wiping leaves the other disks as they were. */
  lemma CanPassAgain(disk: string, m: Machine, p: WipePass)
    requires CanPass(disk, m, p) && p.fault == Healthy && p.seen != [] && !Ours(disk, p.seen)
    ensures CanPass(disk, Passed(disk, m, p), p)
  {
    hide Leaf, PlanProvisioning, Ours, Passed;
    WipesUnlessSeenAsOurs(disk, m, p);
    var r, others := Passed(disk, m, p).volumes, Wiped(m.volumes, Leaf(disk));
    forall v | v in Wiped(r, Leaf(disk)) ensures v in others {
      var i :| 0 <= i < |r| && r[i] == v;
    }
  }

  /** Two passes over one scan of a foreign disk wipe it twice: the second undoes a finished installation. */
  lemma StaleScanWipesAgain(disk: string, m: Machine, p: WipePass)
    requires CanPass(disk, m, p) && p.fault == Healthy && multiset(p.seen) == multiset(m.volumes)
    requires p.seen != [] && !Ours(disk, p.seen)
    requires forall v | v in m.volumes && v.device == disk :: v.disk == Leaf(disk)
    ensures var once := Passed(disk, m, p);
      Ours(disk, once.volumes) && CanPass(disk, once, p) && Passed(disk, once, p).formats != once.formats
  {
    hide Ours, CanPass, Passed, Leaf, Shape;
    FreshWipeConverges(disk, m, p);
    CanPassAgain(disk, m, p);
    WipesUnlessSeenAsOurs(disk, Passed(disk, m, p), p);
  }

  // ------------------------------------------------------------------------- over runs

  /** Partition ids are distinct and volumes are published under theirs; no other disk's volume passes for the install disk. */
  ghost predicate Keyed(s: Setup, w: World) {
    && DistinctIds(w.m.volumes)
    && (forall id | id in w.shown :: Leaf(w.shown[id].device) == id)
    && (forall v | v in w.m.volumes && v.device == s.disk :: v.disk == Leaf(s.disk))
    && (w.job == Creating(true) ==> forall v | v in w.m.volumes :: !Of(s.disk, v))
  }

  lemma {:induction false} WipedDistinct(vs: seq<Volume>, disk: string)
    requires DistinctIds(vs)
    ensures DistinctIds(Wiped(vs, disk))
  {
    hide Leaf;
    if vs != [] {
      var front, r := vs[..|vs|-1], Wiped(vs, disk);
      WipedDistinct(front, disk);
      if vs[|vs|-1].disk != disk {
        forall i | 0 <= i < |r| - 1 ensures Leaf(r[i].device) != Leaf(r[|r|-1].device) {
          assert Wiped(front, disk)[i] in front;
        }
      }
    }
  }

  lemma LaidDistinct(vs: seq<Volume>, disk: string, plan: seq<PartitionPlan>, devices: seq<string>)
    requires DistinctIds(vs) && Fresh(vs, devices) && |plan| == |devices|
    ensures DistinctIds(vs + NewVolumes(disk, plan, devices))
  {
    hide Leaf;
    var r := vs + NewVolumes(disk, plan, devices);
    forall i, j | 0 <= i < j < |r| ensures Leaf(r[i].device) != Leaf(r[j].device) {
      if |vs| <= i {
        assert r[i].device == devices[i - |vs|] && r[j].device == devices[j - |vs|];
      } else if |vs| <= j {
        assert r[i] in vs && r[j].device in devices;
      }
    }
  }

  /** New partitions belong to the install disk. */
  lemma LaidKeyed(s: Setup, w: World, plan: seq<PartitionPlan>, devices: seq<string>, from: Statuses)
    requires Keyed(s, w) && Fresh(w.m.volumes, devices) && |plan| == |devices|
    ensures Keyed(s, Laid(s, w, plan, devices, from))
  {
    hide Leaf, DistinctIds, Fresh;
    LaidDistinct(w.m.volumes, Leaf(s.disk), plan, devices);
  }

  lemma GrownKeyed(s: Setup, w: World, w': World)
    requires Keyed(s, w) && Grows(w.m.volumes, w'.m.volumes) && |w'.m.volumes| == |w.m.volumes|
    requires (forall id | id in w'.shown :: Leaf(w'.shown[id].device) == id) && !w'.job.Creating?
    ensures Keyed(s, w')
  {
    hide Leaf;
    SameIdsDistinct(w.m.volumes, w'.m.volumes);
    forall v | v in w'.m.volumes && v.device == s.disk ensures v.disk == Leaf(s.disk) {
      var i :| 0 <= i < |w'.m.volumes| && w'.m.volumes[i] == v;
      assert SamePartition(w.m.volumes[i], v) && w.m.volumes[i] in w.m.volumes;
    }
  }

  lemma ActKeyed(s: Setup, w: World, devices: seq<string>, held: set<string>)
    requires Keyed(s, w) && s.wipe && Enabled(s, w, Act(devices, held))
    ensures Keyed(s, Acted(s, w, devices, held))
  {
    hide Leaf, PlanProvisioning, StatusesFromDiscovered, Publish, Collides, Fresh, DistinctIds;
    PlanExact(s.disk, true, w.job.seen);
    WipedDistinct(w.m.volumes, Leaf(s.disk));
  }

  lemma KeyedStep(s: Setup, w: World, step: Step)
    requires Keyed(s, w) && s.wipe && Enabled(s, w, step)
    ensures Keyed(s, Next(s, w, step))
  {
    hide Leaf, DistinctIds, Fresh, SetFs, AfterReset, Lists, AllTruthful, Ids, DecisionOn;
    match step
    case Act(devices, held) => ActKeyed(s, w, devices, held);
    case Create(devices) => LaidKeyed(s, w, FIXED_LAYOUT, devices, map[]);
    case FormatNext =>
      SetFsGrows(w.m.volumes, CallFor(w.job).device, CallFor(w.job).fs);
      GrownKeyed(s, w, Next(s, w, step));
    case Reset(fails) =>
      ResetGrows(w.m.volumes, w.m.statuses, fails);
      GrownKeyed(s, w, Next(s, w, step));
    case _ =>
  }

  lemma {:induction false} KeyedRun(s: Setup, w: World, steps: seq<Step>)
    requires Keyed(s, w) && s.wipe && IsRun(s, w, steps)
    ensures Keyed(s, After(s, w, steps))
    decreases |steps|
  {
    hide Keyed, Next, Enabled;
    if steps != [] {
      KeyedStep(s, w, steps[0]);
      KeyedRun(s, Next(s, w, steps[0]), steps[1..]);
    }
  }

  /** In every run the table written after a wipe makes the disk ours. */
  lemma WipeMakesOurs(s: Setup, vs: seq<Volume>, steps: seq<Step>, devices: seq<string>)
    requires s.wipe && DistinctIds(vs) && (forall v | v in vs && v.device == s.disk :: v.disk == Leaf(s.disk))
    requires IsRun(s, Start(vs), steps)
    requires var w := After(s, Start(vs), steps); w.job == Creating(true) && Enabled(s, w, Create(devices))
    ensures Ours(s.disk, Next(s, After(s, Start(vs), steps), Create(devices)).m.volumes)
  {
    hide Leaf, Ours, Fresh, FormattedTo, DistinctIds, Shape;
    var w := After(s, Start(vs), steps);
    KeyedRun(s, Start(vs), steps);
    FormattedShape(w.m.volumes, Leaf(s.disk), FIXED_LAYOUT, devices, 0);
    Unformatted(w.m.volumes + NewVolumes(Leaf(s.disk), FIXED_LAYOUT, devices), FIXED_LAYOUT, devices);
    NamesOfLayout(s.disk, w.m.volumes, Next(s, w, Create(devices)).m.volumes, devices, 0);
  }

  lemma Unformatted(vs: seq<Volume>, plan: seq<PartitionPlan>, devices: seq<string>)
    requires |plan| == |devices|
    ensures FormattedTo(vs, plan, devices, 0) == vs
  {
  }

  /** The disk is ours, everything shown is there, and whatever a pass lists past the barrier is all that is there. */
  ghost predicate Converged(s: Setup, w: World) {
    && DistinctIds(w.m.volumes) && Ours(s.disk, w.m.volumes)
    && (forall id | id in w.shown :: Leaf(w.shown[id].device) == id && Truthful(w.m.volumes, w.shown[id]))
    && (w.barrier || w.job.Gated? ==> Ids(w.m.volumes) <= w.shown.Keys)
    && (w.scan.Showing? ==>
          && AllTruthful(w.m.volumes, w.scan.found) && Ids(w.m.volumes) <= Ids(w.scan.found) <= w.shown.Keys + Ids(w.scan.todo)
          && forall v | v in w.scan.todo :: v in w.scan.found)
    && (w.job.Decided? ==> Ours(s.disk, w.job.seen))
    && !w.job.Creating?
  }

  /** What a pass lists then is our layout. */
  lemma ConvergedListing(s: Setup, w: World, seen: seq<Volume>)
    requires Converged(s, w) && w.job.Gated? && Lists(w.shown, seen)
    ensures Ours(s.disk, seen) && DecisionOn(s, seen) == Skip
  {
    hide Leaf, PlanProvisioning, NamesOn, DistinctIds;
    forall u | u in w.m.volumes ensures exists v | v in seen :: SamePartition(u, v) {
      assert Leaf(u.device) in Ids(w.m.volumes);
      var v := w.shown[Leaf(u.device)];
      assert Truthful(w.m.volumes, v);
      var x :| x in w.m.volumes && SamePartition(x, v);
      SameId(w.m.volumes, u, x);
      assert v in seen;
    }
    forall v | v in seen ensures Truthful(w.m.volumes, v) { assert w.shown[Leaf(v.device)] == v; }
    NamesSeen(s.disk, w.m.volumes, seen);
    PlanExact(s.disk, s.wipe, seen);
  }

  lemma GrownConverged(s: Setup, w: World, w': World)
    requires Converged(s, w) && Grows(w.m.volumes, w'.m.volumes) && |w'.m.volumes| == |w.m.volumes|
    requires w'.shown == w.shown && w'.barrier == w.barrier && w'.scan == w.scan && !w'.job.Gated? && !w'.job.Decided? && !w'.job.Creating?
    ensures Converged(s, w')
  {
    hide Leaf, NamesOn, Truthful, DistinctIds;
    SameIdsDistinct(w.m.volumes, w'.m.volumes);
    SameIds(w.m.volumes, w'.m.volumes);
    NamesKept(s.disk, w.m.volumes, w'.m.volumes);
    TruthStays(w.m.volumes, w'.m.volumes);
  }

  /** A boot empties the store; what is on the disks stays. */
  lemma BootedConverged(s: Setup, w: World, m: Machine, resets: seq<FormatCall>)
    requires Converged(s, w) && Grows(w.m.volumes, m.volumes) && |m.volumes| == |w.m.volumes|
    ensures Converged(s, Booted(m, resets))
  {
    hide Leaf, NamesOn, Truthful, DistinctIds, Ids;
    SameIdsDistinct(w.m.volumes, m.volumes);
    NamesKept(s.disk, w.m.volumes, m.volumes);
  }

  lemma ScanConverged(s: Setup, w: World, step: Step)
    requires Converged(s, w) && s.trust.Complete? && Enabled(s, w, step) && IsScanStep(step)
    ensures Converged(s, Next(s, w, step)) && Next(s, w, step).m == w.m
  {
    hide Leaf, NamesOn, Truthful, DistinctIds;
    if step.Show? {
      assert w.scan.todo == [w.scan.todo[0]] + w.scan.todo[1..];
      assert Ids(w.scan.todo) <= Ids(w.scan.todo[1..]) + {Leaf(w.scan.todo[0].device)};
      assert w.scan.todo[0] in w.scan.found;
    } else if step.EndScan? {
      assert Ids([]) == {};
    }
  }

  lemma ActConverged(s: Setup, w: World, devices: seq<string>, held: set<string>)
    requires Converged(s, w) && Enabled(s, w, Act(devices, held))
    ensures Converged(s, Acted(s, w, devices, held)) && Acted(s, w, devices, held).m.volumes == w.m.volumes
  {
    hide Leaf, NamesOn, PlanProvisioning, Truthful, DistinctIds, Ids, StatusesFromDiscovered, Publish;
    PlanExact(s.disk, s.wipe, w.job.seen);
  }

  lemma ConvergedStep(s: Setup, w: World, step: Step)
    requires Converged(s, w) && s.trust.Complete? && Enabled(s, w, step)
    ensures Converged(s, Next(s, w, step)) && |Next(s, w, step).m.volumes| == |w.m.volumes| && Grows(w.m.volumes, Next(s, w, step).m.volumes)
  {
    hide Leaf, Ours, Truthful, DistinctIds, Ids, SetFs, AfterReset, Lists, AllTruthful, DecisionOn, Fresh;
    if IsScanStep(step) {
      hide Converged;
      ScanConverged(s, w, step);
    } else {
      match step
      case Act(devices, held) => ActConverged(s, w, devices, held);
      case List(seen) => ConvergedListing(s, w, seen);
      case FormatNext =>
        SetFsGrows(w.m.volumes, CallFor(w.job).device, CallFor(w.job).fs);
        GrownConverged(s, w, Next(s, w, step));
      case Reset(fails) =>
        ResetGrows(w.m.volumes, w.m.statuses, fails);
        BootedConverged(s, w, w.m.(volumes := AfterReset(w.m.volumes, w.m.statuses, fails)), w.resets + ResetCalls(w.m.statuses));
      case Reboot => BootedConverged(s, w, w.m, w.resets);
      case _ =>
    }
  }

  lemma {:induction false} ConvergedRun(s: Setup, w: World, steps: seq<Step>)
    requires Converged(s, w) && s.trust.Complete? && IsRun(s, w, steps)
    ensures var w' := After(s, w, steps); Converged(s, w') && |w'.m.volumes| == |w.m.volumes| && Grows(w.m.volumes, w'.m.volumes)
    decreases |steps|
  {
    hide Converged, Next, Enabled, Grows;
    if steps != [] {
      var w1 := Next(s, w, steps[0]);
      ConvergedStep(s, w, steps[0]);
      ConvergedRun(s, w1, steps[1..]);
      GrowsOn(w.m.volumes, w1.m.volumes, After(s, w, steps).m.volumes);
    } else {
      assert Grows(w.m.volumes, w.m.volumes) by { Same(w.m.volumes); }
    }
  }

  lemma Same(vs: seq<Volume>)
    ensures Grows(vs, vs)
  {
  }

  /** A scan of a disk that is ours is in progress, and no pass has a listing in hand. */
  ghost predicate Rescanning(s: Setup, w: World) {
    && DistinctIds(w.m.volumes) && Ours(s.disk, w.m.volumes)
    && (forall id | id in w.shown :: Leaf(w.shown[id].device) == id)
    && w.scan.Showing? && AllTruthful(w.m.volumes, w.scan.found) && Ids(w.m.volumes) <= Ids(w.scan.found)
    && (forall v | v in w.scan.todo :: v in w.scan.found)
    && (forall id | id in Ids(w.scan.found) :: id in Ids(w.scan.todo) || (id in w.shown && Truthful(w.m.volumes, w.shown[id])))
    && !w.job.Decided? && !w.job.Creating?
  }

  lemma RescanningGrows(s: Setup, w: World, w': World)
    requires Rescanning(s, w) && Grows(w.m.volumes, w'.m.volumes) && |w'.m.volumes| == |w.m.volumes|
    requires w'.shown == w.shown && w'.scan == w.scan && !w'.job.Decided? && !w'.job.Creating?
    ensures Rescanning(s, w')
  {
    hide Leaf, NamesOn, Truthful, DistinctIds;
    SameIdsDistinct(w.m.volumes, w'.m.volumes);
    SameIds(w.m.volumes, w'.m.volumes);
    NamesKept(s.disk, w.m.volumes, w'.m.volumes);
    TruthStays(w.m.volumes, w'.m.volumes);
  }

  predicate Quietly(step: Step) {
    !(step.List? || step.EndScan? || step.AbortScan? || step.Reboot? || step.Reset?)
  }

  lemma RescanningStep(s: Setup, w: World, step: Step)
    requires Rescanning(s, w) && Enabled(s, w, step) && Quietly(step)
    ensures Rescanning(s, Next(s, w, step)) && |Next(s, w, step).m.volumes| == |w.m.volumes| && Grows(w.m.volumes, Next(s, w, step).m.volumes)
  {
    hide Leaf, Ours, Truthful, DistinctIds, SetFs, Lists, DecisionOn, Fresh;
    match step
    case Show =>
      assert w.scan.todo == [w.scan.todo[0]] + w.scan.todo[1..];
      assert Ids(w.scan.todo) <= Ids(w.scan.todo[1..]) + {Leaf(w.scan.todo[0].device)};
      assert w.scan.todo[0] in w.scan.found;
    case FormatNext =>
      SetFsGrows(w.m.volumes, CallFor(w.job).device, CallFor(w.job).fs);
      RescanningGrows(s, w, Next(s, w, step));
    case _ =>
  }

  lemma {:induction false} RescanningRun(s: Setup, w: World, steps: seq<Step>)
    requires Rescanning(s, w) && IsRun(s, w, steps) && forall i | 0 <= i < |steps| :: Quietly(steps[i])
    ensures var w' := After(s, w, steps); Rescanning(s, w') && |w'.m.volumes| == |w.m.volumes| && Grows(w.m.volumes, w'.m.volumes)
    decreases |steps|
  {
    hide Rescanning, Next, Enabled, Grows, Quietly;
    if steps != [] {
      var w1 := Next(s, w, steps[0]);
      assert Quietly(steps[0]);
      RescanningStep(s, w, steps[0]);
      RescanningRun(s, w1, steps[1..]);
      GrowsOn(w.m.volumes, w1.m.volumes, After(s, w, steps).m.volumes);
    } else {
      assert Grows(w.m.volumes, w.m.volumes) by { Same(w.m.volumes); }
    }
  }

  /**
   From `w` a scan begins, `during` happens without any pass listing, the scan completes with
   nothing stale left published, `later` happens.
   */
  ghost predicate CleanRescan(s: Setup, w: World, found: seq<Volume>, during: seq<Step>, listed: bool, later: seq<Step>) {
    && Enabled(s, w, BeginScan(found))
    && var w1 := Next(s, w, BeginScan(found));
      && IsRun(s, w1, during) && (forall i | 0 <= i < |during| :: Quietly(during[i]))
      && var w2 := After(s, w1, during);
        && Enabled(s, w2, EndScan(listed)) && w2.shown.Keys <= Ids(found)
        && IsRun(s, Next(s, w2, EndScan(listed)), later)
  }

  ghost function AfterClean(s: Setup, w: World, found: seq<Volume>, during: seq<Step>, listed: bool, later: seq<Step>): World
    requires CleanRescan(s, w, found, during, listed, later)
  {
    After(s, Next(s, After(s, Next(s, w, BeginScan(found)), during), EndScan(listed)), later)
  }

  lemma ScanEnds(s: Setup, w: World, listed: bool)
    requires Rescanning(s, w) && Enabled(s, w, EndScan(listed)) && w.shown.Keys <= Ids(w.scan.found)
    ensures Converged(s, Next(s, w, EndScan(listed))) && Next(s, w, EndScan(listed)).m == w.m
  {
    hide Leaf, Ours, Truthful, DistinctIds;
    assert Ids(w.scan.todo) == {};
  }

  lemma {:induction false} FoundStays(s: Setup, w: World, steps: seq<Step>)
    requires w.scan.Showing? && IsRun(s, w, steps) && forall i | 0 <= i < |steps| :: Quietly(steps[i])
    ensures After(s, w, steps).scan.Showing? && After(s, w, steps).scan.found == w.scan.found
    decreases |steps|
  {
    hide PlanProvisioning, Leaf, Collides, Fresh, Lists, StatusesFromDiscovered, AllTruthful, Ids, SetFs;
    if steps != [] {
      assert Quietly(steps[0]);
      FoundStays(s, Next(s, w, steps[0]), steps[1..]);
    }
  }

  /**
   With wipe, complete scans and a disk that a pass has made ours: after a scan that began then and
   completed cleanly, before which no pass listed, every later pass past the barrier decides Skip, and in
   every continuation the partitions stay, whatever fails and however often the machine boots or is reset.
   */
  lemma WipeConverges(s: Setup, vs: seq<Volume>, steps: seq<Step>, found: seq<Volume>, during: seq<Step>, listed: bool, later: seq<Step>)
    requires s.wipe && s.trust.Complete? && DistinctIds(vs) && (forall v | v in vs && v.device == s.disk :: v.disk == Leaf(s.disk))
    requires IsRun(s, Start(vs), steps)
    requires var w := After(s, Start(vs), steps);
      Ours(s.disk, w.m.volumes) && !w.job.Decided? && !w.job.Creating? && CleanRescan(s, w, found, during, listed, later)
    ensures var w := After(s, Start(vs), steps);
      var w' := AfterClean(s, w, found, during, listed, later);
      && |w'.m.volumes| == |w.m.volumes| && Grows(w.m.volumes, w'.m.volumes)
      && (w'.job.Gated? ==> forall seen | Lists(w'.shown, seen) :: DecisionOn(s, seen) == Skip)
  {
    hide Converged, Ours, Leaf, DistinctIds, Grows, Lists, DecisionOn, Ids, AllTruthful, Truthful, Fresh;
    var w := After(s, Start(vs), steps);
    KeyedRun(s, Start(vs), steps);
    var w1 := Next(s, w, BeginScan(found));
    assert Rescanning(s, w1);
    RescanningRun(s, w1, during);
    FoundStays(s, w1, during);
    var w2 := After(s, w1, during);
    ScanEnds(s, w2, listed);
    var w3 := Next(s, w2, EndScan(listed));
    ConvergedRun(s, w3, later);
    var w' := After(s, w3, later);
    GrowsOn(w.m.volumes, w2.m.volumes, w'.m.volumes);
    forall seen | w'.job.Gated? && Lists(w'.shown, seen) ensures DecisionOn(s, seen) == Skip {
      ConvergedListing(s, w', seen);
    }
  }

  lemma {:induction false} WipedSame(vs: seq<Volume>, disk: string)
    ensures Wiped(vs, disk) == vs <==> forall v | v in vs :: v.disk != disk
  {
    if vs != [] {
      WipedSame(vs[..|vs|-1], disk);
      assert vs == vs[..|vs|-1] + [vs[|vs|-1]];
    }
  }

  /**
   A pass that lists too early wipes again: with wipe, whatever is on the disk, the two calls after the
   barrier leave its partitions iff the listing shows our layout or is empty, or there are none.
   */
  lemma ListingDecidesWipe(s: Setup, w: World, seen: seq<Volume>, held: set<string>)
    requires s.wipe && Enabled(s, w, List(seen))
    ensures var w1 := Next(s, w, List(seen));
      && Enabled(s, w1, Act([], held))
      && var (all, all') := (w.m.volumes, Next(s, w1, Act([], held)).m.volumes);
        && (all' == all || all' == Wiped(all, Leaf(s.disk)))
        && (all' == all <==> Ours(s.disk, seen) || seen == [] || forall v | v in all :: v.disk != Leaf(s.disk))
  {
    hide Leaf, PlanProvisioning, Ours, Lists, StatusesFromDiscovered, Publish;
    PlanExact(s.disk, true, seen);
    WipedSame(w.m.volumes, Leaf(s.disk));
  }
}
