/**
 Discovery, provisioning and reset as one machine: scans that publish one resource at a time,
 passes that make one store or backend call at a time, failing calls, resets and reboots,
 interleaved in any order.
 */
module ProvisionMachine {
  import opened Resources
  import opened Block
  import opened Provision

  /**
   What may be assumed of discovery: nothing; that scans report only partitions that are there and
   passes list what is published; or also that scans miss no partition.
   */
  datatype Trust = Anything | Honest | Complete

  datatype Setup = Setup(disk: string, wipe: bool, trust: Trust)

  /** A scan in progress: what it found and what it has yet to publish. */
  datatype Scan = Quiet | Showing(found: seq<Volume>, todo: seq<Volume>)

  /** Where a provisioner pass stands. */
  datatype Job =
    | NoJob
    | Gated                                // the disk status was there
    | Decided(seen: seq<Volume>)           // the volumes were listed
    | Creating(wiped: bool)                // wiped, or nothing was listed
    | Formatting(plan: seq<PartitionPlan>, devices: seq<string>, from: Statuses, done: nat)

  /**
   `shown` are the discovered volumes in the store by resource id, `barrier` is the install
   disk's status, `scanned` is what the latest completed scan since boot found, and `resets`
   are the format calls made by resets.
   */
  datatype World = World(m: Machine, shown: map<string, Volume>, barrier: bool, scan: Scan, scanned: seq<Volume>, job: Job,
                         resets: seq<FormatCall>)

  datatype Step =
    | BeginScan(found: seq<Volume>)
    | Show
    | Retire(id: string)
    | EndScan(listed: bool)
    | AbortScan
    | Gate
    | List(seen: seq<Volume>)
    | Act(devices: seq<string>, held: set<string>)
    | Create(devices: seq<string>)
    | FormatNext
    | FormatError
    | PublishAll(held: set<string>)
    | GiveUp                               // a failing call ends the pass, before or after its effect
    | Reset(fails: set<string>)            // controllers have stopped; the reset ends in a reboot
    | Reboot

  // ---------------------------------------------------------------- what discovery shows

  function Ids(vs: seq<Volume>): set<string> {
    set v | v in vs :: Leaf(v.device)
  }

  ghost predicate DistinctIds(vs: seq<Volume>) {
    forall i, j | 0 <= i < j < |vs| :: Leaf(vs[i].device) != Leaf(vs[j].device)
  }

  predicate SamePartition(u: Volume, v: Volume) {
    u.(fs := None) == v.(fs := None)
  }

  /** The volume names a partition that is on the disks, and shows no filesystem where there is none. */
  predicate Truthful(vs: seq<Volume>, v: Volume) {
    exists u | u in vs :: SamePartition(u, v) && (u.fs.None? ==> v.fs.None?)
  }

  predicate AllTruthful(vs: seq<Volume>, seen: seq<Volume>) {
    forall v | v in seen :: Truthful(vs, v)
  }

  /** Each of `vs` is listed in `seen`. */
  predicate Sees(vs: seq<Volume>, seen: seq<Volume>) {
    forall u | u in vs :: exists v | v in seen :: SamePartition(u, v)
  }

  /** `seen` holds every shown volume once, in some order. */
  ghost predicate Lists(shown: map<string, Volume>, seen: seq<Volume>) {
    && (forall v | v in seen :: Leaf(v.device) in shown && shown[Leaf(v.device)] == v)
    && (forall id | id in shown :: shown[id] in seen)
    && DistinctIds(seen)
  }

  predicate IsNamed(vs: seq<Volume>, name: string, device: string) {
    exists u | u in vs :: u.device == device && u.partLabel == name
  }

  /** A status names a partition that carries that label. */
  predicate Names(vs: seq<Volume>, statuses: Statuses) {
    forall n | n in statuses :: IsNamed(vs, n, statuses[n].device)
  }

  // --------------------------------------------------------------------------- steps

  function DecisionOn(s: Setup, seen: seq<Volume>): Decision {
    PlanProvisioning(s.disk, s.wipe, seen)
  }

  ghost predicate Enabled(s: Setup, w: World, step: Step) {
    match step
    case BeginScan(found) =>
      && w.scan.Quiet? && (!s.trust.Anything? ==> AllTruthful(w.m.volumes, found))
      && (s.trust.Complete? ==> Ids(w.m.volumes) <= Ids(found))
    case Show => w.scan.Showing? && w.scan.todo != []
    case Retire(id) => w.scan.Showing? && w.scan.todo == [] && id in w.shown && id !in Ids(w.scan.found)
    case EndScan(_) => w.scan.Showing? && w.scan.todo == []
    case AbortScan => w.scan.Showing?
    case Gate => w.job.NoJob?
    case List(seen) => w.job.Gated? && (!s.trust.Anything? ==> Lists(w.shown, seen))
    case Act(devices, _) =>
      && w.job.Decided?
      && (DecisionOn(s, w.job.seen).CompleteLayout? ==> Fresh(w.m.volumes, devices) && |devices| == |APPENDED_LAYOUT|)
    case Create(devices) => w.job.Creating? && Fresh(w.m.volumes, devices) && |devices| == |FIXED_LAYOUT|
    case FormatNext => w.job.Formatting? && w.job.done < |w.job.plan| == |w.job.devices|
    case FormatError => w.job.Formatting? && w.job.done < |w.job.plan| == |w.job.devices|
    case PublishAll(_) => w.job.Formatting? && w.job.done == |w.job.plan| == |w.job.devices|
    case GiveUp => !w.job.NoJob?
    case Reset(_) => w.job.NoJob?
    case Reboot => true
  }

  /** The call after the decision. */
  ghost function Acted(s: Setup, w: World, devices: seq<string>, held: set<string>): World
    requires Enabled(s, w, Act(devices, held))
  {
    var from := StatusesFromDiscovered(s.disk, w.job.seen);
    match DecisionOn(s, w.job.seen)
    case RefuseForeign => w.(job := NoJob)
    case Skip => w.(m := w.m.(statuses := Publish(w.m.statuses, from, held)), job := NoJob)
    case CompleteLayout =>
      if Collides(w.m.volumes, Leaf(s.disk), APPENDED_LAYOUT) then w.(job := NoJob)
      else Laid(s, w, APPENDED_LAYOUT, devices, from)
    case Provision => w.(m := w.m.(volumes := Cleared(Config(s.disk, s.wipe), w.m.volumes, w.job.seen)), job := Creating(w.job.seen != []))
  }

  /** The table is written: the planned partitions are there, unformatted. */
  ghost function Laid(s: Setup, w: World, plan: seq<PartitionPlan>, devices: seq<string>, from: Statuses): World
    requires |plan| == |devices|
  {
    w.(m := w.m.(volumes := w.m.volumes + NewVolumes(Leaf(s.disk), plan, devices)), job := Formatting(plan, devices, from, 0))
  }

  function CallFor(job: Job): FormatCall
    requires job.Formatting? && job.done < |job.plan| == |job.devices|
  {
    FormatCall(job.devices[job.done], job.plan[job.done].fs, job.plan[job.done].name)
  }

  /** Power-on: the store is empty, the disks are as they were. */
  function Booted(m: Machine, resets: seq<FormatCall>): World {
    World(m.(statuses := map[]), map[], false, Quiet, [], NoJob, resets)
  }

  /** A volume is published under the leaf of its device; the disk status comes last. */
  ghost function Next(s: Setup, w: World, step: Step): World
    requires Enabled(s, w, step)
  {
    match step
    case BeginScan(found) => w.(scan := Showing(found, found))
    case Show =>
      var v := w.scan.todo[0];
      w.(shown := w.shown[Leaf(v.device) := v], scan := w.scan.(todo := w.scan.todo[1..]))
    case Retire(id) => w.(shown := w.shown - {id})
    case EndScan(listed) => w.(barrier := listed, scan := Quiet, scanned := w.scan.found)
    case AbortScan => w.(scan := Quiet)
    case Gate => if w.barrier then w.(job := Gated) else w
    case List(seen) => w.(job := Decided(seen))
    case Act(devices, held) => Acted(s, w, devices, held)
    case Create(devices) => Laid(s, w, FIXED_LAYOUT, devices, map[])
    case FormatNext =>
      var c := CallFor(w.job);
      w.(m := w.m.(volumes := SetFs(w.m.volumes, c.device, c.fs), formats := w.m.formats + [c]), job := w.job.(done := w.job.done + 1))
    case FormatError => w.(m := w.m.(formats := w.m.formats + [CallFor(w.job)]), job := NoJob)
    case PublishAll(held) =>
      w.(m := w.m.(statuses := Publish(w.m.statuses, WithPlanned(w.job.from, w.job.plan, w.job.devices, |w.job.plan|), held)), job := NoJob)
    case GiveUp => w.(job := NoJob)
    case Reset(fails) =>
      Booted(w.m.(volumes := AfterReset(w.m.volumes, w.m.statuses, fails)), w.resets + ResetCalls(w.m.statuses))
    case Reboot => Booted(w.m, w.resets)
  }

  ghost predicate IsRun(s: Setup, w: World, steps: seq<Step>)
    decreases |steps|
  {
    steps == [] || (Enabled(s, w, steps[0]) && IsRun(s, Next(s, w, steps[0]), steps[1..]))
  }

  ghost function After(s: Setup, w: World, steps: seq<Step>): World
    requires IsRun(s, w, steps)
    decreases |steps|
  {
    if steps == [] then w else After(s, Next(s, w, steps[0]), steps[1..])
  }

  /** First power-on with these partitions on the disks. */
  function Start(vs: seq<Volume>): World {
    Booted(Machine(vs, [], map[]), [])
  }

  predicate IsScanStep(step: Step) {
    step.BeginScan? || step.Show? || step.Retire? || step.EndScan? || step.AbortScan?
  }

  // --------------------------------------------------------- how partitions can change

  /** Partitions are only added and given filesystems: whatever named one still does. */
  ghost predicate Grows(vs: seq<Volume>, vs': seq<Volume>) {
    |vs| <= |vs'| && forall i | 0 <= i < |vs| :: SamePartition(vs[i], vs'[i]) && (vs'[i].fs.None? ==> vs[i].fs.None?)
  }

  /** Formatting a device changes nothing that is not that device. */
  lemma SetFsGrows(vs: seq<Volume>, device: string, fs: string)
    ensures |SetFs(vs, device, fs)| == |vs| && Grows(vs, SetFs(vs, device, fs))
    ensures forall i | 0 <= i < |vs| && vs[i].device != device :: SetFs(vs, device, fs)[i] == vs[i]
  {
  }

  lemma GrowsOn(a: seq<Volume>, b: seq<Volume>, c: seq<Volume>)
    requires Grows(a, b) && Grows(b, c)
    ensures Grows(a, c)
  {
  }

  /** The device of a status that a reset formats. */
  predicate Formatted(statuses: Statuses, fails: set<string>, device: string) {
    exists name | name in {STATE, EPHEMERAL} :: name in statuses && name !in fails && statuses[name].device == device
  }

  lemma SetFsHits(vs: seq<Volume>, i: nat, fs: string)
    requires DistinctIds(vs) && i < |vs|
    ensures SetFs(vs, vs[i].device, fs) == vs[i := vs[i].(fs := Some(fs))]
  {
    hide Leaf, SetFs;
    forall j | 0 <= j < i ensures vs[j].device != vs[i].device {
      assert Leaf(vs[j].device) != Leaf(vs[i].device);
    }
    SetFsAt(vs, i, fs);
  }

  lemma SameIdsDistinct(a: seq<Volume>, b: seq<Volume>)
    requires |a| == |b| && Grows(a, b) && DistinctIds(a)
    ensures DistinctIds(b)
  {
    hide Leaf;
    forall i, j | 0 <= i < j < |b| ensures Leaf(b[i].device) != Leaf(b[j].device) {
      assert SamePartition(a[i], b[i]) && SamePartition(a[j], b[j]);
    }
  }

  lemma ResetOneEffect(vs: seq<Volume>, statuses: Statuses, name: string, fails: set<string>, i: nat)
    requires DistinctIds(vs) && i < |vs|
    ensures var r := ResetOne(vs, statuses, name, fails);
      && |r| == |vs| && Grows(vs, r) && DistinctIds(r)
      && r[i].fs.Some? == (vs[i].fs.Some? || (name in statuses && name !in fails && statuses[name].device == vs[i].device))
      && (r[i] == vs[i] || (name in statuses && statuses[name].device == vs[i].device))
  {
    hide Leaf, SetFs, ResetFs;
    var r := ResetOne(vs, statuses, name, fails);
    if name in statuses && name !in fails {
      var (d, fs) := (statuses[name].device, ResetFs(statuses[name].fs));
      SetFsGrows(vs, d, fs);
      if d == vs[i].device { SetFsHits(vs, i, fs); }
    }
    SameIdsDistinct(vs, r);
  }

  /** A reset gives a filesystem to exactly the partitions whose format it attempts and completes. */
  lemma ResetEffect(vs: seq<Volume>, statuses: Statuses, fails: set<string>, i: nat)
    requires DistinctIds(vs) && i < |vs|
    ensures var r := AfterReset(vs, statuses, fails);
      && |r| == |vs| && Grows(vs, r) && DistinctIds(r)
      && r[i].fs.Some? == (vs[i].fs.Some? || Formatted(statuses, fails, vs[i].device))
      && (r[i] == vs[i] || exists c :: c in ResetCalls(statuses) && c.device == vs[i].device)
  {
    hide Leaf, ResetOne, ResetFs, DistinctIds, Grows;
    var mid := ResetOne(vs, statuses, STATE, fails);
    var r := AfterReset(vs, statuses, fails);
    ResetOneEffect(vs, statuses, STATE, fails, i);
    ResetOneEffect(mid, statuses, EPHEMERAL, fails, i);
    GrowsOn(vs, mid, r);
    SameDevice(vs, mid, i);
    if STATE in statuses && statuses[STATE].device == vs[i].device {
      assert ResetCall(statuses, STATE)[0] in ResetCalls(statuses);
    }
    if EPHEMERAL in statuses && statuses[EPHEMERAL].device == vs[i].device {
      assert ResetCall(statuses, EPHEMERAL)[0] in ResetCalls(statuses);
    }
  }

  lemma SameDevice(a: seq<Volume>, b: seq<Volume>, i: nat)
    requires Grows(a, b) && i < |a|
    ensures b[i].device == a[i].device
  {
    assert SamePartition(a[i], b[i]);
  }

  lemma ResetGrows(vs: seq<Volume>, statuses: Statuses, fails: set<string>)
    ensures |AfterReset(vs, statuses, fails)| == |vs| && Grows(vs, AfterReset(vs, statuses, fails))
  {
    hide SetFs, ResetFs, Grows;
    var mid := ResetOne(vs, statuses, STATE, fails);
    ResetOneGrows(vs, statuses, STATE, fails);
    ResetOneGrows(mid, statuses, EPHEMERAL, fails);
    GrowsOn(vs, mid, AfterReset(vs, statuses, fails));
  }

  lemma ResetOneGrows(vs: seq<Volume>, statuses: Statuses, name: string, fails: set<string>)
    ensures |ResetOne(vs, statuses, name, fails)| == |vs| && Grows(vs, ResetOne(vs, statuses, name, fails))
  {
    hide SetFs, ResetFs;
    if name in statuses && name !in fails {
      SetFsGrows(vs, statuses[name].device, ResetFs(statuses[name].fs));
    }
  }

  lemma TruthStays(vs: seq<Volume>, vs': seq<Volume>)
    requires Grows(vs, vs')
    ensures forall v | Truthful(vs, v) :: Truthful(vs', v)
    ensures forall n, d | IsNamed(vs, n, d) :: IsNamed(vs', n, d)
  {
    forall u | u in vs ensures exists u' | u' in vs' :: SamePartition(u, u') && (u'.fs.None? ==> u.fs.None?) {
      var i :| 0 <= i < |vs| && vs[i] == u;
      assert vs'[i] in vs';
    }
  }

  lemma SameId(vs: seq<Volume>, u: Volume, x: Volume)
    requires DistinctIds(vs) && u in vs && x in vs && Leaf(u.device) == Leaf(x.device)
    ensures u == x
  {
  }

  lemma SameIds(a: seq<Volume>, b: seq<Volume>)
    requires |a| == |b| && forall i | 0 <= i < |a| :: SamePartition(a[i], b[i])
    ensures Ids(a) == Ids(b)
  {
    hide Leaf;
    forall v | v in a ensures Leaf(v.device) in Ids(b) {
      var i :| 0 <= i < |a| && a[i] == v;
      assert b[i] in b;
    }
    forall v | v in b ensures Leaf(v.device) in Ids(a) {
      var i :| 0 <= i < |b| && b[i] == v;
      assert a[i] in a;
    }
  }

  lemma NamesKept(disk: string, a: seq<Volume>, b: seq<Volume>)
    requires |a| == |b| && forall i | 0 <= i < |a| :: SamePartition(a[i], b[i])
    ensures NamesOn(disk, a) == NamesOn(disk, b)
  {
    hide Leaf;
    forall n ensures n in NamesOn(disk, a) <==> n in NamesOn(disk, b) {
      if n in NamesOn(disk, a) {
        var v :| v in a && Of(disk, v) && v.partLabel == n;
        var i :| 0 <= i < |a| && a[i] == v;
        assert b[i] in b && Of(disk, b[i]);
      }
      if n in NamesOn(disk, b) {
        var v :| v in b && Of(disk, v) && v.partLabel == n;
        var i :| 0 <= i < |b| && b[i] == v;
        assert a[i] in a && Of(disk, a[i]);
      }
    }
  }

  /** A label that is listed is on the disk; if all partitions are listed, so are all labels. */
  lemma NamesSeen(disk: string, vs: seq<Volume>, seen: seq<Volume>)
    ensures AllTruthful(vs, seen) ==> NamesOn(disk, seen) <= NamesOn(disk, vs)
    ensures Sees(vs, seen) ==> NamesOn(disk, vs) <= NamesOn(disk, seen)
  {
    hide Leaf;
    if AllTruthful(vs, seen) {
      forall n | n in NamesOn(disk, seen) ensures n in NamesOn(disk, vs) {
        var v :| v in seen && Of(disk, v) && v.partLabel == n;
        assert Truthful(vs, v);
        var u :| u in vs && SamePartition(u, v);
        assert Of(disk, u);
      }
    }
    if Sees(vs, seen) {
      forall n | n in NamesOn(disk, vs) ensures n in NamesOn(disk, seen) {
        var u :| u in vs && Of(disk, u) && u.partLabel == n;
        var v :| v in seen && SamePartition(u, v);
        assert Of(disk, v);
      }
    }
  }

  // ------------------------------------------------------------- statuses from a listing

  lemma {:induction false} FromDiscovered(disk: string, seen: seq<Volume>, name: string)
    requires name in StatusesFromDiscovered(disk, seen)
    ensures exists v | v in seen && v.disk == Leaf(disk) && v.partLabel == name ::
      StatusesFromDiscovered(disk, seen)[name] == Status(v.device, if v.fs.Some? then v.fs.value else "")
  {
    hide Leaf;
    var v := seen[|seen|-1];
    if v.disk == Leaf(disk) && v.partLabel in NAMES && v.partLabel == name {
      assert v in seen;
    } else {
      var front := seen[..|seen|-1];
      FromDiscovered(disk, front, name);
      var u :| u in front && u.disk == Leaf(disk) && u.partLabel == name &&
        StatusesFromDiscovered(disk, front)[name] == Status(u.device, if u.fs.Some? then u.fs.value else "");
      assert u in seen;
    }
  }

  lemma {:induction false} FromPlan(from: Statuses, plan: seq<PartitionPlan>, devices: seq<string>, n: nat, name: string)
    requires n <= |plan| == |devices| && name in WithPlanned(from, plan, devices, n)
    ensures var status := WithPlanned(from, plan, devices, n)[name];
      || (name in from && from[name] == status)
      || exists i | 0 <= i < n :: plan[i].name == name && devices[i] == status.device
  {
    if n != 0 && plan[n-1].name != name {
      FromPlan(from, plan, devices, n - 1, name);
    }
  }

  /** Statuses read off a truthful listing name partitions that are on the disks. */
  lemma DiscoveredNames(disk: string, vs: seq<Volume>, seen: seq<Volume>)
    requires AllTruthful(vs, seen)
    ensures Names(vs, StatusesFromDiscovered(disk, seen))
  {
    hide Leaf, StatusesFromDiscovered;
    var statuses := StatusesFromDiscovered(disk, seen);
    forall n | n in statuses ensures IsNamed(vs, n, statuses[n].device) {
      FromDiscovered(disk, seen, n);
      var v :| v in seen && v.partLabel == n && statuses[n].device == v.device;
      assert Truthful(vs, v);
    }
  }

  lemma PublishNames(vs: seq<Volume>, before: Statuses, after: Statuses, held: set<string>)
    requires Names(vs, before) && Names(vs, after)
    ensures Names(vs, Publish(before, after, held))
  {
  }

  // --------------------------------------------------------- the controller's pass is a run

  lemma RunCons(s: Setup, w: World, step: Step, rest: seq<Step>)
    requires Enabled(s, w, step) && IsRun(s, Next(s, w, step), rest)
    ensures IsRun(s, w, [step] + rest)
    ensures After(s, w, [step] + rest) == After(s, Next(s, w, step), rest)
  {
    hide Enabled, Next;
    assert ([step] + rest)[1..] == rest;
  }

  // ------------------------------------------------------------ an uninterrupted scan

  /** What a scan publishes: each volume under the leaf of its device, the last one found winning. */
  function ShownAs(found: seq<Volume>): map<string, Volume> {
    if found == [] then map[]
    else ShownAs(found[..|found|-1])[Leaf(found[|found|-1].device) := found[|found|-1]]
  }

  lemma {:induction false} ShownKeys(found: seq<Volume>)
    ensures ShownAs(found).Keys == Ids(found)
  {
    hide Leaf;
    if found != [] {
      var (front, last) := (found[..|found|-1], found[|found|-1]);
      ShownKeys(front);
      assert found == front + [last];
      assert Ids(found) == Ids(front) + {Leaf(last.device)};
    }
  }

  lemma {:induction false} ShownLast(found: seq<Volume>, i: nat)
    requires i < |found| && forall j | i < j < |found| :: Leaf(found[j].device) != Leaf(found[i].device)
    ensures Leaf(found[i].device) in ShownAs(found) && ShownAs(found)[Leaf(found[i].device)] == found[i]
  {
    hide Leaf;
    var n := |found| - 1;
    if i < n {
      assert Leaf(found[n].device) != Leaf(found[i].device);
      ShownLast(found[..n], i);
    }
  }

  lemma {:induction false} ShownCons(v: Volume, found: seq<Volume>)
    ensures ShownAs([v] + found) == map[Leaf(v.device) := v] + ShownAs(found)
  {
    hide Leaf;
    var all := [v] + found;
    if found == [] {
      assert all[..0] == [];
    } else {
      var front := found[..|found|-1];
      assert all[..|found|] == [v] + front && all[|all|-1] == found[|found|-1];
      ShownCons(v, front);
    }
  }

  lemma ShowStep(s: Setup, w: World)
    requires w.scan.Showing? && w.scan.todo != []
    ensures var v := w.scan.todo[0];
      && Enabled(s, w, Show)
      && Next(s, w, Show) == w.(shown := w.shown + map[Leaf(v.device) := v], scan := w.scan.(todo := w.scan.todo[1..]))
  {
    hide Leaf;
    var v := w.scan.todo[0];
    assert w.shown[Leaf(v.device) := v] == w.shown + map[Leaf(v.device) := v];
  }

  /** The state of a scan that has published the rest of what it found. */
  function AllShown(w: World): World
    requires w.scan.Showing?
  {
    w.(shown := w.shown + ShownAs(w.scan.todo), scan := w.scan.(todo := []))
  }

  lemma AllShownNext(s: Setup, w: World)
    requires w.scan.Showing? && w.scan.todo != []
    ensures Enabled(s, w, Show) && Next(s, w, Show).scan == w.scan.(todo := w.scan.todo[1..]) && AllShown(Next(s, w, Show)) == AllShown(w)
  {
    hide Leaf, ShownAs, Enabled, Next;
    ShowStep(s, w);
    var (v, rest) := (w.scan.todo[0], w.scan.todo[1..]);
    assert w.scan.todo == [v] + rest;
    ShownCons(v, rest);
    assert w.shown + (map[Leaf(v.device) := v] + ShownAs(rest)) == w.shown + map[Leaf(v.device) := v] + ShownAs(rest);
  }

  function Shows(n: nat): seq<Step> {
    if n == 0 then [] else [Show] + Shows(n - 1)
  }

  lemma {:induction false} ShowAll(s: Setup, w: World, rest: seq<Step>)
    requires w.scan.Showing? && IsRun(s, AllShown(w), rest)
    ensures IsRun(s, w, Shows(|w.scan.todo|) + rest)
    ensures After(s, w, Shows(|w.scan.todo|) + rest) == After(s, AllShown(w), rest)
    decreases |w.scan.todo|
  {
    hide IsRun, After, Enabled, Next;
    var n := |w.scan.todo|;
    if n == 0 {
      assert [] + rest == rest && w.shown + ShownAs([]) == w.shown;
    } else {
      hide AllShown;
      AllShownNext(s, w);
      ShowAll(s, Next(s, w, Show), rest);
      assert Shows(n) + rest == [Show] + (Shows(n - 1) + rest);
      RunCons(s, w, Show, Shows(n - 1) + rest);
    }
  }

  lemma {:induction false} ShowsScan(n: nat)
    ensures forall i | 0 <= i < |Shows(n)| :: IsScanStep(Shows(n)[i])
  {
    if n > 0 { ShowsScan(n - 1); }
  }

  lemma {:induction false} RetireAll(s: Setup, w: World, stale: set<string>, rest: seq<Step>) returns (steps: seq<Step>)
    requires w.scan.Showing? && w.scan.todo == [] && stale <= w.shown.Keys && stale !! Ids(w.scan.found)
    requires IsRun(s, w.(shown := w.shown - stale), rest) && forall i | 0 <= i < |rest| :: IsScanStep(rest[i])
    ensures IsRun(s, w, steps) && After(s, w, steps) == After(s, w.(shown := w.shown - stale), rest)
    ensures forall i | 0 <= i < |steps| :: IsScanStep(steps[i])
    decreases |stale|
  {
    hide Ids, Leaf;
    if stale == {} {
      steps := rest;
      assert w.shown - stale == w.shown;
    } else {
      var id :| id in stale;
      var w1 := Next(s, w, Retire(id));
      assert w1.shown - (stale - {id}) == w.shown - stale;
      steps := RetireAll(s, w1, stale - {id}, rest);
      RunCons(s, w, Retire(id), steps);
      steps := [Retire(id)] + steps;
    }
  }

  /** An uninterrupted scan publishes exactly what it found, as the discovery controller does, and then the disk status. */
  lemma ScanIsRun(s: Setup, w: World, found: seq<Volume>, listed: bool) returns (steps: seq<Step>)
    requires Enabled(s, w, BeginScan(found))
    ensures IsRun(s, w, steps) && forall i | 0 <= i < |steps| :: IsScanStep(steps[i])
    ensures After(s, w, steps) == w.(shown := ShownAs(found), barrier := listed, scanned := found)
  {
    hide Leaf;
    var w1 := Next(s, w, BeginScan(found));
    var w2 := w1.(shown := w.shown + ShownAs(found), scan := Showing(found, []));
    var stale := w.shown.Keys - Ids(found);
    ShownKeys(found);
    hide ShownAs, Ids;
    var w3 := w2.(shown := w2.shown - stale);
    assert w3.shown == ShownAs(found);
    var last := Next(s, w3, EndScan(listed));
    assert last == w.(shown := ShownAs(found), barrier := listed, scanned := found);
    RunCons(s, w3, EndScan(listed), []);
    var rest := RetireAll(s, w2, stale, [EndScan(listed)]);
    assert [EndScan(listed)] + [] == [EndScan(listed)];
    ShowAll(s, w1, rest);
    ShowsScan(|found|);
    steps := [BeginScan(found)] + (Shows(|found|) + rest);
    RunCons(s, w, BeginScan(found), Shows(|found|) + rest);
  }

  /** A scan can fail at any moment; what it has published stays, and so does the disk status. */
  lemma ScanCanFail(s: Setup, w: World)
    requires w.scan.Showing?
    ensures Enabled(s, w, AbortScan) && Next(s, w, AbortScan) == w.(scan := Quiet)
  {
  }

  /** A reboot keeps the disks and the record of calls; everything published is gone, and the barrier closes until a scan ends. */
  lemma RebootForgets(s: Setup, w: World)
    ensures Enabled(s, w, Reboot)
    ensures Next(s, w, Reboot) == World(Machine(w.m.volumes, w.m.formats, map[]), map[], false, Quiet, [], NoJob, w.resets)
    ensures Enabled(s, Next(s, w, Reboot), Gate) && Next(s, Next(s, w, Reboot), Gate) == Next(s, w, Reboot)
  {
  }

  /** The last step of a pass that wrote the table and formatted `n` of `count` partitions. */
  function LastStep(fault: Fault, n: nat, count: nat, held: set<string>): Step {
    if fault.TableFailsLate? then GiveUp else if n < count then FormatError else PublishAll(held)
  }

  function FormatSteps(more: nat, last: Step): seq<Step> {
    if more == 0 then [last] + [] else [FormatNext] + FormatSteps(more - 1, last)
  }

  /** The steps of a pass past the barrier that nothing interrupts but its own `fault`. */
  function StepsOf(s: Setup, m: Machine, seen: seq<Volume>, devices: seq<string>, fault: Fault, held: set<string>): seq<Step> {
    [Gate] + ([List(seen)] +
    match DecisionOn(s, seen)
    case CompleteLayout =>
      if Collides(m.volumes, Leaf(s.disk), APPENDED_LAYOUT) then [Act(devices, held)] + []
      else if fault.TableFails? then [GiveUp] + []
      else [Act(devices, held)] + FormatSteps(Done(fault, 2), LastStep(fault, Done(fault, 2), 2, held))
    case Provision =>
      if fault.WipeFails? && seen != [] && s.wipe then [GiveUp] + []
      else if fault.TableFails? then [Act([], held)] + ([GiveUp] + [])
      else [Act([], held)] + ([Create(devices)] + FormatSteps(Done(fault, 3), LastStep(fault, Done(fault, 3), 3, held)))
    case _ => [Act(devices, held)] + [])
  }

  /** A pass with `n` partitions formatted. */
  ghost function Stage(s: Setup, w: World, plan: seq<PartitionPlan>, devices: seq<string>, from: Statuses, n: nat): World
    requires n <= |plan| == |devices|
  {
    w.(m := w.m.(volumes := FormattedTo(w.m.volumes + NewVolumes(Leaf(s.disk), plan, devices), plan, devices, n),
                 formats := w.m.formats + FormatCalls(plan, devices, n)),
       job := Formatting(plan, devices, from, n))
  }

  lemma StageZero(s: Setup, w: World, plan: seq<PartitionPlan>, devices: seq<string>, from: Statuses)
    requires |devices| == |plan|
    ensures Stage(s, w, plan, devices, from, 0) == Laid(s, w, plan, devices, from)
  {
    assert FormatCalls(plan, devices, 0) == [];
    assert w.m.formats + [] == w.m.formats;
  }

  lemma StageNext(s: Setup, w: World, plan: seq<PartitionPlan>, devices: seq<string>, from: Statuses, n: nat)
    requires n < |plan| == |devices|
    ensures var st := Stage(s, w, plan, devices, from, n);
      && Enabled(s, st, FormatNext) && Next(s, st, FormatNext) == Stage(s, w, plan, devices, from, n + 1)
      && Next(s, st, FormatError).m == st.m.(formats := w.m.formats + FormatCalls(plan, devices, n + 1))
  {
    hide Leaf, SetFs;
    var c := FormatCall(devices[n], plan[n].fs, plan[n].name);
    assert FormatCalls(plan, devices, n + 1) == FormatCalls(plan, devices, n) + [c];
    assert w.m.formats + (FormatCalls(plan, devices, n) + [c]) == w.m.formats + FormatCalls(plan, devices, n) + [c];
  }

  /** How the pass ends: the table call was reported late, a format fails, or all is published. */
  lemma StageEnds(s: Setup, w: World, plan: seq<PartitionPlan>, devices: seq<string>, from: Statuses, fault: Fault, held: set<string>)
    requires |plan| == |devices| && !fault.TableFails?
    ensures var n := Done(fault, |plan|);
      var (st, step) := (Stage(s, w, plan, devices, from, n), LastStep(fault, n, |plan|, held));
      && Enabled(s, st, step)
      && Next(s, st, step) == w.(m := LaidOut(w.m, s.disk, plan, devices, from, fault, held), job := NoJob)
  {
    hide Leaf, SetFs, WithPlanned, Publish, FormattedTo;
    var n := Done(fault, |plan|);
    if n < |plan| { StageNext(s, w, plan, devices, from, n); }
    if fault.TableFailsLate? { StageZero(s, w, plan, devices, from); }
  }

  /** Format `more` partitions, then take the last step. */
  lemma {:induction false} FormatTo(s: Setup, w: World, plan: seq<PartitionPlan>, devices: seq<string>, from: Statuses,
                                    n: nat, more: nat, last: Step)
    requires n + more <= |plan| == |devices| && Enabled(s, Stage(s, w, plan, devices, from, n + more), last)
    ensures IsRun(s, Stage(s, w, plan, devices, from, n), FormatSteps(more, last))
    ensures After(s, Stage(s, w, plan, devices, from, n), FormatSteps(more, last)) ==
            Next(s, Stage(s, w, plan, devices, from, n + more), last)
    decreases more
  {
    hide Stage, Next, Enabled;
    if more == 0 {
      RunCons(s, Stage(s, w, plan, devices, from, n), last, []);
    } else {
      StageNext(s, w, plan, devices, from, n);
      FormatTo(s, w, plan, devices, from, n + 1, more - 1, last);
      RunCons(s, Stage(s, w, plan, devices, from, n), FormatNext, FormatSteps(more - 1, last));
    }
  }

  /** From the written table on. */
  lemma LaidRun(s: Setup, w: World, plan: seq<PartitionPlan>, devices: seq<string>, from: Statuses, fault: Fault, held: set<string>)
    requires |plan| == |devices| && !fault.TableFails?
    ensures var n := Done(fault, |plan|);
      var (st, steps) := (Laid(s, w, plan, devices, from), FormatSteps(n, LastStep(fault, n, |plan|, held)));
      && IsRun(s, st, steps)
      && After(s, st, steps) == w.(m := LaidOut(w.m, s.disk, plan, devices, from, fault, held), job := NoJob)
  {
    hide Stage, Laid, LaidOut, Next, Enabled, LastStep, FormatSteps;
    var n := Done(fault, |plan|);
    StageZero(s, w, plan, devices, from);
    StageEnds(s, w, plan, devices, from, fault, held);
    FormatTo(s, w, plan, devices, from, 0, n, LastStep(fault, n, |plan|, held));
  }

  /** May the backend give these paths in this pass? */
  ghost predicate CanTake(s: Setup, m: Machine, seen: seq<Volume>, devices: seq<string>) {
    && |devices| == |PlanFor(DecisionOn(s, seen))|
    && Fresh(if DecisionOn(s, seen).Provision? then Cleared(Config(s.disk, s.wipe), m.volumes, seen) else m.volumes, devices)
  }

  lemma ProvisionRun(s: Setup, w: World, seen: seq<Volume>, devices: seq<string>, fault: Fault, held: set<string>) returns (rest: seq<Step>)
    requires CanTake(s, w.m, seen, devices) && DecisionOn(s, seen).Provision?
    ensures StepsOf(s, w.m, seen, devices, fault, held) == [Gate] + ([List(seen)] + rest)
    ensures IsRun(s, w.(job := Decided(seen)), rest)
    ensures After(s, w.(job := Decided(seen)), rest) ==
            w.(m := PassOf(Config(s.disk, s.wipe), w.m, seen, devices, fault, held), job := NoJob)
  {
    hide PlanProvisioning, Leaf, Fresh, LaidOut, Wiped, FormatSteps, LastStep;
    var w2 := w.(job := Decided(seen));
    if fault.WipeFails? && seen != [] && s.wipe {
      RunCons(s, w2, GiveUp, []);
      rest := [GiveUp] + [];
    } else {
      var w3 := Next(s, w2, Act([], held));
      if fault.TableFails? {
        RunCons(s, w3, GiveUp, []);
        rest := [GiveUp] + [];
      } else {
        LaidRun(s, w3, FIXED_LAYOUT, devices, map[], fault, held);
        rest := FormatSteps(Done(fault, 3), LastStep(fault, Done(fault, 3), 3, held));
        RunCons(s, w3, Create(devices), rest);
        rest := [Create(devices)] + rest;
      }
      RunCons(s, w2, Act([], held), rest);
      rest := [Act([], held)] + rest;
    }
  }

  lemma CompleteRun(s: Setup, w: World, seen: seq<Volume>, devices: seq<string>, fault: Fault, held: set<string>) returns (rest: seq<Step>)
    requires CanTake(s, w.m, seen, devices) && DecisionOn(s, seen).CompleteLayout?
    ensures StepsOf(s, w.m, seen, devices, fault, held) == [Gate] + ([List(seen)] + rest)
    ensures IsRun(s, w.(job := Decided(seen)), rest)
    ensures After(s, w.(job := Decided(seen)), rest) ==
            w.(m := PassOf(Config(s.disk, s.wipe), w.m, seen, devices, fault, held), job := NoJob)
  {
    hide PlanProvisioning, Leaf, Fresh, LaidOut, Collides, StatusesFromDiscovered, FormatSteps, LastStep;
    var w2 := w.(job := Decided(seen));
    if Collides(w.m.volumes, Leaf(s.disk), APPENDED_LAYOUT) {
      RunCons(s, w2, Act(devices, held), []);
      rest := [Act(devices, held)] + [];
    } else if fault.TableFails? {
      RunCons(s, w2, GiveUp, []);
      rest := [GiveUp] + [];
    } else {
      LaidRun(s, w2, APPENDED_LAYOUT, devices, StatusesFromDiscovered(s.disk, seen), fault, held);
      rest := FormatSteps(Done(fault, 2), LastStep(fault, Done(fault, 2), 2, held));
      RunCons(s, w2, Act(devices, held), rest);
      rest := [Act(devices, held)] + rest;
    }
  }

  /** An uninterrupted pass, with or without wipe and whatever fails, does what the controller's `Reconcile` does. */
  lemma PassIsRun(s: Setup, w: World, seen: seq<Volume>, devices: seq<string>, fault: Fault, held: set<string>)
    requires w.job.NoJob? && w.barrier && Lists(w.shown, seen) && CanTake(s, w.m, seen, devices)
    ensures IsRun(s, w, StepsOf(s, w.m, seen, devices, fault, held))
    ensures After(s, w, StepsOf(s, w.m, seen, devices, fault, held)) ==
            w.(m := PassOf(Config(s.disk, s.wipe), w.m, seen, devices, fault, held))
  {
    hide PlanProvisioning, Leaf, Collides, StatusesFromDiscovered, Fresh, Lists, LaidOut, Publish, Laid;
    var w2 := w.(job := Decided(seen));
    var rest: seq<Step>;
    match DecisionOn(s, seen)
    case Provision => rest := ProvisionRun(s, w, seen, devices, fault, held);
    case CompleteLayout => rest := CompleteRun(s, w, seen, devices, fault, held);
    case _ =>
      RunCons(s, w2, Act(devices, held), []);
      rest := [Act(devices, held)] + [];
    OpenPass(s, w, seen, rest);
  }

  /** The barrier and the listing. */
  lemma OpenPass(s: Setup, w: World, seen: seq<Volume>, rest: seq<Step>)
    requires w.job.NoJob? && w.barrier && Lists(w.shown, seen) && IsRun(s, w.(job := Decided(seen)), rest)
    ensures IsRun(s, w, [Gate] + ([List(seen)] + rest))
    ensures After(s, w, [Gate] + ([List(seen)] + rest)) == After(s, w.(job := Decided(seen)), rest)
  {
    hide IsRun, After, Lists;
    RunCons(s, w.(job := Gated), List(seen), rest);
    RunCons(s, w, Gate, [List(seen)] + rest);
  }

  // ------------------------------------------------------------ runs on a flashed image

  /** A machine with one partition after its first scan. */
  function Scanned(efi: Volume): World {
    World(Machine([efi], [], map[]), map[Leaf(efi.device) := efi], true, Quiet, [efi], NoJob, [])
  }

  lemma FirstScan(s: Setup, efi: Volume, rest: seq<Step>)
    requires IsRun(s, Scanned(efi), rest)
    ensures var steps := [BeginScan([efi])] + ([Show] + ([EndScan(true)] + rest));
      IsRun(s, Start([efi]), steps) && After(s, Start([efi]), steps) == After(s, Scanned(efi), rest)
  {
    hide Leaf;
    var w0 := Start([efi]);
    var w1 := Next(s, w0, BeginScan([efi]));
    assert w1.scan.todo[1..] == [];
    var w2 := Next(s, w1, Show);
    assert Next(s, w2, EndScan(true)) == Scanned(efi);
    RunCons(s, w2, EndScan(true), rest);
    RunCons(s, w1, Show, [EndScan(true)] + rest);
    RunCons(s, w0, BeginScan([efi]), [Show] + ([EndScan(true)] + rest));
  }

  /** A lone EFI partition is an image, ready for ours. */
  lemma LoneEfiIsImage(disk: string, efi: Volume)
    requires efi.disk == Leaf(disk) && efi.partLabel == EFI
    ensures PlanProvisioning(disk, false, [efi]) == CompleteLayout
    ensures !Collides([efi], Leaf(disk), APPENDED_LAYOUT)
  {
    hide Leaf, PlanProvisioning;
    PlanExact(disk, false, [efi]);
    assert efi in [efi] && NamesOn(disk, [efi]) == {EFI};
    NamesDiffer();
    assert STATE !in NamesOn(disk, [efi]);
    assert [efi][..0] == [] && OnDisk(disk, [efi]) == [efi];
  }

  /** On any flashed image each fault has its run: one scan and one pass leave what `LaidOut` says. */
  lemma FaultReached(s: Setup, efi: Volume, devices: seq<string>, fault: Fault, held: set<string>) returns (steps: seq<Step>)
    requires !s.wipe && efi.disk == Leaf(s.disk) && efi.partLabel == EFI
    requires Fresh([efi], devices) && |devices| == |APPENDED_LAYOUT| && !fault.TableFails?
    ensures IsRun(s, Start([efi]), steps)
    ensures var w := After(s, Start([efi]), steps);
      && w.m == LaidOut(Machine([efi], [], map[]), s.disk, APPENDED_LAYOUT, devices, StatusesFromDiscovered(s.disk, [efi]), fault, held)
      && w.job.NoJob?
  {
    hide Leaf, PlanProvisioning, Collides, StatusesFromDiscovered, LaidOut, StepsOf, Fresh;
    LoneEfiIsImage(s.disk, efi);
    var w := Scanned(efi);
    assert Lists(w.shown, [efi]);
    var pass := StepsOf(s, w.m, [efi], devices, fault, held);
    PassIsRun(s, w, [efi], devices, fault, held);
    FirstScan(s, efi, pass);
    steps := [BeginScan([efi])] + ([Show] + ([EndScan(true)] + pass));
  }

  /** The steps of the first scan and pass on a flashed image, up to `n` formats and a last step. */
  function PassUpTo(efi: Volume, devices: seq<string>, n: nat, last: Step): seq<Step> {
    [Gate] + ([List([efi])] + ([Act(devices, {})] + FormatSteps(n, last)))
  }

  lemma PassReaches(s: Setup, efi: Volume, devices: seq<string>, n: nat, last: Step)
    requires !s.wipe && efi.disk == Leaf(s.disk) && efi.partLabel == EFI
    requires Fresh([efi], devices) && n <= |APPENDED_LAYOUT| == |devices|
    requires Enabled(s, Stage(s, Scanned(efi), APPENDED_LAYOUT, devices, StatusesFromDiscovered(s.disk, [efi]), n), last)
    ensures IsRun(s, Scanned(efi), PassUpTo(efi, devices, n, last))
    ensures After(s, Scanned(efi), PassUpTo(efi, devices, n, last)) ==
            Next(s, Stage(s, Scanned(efi), APPENDED_LAYOUT, devices, StatusesFromDiscovered(s.disk, [efi]), n), last)
  {
    hide Leaf, StatusesFromDiscovered, Fresh, Stage, FormatSteps, IsRun, After, Next, Enabled, Laid, Lists;
    var (w, from) := (Scanned(efi), StatusesFromDiscovered(s.disk, [efi]));
    StageZero(s, w, APPENDED_LAYOUT, devices, from);
    FormatTo(s, w, APPENDED_LAYOUT, devices, from, 0, n, last);
    ImageActs(s, efi, devices);
    RunCons(s, w.(job := Decided([efi])), Act(devices, {}), FormatSteps(n, last));
    OpenPass(s, w, [efi], [Act(devices, {})] + FormatSteps(n, last));
  }

  lemma ImageActs(s: Setup, efi: Volume, devices: seq<string>)
    requires !s.wipe && efi.disk == Leaf(s.disk) && efi.partLabel == EFI && Fresh([efi], devices) && |devices| == |APPENDED_LAYOUT|
    ensures var w := Scanned(efi).(job := Decided([efi]));
      && Lists(w.shown, [efi]) && Enabled(s, w, Act(devices, {}))
      && Next(s, w, Act(devices, {})) == Laid(s, Scanned(efi), APPENDED_LAYOUT, devices, StatusesFromDiscovered(s.disk, [efi]))
  {
    hide Leaf, PlanProvisioning, Collides, StatusesFromDiscovered, Fresh;
    LoneEfiIsImage(s.disk, efi);
  }

  /** On any flashed image a reboot after `n` formats, with nothing failing, leaves the rest unformatted. */
  lemma RebootMidPass(s: Setup, efi: Volume, devices: seq<string>, n: nat) returns (steps: seq<Step>)
    requires !s.wipe && efi.disk == Leaf(s.disk) && efi.partLabel == EFI
    requires Fresh([efi], devices) && n <= |APPENDED_LAYOUT| == |devices|
    ensures IsRun(s, Start([efi]), steps) && GiveUp !in steps && FormatError !in steps
    ensures Shape(After(s, Start([efi]), steps).m.volumes, [efi], Leaf(s.disk), APPENDED_LAYOUT, devices, n)
    ensures After(s, Start([efi]), steps).job.NoJob?
  {
    hide Leaf, Fresh, Shape, IsRun, After, PassUpTo, Next, Enabled, Stage;
    var from := StatusesFromDiscovered(s.disk, [efi]);
    RebootStage(s, efi, devices, from, n);
    PassReaches(s, efi, devices, n, Reboot);
    FirstScan(s, efi, PassUpTo(efi, devices, n, Reboot));
    NothingFails(efi, devices, n);
    steps := [BeginScan([efi])] + ([Show] + ([EndScan(true)] + PassUpTo(efi, devices, n, Reboot)));
  }

  lemma RebootStage(s: Setup, efi: Volume, devices: seq<string>, from: Statuses, n: nat)
    requires Fresh([efi], devices) && n <= |APPENDED_LAYOUT| == |devices|
    ensures var st := Stage(s, Scanned(efi), APPENDED_LAYOUT, devices, from, n);
      && Enabled(s, st, Reboot) && Next(s, st, Reboot).job.NoJob?
      && Shape(Next(s, st, Reboot).m.volumes, [efi], Leaf(s.disk), APPENDED_LAYOUT, devices, n)
  {
    hide Leaf, Fresh, Shape, FormattedTo;
    FormattedShape([efi], Leaf(s.disk), APPENDED_LAYOUT, devices, n);
  }

  lemma NothingFails(efi: Volume, devices: seq<string>, n: nat)
    ensures var steps := [BeginScan([efi])] + ([Show] + ([EndScan(true)] + PassUpTo(efi, devices, n, Reboot)));
      GiveUp !in steps && FormatError !in steps
  {
    hide FormatSteps;
    FormatsOnly(n);
  }

  lemma {:induction false} FormatsOnly(n: nat)
    ensures forall step | step in FormatSteps(n, Reboot) :: step == FormatNext || step == Reboot
  {
    if n != 0 { FormatsOnly(n - 1); }
  }
}
