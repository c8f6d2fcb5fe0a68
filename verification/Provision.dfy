/**
 Guarded provisioning of the install disk: the decision, one provisioner pass with its
 destructive steps and their failures, and the reset that re-formats volumes.
 */
module Provision {
  import opened Resources
  import opened Block

  const EFI := "EFI"
  const STATE := "STATE"
  const EPHEMERAL := "EPHEMERAL"

  const NAMES: seq<string> := [EFI, STATE, EPHEMERAL]

  const FIXED_LAYOUT: seq<PartitionPlan> :=
    [PartitionPlan(EFI, "vfat"), PartitionPlan(STATE, "ext4"), PartitionPlan(EPHEMERAL, "ext4")]

  /** The fixed layout without EFI. */
  const APPENDED_LAYOUT: seq<PartitionPlan> := [PartitionPlan(STATE, "ext4"), PartitionPlan(EPHEMERAL, "ext4")]

  lemma NamesDiffer()
    ensures EFI != STATE && EFI != EPHEMERAL && STATE != EPHEMERAL
  {
  }

  // ------------------------------------------------------------------ the decision

  datatype Decision = Skip | Provision | CompleteLayout | RefuseForeign

  /** The volume belongs to the install disk, named by a path or a bare name. */
  predicate Of(disk: string, v: Volume) {
    v.disk == Leaf(disk) || v.device == disk
  }

  function OnDisk(disk: string, vs: seq<Volume>): seq<Volume> {
    if vs == [] then []
    else OnDisk(disk, vs[..|vs|-1]) + if Of(disk, vs[|vs|-1]) then [vs[|vs|-1]] else []
  }

  function PlanProvisioning(disk: string, wipe: bool, seen: seq<Volume>): Decision {
    var on := OnDisk(disk, seen);
    var names := seq(|on|, i requires 0 <= i < |on| => on[i].partLabel);
    var isOurs := on != [] && (forall l | l in NAMES :: l in names) && (forall l | l in names :: l in NAMES);
    var isImage := |on| == 1 && names == [EFI];
    if isOurs then Skip
    else if wipe then Provision
    else if isImage then CompleteLayout
    else RefuseForeign
  }

  /** The labels found on the install disk. */
  function NamesOn(disk: string, vs: seq<Volume>): set<string> {
    set v | v in vs && Of(disk, v) :: v.partLabel
  }

  /** Our exact layout: these three labels and no other. */
  predicate Ours(disk: string, vs: seq<Volume>) {
    NamesOn(disk, vs) == {EFI, STATE, EPHEMERAL}
  }

  /** A freshly flashed image: exactly one partition, labelled EFI. */
  predicate Image(disk: string, vs: seq<Volume>) {
    |OnDisk(disk, vs)| == 1 && NamesOn(disk, vs) == {EFI}
  }

  lemma {:induction false} OnDiskMembers(disk: string, vs: seq<Volume>)
    ensures forall v :: v in OnDisk(disk, vs) <==> v in vs && Of(disk, v)
    ensures forall v :: multiset(OnDisk(disk, vs))[v] == if Of(disk, v) then multiset(vs)[v] else 0
  {
    hide Of;
    if vs != [] {
      OnDiskMembers(disk, vs[..|vs|-1]);
      assert vs == vs[..|vs|-1] + [vs[|vs|-1]];
    }
  }

  lemma ExactlyThree(names: seq<string>, found: set<string>, a: string, b: string, c: string)
    requires forall l :: l in names <==> l in found
    ensures (forall l | l in [a, b, c] :: l in names) && (forall l | l in names :: l in [a, b, c]) <==> found == {a, b, c}
  {
  }

  lemma ExactlyOne(names: seq<string>, found: set<string>, a: string)
    requires forall l :: l in names <==> l in found
    ensures names == [a] <==> |names| == 1 && found == {a}
  {
    if |names| == 1 {
      assert names[0] in names && names == [names[0]];
    }
  }

  /** The decision in terms of what is on the disk, all four ways. */
  lemma PlanExact(disk: string, wipe: bool, seen: seq<Volume>)
    ensures PlanProvisioning(disk, wipe, seen) ==
            if Ours(disk, seen) then Skip
            else if wipe then Provision
            else if Image(disk, seen) then CompleteLayout
            else RefuseForeign
  {
    hide Of, OnDisk, NamesOn;
    var on := OnDisk(disk, seen);
    var names := seq(|on|, i requires 0 <= i < |on| => on[i].partLabel);
    OnDiskMembers(disk, seen);
    SameNames(disk, seen, on, names);
    ExactlyThree(names, NamesOn(disk, seen), EFI, STATE, EPHEMERAL);
    ExactlyOne(names, NamesOn(disk, seen), EFI);
    assert Ours(disk, seen) ==> EFI in names;
  }

  lemma SameNames(disk: string, vs: seq<Volume>, on: seq<Volume>, names: seq<string>)
    requires forall v :: v in on <==> v in vs && Of(disk, v)
    requires |names| == |on| && forall i | 0 <= i < |on| :: names[i] == on[i].partLabel
    ensures forall l :: l in names <==> l in NamesOn(disk, vs)
  {
  }

  lemma SameCount(disk: string, a: seq<Volume>, b: seq<Volume>)
    requires multiset(a) == multiset(b)
    ensures |OnDisk(disk, a)| == |OnDisk(disk, b)|
  {
    hide Of, OnDisk;
    OnDiskMembers(disk, a);
    OnDiskMembers(disk, b);
    assert multiset(OnDisk(disk, a)) == multiset(OnDisk(disk, b));
    assert |multiset(OnDisk(disk, a))| == |OnDisk(disk, a)|;
  }

  lemma SameMembers(a: seq<Volume>, b: seq<Volume>)
    requires multiset(a) == multiset(b)
    ensures forall v :: v in a <==> v in b
  {
    assert forall v :: v in a <==> v in multiset(a);
  }

  /** The decision does not depend on the order the volumes are listed in. */
  lemma PlanIgnoresOrder(disk: string, wipe: bool, a: seq<Volume>, b: seq<Volume>)
    requires multiset(a) == multiset(b)
    ensures PlanProvisioning(disk, wipe, a) == PlanProvisioning(disk, wipe, b)
  {
    hide Of, PlanProvisioning, OnDisk;
    PlanExact(disk, wipe, a);
    PlanExact(disk, wipe, b);
    SameCount(disk, a, b);
    SameMembers(a, b);
    assert NamesOn(disk, a) == NamesOn(disk, b);
  }

  // ----------------------------------------------------------------------- a pass

  /** A published volume: device path and recorded filesystem. */
  datatype Status = Status(device: string, fs: string)

  type Statuses = map<string, Status>

  /** What discovery saw of our volumes; the last one listed wins a name. */
  function StatusesFromDiscovered(disk: string, seen: seq<Volume>): Statuses {
    if seen == [] then map[]
    else
      var rest, v := StatusesFromDiscovered(disk, seen[..|seen|-1]), seen[|seen|-1];
      if v.disk == Leaf(disk) && v.partLabel in NAMES then
        rest[v.partLabel := Status(v.device, if v.fs.Some? then v.fs.value else "")]
      else rest
  }

  /** The statuses of the first `n` planned volumes, over those from discovery. */
  function WithPlanned(statuses: Statuses, plan: seq<PartitionPlan>, devices: seq<string>, n: nat): Statuses
    requires n <= |plan| == |devices|
  {
    if n == 0 then statuses
    else WithPlanned(statuses, plan, devices, n - 1)[plan[n-1].name := Status(devices[n-1], plan[n-1].fs)]
  }

  /** Publishing replaces the statuses; of those no longer wanted the ones in `held` stay, kept by a finalizer. */
  function Publish(before: Statuses, after: Statuses, held: set<string>): Statuses {
    (map n | n in before && n in held && n !in after :: before[n]) + after
  }

  /** What fails in a pass. A late table failure is reported after the table was written. */
  datatype Fault = Healthy | WipeFails | TableFails | TableFailsLate | FormatFails(at: nat)

  datatype Config = Config(disk: string, wipe: bool)

  /** Disks, format calls made so far, and published statuses. */
  datatype Machine = Machine(volumes: seq<Volume>, formats: seq<FormatCall>, statuses: Statuses)

  /** The partitions after the first `n` planned ones were formatted. */
  function FormattedTo(vs: seq<Volume>, plan: seq<PartitionPlan>, devices: seq<string>, n: nat): seq<Volume>
    requires n <= |plan| == |devices|
  {
    if n == 0 then vs else SetFs(FormattedTo(vs, plan, devices, n - 1), devices[n-1], plan[n-1].fs)
  }

  function FormatCalls(plan: seq<PartitionPlan>, devices: seq<string>, n: nat): seq<FormatCall>
    requires n <= |plan| == |devices|
  {
    seq(n, i requires 0 <= i < n => FormatCall(devices[i], plan[i].fs, plan[i].name))
  }

  /** How many planned partitions get formatted. */
  function FormatsDone(fault: Fault, count: nat): nat {
    if fault.FormatFails? && fault.at < count then fault.at else count
  }

  /** After the partition call wrote the table: format each new partition, then publish. */
  function LaidOut(m: Machine, disk: string, plan: seq<PartitionPlan>, devices: seq<string>,
                   from: Statuses, fault: Fault, held: set<string>): Machine
    requires |plan| == |devices|
  {
    var vs := m.volumes + NewVolumes(Leaf(disk), plan, devices);
    var done := FormatsDone(fault, |plan|);
    if fault.TableFailsLate? then m.(volumes := vs)
    else if done < |plan| then
      m.(volumes := FormattedTo(vs, plan, devices, done), formats := m.formats + FormatCalls(plan, devices, done + 1))
    else
      Machine(FormattedTo(vs, plan, devices, done), m.formats + FormatCalls(plan, devices, done),
              Publish(m.statuses, WithPlanned(from, plan, devices, done), held))
  }

  /** The plan a decision lays out. */
  function PlanFor(d: Decision): seq<PartitionPlan> {
    match d
    case Provision => FIXED_LAYOUT
    case CompleteLayout => APPENDED_LAYOUT
    case _ => []
  }

  /** The disks a pass that provisions partitions: wiped first when anything at all was discovered. */
  function Cleared(cfg: Config, vs: seq<Volume>, seen: seq<Volume>): seq<Volume> {
    if seen != [] && cfg.wipe then Wiped(vs, Leaf(cfg.disk)) else vs
  }

  /** One provisioner pass past the barrier. `devices` are the paths the backend gives new partitions. */
  function PassOf(cfg: Config, m: Machine, seen: seq<Volume>, devices: seq<string>, fault: Fault, held: set<string>): Machine
    requires |devices| == |PlanFor(PlanProvisioning(cfg.disk, cfg.wipe, seen))|
  {
    match PlanProvisioning(cfg.disk, cfg.wipe, seen)
    case RefuseForeign => m
    case Skip => m.(statuses := Publish(m.statuses, StatusesFromDiscovered(cfg.disk, seen), held))
    case CompleteLayout =>
      if fault.TableFails? || Collides(m.volumes, Leaf(cfg.disk), APPENDED_LAYOUT) then m
      else LaidOut(m, cfg.disk, APPENDED_LAYOUT, devices, StatusesFromDiscovered(cfg.disk, seen), fault, held)
    case Provision =>
      if fault.WipeFails? && seen != [] && cfg.wipe then m
      else
        var cleared := m.(volumes := Cleared(cfg, m.volumes, seen));
        if fault.TableFails? then cleared
        else LaidOut(cleared, cfg.disk, FIXED_LAYOUT, devices, map[], fault, held)
  }

  /** `r` is `vs`, then the planned partitions with the first `n` of them formatted. */
  ghost predicate Shape(r: seq<Volume>, vs: seq<Volume>, disk: string, plan: seq<PartitionPlan>, devices: seq<string>, n: nat)
    requires |plan| == |devices|
  {
    && |r| == |vs| + |plan|
    && (forall i | 0 <= i < |vs| :: r[i] == vs[i])
    && (forall i | |vs| <= i < |r| ::
          r[i] == Volume(devices[i - |vs|], disk, plan[i - |vs|].name, if i < |vs| + n then Some(plan[i - |vs|].fs) else None))
  }

  lemma SetFsAt(vs: seq<Volume>, k: nat, fs: string)
    requires k < |vs| && forall i | 0 <= i < k :: vs[i].device != vs[k].device
    ensures SetFs(vs, vs[k].device, fs) == vs[k := vs[k].(fs := Some(fs))]
  {
  }

  lemma ShapeStep(r: seq<Volume>, vs: seq<Volume>, disk: string, plan: seq<PartitionPlan>, devices: seq<string>, n: nat)
    requires n < |plan| == |devices| && Fresh(vs, devices) && Shape(r, vs, disk, plan, devices, n)
    ensures Shape(SetFs(r, devices[n], plan[n].fs), vs, disk, plan, devices, n + 1)
  {
    hide Leaf, SetFs;
    var k := |vs| + n;
    forall i | 0 <= i < k ensures r[i].device != r[k].device {
      if i < |vs| {
        assert vs[i] in vs && devices[n] in devices;
      } else {
        assert Leaf(devices[i - |vs|]) != Leaf(devices[n]);
      }
    }
    SetFsAt(r, k, plan[n].fs);
  }

  /** Formatting new partitions touches only them. */
  lemma {:induction false} FormattedShape(vs: seq<Volume>, disk: string, plan: seq<PartitionPlan>, devices: seq<string>, n: nat)
    requires n <= |plan| == |devices| && Fresh(vs, devices)
    ensures Shape(FormattedTo(vs + NewVolumes(disk, plan, devices), plan, devices, n), vs, disk, plan, devices, n)
  {
    hide Fresh, SetFs;
    if n != 0 {
      hide Shape;
      FormattedShape(vs, disk, plan, devices, n - 1);
      ShapeStep(FormattedTo(vs + NewVolumes(disk, plan, devices), plan, devices, n - 1), vs, disk, plan, devices, n - 1);
    }
  }

  /** How many of the new partitions a pass that wrote the table formats. */
  function Done(fault: Fault, count: nat): nat {
    if fault.TableFailsLate? then 0 else FormatsDone(fault, count)
  }

  /** What a pass that wrote the table leaves: the old partitions untouched, then the planned ones. */
  lemma LaidOutShape(m: Machine, disk: string, plan: seq<PartitionPlan>, devices: seq<string>,
                     from: Statuses, fault: Fault, held: set<string>)
    requires |plan| == |devices| && Fresh(m.volumes, devices)
    ensures Shape(LaidOut(m, disk, plan, devices, from, fault, held).volumes,
                  m.volumes, Leaf(disk), plan, devices, Done(fault, |plan|))
  {
    hide Shape, Leaf, Fresh, SetFs;
    FormattedShape(m.volumes, Leaf(disk), plan, devices, 0);
    FormattedShape(m.volumes, Leaf(disk), plan, devices, FormatsDone(fault, |plan|));
  }

  /** Does the pass end without an error? */
  predicate Succeeds(cfg: Config, vs: seq<Volume>, seen: seq<Volume>, fault: Fault) {
    match PlanProvisioning(cfg.disk, cfg.wipe, seen)
    case RefuseForeign => false
    case Skip => true
    case CompleteLayout =>
      !Collides(vs, Leaf(cfg.disk), APPENDED_LAYOUT) && (fault.FormatFails? ==> fault.at >= 2) && !fault.TableFails? && !fault.TableFailsLate?
    case Provision =>
      && !(fault.WipeFails? && seen != [] && cfg.wipe)
      && (fault.FormatFails? ==> fault.at >= 3) && !fault.TableFails? && !fault.TableFailsLate?
  }

  /** The paths the simulated backend gives in this pass. */
  function BackendDevices(cfg: Config, vs: seq<Volume>, seen: seq<Volume>): (devices: seq<string>)
    ensures |devices| == |PlanFor(PlanProvisioning(cfg.disk, cfg.wipe, seen))|
  {
    match PlanProvisioning(cfg.disk, cfg.wipe, seen)
    case Provision => Numbered(cfg.disk, 1, |FIXED_LAYOUT|)
    case CompleteLayout => Numbered(cfg.disk, CountOn(vs, Leaf(cfg.disk)) + 1, |APPENDED_LAYOUT|)
    case _ => []
  }

  /** What was there is as it was, and no new format call names it. */
  ghost predicate Untouched(m: Machine, m': Machine) {
    && |m.volumes| <= |m'.volumes| && m'.volumes[..|m.volumes|] == m.volumes && m.formats <= m'.formats
    && forall i, v | |m.formats| <= i < |m'.formats| && v in m.volumes :: m'.formats[i].device != v.device
  }

  lemma AppendUntouched(m: Machine, disk: string, plan: seq<PartitionPlan>, devices: seq<string>,
                        from: Statuses, fault: Fault, held: set<string>)
    requires |plan| == |devices| && Fresh(m.volumes, devices)
    ensures Untouched(m, LaidOut(m, disk, plan, devices, from, fault, held))
  {
    hide Leaf, SetFs, FormattedTo, Publish, WithPlanned;
    LaidOutShape(m, disk, plan, devices, from, fault, held);
    var m' := LaidOut(m, disk, plan, devices, from, fault, held);
    assert m'.volumes[..|m.volumes|] == m.volumes;
    forall i, v | |m.formats| <= i < |m'.formats| && v in m.volumes ensures m'.formats[i].device != v.device {
      assert m'.formats[i].device == devices[i - |m.formats|] && devices[i - |m.formats|] in devices;
    }
  }

  lemma CompleteUntouched(cfg: Config, m: Machine, seen: seq<Volume>, fault: Fault, held: set<string>)
    requires PlanProvisioning(cfg.disk, cfg.wipe, seen) == CompleteLayout && GapFree(m.volumes, cfg.disk)
    ensures Untouched(m, PassOf(cfg, m, seen, BackendDevices(cfg, m.volumes, seen), fault, held))
  {
    hide LaidOut, PlanProvisioning, GapFree, Fresh, Collides, Numbered;
    NumberedFresh(m.volumes, cfg.disk, |APPENDED_LAYOUT|);
    AppendUntouched(m, cfg.disk, APPENDED_LAYOUT, BackendDevices(cfg, m.volumes, seen), StatusesFromDiscovered(cfg.disk, seen), fault, held);
    assert m.volumes[..|m.volumes|] == m.volumes;
  }

  class VolumeProvisioner {
    const backend: FakeBlockBackend
    const cfg: Config
    var statuses: Statuses

    constructor (backend: FakeBlockBackend, cfg: Config)
      ensures this.backend == backend && this.cfg == cfg && statuses == map[]
    {
      this.backend, this.cfg, statuses := backend, cfg, map[];
    }

    ghost function Now(): Machine
      reads this, backend
    {
      Machine(backend.volumes, backend.formats, statuses)
    }

    /** Format the new partitions in order; publish once all are done. */
    method FormatAndPublish(plan: seq<PartitionPlan>, devices: seq<string>, from: Statuses, fault: Fault, held: set<string>)
      returns (ok: bool)
      requires |plan| == |devices|
      modifies this, backend`volumes, backend`formats
      ensures var done := FormatsDone(fault, |plan|);
        && (ok <==> done == |plan|)
        && backend.volumes == FormattedTo(old(backend.volumes), plan, devices, done)
        && backend.formats == old(backend.formats) + FormatCalls(plan, devices, if ok then done else done + 1)
        && statuses == if ok then Publish(old(statuses), WithPlanned(from, plan, devices, done), held) else old(statuses)
    {
      hide SetFs, Publish;
      var built := from;
      var i := 0;
      while i < |plan|
        invariant 0 <= i <= FormatsDone(fault, |plan|) && statuses == old(statuses)
        invariant built == WithPlanned(from, plan, devices, i)
        invariant backend.volumes == FormattedTo(old(backend.volumes), plan, devices, i)
        invariant backend.formats == old(backend.formats) + FormatCalls(plan, devices, i)
      {
        var formatted := backend.Format(devices[i], plan[i].fs, plan[i].name, fault == FormatFails(i));
        if !formatted {
          return false;
        }
        built := built[plan[i].name := Status(devices[i], plan[i].fs)];
        i := i + 1;
      }
      statuses := Publish(statuses, built, held);
      ok := true;
    }

    method Reconcile(seen: seq<Volume>, fault: Fault, held: set<string>) returns (ok: bool)
      modifies this, backend
      ensures Now() == PassOf(cfg, old(Now()), seen, BackendDevices(cfg, old(backend.volumes), seen), fault, held)
      ensures ok <==> Succeeds(cfg, old(backend.volumes), seen, fault)
    {
      hide SetFs, Publish, Wiped, Collides, PartDevice;
      match PlanProvisioning(cfg.disk, cfg.wipe, seen)
      case RefuseForeign =>
        ok := false;
      case Skip =>
        statuses := Publish(statuses, StatusesFromDiscovered(cfg.disk, seen), held);
        ok := true;
      case CompleteLayout =>
        ok := Complete(seen, fault, held);
      case Provision =>
        ok := Overwrite(seen, fault, held);
    }

    /** Append only: with gap-free numbering nothing that was there, EFI included, is changed or named in a format call. */
    method Complete(seen: seq<Volume>, fault: Fault, held: set<string>) returns (ok: bool)
      requires PlanProvisioning(cfg.disk, cfg.wipe, seen) == CompleteLayout
      modifies this, backend
      ensures GapFree(old(backend.volumes), cfg.disk) ==> Untouched(old(Now()), Now())
      ensures Now() == PassOf(cfg, old(Now()), seen, BackendDevices(cfg, old(backend.volumes), seen), fault, held)
      ensures ok <==> Succeeds(cfg, old(backend.volumes), seen, fault)
    {
      hide SetFs, Publish, Wiped, Collides, PartDevice, PlanProvisioning, FormattedTo, WithPlanned, FormatCalls, Untouched, GapFree, Fresh;
      if GapFree(backend.volumes, cfg.disk) {
        CompleteUntouched(cfg, Now(), seen, fault, held);
      }
      if fault.TableFails? {
        return false;
      }
      var devices := backend.AddPartitions(cfg.disk, APPENDED_LAYOUT);
      if devices.Err? || fault.TableFailsLate? {
        return false;
      }
      ok := FormatAndPublish(APPENDED_LAYOUT, devices.value, StatusesFromDiscovered(cfg.disk, seen), fault, held);
    }

    method Overwrite(seen: seq<Volume>, fault: Fault, held: set<string>) returns (ok: bool)
      requires PlanProvisioning(cfg.disk, cfg.wipe, seen) == Decision.Provision
      modifies this, backend
      ensures Now() == PassOf(cfg, old(Now()), seen, BackendDevices(cfg, old(backend.volumes), seen), fault, held)
      ensures ok <==> Succeeds(cfg, old(backend.volumes), seen, fault)
    {
      hide SetFs, Publish, Wiped, Collides, PartDevice, PlanProvisioning, FormattedTo, WithPlanned, FormatCalls;
      if seen != [] && cfg.wipe {
        if fault.WipeFails? {
          return false;
        }
        backend.Wipe(cfg.disk);
      }
      if fault.TableFails? {
        return false;
      }
      var devices := backend.CreatePartitions(cfg.disk, FIXED_LAYOUT);
      if fault.TableFailsLate? {
        return false;
      }
      ok := FormatAndPublish(FIXED_LAYOUT, devices, map[], fault, held);
    }

    /** Re-format STATE and EPHEMERAL where they are published; failures are logged and skipped. */
    method PerformReset(fails: set<string>)
      modifies backend`volumes, backend`formats
      ensures backend.formats == old(backend.formats) + ResetCalls(statuses)
      ensures backend.volumes == AfterReset(old(backend.volumes), statuses, fails)
    {
      hide SetFs;
      var names := [STATE, EPHEMERAL];
      var i := 0;
      while i < |names|
        invariant 0 <= i <= |names|
        invariant backend.formats == old(backend.formats) + (if i == 0 then [] else ResetCall(statuses, STATE)) +
                                     (if i < 2 then [] else ResetCall(statuses, EPHEMERAL))
        invariant backend.volumes == if i == 0 then old(backend.volumes)
                                     else if i == 1 then ResetOne(old(backend.volumes), statuses, STATE, fails)
                                     else AfterReset(old(backend.volumes), statuses, fails)
      {
        if names[i] in statuses {
          var status := statuses[names[i]];
          var _ := backend.Format(status.device, ResetFs(status.fs), names[i], names[i] in fails);
        }
        i := i + 1;
      }
    }
  }

  /** The recorded filesystem if it is one we know, else the layout's. */
  function ResetFs(recorded: string): string {
    if recorded in ["ext4", "vfat", "xfs", "swap"] then recorded else "ext4"
  }

  /** The partitions after the reset of one name; a failing format leaves them as they were. */
  function ResetOne(vs: seq<Volume>, statuses: Statuses, name: string, fails: set<string>): seq<Volume> {
    if name in statuses && name !in fails then SetFs(vs, statuses[name].device, ResetFs(statuses[name].fs)) else vs
  }

  function AfterReset(vs: seq<Volume>, statuses: Statuses, fails: set<string>): seq<Volume> {
    ResetOne(ResetOne(vs, statuses, STATE, fails), statuses, EPHEMERAL, fails)
  }

  function ResetCall(statuses: Statuses, name: string): seq<FormatCall> {
    if name in statuses then [FormatCall(statuses[name].device, ResetFs(statuses[name].fs), name)] else []
  }

  /** What a reset formats: the devices published as STATE and EPHEMERAL. */
  function ResetCalls(statuses: Statuses): seq<FormatCall> {
    ResetCall(statuses, STATE) + ResetCall(statuses, EPHEMERAL)
  }
}
