/** What each kind of pass leaves on the disk, in the format log and in the published statuses. */
module ProvisionPasses {
  import opened Resources
  import opened Block
  import opened Provision

  /** Volume `i` lies on the install disk: its disk is the one named, or it is the device named. */
  predicate OnInstallDisk(disk: string, seen: seq<Volume>, i: nat) {
    i < |seen| && (seen[i].disk == Leaf(disk) || seen[i].device == disk)
  }

  /** The decision from the labels on the install disk: exactly our three, wipe requested, a lone EFI, or anything else. */
  lemma DecisionInWords(disk: string, wipe: bool, seen: seq<Volume>)
    ensures var labels := set i: nat | i < |seen| && OnInstallDisk(disk, seen, i) :: seen[i].partLabel;
      PlanProvisioning(disk, wipe, seen) ==
        if labels == {"EFI", "STATE", "EPHEMERAL"} then Skip
        else if wipe then Decision.Provision
        else if labels == {"EFI"} && (forall i: nat, j: nat | OnInstallDisk(disk, seen, i) && OnInstallDisk(disk, seen, j) :: i == j) then CompleteLayout
        else RefuseForeign
  {
    hide Leaf, PlanProvisioning, OnDisk;
    PlanExact(disk, wipe, seen);
    var labels := set i: nat | i < |seen| && OnInstallDisk(disk, seen, i) :: seen[i].partLabel;
    forall l | l in NamesOn(disk, seen) ensures l in labels {
      var v :| v in seen && Of(disk, v) && v.partLabel == l;
      var i: nat :| i < |seen| && seen[i] == v;
      assert OnInstallDisk(disk, seen, i);
    }
    assert labels == NamesOn(disk, seen);
    OnDiskCount(disk, seen);
  }

  lemma {:induction false} OnDiskCount(disk: string, seen: seq<Volume>)
    ensures |OnDisk(disk, seen)| == 0 <==> forall i: nat :: !OnInstallDisk(disk, seen, i)
    ensures |OnDisk(disk, seen)| <= 1 <==> forall i: nat, j: nat | OnInstallDisk(disk, seen, i) && OnInstallDisk(disk, seen, j) :: i == j
  {
    hide Leaf;
    if seen != [] {
      var n := |seen| - 1;
      var front := seen[..n];
      OnDiskCount(disk, front);
      assert forall i: nat :: OnInstallDisk(disk, front, i) <==> i < n && OnInstallDisk(disk, seen, i);
      assert OnInstallDisk(disk, seen, n) <==> Of(disk, seen[n]);
    }
  }

  /** A volume of ours that discovery saw on the install disk under this name. */
  predicate SeenAs(disk: string, v: Volume, name: string) {
    v.disk == Leaf(disk) && v.partLabel == name && name in {"EFI", "STATE", "EPHEMERAL"}
  }

  /** Each of our names is published iff it was seen, with the device and filesystem of the last volume seen under it. */
  lemma {:induction false} DiscoveredAt(disk: string, seen: seq<Volume>, name: string)
    ensures name in StatusesFromDiscovered(disk, seen) <==> exists v :: v in seen && SeenAs(disk, v, name)
    ensures forall i | 0 <= i < |seen| && SeenAs(disk, seen[i], name) && (forall j | i < j < |seen| :: !SeenAs(disk, seen[j], name)) ::
      && name in StatusesFromDiscovered(disk, seen)
      && StatusesFromDiscovered(disk, seen)[name] == Status(seen[i].device, match seen[i].fs case Some(fs) => fs case None => "")
  {
    hide Leaf;
    if seen != [] {
      var front, v := seen[..|seen|-1], seen[|seen|-1];
      DiscoveredAt(disk, front, name);
      assert seen == front + [v];
      if SeenAs(disk, v, name) {
        assert v in seen;
      } else {
        assert forall u :: u in seen && SeenAs(disk, u, name) <==> u in front && SeenAs(disk, u, name);
      }
    }
  }

  /** Of the statuses published before, exactly those kept by a finalizer and not replaced stay. */
  ghost predicate Published(before: Statuses, after: Statuses, held: set<string>, wanted: Statuses) {
    && (forall n | n in wanted :: n in after && after[n] == wanted[n])
    && (forall n | n !in wanted :: n in after <==> n in before && n in held)
    && (forall n | n !in wanted && n in after :: after[n] == before[n])
  }

  lemma PublishExact(before: Statuses, wanted: Statuses, held: set<string>)
    ensures Published(before, Publish(before, wanted, held), held, wanted)
  {
  }

  lemma ThreePlanned(devices: seq<string>)
    requires |devices| == 3
    ensures WithPlanned(map[], FIXED_LAYOUT, devices, 3) ==
            map["EFI" := Status(devices[0], "vfat"), "STATE" := Status(devices[1], "ext4"), "EPHEMERAL" := Status(devices[2], "ext4")]
    ensures FormatCalls(FIXED_LAYOUT, devices, 3) ==
            [FormatCall(devices[0], "vfat", "EFI"), FormatCall(devices[1], "ext4", "STATE"), FormatCall(devices[2], "ext4", "EPHEMERAL")]
  {
    var none: Statuses := map[];
    assert WithPlanned(none, FIXED_LAYOUT, devices, 0) == none;
    var first := WithPlanned(none, FIXED_LAYOUT, devices, 1);
    assert first == none["EFI" := Status(devices[0], "vfat")];
    assert first == map["EFI" := Status(devices[0], "vfat")];
    var second := WithPlanned(map[], FIXED_LAYOUT, devices, 2);
    assert second == first["STATE" := Status(devices[1], "ext4")];
  }

  /** With wipe a pass that succeeds leaves exactly our layout: EFI as vfat, STATE and EPHEMERAL as ext4, formatted and published in that order. */
  lemma ProvisionOutcome(cfg: Config, m: Machine, seen: seq<Volume>, devices: seq<string>, fault: Fault, held: set<string>)
    requires PlanProvisioning(cfg.disk, cfg.wipe, seen) == Decision.Provision && |devices| == 3
    requires Fresh(if seen == [] then m.volumes else Wiped(m.volumes, Leaf(cfg.disk)), devices)
    requires Succeeds(cfg, m.volumes, seen, fault)
    ensures var r := PassOf(cfg, m, seen, devices, fault, held);
      && r.volumes == (if seen == [] then m.volumes else Wiped(m.volumes, Leaf(cfg.disk))) +
                      [Volume(devices[0], Leaf(cfg.disk), "EFI", Some("vfat")),
                       Volume(devices[1], Leaf(cfg.disk), "STATE", Some("ext4")),
                       Volume(devices[2], Leaf(cfg.disk), "EPHEMERAL", Some("ext4"))]
      && r.formats == m.formats + [FormatCall(devices[0], "vfat", "EFI"), FormatCall(devices[1], "ext4", "STATE"), FormatCall(devices[2], "ext4", "EPHEMERAL")]
      && Published(m.statuses, r.statuses, held,
                   map["EFI" := Status(devices[0], "vfat"), "STATE" := Status(devices[1], "ext4"), "EPHEMERAL" := Status(devices[2], "ext4")])
  {
    hide Leaf, Fresh, FormattedTo, Publish, WithPlanned, FormatCalls, Wiped, Published, OnDisk, Of;
    PlanExact(cfg.disk, cfg.wipe, seen);
    hide PlanProvisioning;
    var vs := Cleared(cfg, m.volumes, seen);
    var r := PassOf(cfg, m, seen, devices, fault, held);
    LaidOutShape(m.(volumes := vs), cfg.disk, FIXED_LAYOUT, devices, map[], fault, held);
    ThreePlanned(devices);
    PublishExact(m.statuses, WithPlanned(map[], FIXED_LAYOUT, devices, 3), held);
    assert r.volumes[..|vs|] == vs;
  }

  lemma TwoPlanned(from: Statuses, devices: seq<string>)
    requires |devices| == 2
    ensures WithPlanned(from, APPENDED_LAYOUT, devices, 2) ==
            from["STATE" := Status(devices[0], "ext4")]["EPHEMERAL" := Status(devices[1], "ext4")]
    ensures FormatCalls(APPENDED_LAYOUT, devices, 2) == [FormatCall(devices[0], "ext4", "STATE"), FormatCall(devices[1], "ext4", "EPHEMERAL")]
  {
    assert WithPlanned(from, APPENDED_LAYOUT, devices, 1) == from["STATE" := Status(devices[0], "ext4")];
  }

  /** On a flashed image a pass that succeeds appends STATE and EPHEMERAL as ext4 and publishes them beside what was seen. */
  lemma CompleteOutcome(cfg: Config, m: Machine, seen: seq<Volume>, devices: seq<string>, fault: Fault, held: set<string>)
    requires PlanProvisioning(cfg.disk, cfg.wipe, seen) == CompleteLayout && |devices| == 2 && Fresh(m.volumes, devices)
    requires Succeeds(cfg, m.volumes, seen, fault)
    ensures var r := PassOf(cfg, m, seen, devices, fault, held);
      && r.volumes == m.volumes + [Volume(devices[0], Leaf(cfg.disk), "STATE", Some("ext4")),
                                   Volume(devices[1], Leaf(cfg.disk), "EPHEMERAL", Some("ext4"))]
      && r.formats == m.formats + [FormatCall(devices[0], "ext4", "STATE"), FormatCall(devices[1], "ext4", "EPHEMERAL")]
      && Published(m.statuses, r.statuses, held,
                   StatusesFromDiscovered(cfg.disk, seen)["STATE" := Status(devices[0], "ext4")]["EPHEMERAL" := Status(devices[1], "ext4")])
  {
    hide Leaf, Fresh, FormattedTo, Publish, WithPlanned, FormatCalls, Collides, Published, PlanProvisioning;
    var r := PassOf(cfg, m, seen, devices, fault, held);
    var from := StatusesFromDiscovered(cfg.disk, seen);
    LaidOutShape(m, cfg.disk, APPENDED_LAYOUT, devices, from, fault, held);
    TwoPlanned(from, devices);
    PublishExact(m.statuses, WithPlanned(from, APPENDED_LAYOUT, devices, 2), held);
    assert r.volumes[..|m.volumes|] == m.volumes;
  }

  /**
   A pass that finds our layout touches no disk and publishes what was seen; one that refuses
   changes nothing at all; a failing one publishes nothing.
   */
  lemma OtherOutcomes(cfg: Config, m: Machine, seen: seq<Volume>, devices: seq<string>, fault: Fault, held: set<string>)
    requires |devices| == |PlanFor(PlanProvisioning(cfg.disk, cfg.wipe, seen))|
    ensures var (r, d) := (PassOf(cfg, m, seen, devices, fault, held), PlanProvisioning(cfg.disk, cfg.wipe, seen));
      && (d == Skip ==> r.volumes == m.volumes && r.formats == m.formats
                        && Published(m.statuses, r.statuses, held, StatusesFromDiscovered(cfg.disk, seen)))
      && (d == RefuseForeign ==> r == m)
      && (!Succeeds(cfg, m.volumes, seen, fault) ==> r.statuses == m.statuses)
  {
    hide FormattedTo, Publish, WithPlanned, FormatCalls, Collides, Published, PlanProvisioning, StatusesFromDiscovered;
    PublishExact(m.statuses, StatusesFromDiscovered(cfg.disk, seen), held);
  }

  /** A pass succeeds unless it refuses, the table would get a label twice, or one of its own calls fails. */
  lemma SucceedsIff(cfg: Config, vs: seq<Volume>, seen: seq<Volume>, fault: Fault)
    ensures var d := PlanProvisioning(cfg.disk, cfg.wipe, seen);
      Succeeds(cfg, vs, seen, fault) <==>
        || d == Skip
        || (d == CompleteLayout && !(exists v :: v in vs && v.disk == Leaf(cfg.disk) && v.partLabel in {"STATE", "EPHEMERAL"})
            && fault !in {TableFails, TableFailsLate, FormatFails(0), FormatFails(1)})
        || (d == Decision.Provision && fault !in {TableFails, TableFailsLate, FormatFails(0), FormatFails(1), FormatFails(2)}
            && (fault == WipeFails ==> seen == []))
  {
    hide Leaf, OnDisk, Of;
    PlanExact(cfg.disk, cfg.wipe, seen);
    hide PlanProvisioning;
    CollidesIff(vs, Leaf(cfg.disk));
  }

  lemma CollidesIff(vs: seq<Volume>, disk: string)
    ensures Collides(vs, disk, APPENDED_LAYOUT) <==> exists v :: v in vs && v.disk == disk && v.partLabel in {"STATE", "EPHEMERAL"}
  {
    if v :| v in vs && v.disk == disk && v.partLabel in {"STATE", "EPHEMERAL"} {
      assert HasName(vs, disk, v.partLabel);
      assert APPENDED_LAYOUT[0].name == "STATE" && APPENDED_LAYOUT[1].name == "EPHEMERAL";
    }
  }

  /**
   A reset formats the device published as STATE, then the one published as EPHEMERAL, with the
   recorded filesystem if it is known and ext4 if not.
   */
  lemma ResetCallsExact(statuses: Statuses)
    ensures ResetCalls(statuses) ==
      (if "STATE" in statuses then [FormatCall(statuses["STATE"].device, ResetFs(statuses["STATE"].fs), "STATE")] else []) +
      (if "EPHEMERAL" in statuses then [FormatCall(statuses["EPHEMERAL"].device, ResetFs(statuses["EPHEMERAL"].fs), "EPHEMERAL")] else [])
    ensures forall fs :: ResetFs(fs) == if fs in {"ext4", "vfat", "xfs", "swap"} then fs else "ext4"
  {
  }
}
