/** The simulated block backend: partitions of all disks, and the destructive calls on them. */
module Block {
  import opened Resources
  import opened Text

  /** A partition, as the backend lists it: device path, bare name of its disk, GPT label, probed filesystem. */
  datatype Volume = Volume(device: string, disk: string, partLabel: string, fs: Option<string>)

  datatype PartitionPlan = PartitionPlan(name: string, fs: string)

  /** The bare name at the end of a device path. */
  function Leaf(path: string): string {
    AfterLast(path, '/')
  }

  function Decimal(n: nat): string {
    if n < 10 then [(n as char) + '0'] else Decimal(n / 10) + [((n % 10) as char) + '0']
  }

  function Separator(disk: string): string {
    if disk != [] && '0' <= disk[|disk|-1] <= '9' then "p" else ""
  }

  /** `sda` and 1 give `sda1`; a name ending in a digit takes a `p` in between. */
  function PartDevice(disk: string, n: nat): string {
    disk + (Separator(disk) + Decimal(n))
  }

  lemma {:induction false} DecimalInjective(m: nat, n: nat)
    requires Decimal(m) == Decimal(n)
    ensures m == n
  {
    var (dm, dn) := (Decimal(m), Decimal(n));
    assert dm[|dm|-1] == dn[|dn|-1];
    if 10 <= m && 10 <= n {
      assert dm[..|dm|-1] == Decimal(m / 10) && dn[..|dn|-1] == Decimal(n / 10);
      DecimalInjective(m / 10, n / 10);
    } else if 10 <= m {
      DecimalNonempty(m / 10);
    } else if 10 <= n {
      DecimalNonempty(n / 10);
    }
  }

  lemma DecimalNonempty(n: nat)
    ensures Decimal(n) != [] && '/' !in Decimal(n)
  {
  }

  predicate AllDigits(s: string) {
    forall i | 0 <= i < |s| :: '0' <= s[i] <= '9'
  }

  function DecimalValue(s: string): nat
    requires AllDigits(s)
  {
    if s == [] then 0 else 10 * DecimalValue(s[..|s|-1]) + (s[|s|-1] as int - 48)
  }

  /** A number is written in decimal digits, without leading zeros, that read back as it. */
  lemma {:induction false} DecimalReadsBack(n: nat)
    ensures AllDigits(Decimal(n)) && DecimalValue(Decimal(n)) == n
    ensures Decimal(n) != [] && (Decimal(n)[0] == '0' ==> n == 0)
  {
    var d := Decimal(n);
    assert d[|d|-1] == ((n % 10) as char) + '0';
    if n >= 10 {
      DecimalReadsBack(n / 10);
      assert d[..|d|-1] == Decimal(n / 10);
    } else {
      assert d[..|d|-1] == [];
    }
  }

  /** Partition `n` of a disk: the number follows the name, after a `p` where the name ends in a digit. */
  lemma PartDeviceText(disk: string, n: nat)
    ensures disk != [] && disk[|disk|-1] in "0123456789" ==> PartDevice(disk, n) == disk + "p" + Decimal(n)
    ensures disk == [] || disk[|disk|-1] !in "0123456789" ==> PartDevice(disk, n) == disk + Decimal(n)
  {
    hide Decimal;
    if disk != [] {
      var c := disk[|disk|-1];
      if '0' <= c <= '9' {
        assert "0123456789"[c as int - 48] == c;
      }
    }
    assert disk + ("p" + Decimal(n)) == disk + "p" + Decimal(n);
    assert disk + ("" + Decimal(n)) == disk + Decimal(n);
  }

  lemma {:induction false} LeafOfAppended(path: string, suffix: string)
    requires '/' !in suffix
    ensures Leaf(path + suffix) == Leaf(path) + suffix
    decreases |path|
  {
    var n := IndexOf(path, '/');
    IndexOfAppended(path, suffix);
    if n != |path| {
      assert (path + suffix)[n+1..] == path[n+1..] + suffix;
      LeafOfAppended(path[n+1..], suffix);
    }
  }

  lemma {:induction false} IndexOfAppended(path: string, suffix: string)
    requires '/' !in suffix
    ensures var n := IndexOf(path, '/');
      IndexOf(path + suffix, '/') == if n == |path| then |path| + |suffix| else n
  {
    if path == [] {
      assert path + suffix == suffix;
      IndexOfMissing(suffix, '/');
    } else if path[0] != '/' {
      assert (path + suffix)[1..] == path[1..] + suffix;
      IndexOfAppended(path[1..], suffix);
    }
  }

  lemma Cancel(a: string, s: string, t: string)
    requires a + s == a + t
    ensures s == t
  {
    assert s == (a + s)[|a|..] && t == (a + t)[|a|..];
  }

  /** Partitions of one disk have different leaf names. */
  lemma PartLeafInjective(disk: string, m: nat, n: nat)
    requires Leaf(PartDevice(disk, m)) == Leaf(PartDevice(disk, n))
    ensures m == n
  {
    hide Leaf, Decimal;
    DecimalNonempty(m);
    DecimalNonempty(n);
    LeafOfAppended(disk, Separator(disk) + Decimal(m));
    LeafOfAppended(disk, Separator(disk) + Decimal(n));
    Cancel(Leaf(disk), Separator(disk) + Decimal(m), Separator(disk) + Decimal(n));
    Cancel(Separator(disk), Decimal(m), Decimal(n));
    DecimalInjective(m, n);
  }

  // --------------------------------------------------------------- partition tables

  /** All partitions but those of one disk. */
  function Wiped(vs: seq<Volume>, disk: string): (r: seq<Volume>)
    ensures forall v :: v in r <==> v in vs && v.disk != disk
  {
    if vs == [] then []
    else
      var rest := Wiped(vs[..|vs|-1], disk);
      var v := vs[|vs|-1];
      assert forall u :: u in vs <==> u in vs[..|vs|-1] || u == v;
      if v.disk == disk then rest else rest + [v]
  }

  function CountOn(vs: seq<Volume>, disk: string): nat {
    if vs == [] then 0 else CountOn(vs[..|vs|-1], disk) + if vs[|vs|-1].disk == disk then 1 else 0
  }

  lemma {:induction false} CountOnExact(vs: seq<Volume>, disk: string)
    ensures CountOn(vs, disk) == |set i | 0 <= i < |vs| && vs[i].disk == disk|
  {
    if vs != [] {
      var (n, front) := (|vs| - 1, vs[..|vs|-1]);
      CountOnExact(front, disk);
      var (all, some) := (set i | 0 <= i < |vs| && vs[i].disk == disk, set i | 0 <= i < n && front[i].disk == disk);
      assert all == some + if vs[n].disk == disk then {n} else {};
    }
  }

  /** New, unformatted partitions. */
  function NewVolumes(disk: string, plan: seq<PartitionPlan>, devices: seq<string>): seq<Volume>
    requires |plan| == |devices|
  {
    seq(|plan|, i requires 0 <= i < |plan| => Volume(devices[i], disk, plan[i].name, None))
  }

  lemma NewVolumesSnoc(disk: string, plan: seq<PartitionPlan>, i: nat, devices: seq<string>, device: string)
    requires |devices| == i < |plan|
    ensures NewVolumes(disk, plan[..i+1], devices + [device]) ==
            NewVolumes(disk, plan[..i], devices) + [Volume(device, disk, plan[i].name, None)]
  {
  }

  predicate HasName(vs: seq<Volume>, disk: string, name: string) {
    exists v | v in vs :: v.disk == disk && v.partLabel == name
  }

  /** Is one of the planned labels already on the disk? */
  predicate Collides(vs: seq<Volume>, disk: string, plan: seq<PartitionPlan>) {
    exists i | 0 <= i < |plan| :: HasName(vs, disk, plan[i].name)
  }

  /** The index of the first volume with this device path, or the length. */
  function FirstAt(vs: seq<Volume>, device: string): (n: nat)
    ensures n <= |vs|
    ensures n < |vs| ==> vs[n].device == device
    ensures forall i | 0 <= i < n :: vs[i].device != device
  {
    if vs == [] || vs[0].device == device then 0 else 1 + FirstAt(vs[1..], device)
  }

  /** Formatting gives the first volume with this device path a filesystem. */
  function SetFs(vs: seq<Volume>, device: string, fs: string): seq<Volume> {
    var n := FirstAt(vs, device);
    if n == |vs| then vs else vs[n := vs[n].(fs := Some(fs))]
  }

  /** Device paths on this disk are numbered without gaps from 1, and nothing else bears such a name. */
  ghost predicate GapFree(vs: seq<Volume>, disk: string) {
    forall v, k: nat | v in vs && Leaf(v.device) == Leaf(PartDevice(disk, k)) ::
      v.disk == Leaf(disk) && 1 <= k <= CountOn(vs, Leaf(disk))
  }

  /** Device paths whose leaf names are unused and distinct. */
  ghost predicate Fresh(vs: seq<Volume>, devices: seq<string>) {
    && (forall v, d | v in vs && d in devices :: Leaf(v.device) != Leaf(d))
    && (forall i, j | 0 <= i < j < |devices| :: Leaf(devices[i]) != Leaf(devices[j]))
  }

  function Numbered(disk: string, first: nat, count: nat): seq<string> {
    seq(count, i requires 0 <= i => PartDevice(disk, first + i))
  }

  lemma NumberedFresh(vs: seq<Volume>, disk: string, count: nat)
    requires GapFree(vs, disk)
    ensures Fresh(vs, Numbered(disk, CountOn(vs, Leaf(disk)) + 1, count))
  {
    hide Leaf, PartDevice;
    var n := CountOn(vs, Leaf(disk));
    var devices := Numbered(disk, n + 1, count);
    forall i, j | 0 <= i < j < |devices| ensures Leaf(devices[i]) != Leaf(devices[j]) {
      if Leaf(devices[i]) == Leaf(devices[j]) {
        PartLeafInjective(disk, n + 1 + i, n + 1 + j);
      }
    }
  }

  lemma CountOnAppend(vs: seq<Volume>, v: Volume, disk: string)
    ensures CountOn(vs + [v], disk) == CountOn(vs, disk) + if v.disk == disk then 1 else 0
  {
  }

  lemma GapFreeGrows(vs: seq<Volume>, disk: string, name: string)
    requires GapFree(vs, disk)
    ensures GapFree(vs + [Volume(PartDevice(disk, CountOn(vs, Leaf(disk)) + 1), Leaf(disk), name, None)], disk)
  {
    hide Leaf, PartDevice, CountOn;
    var n := CountOn(vs, Leaf(disk));
    var v := Volume(PartDevice(disk, n + 1), Leaf(disk), name, None);
    CountOnAppend(vs, v, Leaf(disk));
    forall u, k: nat | u in vs + [v] && Leaf(u.device) == Leaf(PartDevice(disk, k))
      ensures u.disk == Leaf(disk) && 1 <= k <= n + 1
    {
      if u in vs {
        assert 1 <= k <= n;
      } else {
        PartLeafInjective(disk, k, n + 1);
      }
    }
  }

  // ------------------------------------------------------------------- the backend

  datatype FormatCall = FormatCall(device: string, fs: string, name: string)

  class FakeBlockBackend {
    var volumes: seq<Volume>
    var wipes: seq<string>
    var creates: seq<string>
    var adds: seq<(string, seq<string>)>
    var formats: seq<FormatCall>

    method Wipe(disk: string)
      modifies this`volumes, this`wipes
      ensures volumes == Wiped(old(volumes), Leaf(disk)) && wipes == old(wipes) + [disk]
    {
      wipes := wipes + [disk];
      volumes := Wiped(volumes, Leaf(disk));
    }

    /** Numbers from 1, whatever is on the disk. */
    method CreatePartitions(disk: string, plan: seq<PartitionPlan>) returns (devices: seq<string>)
      modifies this`volumes, this`creates
      ensures devices == Numbered(disk, 1, |plan|) && creates == old(creates) + [disk]
      ensures volumes == old(volumes) + NewVolumes(Leaf(disk), plan, devices)
    {
      creates := creates + [disk];
      devices := PushPartitions(disk, plan, 1);
    }

    /** Refuses, touching nothing, when a planned label is already on the disk; else numbers after the existing ones. */
    method AddPartitions(disk: string, plan: seq<PartitionPlan>) returns (r: Result<seq<string>>)
      modifies this`volumes, this`adds
      ensures r.Err? <==> Collides(old(volumes), Leaf(disk), plan)
      ensures r.Err? ==> volumes == old(volumes) && adds == old(adds)
      ensures r.Ok? ==> r.value == Numbered(disk, CountOn(old(volumes), Leaf(disk)) + 1, |plan|)
      ensures r.Ok? ==> volumes == old(volumes) + NewVolumes(Leaf(disk), plan, r.value)
      ensures r.Ok? && GapFree(old(volumes), disk) ==> Fresh(old(volumes), r.value) && GapFree(volumes, disk)
    {
      hide Leaf, PartDevice;
      var i := 0;
      while i < |plan|
        invariant 0 <= i <= |plan|
        invariant forall j | 0 <= j < i :: !HasName(volumes, Leaf(disk), plan[j].name)
      {
        if HasName(volumes, Leaf(disk), plan[i].name) {
          return Err(Controller(plan[i].name + " already exists on " + disk));
        }
        i := i + 1;
      }
      adds := adds + [(disk, seq(|plan|, i requires 0 <= i < |plan| => plan[i].name))];
      if GapFreeNow(disk) {
        NumberedFresh(volumes, disk, |plan|);
      }
      var devices := PushPartitions(disk, plan, CountOn(volumes, Leaf(disk)) + 1);
      r := Ok(devices);
    }

    ghost predicate GapFreeNow(disk: string)
      reads this
    {
      GapFree(volumes, disk)
    }

    /** Push one unformatted partition per plan entry, numbered from `first`. */
    method PushPartitions(disk: string, plan: seq<PartitionPlan>, first: nat) returns (devices: seq<string>)
      modifies this`volumes
      ensures devices == Numbered(disk, first, |plan|)
      ensures volumes == old(volumes) + NewVolumes(Leaf(disk), plan, devices)
      ensures GapFree(old(volumes), disk) && first == CountOn(old(volumes), Leaf(disk)) + 1 ==> GapFree(volumes, disk)
    {
      hide Leaf, PartDevice, GapFree, CountOn;
      devices := [];
      var i := 0;
      while i < |plan|
        invariant 0 <= i <= |plan| && devices == Numbered(disk, first, i)
        invariant volumes == old(volumes) + NewVolumes(Leaf(disk), plan[..i], devices)
        invariant GapFree(old(volumes), disk) && first == CountOn(old(volumes), Leaf(disk)) + 1 ==>
          GapFree(volumes, disk) && first + i == CountOn(volumes, Leaf(disk)) + 1
      {
        var v := Volume(PartDevice(disk, first + i), Leaf(disk), plan[i].name, None);
        if GapFree(volumes, disk) && first + i == CountOn(volumes, Leaf(disk)) + 1 {
          GapFreeGrows(volumes, disk, plan[i].name);
        }
        CountOnAppend(volumes, v, Leaf(disk));
        NewVolumesSnoc(Leaf(disk), plan, i, devices, v.device);
        devices := devices + [v.device];
        volumes := volumes + [v];
        i := i + 1;
      }
      assert plan[..i] == plan;
    }

    /** A failing call is logged and leaves the partition without a filesystem. */
    method Format(device: string, fs: string, name: string, fails: bool) returns (ok: bool)
      modifies this`volumes, this`formats
      ensures ok == !fails && volumes == if fails then old(volumes) else SetFs(old(volumes), device, fs)
      ensures formats == old(formats) + [FormatCall(device, fs, name)]
    {
      formats := formats + [FormatCall(device, fs, name)];
      if fails {
        return false;
      }
      volumes := SetFs(volumes, device, fs);
      ok := true;
    }
  }
}
