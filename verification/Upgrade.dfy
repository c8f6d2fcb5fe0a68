/**
 A/B disk upgrades: verify a bundle, write its kernel and initramfs into the inactive slot,
 flip the boot pointer, reboot. Power may be cut between any two steps; the pointer write is
 taken as atomic and a finished file copy as durable.
 */
module Upgrade {
  import opened Resources
  import opened Boot
  import Text

  // ------------------------------------------------------------------- bundles

  /** A tar entry: its file name, if it has one, and content; or an entry that cannot be read. */
  datatype TarEntry = Unreadable | Item(name: Option<string>, content: string)

  datatype Bundle = Bundle(digest: string, entries: seq<TarEntry>)

  datatype Images = Images(kernel: string, initrd: string)

  function Lower(c: char): char {
    if 'A' <= c <= 'Z' then 'a' + (c - 'A') else c
  }

  predicate EqIgnoreAsciiCase(a: string, b: string) {
    |a| == |b| && forall i | 0 <= i < |a| :: Lower(a[i]) == Lower(b[i])
  }

  /** The content of the last entry with this file name. */
  function LastNamed(entries: seq<TarEntry>, name: string): Option<string> {
    if entries == [] then None
    else
      var e := entries[|entries|-1];
      if e.Item? && e.name == Some(name) then Some(e.content) else LastNamed(entries[..|entries|-1], name)
  }

  /** What a bundle holds: both images, or nothing. */
  function Contents(b: Bundle): Option<Images> {
    match (LastNamed(b.entries, "vmlinuz"), LastNamed(b.entries, "initramfs.img"))
    case (Some(k), Some(i)) => if Unreadable in b.entries then None else Some(Images(k, i))
    case _ => None
  }

  method ExtractBundle(b: Bundle) returns (r: Option<Images>)
    ensures r == Contents(b)
  {
    var kernel: Option<string>, initrd: Option<string> := None, None;
    var i := 0;
    while i < |b.entries|
      invariant 0 <= i <= |b.entries| && Unreadable !in b.entries[..i]
      invariant kernel == LastNamed(b.entries[..i], "vmlinuz")
      invariant initrd == LastNamed(b.entries[..i], "initramfs.img")
    {
      assert b.entries[..i+1][..i] == b.entries[..i];
      var e := b.entries[i];
      if e.Unreadable? {
        return None;
      }
      assert "vmlinuz"[0] != "initramfs.img"[0];
      if e.name == Some("vmlinuz") {
        kernel := Some(e.content);
      } else if e.name == Some("initramfs.img") {
        initrd := Some(e.content);
      }
      i := i + 1;
    }
    assert b.entries[..i] == b.entries;
    r := if kernel.Some? && initrd.Some? then Some(Images(kernel.value, initrd.value)) else None;
  }

  // ---------------------------------------------------------------------- disk

  /** A copy in progress, or one cut short, leaves a torn file. */
  datatype File = Absent | Torn | Whole(content: string)

  datatype SlotDir = SlotDir(kernel: File, initrd: File)

  datatype Disk = Disk(a: SlotDir, b: SlotDir, pointer: Slot)

  function DirOf(d: Disk, s: Slot): SlotDir {
    if s == A then d.a else d.b
  }

  function WithDir(d: Disk, s: Slot, dir: SlotDir): Disk {
    if s == A then d.(a := dir) else d.(b := dir)
  }

  function Installed(im: Images): SlotDir {
    SlotDir(Whole(im.kernel), Whole(im.initrd))
  }

  datatype Request = Request(bundle: Bundle, sha256: string)

  /** The images an upgrade request may install. */
  function Verified(q: Request): Option<Images> {
    if EqIgnoreAsciiCase(q.bundle.digest, q.sha256) then Contents(q.bundle) else None
  }

  /** A digest as it is written: lower-case hexadecimal. */
  predicate Hex(s: string) {
    forall i | 0 <= i < |s| :: '0' <= s[i] <= '9' || 'a' <= s[i] <= 'f'
  }

  /** `t` is `s` with some of its hexadecimal letters in upper case. */
  predicate UpperCased(s: string, t: string) {
    |t| == |s| && forall i | 0 <= i < |s| :: t[i] == s[i] || ('a' <= s[i] <= 'f' && t[i] as int == s[i] as int - 32)
  }

  /** The comparison on any two texts: position by position the same character, or one ASCII letter in two cases. */
  lemma CaseOnly(a: string, b: string)
    ensures EqIgnoreAsciiCase(a, b) <==>
      |a| == |b| && forall i | 0 <= i < |a| ::
        || a[i] == b[i]
        || ('A' <= a[i] <= 'Z' && b[i] as int == a[i] as int + 32)
        || ('A' <= b[i] <= 'Z' && a[i] as int == b[i] as int + 32)
  {
    if |a| == |b| {
      forall i | 0 <= i < |a|
        ensures Lower(a[i]) == Lower(b[i]) <==>
          || a[i] == b[i]
          || ('A' <= a[i] <= 'Z' && b[i] as int == a[i] as int + 32)
          || ('A' <= b[i] <= 'Z' && a[i] as int == b[i] as int + 32)
      {
        LowerIsShift(a[i]);
        LowerIsShift(b[i]);
      }
    }
  }

  lemma LowerIsShift(c: char)
    ensures Lower(c) as int == if 'A' <= c <= 'Z' then c as int + 32 else c as int
  {
  }

  /** A request is verified exactly when its digest is the bundle's and the bundle holds both images. */
  lemma VerifiedIff(q: Request)
    requires Hex(q.bundle.digest) && Hex(q.sha256)
    ensures Verified(q) == if q.sha256 == q.bundle.digest then Contents(q.bundle) else None
  {
    CaseOnly(q.bundle.digest, q.sha256);
    if |q.bundle.digest| == |q.sha256| && q.sha256 != q.bundle.digest {
      var i :| 0 <= i < |q.sha256| && q.bundle.digest[i] != q.sha256[i];
    }
  }

  /** Writing letters of the requested digest in upper case changes nothing. */
  lemma CaseOfDigest(q: Request, sha256: string)
    requires Hex(q.bundle.digest) && Hex(q.sha256) && UpperCased(q.sha256, sha256)
    ensures Verified(q.(sha256 := sha256)) == Verified(q)
  {
    CaseOnly(q.bundle.digest, q.sha256);
    CaseOnly(q.bundle.digest, sha256);
    var d := q.bundle.digest;
    if |d| == |sha256| {
      forall i | 0 <= i < |d| ensures Lower(d[i]) == Lower(sha256[i]) <==> Lower(d[i]) == Lower(q.sha256[i]) {
        LowerIsShift(sha256[i]);
        LowerIsShift(q.sha256[i]);
      }
    }
  }

  /** At most the files of one slot differ; the pointer does not. */
  predicate OnlyDirChanged(d: Disk, d': Disk, slot: Slot) {
    d'.pointer == d.pointer && DirOf(d', slot.Other()) == DirOf(d, slot.Other())
  }

  /** Both images in place and the pointer on them. */
  function Committed(d: Disk, slot: Slot, im: Images): Disk {
    WithDir(d, slot, Installed(im)).(pointer := slot)
  }

  // ------------------------------------------------------------------ the firmware

  /** systemd-boot reads entry files written around a base command line; the Pi has one fixed file per slot. */
  datatype Loader = SystemdBoot(base: string) | RaspberryPi

  /** `readable`: the daemon can read its command line at every boot. */
  datatype Firmware = Firmware(loader: Loader, readable: bool)

  /** The slot a daemon booted from `slot` reads off its command line. */
  function BelievedSlot(loader: Loader, slot: Slot): Slot {
    match loader
    case SystemdBoot(base) => EntrySlot(base, slot)
    case RaspberryPi => ParseSlot(PiCmdline(slot))
  }

  ghost predicate Arrives(loader: Loader) {
    loader.SystemdBoot? ==> TokenReaches(loader.base)
  }

  /** The slot token reaches the daemon first at every boot. */
  ghost predicate SlotReaches(fw: Firmware) {
    fw.readable && Arrives(fw.loader)
  }

  /** The daemon knows its slot iff the token arrives; otherwise it believes the same in both. */
  lemma SlotBelieved(loader: Loader)
    ensures Arrives(loader) <==> forall slot: Slot :: BelievedSlot(loader, slot) == slot
    ensures !Arrives(loader) ==> BelievedSlot(loader, A) == BelievedSlot(loader, B)
  {
    hide EntrySlot, ParseSlot, PiCmdline, TokenReaches, SlotOf;
    match loader
    case SystemdBoot(base) =>
      SlotAgreement(base);
      ParsedSlot(base, A);
      ParsedSlot(base, B);
      assert forall slot: Slot :: BelievedSlot(loader, slot) == EntrySlot(base, slot);
    case RaspberryPi =>
      forall slot: Slot ensures BelievedSlot(loader, slot) == slot {
        PiSlotAgreement(slot);
      }
  }

  /** What the daemon believes after a boot; an unreadable command line counts as empty, which names A. */
  function Belief(fw: Firmware, slot: Slot, read: bool): Slot {
    if read then BelievedSlot(fw.loader, slot) else ParseSlot("")
  }

  lemma EmptyNamesA()
    ensures ParseSlot("") == A
  {
  }

  /** Where the token reaches the daemon at every boot, it knows its slot after each. */
  lemma Known(fw: Firmware)
    requires SlotReaches(fw)
    ensures forall slot: Slot :: Belief(fw, slot, true) == slot
  {
    hide BelievedSlot, Arrives;
    SlotBelieved(fw.loader);
  }

  /** loader.conf, whole. */
  function LoaderConf(slot: Slot): string {
    "default " + slot.Id() + "\ntimeout 0\n"
  }

  /** The boot pointer file names the slot; on the Pi by every `os_prefix=` line, of which there is one. */
  ghost predicate PointsTo(loader: Loader, text: string, slot: Slot) {
    match loader
    case SystemdBoot(_) => text == LoaderConf(slot)
    case RaspberryPi => Names(text, slot) && HasPointer(Text.Lines(text))
  }

  /** The slot the boot loader finds in the pointer file: the entry named as default, or the directory put before every path. */
  function Selected(loader: Loader, text: string): Option<Slot> {
    match loader
    case SystemdBoot(_) =>
      var id := ValueOf(Text.Lines(text), "default ");
      if id == Some("a") then Some(A) else if id == Some("b") then Some(B) else None
    case RaspberryPi =>
      var dir := ValueOf(Text.Lines(text), "os_prefix=");
      if dir == Some("A/") then Some(A) else if dir == Some("B/") then Some(B) else None
  }

  lemma LoaderConfText(slot: Slot)
    ensures LoaderConf(slot) == if slot == A then "default a\ntimeout 0\n" else "default b\ntimeout 0\n"
    ensures Text.Lines(LoaderConf(slot)) == ["default " + slot.Id(), "timeout 0"]
  {
    hide Text.Lines;
    var (l, t) := ("default " + slot.Id(), "timeout 0");
    Text.LinesCons(l, t + "\n" + "");
    Text.LinesCons(t, "");
    assert LoaderConf(slot) == l + "\n" + (t + "\n" + "");
    assert Text.Lines("") == [] by { Text.NoLines(); }
  }

  lemma DefaultEntry(slot: Slot)
    ensures ValueOf(Text.Lines(LoaderConf(slot)), "default ") == Some(slot.Id())
  {
    hide Text.Lines, LoaderConf;
    LoaderConfText(slot);
    var l := "default " + slot.Id();
    assert [l, "timeout 0"][..1] == [l] && l[..8] == "default " && l[8..] == slot.Id();
    assert "timeout 0"[..8][0] != "default "[0];
  }

  /** A pointer file that names a slot selects that slot, and so cannot name both. */
  lemma PointerSelects(loader: Loader, text: string, slot: Slot)
    requires PointsTo(loader, text, slot)
    ensures Selected(loader, text) == Some(slot) && !PointsTo(loader, text, slot.Other())
  {
    hide Text.Lines, IsPointer, PointerLine, ValueOf, Text.TrimStart, LoaderConf;
    assert "a"[0] != "b"[0] && "A/"[0] != "B/"[0];
    forall s: Slot | PointsTo(loader, text, s) ensures Selected(loader, text) == Some(s) {
      if loader.SystemdBoot? {
        DefaultEntry(s);
      } else {
        PointerText(s);
        PointerValue(Text.Lines(text), PointerLine(s));
      }
    }
  }

  /** The pointer file the imager writes. */
  function FactoryPointer(loader: Loader): string {
    if loader.RaspberryPi? then Unlines(PI_CONFIG) else LoaderConf(A)
  }

  lemma FactoryPointsToA(loader: Loader)
    ensures PointsTo(loader, FactoryPointer(loader), A)
  {
    hide Names, HasPointer, Unlines;
    PiConfigNamesA();
  }

  // --------------------------------------------------- many attempts and power cuts

  datatype Phase =
    | Ready
    | Staging(images: Images)          // verified and extracted
    | CopyingKernel(images: Images)
    | KernelCopied(images: Images)
    | CopyingInitrd(images: Images)
    | Staged
    | Flipped                          // the action loop has left for a cold reboot

  /** `booted` is the slot the firmware loaded, `current` the one the daemon believes it runs. */
  datatype Node = Node(disk: Disk, booted: Slot, current: Slot, phase: Phase, requests: set<Request>)

  datatype Step =
    | PowerCut(read: bool)             // and the boot after it
    | Ask(request: Request)
    | BeginKernel
    | EndKernel
    | BeginInitrd
    | EndInitrd
    | Flip
    | Fail                             // the step in progress fails; the attempt is abandoned

  predicate NoCut(steps: seq<Step>) {
    forall step | step in steps :: !step.PowerCut?
  }

  /** The command line the firmware passes is the imager's, for the slot it loads. */
  function Boots(fw: Firmware, disk: Disk, requests: set<Request>, read: bool): Node {
    Node(disk, disk.pointer, Belief(fw, disk.pointer, read), Ready, requests)
  }

  function Factory(fw: Firmware, im: Images): Node {
    Boots(fw, Disk(Installed(im), SlotDir(Absent, Absent), A), {}, true)
  }

  predicate Enabled(fw: Firmware, n: Node, step: Step) {
    match step
    case PowerCut(read) => read || !fw.readable
    case Ask(_) => n.phase.Ready?
    case BeginKernel => n.phase.Staging?
    case EndKernel => n.phase.CopyingKernel?
    case BeginInitrd => n.phase.KernelCopied?
    case EndInitrd => n.phase.CopyingInitrd?
    case Flip => n.phase.Staged?
    case Fail => !n.phase.Ready? && !n.phase.Flipped?
  }

  function Next(fw: Firmware, n: Node, step: Step): Node
    requires Enabled(fw, n, step)
  {
    var slot := n.current.Other();
    var dir := DirOf(n.disk, slot);
    match step
    case PowerCut(read) => Boots(fw, n.disk, n.requests, read)
    case Ask(q) =>
      n.(requests := n.requests + {q}, phase := if Verified(q).Some? then Staging(Verified(q).value) else Ready)
    case BeginKernel => n.(disk := WithDir(n.disk, slot, dir.(kernel := Torn)), phase := CopyingKernel(n.phase.images))
    case EndKernel =>
      n.(disk := WithDir(n.disk, slot, dir.(kernel := Whole(n.phase.images.kernel))), phase := KernelCopied(n.phase.images))
    case BeginInitrd => n.(disk := WithDir(n.disk, slot, dir.(initrd := Torn)), phase := CopyingInitrd(n.phase.images))
    case EndInitrd =>
      n.(disk := WithDir(n.disk, slot, dir.(initrd := Whole(n.phase.images.initrd))), phase := Staged)
    case Flip => n.(disk := n.disk.(pointer := slot), phase := Flipped)
    case Fail => n.(phase := Ready)
  }

  predicate IsRun(fw: Firmware, n: Node, steps: seq<Step>)
    decreases |steps|
  {
    steps == [] || (Enabled(fw, n, steps[0]) && IsRun(fw, Next(fw, n, steps[0]), steps[1..]))
  }

  function After(fw: Firmware, n: Node, steps: seq<Step>): Node
    requires IsRun(fw, n, steps)
    decreases |steps|
  {
    if steps == [] then n else After(fw, Next(fw, n, steps[0]), steps[1..])
  }

  // -------------------------------------------------------------------- safety

  /** A complete pair from one source: the factory image or one verified request. */
  ghost predicate Sound(factory: Images, requests: set<Request>, dir: SlotDir) {
    dir == Installed(factory) || exists q :: q in requests && Verified(q).Some? && dir == Installed(Verified(q).value)
  }

  /** What the next power-on loads is a sound pair. */
  ghost predicate Bootable(factory: Images, n: Node) {
    Sound(factory, n.requests, DirOf(n.disk, n.disk.pointer))
  }

  ghost predicate Allowed(requests: set<Request>, im: Images) {
    exists q :: q in requests && Verified(q) == Some(im)
  }

  ghost predicate Inv(factory: Images, n: Node) {
    && Bootable(factory, n) && n.current == n.booted
    && (!n.phase.Flipped? ==> n.disk.pointer == n.booted)
    && var dir := DirOf(n.disk, n.current.Other());
      match n.phase
      case Ready => true
      case Staging(im) => Allowed(n.requests, im)
      case CopyingKernel(im) => Allowed(n.requests, im)
      case KernelCopied(im) => Allowed(n.requests, im) && dir.kernel == Whole(im.kernel)
      case CopyingInitrd(im) => Allowed(n.requests, im) && dir.kernel == Whole(im.kernel)
      case Staged => Sound(factory, n.requests, dir)
      case Flipped => true
  }

  lemma SoundGrows(factory: Images, r: set<Request>, r': set<Request>, dir: SlotDir)
    requires Sound(factory, r, dir) && r <= r'
    ensures Sound(factory, r', dir)
  {
  }

  lemma InvStep(fw: Firmware, factory: Images, n: Node, step: Step)
    requires SlotReaches(fw) && Inv(factory, n) && Enabled(fw, n, step)
    ensures Inv(factory, Next(fw, n, step))
    ensures RunningSlotKept(fw, n, step)
  {
    hide Belief, Arrives, Verified;
    match step
    case PowerCut(read) =>
      Known(fw);
      assert read && Belief(fw, n.disk.pointer, true) == n.disk.pointer;
    case Ask(q) =>
      SoundGrows(factory, n.requests, n.requests + {q}, DirOf(n.disk, n.disk.pointer));
    case EndInitrd =>
      var q :| q in n.requests && Verified(q) == Some(n.phase.images);
    case _ =>
  }

  lemma {:induction false} InvRun(fw: Firmware, factory: Images, n: Node, steps: seq<Step>)
    requires SlotReaches(fw) && Inv(factory, n) && IsRun(fw, n, steps)
    ensures Inv(factory, After(fw, n, steps))
    decreases |steps|
  {
    if steps != [] {
      InvStep(fw, factory, n, steps[0]);
      InvRun(fw, factory, Next(fw, n, steps[0]), steps[1..]);
    }
  }

  /** The states a machine with this firmware and factory image can reach. */
  ghost predicate Reachable(fw: Firmware, factory: Images, n: Node) {
    exists steps :: IsRun(fw, Factory(fw, factory), steps) && n == After(fw, Factory(fw, factory), steps)
  }

  /** No step taken from here writes the slot the machine was booted from. */
  predicate RunningSlotKept(fw: Firmware, n: Node, step: Step)
    requires Enabled(fw, n, step)
  {
    DirOf(Next(fw, n, step).disk, n.booted) == DirOf(n.disk, n.booted)
  }

  /** Crash safety, over every run: the slot selected for the next boot is sound, and the running slot is never written. */
  ghost predicate CrashSafe(fw: Firmware, factory: Images) {
    forall n | Reachable(fw, factory, n) ::
      && Bootable(factory, n)
      && forall step | Enabled(fw, n, step) :: RunningSlotKept(fw, n, step)
  }

  lemma {:induction false} RunSnoc(fw: Firmware, n: Node, steps: seq<Step>, step: Step)
    requires IsRun(fw, n, steps) && Enabled(fw, After(fw, n, steps), step)
    ensures IsRun(fw, n, steps + [step])
    ensures After(fw, n, steps + [step]) == Next(fw, After(fw, n, steps), step)
    decreases |steps|
  {
    if steps != [] {
      assert (steps + [step])[1..] == steps[1..] + [step];
      RunSnoc(fw, Next(fw, n, steps[0]), steps[1..], step);
    } else {
      assert (steps + [step])[1..] == [];
    }
  }

  lemma ReachStep(fw: Firmware, factory: Images, n: Node, step: Step)
    requires Reachable(fw, factory, n) && Enabled(fw, n, step)
    ensures Reachable(fw, factory, Next(fw, n, step))
  {
    hide Next, Factory;
    var start := Factory(fw, factory);
    var steps :| IsRun(fw, start, steps) && n == After(fw, start, steps);
    RunSnoc(fw, start, steps, step);
  }

  lemma FactoryReachable(fw: Firmware, factory: Images)
    ensures Reachable(fw, factory, Factory(fw, factory))
  {
    assert IsRun(fw, Factory(fw, factory), []);
  }

  lemma SafeWithToken(fw: Firmware, factory: Images)
    requires SlotReaches(fw)
    ensures CrashSafe(fw, factory)
  {
    var start := Factory(fw, factory);
    Known(fw);
    forall n | Reachable(fw, factory, n)
      ensures Inv(factory, n)
      ensures forall step | Enabled(fw, n, step) :: RunningSlotKept(fw, n, step)
    {
      var steps :| IsRun(fw, start, steps) && n == After(fw, start, steps);
      InvRun(fw, factory, start, steps);
      forall step | Enabled(fw, n, step) ensures RunningSlotKept(fw, n, step) {
        InvStep(fw, factory, n, step);
      }
    }
  }

  /** A request whose digest matches and whose bundle holds both images. */
  function SomeRequest(): (q: Request)
    ensures Verified(q) == Some(Images("k", "i"))
  {
    var q := Request(Bundle("", [Item(Some("vmlinuz"), "k"), Item(Some("initramfs.img"), "i")]), "");
    assert q.bundle.entries[..1] == [Item(Some("vmlinuz"), "k")] && "vmlinuz"[0] != "initramfs.img"[0];
    q
  }

  /** A daemon that believes it runs the other slot tears the pointed-to one. */
  lemma WrongBeliefTears(fw: Firmware, factory: Images, n: Node)
    requires Reachable(fw, factory, n) && n.phase.Ready? && n.current.Other() == n.disk.pointer
    ensures !CrashSafe(fw, factory)
  {
    hide Reachable, Verified, Belief, Contents;
    ReachStep(fw, factory, n, Ask(SomeRequest()));
    var asked := Next(fw, n, Ask(SomeRequest()));
    ReachStep(fw, factory, asked, BeginKernel);
    var torn := Next(fw, asked, BeginKernel);
    assert DirOf(torn.disk, torn.disk.pointer).kernel == Torn;
    assert !Bootable(factory, torn);
  }

  /** The state after one complete upgrade and the reboot into it. */
  lemma Upgraded(fw: Firmware, factory: Images, n: Node, read: bool) returns (n': Node)
    requires Reachable(fw, factory, n) && n.phase.Ready? && (read || !fw.readable)
    ensures Reachable(fw, factory, n') && n'.disk.pointer == n.current.Other()
    ensures n' == Boots(fw, n'.disk, n'.requests, read)
  {
    hide Reachable, Verified, Belief, Contents;
    n' := n;
    ReachStep(fw, factory, n', Ask(SomeRequest()));
    n' := Next(fw, n', Ask(SomeRequest()));
    ReachStep(fw, factory, n', BeginKernel);
    n' := Next(fw, n', BeginKernel);
    ReachStep(fw, factory, n', EndKernel);
    n' := Next(fw, n', EndKernel);
    ReachStep(fw, factory, n', BeginInitrd);
    n' := Next(fw, n', BeginInitrd);
    ReachStep(fw, factory, n', EndInitrd);
    n' := Next(fw, n', EndInitrd);
    ReachStep(fw, factory, n', Flip);
    n' := Next(fw, n', Flip);
    ReachStep(fw, factory, n', PowerCut(read));
    n' := Next(fw, n', PowerCut(read));
  }

  /** If the appended token is lost, hidden or not read, one upgrade or two reach an unbootable machine. */
  lemma UnsafeWithoutToken(fw: Firmware, factory: Images)
    requires !SlotReaches(fw)
    ensures !CrashSafe(fw, factory)
  {
    hide Reachable, BelievedSlot, Arrives, ParseSlot, CrashSafe;
    SlotBelieved(fw.loader);
    EmptyNamesA();
    FactoryReachable(fw, factory);
    var start := Factory(fw, factory);
    if start.current == B {
      WrongBeliefTears(fw, factory, start);
    } else {
      var n := Upgraded(fw, factory, start, fw.readable);
      assert n.current == A;
      WrongBeliefTears(fw, factory, n);
    }
  }

  /** The machine survives every run of upgrades, failures and power cuts iff the slot token reaches the daemon first at every boot. */
  lemma CrashSafeIffTokenReaches(fw: Firmware, factory: Images)
    ensures CrashSafe(fw, factory) <==> SlotReaches(fw)
  {
    hide CrashSafe, SlotReaches;
    if !SlotReaches(fw) {
      UnsafeWithoutToken(fw, factory);
    } else {
      SafeWithToken(fw, factory);
    }
  }

  // ------------------------------------------------------------- the daemon's code

  /** Which operations fail in an attempt. */
  datatype Faults = Faults(stageRemount: bool, kernelCopy: bool, initrdCopy: bool, flipRemount: bool, flip: bool)

  /** The boot partition and the daemon over it; `run` is the run of the machine above that it has performed. */
  class Esp {
    const fw: Firmware
    const factory: Images
    var disk: Disk
    var pointerFile: string
    var current: Slot
    ghost var node: Node
    ghost var run: seq<Step>

    /** The code's state is the machine's after `run`, from the factory image on. */
    ghost predicate Valid()
      reads this
    {
      && node.disk == disk && node.current == current && PointsTo(fw.loader, pointerFile, disk.pointer)
      && IsRun(fw, Factory(fw, factory), run) && node == After(fw, Factory(fw, factory), run)
    }

    constructor (fw: Firmware, factory: Images)
      ensures Valid() && this.fw == fw && this.factory == factory
      ensures run == [] && node.phase == Ready
    {
      FactoryPointsToA(fw.loader);
      this.fw, this.factory, pointerFile := fw, factory, FactoryPointer(fw.loader);
      disk := Factory(fw, factory).disk;
      current := Belief(fw, A, true);
      node := Factory(fw, factory);
      run := [];
    }

    /** Power lost and restored: the daemon learns its slot from the new command line, if it can read it. */
    method PowerCycle(read: bool)
      requires Valid() && (read || !fw.readable)
      modifies this`current, this`node, this`run
      ensures Valid() && run == old(run) + [PowerCut(read)] && node.phase == Ready
    {
      PointerSelects(fw.loader, pointerFile, disk.pointer);
      var booted := Selected(fw.loader, pointerFile);
      current := Belief(fw, booted.value, read);
      Perform(PowerCut(read));
    }

    ghost method Perform(step: Step)
      requires IsRun(fw, Factory(fw, factory), run) && node == After(fw, Factory(fw, factory), run)
      requires Enabled(fw, node, step)
      modifies this`node, this`run
      ensures IsRun(fw, Factory(fw, factory), run) && node == After(fw, Factory(fw, factory), run)
      ensures node == Next(fw, old(node), step) && run == old(run) + [step]
    {
      RunSnoc(fw, Factory(fw, factory), run, step);
      node := Next(fw, node, step);
      run := run + [step];
    }

    /** One change to a slot's files, which must be the machine's `step`. */
    method Put(slot: Slot, dir: SlotDir, ghost step: Step)
      requires Valid() && Enabled(fw, node, step) && Next(fw, node, step).disk == WithDir(disk, slot, dir)
      requires !step.PowerCut?
      modifies this`disk, this`node, this`run
      ensures Valid() && disk == WithDir(old(disk), slot, dir)
      ensures node == Next(fw, old(node), step) && run == old(run) + [step]
    {
      disk := WithDir(disk, slot, dir);
      Perform(step);
    }

    /** Write both files into the slot; a failed copy leaves its file torn. */
    method WriteInactiveSlot(slot: Slot, im: Images, faults: Faults) returns (ok: bool)
      requires Valid() && node.phase == Staging(im) && slot == current.Other()
      modifies this`disk, this`node, this`run
      ensures Valid() && old(run) <= run && NoCut(run[|old(run)|..])
      ensures ok <==> !faults.stageRemount && !faults.kernelCopy && !faults.initrdCopy
      ensures ok ==> node.phase == Staged && disk == WithDir(old(disk), slot, Installed(im))
      ensures !ok ==> node.phase == Ready && OnlyDirChanged(old(disk), disk, slot)
    {
      hide IsRun, After, Factory, PointsTo;
      if faults.stageRemount {
        Perform(Fail);
        return false;
      }
      Put(slot, DirOf(disk, slot).(kernel := Torn), BeginKernel);
      if faults.kernelCopy {
        Perform(Fail);
        return false;
      }
      Put(slot, DirOf(disk, slot).(kernel := Whole(im.kernel)), EndKernel);
      Put(slot, DirOf(disk, slot).(initrd := Torn), BeginInitrd);
      if faults.initrdCopy {
        Perform(Fail);
        return false;
      }
      Put(slot, DirOf(disk, slot).(initrd := Whole(im.initrd)), EndInitrd);
      ok := true;
    }

    /** Rewrite the pointer file: loader.conf as a whole, config.txt line by line. */
    method SetActive(slot: Slot, faults: Faults) returns (ok: bool)
      requires Valid() && node.phase == Staged && slot == current.Other()
      modifies this`disk, this`pointerFile, this`node, this`run
      ensures Valid() && (ok <==> !faults.flipRemount && !faults.flip)
      ensures disk == if ok then old(disk).(pointer := slot) else old(disk)
      ensures !ok ==> pointerFile == old(pointerFile)
      ensures node.phase == if ok then Flipped else Ready
      ensures ok ==> Selected(fw.loader, pointerFile) == Some(slot)
      ensures run == old(run) + [if ok then Flip else Fail]
    {
      hide IsRun, After, Factory, Text.Lines, Names, HasPointer, Selected;
      var text := Some(LoaderConf(slot));
      if fw.loader.RaspberryPi? {
        text := RewriteOsPrefix(pointerFile, slot);
        FlipNames(pointerFile, slot);
      }
      if faults.flipRemount || faults.flip || text.None? {
        Perform(Fail);
        return false;
      }
      PointerSelects(fw.loader, text.value, slot);
      pointerFile := text.value;
      disk := disk.(pointer := slot);
      Perform(Flip);
      ok := true;
    }

    /**
     Verify, extract, stage, flip: an attempt is a run of the machine without a power cut, so
     whatever holds over all runs holds wherever power is lost inside it.
     */
    method StageAndCommit(q: Request, faults: Faults) returns (ok: bool)
      requires Valid() && node.phase == Ready
      modifies this`disk, this`pointerFile, this`node, this`run
      ensures Valid() && old(run) + [Ask(q)] <= run && NoCut(run[|old(run)|..])
      ensures ok <==> Verified(q).Some? && faults == Faults(false, false, false, false, false)
      ensures ok ==> disk == Committed(old(disk), current.Other(), Verified(q).value)
      ensures !ok ==> OnlyDirChanged(old(disk), disk, current.Other())
      ensures !ok ==> pointerFile == old(pointerFile)
      ensures Verified(q).None? ==> disk == old(disk)
      ensures Hex(q.bundle.digest) && Hex(q.sha256) && q.sha256 != q.bundle.digest ==> !ok && disk == old(disk)
      ensures node.phase == if ok then Flipped else Ready
    {
      hide IsRun, After, Factory, PointsTo, Hex;
      if Hex(q.bundle.digest) && Hex(q.sha256) {
        VerifiedIff(q);
      }
      Perform(Ask(q));
      if !EqIgnoreAsciiCase(q.bundle.digest, q.sha256) {
        return false;
      }
      var images := ExtractBundle(q.bundle);
      if images.None? {
        return false;
      }
      var slot := current.Other();
      ok := WriteInactiveSlot(slot, images.value, faults);
      if ok {
        ok := SetActive(slot, faults);
      }
    }
  }
}
