/**
 Boot slots and their text: the slot token the imager writes and the daemon parses, and the
 config.txt rewrite that flips the Raspberry Pi boot pointer.
 */
module Boot {
  import opened Resources
  import opened Text

  datatype Slot = A | B {
    function Other(): Slot {
      if this == A then B else A
    }

    function Id(): string {
      if this == A then "a" else "b"
    }

    function Dir(): string {
      if this == A then "A" else "B"
    }
  }

  // ------------------------------------------------------------------ slot token

  const TOKEN := "machined.slot="

  function SlotOf(tokens: seq<string>): Slot {
    if tokens == [] then A
    else if StartsWith(tokens[0], TOKEN) then (if tokens[0][|TOKEN|..] == "b" then B else A)
    else SlotOf(tokens[1..])
  }

  /** The slot named by the first slot token; absent or garbage means A. */
  function ParseSlot(cmdline: string): Slot {
    SlotOf(SplitWhitespace(cmdline))
  }

  /** A base command line with the slot token appended. */
  function EntryOptions(base: string, slot: Slot): string {
    base + " " + (TOKEN + slot.Id())
  }

  const PI_BASE := "console=serial0,115200 console=tty1"

  /** The Raspberry Pi per-slot command line file. */
  function PiCmdline(slot: Slot): string {
    EntryOptions(PI_BASE, slot) + "\n"
  }

  ghost predicate HasSlotToken(cmdline: string) {
    NamesSlot(SplitWhitespace(cmdline))
  }

  lemma {:induction false} FirstTokenWins(tokens: seq<string>, last: string)
    ensures if exists t :: t in tokens && StartsWith(t, TOKEN) then SlotOf(tokens + [last]) == SlotOf(tokens)
            else SlotOf(tokens + [last]) == SlotOf([last])
  {
    if tokens == [] {
      assert tokens + [last] == [last];
    } else {
      assert (tokens + [last])[1..] == tokens[1..] + [last];
      assert tokens == [tokens[0]] + tokens[1..];
      FirstTokenWins(tokens[1..], last);
      if exists t :: t in tokens && StartsWith(t, TOKEN) {
        var t :| t in tokens && StartsWith(t, TOKEN);
        assert t == tokens[0] || t in tokens[1..];
      }
    }
  }

  lemma TokenNamesSlot(slot: Slot)
    ensures SplitWhitespace(TOKEN + slot.Id()) == [TOKEN + slot.Id()]
    ensures SlotOf([TOKEN + slot.Id()]) == slot
  {
    var t := TOKEN + slot.Id();
    OneWord(t);
    assert t[..|TOKEN|] == TOKEN && t[|TOKEN|..] == slot.Id();
    assert "a" != "b" by { assert "a"[0] != "b"[0]; }
  }

  lemma OptionsTokens(base: string, slot: Slot)
    ensures SplitWhitespace(EntryOptions(base, slot)) == SplitWhitespace(base) + [TOKEN + slot.Id()]
  {
    TokenNamesSlot(slot);
    SplitAt(base, ' ', TOKEN + slot.Id());
  }

  /** An earlier token hides the appended one. */
  lemma ParsedWords(words: seq<string>, slot: Slot)
    ensures SlotOf(words + [TOKEN + slot.Id()]) == if NamesSlot(words) then SlotOf(words) else slot
  {
    FirstTokenWins(words, TOKEN + slot.Id());
    TokenNamesSlot(slot);
  }

  ghost predicate NamesSlot(words: seq<string>) {
    exists t :: t in words && StartsWith(t, TOKEN)
  }

  lemma {:induction false} TokenChars(s: string, t: string, c: char)
    requires t in SplitWhitespace(s) && c in t
    ensures c in s
    decreases |s|
  {
    hide IsWhitespace;
    if IsWhitespace(s[0]) {
      TokenChars(s[1..], t, c);
    } else {
      var n := WordLength(s);
      if t != s[..n] { TokenChars(s[n..], t, c); }
    }
  }

  lemma NoTokenWithoutM(base: string)
    requires 'm' !in base
    ensures !HasSlotToken(base)
  {
    if HasSlotToken(base) {
      var t :| t in SplitWhitespace(base) && StartsWith(t, TOKEN);
      assert t[..|TOKEN|][0] == TOKEN[0] == 'm';
      TokenChars(base, t, 'm');
    }
  }

  lemma TrailingNewline(base: string, slot: Slot)
    requires !HasSlotToken(base)
    ensures ParseSlot(EntryOptions(base, slot) + "\n") == slot
  {
    var line := EntryOptions(base, slot);
    SplitAt(line, '\n', "");
    assert line + "\n" == line + ['\n'] + "";
    assert SplitWhitespace(line) + SplitWhitespace("") == SplitWhitespace(line);
    OptionsTokens(base, slot);
    ParsedWords(SplitWhitespace(base), slot);
  }

  lemma PiSlotAgreement(slot: Slot)
    ensures ParseSlot(PiCmdline(slot)) == slot
  {
    hide ParseSlot, EntryOptions, HasSlotToken;
    NoTokenWithoutM(PI_BASE);
    TrailingNewline(PI_BASE, slot);
  }

  // -------------------------------------------------------------- the boot entry file

  const OPTIONS := "options "

  /** The entry file of a slot. */
  function EntryConf(base: string, slot: Slot): string {
    "title machined (" + slot.Id() + ")" + "\n" +
    ("linux /" + slot.Dir() + "/vmlinuz" + "\n" +
     ("initrd /" + slot.Dir() + "/initramfs.img" + "\n" +
      (OPTIONS + base + (" " + (TOKEN + slot.Id())) + "\n")))
  }

  /** What the boot loader passes on: the values of all options lines. */
  function KernelCmdline(lines: seq<string>): string {
    if lines == [] then ""
    else
      var front, l := KernelCmdline(lines[..|lines|-1]), lines[|lines|-1];
      if StartsWith(l, OPTIONS) then front + " " + l[|OPTIONS|..] else front
  }

  function Words(lines: seq<string>): seq<string> {
    if lines == [] then []
    else
      var front, l := Words(lines[..|lines|-1]), lines[|lines|-1];
      if StartsWith(l, OPTIONS) then front + SplitWhitespace(l[|OPTIONS|..]) else front
  }

  lemma {:induction false} CmdlineWords(lines: seq<string>)
    ensures SplitWhitespace(KernelCmdline(lines)) == Words(lines)
  {
    hide SplitWhitespace, StartsWith;
    if lines != [] {
      CmdlineWords(lines[..|lines|-1]);
      var l := lines[|lines|-1];
      if StartsWith(l, OPTIONS) {
        assert |OPTIONS| <= |l| by { Prefixed(l, OPTIONS); }
        SplitAt(KernelCmdline(lines[..|lines|-1]), ' ', l[|OPTIONS|..]);
      }
    } else {
      NoWords();
    }
  }

  lemma Prefixed(s: string, p: string)
    requires StartsWith(s, p)
    ensures |p| <= |s|
  {
  }

  lemma NoWords()
    ensures SplitWhitespace("") == []
  {
  }

  /** The line the slot token lands on. */
  function TokenLine(base: string): string {
    AfterLast(OPTIONS + base, '\n')
  }

  /** The lines before it. */
  function LinesBefore(base: string): seq<string> {
    var s := OPTIONS + base;
    AfterLastFits(s, '\n');
    Lines(s[..|s| - |TokenLine(base)|])
  }

  lemma {:induction false} AfterLastFits(s: string, c: char)
    ensures |AfterLast(s, c)| <= |s| && s[|s| - |AfterLast(s, c)|..] == AfterLast(s, c) && c !in AfterLast(s, c)
    decreases |s|
  {
    var n := IndexOf(s, c);
    if n < |s| {
      AfterLastFits(s[n+1..], c);
    }
  }

  /** The words of the base that reach the kernel. */
  function BaseWords(base: string): seq<string> {
    Words(LinesBefore(base)) +
    if |TokenLine(base)| >= |OPTIONS| then SplitWhitespace(TokenLine(base)[|OPTIONS|..]) else []
  }

  /**
   The appended token reaches the daemon and is the first: the line it lands on is an options
   line, and the words before it name no slot.
   */
  ghost predicate TokenReaches(base: string) {
    StartsWith(TokenLine(base) + " ", OPTIONS) && !NamesSlot(BaseWords(base))
  }

  /** Text with a tail on its last line. */
  lemma {:induction false} LinesWithTail(s: string, t: string)
    requires '\n' !in t && t != [] && t[|t|-1] != '\r'
    ensures |AfterLast(s, '\n')| <= |s|
    ensures Lines(s + t + "\n") == Lines(s[..|s| - |AfterLast(s, '\n')|]) + [AfterLast(s, '\n') + t]
    decreases |s|
  {
    hide Lines, AfterLast;
    var n, last := IndexOf(s, '\n'), AfterLast(s, '\n');
    AfterLastFits(s, '\n');
    AfterFirst(s, '\n');
    if n == |s| {
      OneLineWithTail(s, t);
      assert s[..0] == "";
    } else {
      var a, rest := s[..n], s[n+1..];
      LinesWithTail(rest, t);
      AfterLastFits(rest, '\n');
      var init := rest[..|rest| - |last|];
      assert s == a + "\n" + rest;
      assert s[..|s| - |last|] == a + "\n" + init;
      assert s + t + "\n" == a + "\n" + (rest + t + "\n");
      LinesCons(a, init);
      LinesCons(a, rest + t + "\n");
    }
  }

  lemma OneLineWithTail(s: string, t: string)
    requires '\n' !in s && '\n' !in t && t != [] && t[|t|-1] != '\r'
    ensures Lines(s + t + "\n") == Lines("") + [s + t]
  {
    var l := s + t;
    assert '\n' !in l && l[|l|-1] != '\r';
    LinesCons(l, "");
    assert l + "\n" + "" == s + t + "\n";
  }

  lemma {:induction false} WordsConcat(a: seq<string>, b: seq<string>)
    ensures Words(a + b) == Words(a) + Words(b)
    decreases |b|
  {
    hide SplitWhitespace, StartsWith;
    if b == [] {
      assert a + b == a;
    } else {
      assert (a + b)[..|a + b| - 1] == a + b[..|b|-1];
      WordsConcat(a, b[..|b|-1]);
    }
  }

  /** A space decides: what follows it cannot complete the keyword. */
  lemma OptionsKeyword(l: string, x: string)
    requires x != [] && x[0] == 'm'
    ensures StartsWith(l + (" " + x), OPTIONS) <==> StartsWith(l + " ", OPTIONS)
  {
    var (a, b) := (l + (" " + x), l + " ");
    assert forall i | 0 <= i < |b| :: a[i] == b[i];
    assert OPTIONS[0] != ' ' && OPTIONS[1] != ' ' && OPTIONS[2] != ' ' && OPTIONS[3] != ' ';
    assert OPTIONS[4] != ' ' && OPTIONS[5] != ' ' && OPTIONS[6] != ' ';
    if |b| >= |OPTIONS| {
      assert a[..|OPTIONS|] == b[..|OPTIONS|];
    }
  }

  lemma LastLineWords(l: string, slot: Slot)
    ensures Words([l + (" " + (TOKEN + slot.Id()))]) ==
            if StartsWith(l + " ", OPTIONS)
            then (if |l| >= |OPTIONS| then SplitWhitespace(l[|OPTIONS|..]) else []) + [TOKEN + slot.Id()]
            else []
  {
    hide SplitWhitespace;
    var tok := TOKEN + slot.Id();
    var line: string := l + (" " + tok);
    var lines := [line];
    assert lines[..0] == [];
    assert tok[0] == TOKEN[0] == 'm';
    OptionsKeyword(l, tok);
    TokenNamesSlot(slot);
    if StartsWith(l + " ", OPTIONS) {
      if |l| >= |OPTIONS| {
        assert line[|OPTIONS|..] == l[|OPTIONS|..] + [' '] + tok;
        SplitAt(l[|OPTIONS|..], ' ', tok);
      } else {
        assert |l| == |OPTIONS| - 1 && line[|OPTIONS|..] == tok;
      }
    }
  }

  /** The entry file line by line: three lines about the slot, then the options with the base in them. */
  lemma EntryLines(base: string, slot: Slot)
    ensures Lines(EntryConf(base, slot)) ==
            ["title machined (" + slot.Id() + ")", "linux /" + slot.Dir() + "/vmlinuz", "initrd /" + slot.Dir() + "/initramfs.img"]
            + Lines(OPTIONS + base + (" " + (TOKEN + slot.Id())) + "\n")
  {
    hide Lines;
    var tail := OPTIONS + base + (" " + (TOKEN + slot.Id())) + "\n";
    var (l1, l2, l3) := ("title machined (" + slot.Id() + ")", "linux /" + slot.Dir() + "/vmlinuz", "initrd /" + slot.Dir() + "/initramfs.img");
    LinesCons(l1, l2 + "\n" + (l3 + "\n" + tail));
    LinesCons(l2, l3 + "\n" + tail);
    LinesCons(l3, tail);
    assert EntryConf(base, slot) == l1 + "\n" + (l2 + "\n" + (l3 + "\n" + tail));
    assert StripCr(l1) == l1 && StripCr(l2) == l2 && StripCr(l3) == l3;
    assert [l1] + ([l2] + ([l3] + Lines(tail))) == [l1, l2, l3] + Lines(tail);
  }

  /** The three lines before the options carry none. */
  lemma HeadLines(base: string, slot: Slot)
    ensures Words(Lines(EntryConf(base, slot))) == Words(Lines(OPTIONS + base + (" " + (TOKEN + slot.Id())) + "\n"))
  {
    hide SplitWhitespace, Lines, EntryConf;
    EntryLines(base, slot);
    var head := ["title machined (" + slot.Id() + ")", "linux /" + slot.Dir() + "/vmlinuz", "initrd /" + slot.Dir() + "/initramfs.img"];
    WordsConcat(head, Lines(OPTIONS + base + (" " + (TOKEN + slot.Id())) + "\n"));
    NoOptions(head);
  }

  /** Whatever the base, an entry file begins by naming the slot's own kernel and initramfs. */
  lemma EntryHead(base: string, slot: Slot)
    ensures var lines := Lines(EntryConf(base, slot));
      && |lines| >= 3
      && lines[1] == (if slot == A then "linux /A/vmlinuz" else "linux /B/vmlinuz")
      && lines[2] == if slot == A then "initrd /A/initramfs.img" else "initrd /B/initramfs.img"
  {
    hide Lines, EntryConf;
    EntryLines(base, slot);
    assert "linux /" + slot.Dir() + "/vmlinuz" == if slot == A then "linux /A/vmlinuz" else "linux /B/vmlinuz";
  }

  lemma {:induction false} NoOptions(lines: seq<string>)
    requires forall i | 0 <= i < |lines| :: lines[i] != [] && lines[i][0] != 'o'
    ensures Words(lines) == []
  {
    hide SplitWhitespace;
    if lines != [] {
      NoOptions(lines[..|lines|-1]);
      var l := lines[|lines|-1];
      if |l| >= |OPTIONS| { assert l[..|OPTIONS|][0] != OPTIONS[0]; }
    }
  }

  lemma TailWords(base: string, t: string)
    requires '\n' !in t && t != [] && t[|t|-1] != '\r'
    ensures Words(Lines(OPTIONS + base + t + "\n")) == Words(LinesBefore(base)) + Words([TokenLine(base) + t])
  {
    hide Lines, AfterLast, Words;
    LinesWithTail(OPTIONS + base, t);
    WordsConcat(LinesBefore(base), [TokenLine(base) + t]);
  }

  lemma EntryWords(base: string, slot: Slot)
    ensures Words(Lines(EntryConf(base, slot))) ==
            if StartsWith(TokenLine(base) + " ", OPTIONS) then BaseWords(base) + [TOKEN + slot.Id()] else Words(LinesBefore(base))
  {
    hide SplitWhitespace, Lines, StartsWith, EntryConf, Words, TokenLine, LinesBefore;
    HeadLines(base, slot);
    TokenTail(slot);
    TailWords(base, " " + (TOKEN + slot.Id()));
    LastLineWords(TokenLine(base), slot);
  }

  lemma TokenTail(slot: Slot)
    ensures var t := " " + (TOKEN + slot.Id()); '\n' !in t && t != [] && t[|t|-1] != '\r'
  {
  }

  /** The slot a daemon booted through this entry believes it runs. */
  function EntrySlot(base: string, slot: Slot): Slot {
    ParseSlot(KernelCmdline(Lines(EntryConf(base, slot))))
  }

  /** A token that does not reach the daemon first leaves it with one belief for both slots. */
  lemma ParsedSlot(base: string, slot: Slot)
    ensures EntrySlot(base, slot) ==
            if TokenReaches(base) then slot
            else SlotOf(if StartsWith(TokenLine(base) + " ", OPTIONS) then BaseWords(base) else Words(LinesBefore(base)))
  {
    hide SplitWhitespace, Lines, SlotOf, EntryConf, StartsWith, TokenLine, BaseWords, LinesBefore;
    CmdlineWords(Lines(EntryConf(base, slot)));
    EntryWords(base, slot);
    ParsedWords(BaseWords(base), slot);
  }

  /** The daemon reads back the slot the imager wrote, for both slots, iff the token reaches it first. */
  lemma SlotAgreement(base: string)
    ensures TokenReaches(base) <==> forall slot: Slot :: EntrySlot(base, slot) == slot
  {
    hide EntrySlot, TokenReaches, SlotOf;
    ParsedSlot(base, A);
    ParsedSlot(base, B);
    forall slot: Slot | TokenReaches(base) ensures EntrySlot(base, slot) == slot {
      ParsedSlot(base, slot);
    }
  }

  /** For a base on one line: iff it carries no slot token. */
  lemma OneLineBase(base: string)
    requires '\n' !in base
    ensures TokenReaches(base) <==> !HasSlotToken(base)
  {
    hide SplitWhitespace, NamesSlot;
    var s := OPTIONS + base;
    assert '\n' !in s;
    IndexOfMissing(s, '\n');
    assert TokenLine(base) == s && s[..0] == [] && LinesBefore(base) == [];
    assert (s + " ")[..|OPTIONS|] == OPTIONS && s[|OPTIONS|..] == base;
    assert BaseWords(base) == [] + SplitWhitespace(base) == SplitWhitespace(base);
  }

  /** A base broken over two lines loses the token, unless its last line is an options line too. */
  lemma BrokenBaseLosesToken(a: string, b: string)
    requires '\n' !in b && !StartsWith(b + " ", OPTIONS)
    ensures !TokenReaches(a + "\n" + b)
  {
    hide AfterLast, StartsWith;
    assert OPTIONS + (a + "\n" + b) == (OPTIONS + a) + "\n" + b;
    AfterLastOf(OPTIONS + a, '\n', b);
    assert (OPTIONS + a) + "\n" + b == (OPTIONS + a) + ['\n'] + b;
  }

  // ------------------------------------------------------------- os_prefix rewrite

  const OS_PREFIX := "os_prefix="

  predicate IsPointer(line: string) {
    StartsWith(TrimStart(line), OS_PREFIX)
  }

  function PointerLine(slot: Slot): string {
    OS_PREFIX + slot.Dir() + "/"
  }

  function RewriteLine(line: string, slot: Slot): string {
    if IsPointer(line) then PointerLine(slot) else line
  }

  function RewriteLines(lines: seq<string>, slot: Slot): (r: seq<string>)
    ensures |r| == |lines| && forall i | 0 <= i < |lines| :: r[i] == RewriteLine(lines[i], slot)
  {
    if lines == [] then [] else RewriteLines(lines[..|lines|-1], slot) + [RewriteLine(lines[|lines|-1], slot)]
  }

  /** Every line followed by a newline. */
  function Unlines(lines: seq<string>): string {
    if lines == [] then "" else Unlines(lines[..|lines|-1]) + lines[|lines|-1] + "\n"
  }

  ghost predicate HasPointer(lines: seq<string>) {
    exists i :: 0 <= i < |lines| && IsPointer(lines[i])
  }

  lemma RewriteStep(lines: seq<string>, i: nat, slot: Slot)
    requires i < |lines|
    ensures Unlines(RewriteLines(lines[..i+1], slot)) ==
            Unlines(RewriteLines(lines[..i], slot)) + RewriteLine(lines[i], slot) + "\n"
  {
    hide RewriteLine;
    assert lines[..i+1][..i] == lines[..i];
    var r := RewriteLines(lines[..i+1], slot);
    assert r[..i] == RewriteLines(lines[..i], slot);
  }

  /** Replace every pointer line, keep every other line and the order; fail when there is none. */
  method RewriteOsPrefix(config: string, slot: Slot) returns (r: Option<string>)
    ensures r.Some? <==> HasPointer(Lines(config))
    ensures r.Some? ==> r.value == Unlines(RewriteLines(Lines(config), slot))
    ensures r.Some? ==> ValueOf(Lines(r.value), "os_prefix=") == Some(if slot == A then "A/" else "B/")
    ensures r.Some? ==> ("os_prefix=A/" in Lines(r.value) <==> slot == A) && ("os_prefix=B/" in Lines(r.value) <==> slot == B)
  {
    hide IsPointer, PointerLine, Lines, RewriteLines, Unlines, ValueOf;
    var lines := Lines(config);
    var found := false;
    var out := "";
    assert out == Unlines(RewriteLines(lines[..0], slot)) by { RewriteNothing(slot); }
    var i := 0;
    while i < |lines|
      invariant 0 <= i <= |lines|
      invariant found <==> exists j :: 0 <= j < i && IsPointer(lines[j])
      invariant out == Unlines(RewriteLines(lines[..i], slot))
    {
      RewriteStep(lines, i, slot);
      if IsPointer(lines[i]) {
        out := out + PointerLine(slot);
        found := true;
      } else {
        out := out + lines[i];
      }
      out := out + "\n";
      i := i + 1;
    }
    assert lines[..i] == lines;
    r := if found then Some(out) else None;
    if found {
      FlipSelects(config, slot);
    }
  }

  lemma RewriteNothing(slot: Slot)
    ensures Unlines(RewriteLines([], slot)) == ""
  {
  }

  // ------------------------------------------------- reading a rewritten file back

  lemma {:induction false} UnlinesCons(l: string, ls: seq<string>)
    ensures Unlines([l] + ls) == l + "\n" + Unlines(ls)
  {
    if ls == [] {
      assert ([l] + ls)[..0] == [];
    } else {
      var front, last := ls[..|ls|-1], ls[|ls|-1];
      assert ([l] + ls)[..|ls|] == [l] + front;
      UnlinesCons(l, front);
    }
  }

  function StripAll(ls: seq<string>): (r: seq<string>)
    ensures |r| == |ls| && forall i | 0 <= i < |ls| :: r[i] == StripCr(ls[i])
  {
    if ls == [] then [] else [StripCr(ls[0])] + StripAll(ls[1..])
  }

  /** Reading back newline-terminated lines costs each of them one trailing carriage return. */
  lemma {:induction false} LinesOfUnlines(ls: seq<string>)
    requires forall i | 0 <= i < |ls| :: '\n' !in ls[i]
    ensures Lines(Unlines(ls)) == StripAll(ls)
    decreases |ls|
  {
    hide StripCr;
    if ls != [] {
      var l, rest := ls[0], ls[1..];
      assert ls == [l] + rest;
      UnlinesCons(l, rest);
      var text := l + ['\n'] + Unlines(rest);
      assert Unlines(ls) == text;
      IndexOfFirst(l, '\n', Unlines(rest));
      assert text[..|l|] == l && text[|l|+1..] == Unlines(rest);
      LinesOfUnlines(rest);
    }
  }

  lemma {:induction false} LinesHaveNoNewline(s: string)
    ensures forall l | l in Lines(s) :: '\n' !in l
    decreases |s|
  {
    if s != [] {
      var n := IndexOf(s, '\n');
      if n < |s| {
        LinesHaveNoNewline(s[n+1..]);
        assert '\n' !in s[..n];
        assert '\n' !in StripCr(s[..n]);
      } else {
        assert '\n' !in s;
      }
    }
  }

  /** A line kept by the rewrite that still ends in a carriage return. */
  predicate Frays(line: string) {
    !IsPointer(line) && line != [] && line[|line|-1] == '\r'
  }

  lemma PointerLineShape(slot: Slot)
    ensures IsPointer(PointerLine(slot)) && '\n' !in PointerLine(slot) && StripCr(PointerLine(slot)) == PointerLine(slot)
  {
  }

  /** The file after a successful flip. */
  function Rewritten(config: string, slot: Slot): string {
    Unlines(RewriteLines(Lines(config), slot))
  }

  lemma RewrittenLines(config: string, slot: Slot)
    ensures Lines(Rewritten(config, slot)) == StripAll(RewriteLines(Lines(config), slot))
  {
    hide Lines, Unlines;
    LinesHaveNoNewline(config);
    PointerLineShape(slot);
    var ls := RewriteLines(Lines(config), slot);
    forall i | 0 <= i < |ls| ensures '\n' !in ls[i] {
      assert Lines(config)[i] in Lines(config);
    }
    LinesOfUnlines(ls);
  }

  /**
   The flipped file has the same lines with every pointer line naming the slot, if and only
   if no kept line still ends in a carriage return.
   */
  lemma FlipChangesOnlyPointers(config: string, slot: Slot)
    ensures Lines(Rewritten(config, slot)) == RewriteLines(Lines(config), slot) <==>
            forall l | l in Lines(config) :: !Frays(l)
  {
    hide Lines, Unlines, IsPointer, PointerLine, StripCr, Frays;
    RewrittenLines(config, slot);
    PointerLineShape(slot);
    StripFixesIffNoFray(Lines(config), RewriteLines(Lines(config), slot), PointerLine(slot));
  }

  lemma StripFixesIffNoFray(ls: seq<string>, out: seq<string>, pointer: string)
    requires |out| == |ls| && StripCr(pointer) == pointer
    requires forall i | 0 <= i < |ls| :: out[i] == if IsPointer(ls[i]) then pointer else ls[i]
    ensures StripAll(out) == out <==> forall l | l in ls :: !Frays(l)
  {
    hide IsPointer;
    if l :| l in ls && Frays(l) {
      var i :| 0 <= i < |ls| && ls[i] == l;
      assert StripAll(out)[i] == StripCr(l) != out[i];
    } else {
      forall i | 0 <= i < |ls| ensures StripCr(out[i]) == out[i] {
        assert !Frays(ls[i]);
      }
      assert StripAll(out) == out;
    }
  }

  lemma {:induction false} TrimStartSnoc(m: string, c: char)
    requires TrimStart(m) != []
    ensures TrimStart(m + [c]) == TrimStart(m) + [c]
  {
    hide IsWhitespace;
    if IsWhitespace(m[0]) {
      assert (m + [c])[1..] == m[1..] + [c];
      TrimStartSnoc(m[1..], c);
    }
  }

  lemma StripKeepsPlain(l: string)
    requires !IsPointer(l)
    ensures !IsPointer(StripCr(l))
  {
    var m := StripCr(l);
    if m != l && IsPointer(m) {
      assert l == m + ['\r'];
      TrimStartSnoc(m, '\r');
    }
  }

  lemma {:induction false} ShorterLines(a: seq<string>, b: seq<string>, i: nat)
    requires |a| == |b| && (forall j | 0 <= j < |a| :: |a[j]| <= |b[j]|)
    requires i < |a| ==> |a[i]| < |b[i]|
    ensures |Unlines(a)| <= |Unlines(b)| && (i < |a| ==> |Unlines(a)| < |Unlines(b)|)
  {
    if a != [] {
      ShorterLines(a[..|a|-1], b[..|b|-1], i);
    }
  }

  /** What the second of two flips writes, line by line. */
  lemma SecondFlip(config: string, s1: Slot, s2: Slot, i: nat)
    requires i < |Lines(config)|
    ensures var l := Lines(config)[i];
      |Lines(Rewritten(config, s1))| == |Lines(config)| &&
      RewriteLine(Lines(Rewritten(config, s1))[i], s2) == if IsPointer(l) then PointerLine(s2) else StripCr(l)
  {
    hide Lines, Unlines;
    RewrittenLines(config, s1);
    PointerLineShape(s1);
    var l := Lines(config)[i];
    if !IsPointer(l) { StripKeepsPlain(l); }
  }

  lemma SameTextIffNoFray(ls: seq<string>, once: seq<string>, twice: seq<string>, pointer: string)
    requires |once| == |ls| == |twice|
    requires forall i | 0 <= i < |ls| :: once[i] == if IsPointer(ls[i]) then pointer else ls[i]
    requires forall i | 0 <= i < |ls| :: twice[i] == if IsPointer(ls[i]) then pointer else StripCr(ls[i])
    ensures Unlines(twice) == Unlines(once) <==> forall l | l in ls :: !Frays(l)
  {
    hide Unlines, IsPointer;
    if l :| l in ls && Frays(l) {
      var i :| 0 <= i < |ls| && ls[i] == l;
      ShorterLines(twice, once, i);
    } else {
      forall i | 0 <= i < |ls| ensures twice[i] == once[i] {
        assert !Frays(ls[i]);
      }
      assert twice == once;
    }
  }

  /** The last of two flips wins, if and only if no kept line still ends in a carriage return. */
  lemma LastFlipWins(config: string, s1: Slot, s2: Slot)
    ensures Rewritten(Rewritten(config, s1), s2) == Rewritten(config, s2) <==>
            forall l | l in Lines(config) :: !Frays(l)
  {
    hide Lines, Unlines, IsPointer, PointerLine, StripCr, Frays;
    var ls, read := Lines(config), Lines(Rewritten(config, s1));
    RewrittenLines(config, s1);
    var once, twice := RewriteLines(ls, s2), RewriteLines(read, s2);
    forall i | 0 <= i < |ls|
      ensures twice[i] == if IsPointer(ls[i]) then PointerLine(s2) else StripCr(ls[i])
    {
      SecondFlip(config, s1, s2, i);
    }
    SameTextIffNoFray(ls, once, twice, PointerLine(s2));
  }

  /** At a line with two carriage returns, of which reading takes one, both properties fail. */
  lemma DoubledCrIsLost(slot: Slot)
    ensures var config := "os_prefix=A/\nk=v\r\r\n";
      && Lines(Rewritten(config, slot)) != RewriteLines(Lines(config), slot)
      && Rewritten(Rewritten(config, slot.Other()), slot) != Rewritten(config, slot)
  {
    hide Rewritten, Lines, RewriteLines, RewriteLine;
    var first, second := "os_prefix=A/", "k=v\r\r";
    var config := first + "\n" + (second + "\n" + "");
    assert config == "os_prefix=A/\nk=v\r\r\n";
    LinesCons(first, second + "\n" + "");
    LinesCons(second, "");
    assert StripCr(second) in Lines(config) && Frays(StripCr(second));
    FlipChangesOnlyPointers(config, slot);
    LastFlipWins(config, slot.Other(), slot);
  }

  /** Text without carriage returns never frays. */
  lemma PlainTextNeverFrays(config: string)
    requires '\r' !in config
    ensures forall l | l in Lines(config) :: !Frays(l)
  {
  }

  /** Newline-terminated text without carriage returns is exactly its lines. */
  lemma {:induction false} UnlinesOfLines(config: string)
    requires '\r' !in config && (config == [] || config[|config|-1] == '\n')
    ensures Unlines(Lines(config)) == config
    decreases |config|
  {
    if config != [] {
      var n := IndexOf(config, '\n');
      var l, rest := config[..n], config[n+1..];
      assert config == l + "\n" + rest;
      UnlinesOfLines(rest);
      assert StripCr(l) == l;
      UnlinesCons(l, Lines(rest));
    }
  }

  /** Every pointer line names the slot the way the imager and the rewrite write it. */
  ghost predicate Names(config: string, slot: Slot) {
    forall l | l in Lines(config) && IsPointer(l) :: l == PointerLine(slot)
  }

  /** After a flip every pointer line names the slot, and there still is one. */
  lemma FlipNames(config: string, slot: Slot)
    ensures Names(Rewritten(config, slot), slot)
    ensures HasPointer(Lines(config)) <==> HasPointer(Lines(Rewritten(config, slot)))
  {
    hide Lines, Unlines, IsPointer, PointerLine, StripCr;
    var ls, read := Lines(config), Lines(Rewritten(config, slot));
    RewrittenLines(config, slot);
    PointerLineShape(slot);
    forall i | 0 <= i < |ls|
      ensures read[i] == if IsPointer(ls[i]) then PointerLine(slot) else StripCr(ls[i])
      ensures IsPointer(read[i]) <==> IsPointer(ls[i])
    {
      if !IsPointer(ls[i]) { StripKeepsPlain(ls[i]); }
    }
  }

  /** What a boot loader reads: the text after `key` on the last line that starts with it. */
  function ValueOf(lines: seq<string>, key: string): Option<string> {
    if lines == [] then None
    else
      var l := TrimStart(lines[|lines|-1]);
      if StartsWith(l, key) then Some(l[|key|..]) else ValueOf(lines[..|lines|-1], key)
  }

  /** When all pointer lines are the same, their value is what is read. */
  lemma {:induction false} PointerValue(lines: seq<string>, pointer: string)
    requires forall i | 0 <= i < |lines| && IsPointer(lines[i]) :: lines[i] == pointer
    requires HasPointer(lines) && TrimStart(pointer) == pointer
    ensures ValueOf(lines, "os_prefix=") == Some(pointer[|OS_PREFIX|..])
  {
    hide TrimStart;
    var i :| 0 <= i < |lines| && IsPointer(lines[i]);
    var front := lines[..|lines|-1];
    if !IsPointer(lines[|lines|-1]) {
      assert front[i] == lines[i];
      PointerValue(front, pointer);
    }
  }

  lemma PointerText(slot: Slot)
    ensures PointerLine(slot) == (if slot == A then "os_prefix=A/" else "os_prefix=B/") && TrimStart(PointerLine(slot)) == PointerLine(slot)
    ensures PointerLine(slot)[|OS_PREFIX|..] == if slot == A then "A/" else "B/"
    ensures IsPointer("os_prefix=A/") && IsPointer("os_prefix=B/") && "os_prefix=A/" != "os_prefix=B/"
  {
    assert "os_prefix=A/"[|OS_PREFIX|] != "os_prefix=B/"[|OS_PREFIX|];
    assert "os_prefix=A/"[..|OS_PREFIX|] == OS_PREFIX == "os_prefix=B/"[..|OS_PREFIX|];
  }

  /** After a flip the firmware loads from the slot's directory, and the file has the slot's line and not the other's. */
  lemma FlipSelects(config: string, slot: Slot)
    requires HasPointer(Lines(config))
    ensures var lines := Lines(Rewritten(config, slot));
      && ValueOf(lines, "os_prefix=") == Some(if slot == A then "A/" else "B/")
      && ("os_prefix=A/" in lines <==> slot == A) && ("os_prefix=B/" in lines <==> slot == B)
  {
    hide Lines, Rewritten, IsPointer, PointerLine, TrimStart, ValueOf;
    FlipNames(config, slot);
    PointerText(slot);
    var lines := Lines(Rewritten(config, slot));
    PointerValue(lines, PointerLine(slot));
  }

  /**
   Byte for byte: on text without carriage returns a flip changes nothing iff the text is
   newline-terminated and every pointer line already names the slot.
   */
  lemma FlipIsIdentityIff(config: string, slot: Slot)
    requires '\r' !in config
    ensures Rewritten(config, slot) == config <==> (config == [] || config[|config|-1] == '\n') && Names(config, slot)
  {
    hide Lines, IsPointer, PointerLine;
    if Rewritten(config, slot) == config {
      FlipNames(config, slot);
    }
    if (config == [] || config[|config|-1] == '\n') && Names(config, slot) {
      var ls := Lines(config);
      assert RewriteLines(ls, slot) == ls;
      UnlinesOfLines(config);
    }
  }

  /** Flipping to the other slot and back restores such a file byte for byte. */
  lemma FlipBackRestores(config: string, slot: Slot)
    requires '\r' !in config && (config == [] || config[|config|-1] == '\n') && Names(config, slot)
    ensures Rewritten(Rewritten(config, slot.Other()), slot) == config
  {
    hide Rewritten, Lines, Frays, Names;
    PlainTextNeverFrays(config);
    LastFlipWins(config, slot.Other(), slot);
    FlipIsIdentityIff(config, slot);
  }

  /** A file written line by line that names the slot can be flipped, and flipping there and back restores it. */
  lemma WrittenFileFlips(lines: seq<string>, slot: Slot)
    requires forall i | 0 <= i < |lines| :: '\n' !in lines[i] && StripCr(lines[i]) == lines[i]
    requires forall i | 0 <= i < |lines| :: IsPointer(lines[i]) ==> lines[i] == PointerLine(slot)
    requires HasPointer(lines)
    ensures var config := Unlines(lines);
      && Names(config, slot) && HasPointer(Lines(config))
      && Rewritten(Rewritten(config, slot.Other()), slot) == config
  {
    hide Lines, Unlines, IsPointer, PointerLine, HasPointer, StripAll, RewriteLines;
    LinesOfUnlines(lines);
    assert StripAll(lines) == lines;
    assert RewriteLines(lines, slot) == lines;
    LastFlipWins(Unlines(lines), slot.Other(), slot);
  }

  /** The lines of the imager's config.txt, each followed by a newline there. */
  const PI_CONFIG: seq<string> := [
    "arm_64bit=1", "os_prefix=A/", "kernel=vmlinuz", "initramfs initramfs.img followkernel",
    "gpu_mem=16", "enable_uart=1", "dtoverlay=disable-bt", "device_tree=bcm2837-rpi-3-a-plus.dtb"
  ]

  lemma PiConfigPrefix(i: nat)
    requires i < 4
    ensures '\n' !in PI_CONFIG[i] && StripCr(PI_CONFIG[i]) == PI_CONFIG[i]
  {
  }

  lemma PiConfigSuffix(i: nat)
    requires 4 <= i < |PI_CONFIG|
    ensures '\n' !in PI_CONFIG[i] && StripCr(PI_CONFIG[i]) == PI_CONFIG[i]
  {
  }

  lemma PiConfigPointer(i: nat)
    requires i < |PI_CONFIG|
    ensures IsPointer(PI_CONFIG[i]) ==> PI_CONFIG[i] == PointerLine(A)
  {
    var l := PI_CONFIG[i];
    assert !IsWhitespace(l[0]) && (l[0] == 'o' ==> l == PI_CONFIG[1]);
  }

  /** The imager's file names slot A and can be flipped to B and back. */
  lemma PiConfigNamesA()
    ensures var config := Unlines(PI_CONFIG);
      && Names(config, A) && HasPointer(Lines(config))
      && Rewritten(Rewritten(config, B), A) == config
  {
    hide Lines, Unlines, Names, Rewritten, StripCr;
    assert IsPointer(PI_CONFIG[1]);
    hide IsPointer, PointerLine;
    forall i | 0 <= i < |PI_CONFIG|
      ensures '\n' !in PI_CONFIG[i] && StripCr(PI_CONFIG[i]) == PI_CONFIG[i]
      ensures IsPointer(PI_CONFIG[i]) ==> PI_CONFIG[i] == PointerLine(A)
    {
      if i < 4 { PiConfigPrefix(i); } else { PiConfigSuffix(i); }
      PiConfigPointer(i);
    }
    WrittenFileFlips(PI_CONFIG, A);
  }
}
