/**
 The cpio "newc" (070701) archive writer, and the reader that the format's description
 prescribes: a 110-byte header of 13 eight-digit hex fields, the NUL-terminated name padded
 so that header and name fill a multiple of four, then the data padded to a multiple of four.
 */
module Cpio {
  import opened Resources

  type Byte = x: int | 0 <= x < 256

  const TWO32: nat := 0x1_0000_0000

  type U32 = x: int | 0 <= x < 0x1_0000_0000

  const MAGIC: seq<Byte> := [48, 55, 48, 55, 48, 49]

  const TRAILER: seq<Byte> := [84, 82, 65, 73, 76, 69, 82, 33, 33, 33]

  datatype Entry = Entry(name: seq<Byte>, mode: U32, rmajor: U32, rminor: U32, data: seq<Byte>)

  /** An archived entry with its inode number. */
  datatype Record = Record(ino: nat, entry: Entry)

  // -------------------------------------------------------------- hex fields

  function Digit(n: nat): Byte
    requires n < 16
  {
    if n < 10 then 48 + n else 55 + n
  }

  function HexDigits(v: nat, n: nat): (r: seq<Byte>)
    ensures |r| == n
  {
    if n == 0 then [] else HexDigits(v / 16, n - 1) + [Digit(v % 16)]
  }

  function Pow16(n: nat): nat {
    if n == 0 then 1 else 16 * Pow16(n - 1)
  }

  /** Digits of either case, as readers accept them. */
  function DigitValue(b: Byte): (r: Option<nat>)
    ensures r.Some? ==> r.value < 16
  {
    if 48 <= b <= 57 then Some(b - 48)
    else if 65 <= b <= 70 then Some(b - 55)
    else if 97 <= b <= 102 then Some(b - 87)
    else None
  }

  function ParseHex(s: seq<Byte>): Option<nat> {
    if s == [] then Some(0)
    else
      match (ParseHex(s[..|s|-1]), DigitValue(s[|s|-1]))
      case (Some(a), Some(d)) => Some(16 * a + d)
      case _ => None
  }

  lemma {:induction false} ParseHexBound(s: seq<Byte>)
    requires ParseHex(s).Some?
    ensures ParseHex(s).value < Pow16(|s|)
  {
    if s != [] {
      ParseHexBound(s[..|s|-1]);
    }
  }

  lemma {:induction false} HexRoundTrip(v: nat, n: nat)
    requires v < Pow16(n)
    ensures ParseHex(HexDigits(v, n)) == Some(v)
  {
    if n > 0 {
      HexRoundTrip(v / 16, n - 1);
      assert HexDigits(v, n)[..n-1] == HexDigits(v / 16, n - 1);
    }
  }

  lemma Pow16Of8()
    ensures Pow16(8) == TWO32
  {
  }

  function HexFields(fields: seq<nat>): (r: seq<Byte>)
    ensures |r| == 8 * |fields|
  {
    if fields == [] then [] else HexFields(fields[..|fields|-1]) + HexDigits(fields[|fields|-1], 8)
  }

  function Field(bytes: seq<Byte>, n: nat): Option<nat>
    requires 8 * n + 8 <= |bytes|
  {
    ParseHex(bytes[8 * n..8 * n + 8])
  }

  lemma {:induction false} FieldOf(fields: seq<nat>, n: nat)
    requires n < |fields| && fields[n] < TWO32
    ensures Field(HexFields(fields), n) == Some(fields[n])
  {
    var last := |fields| - 1;
    var all := HexFields(fields);
    if n == last {
      assert all[8 * n..8 * n + 8] == HexDigits(fields[n], 8);
      Pow16Of8();
      HexRoundTrip(fields[n], 8);
    } else {
      FieldOf(fields[..last], n);
      assert all[8 * n..8 * n + 8] == HexFields(fields[..last])[8 * n..8 * n + 8];
    }
  }

  // ------------------------------------------------------------------ encoding

  /** How many bytes take `n` to the next multiple of four. */
  function Padding(n: nat): (r: nat)
    ensures r < 4 && (n + r) % 4 == 0
  {
    (4 - n % 4) % 4
  }

  function Zeros(n: nat): (r: seq<Byte>)
    ensures |r| == n
  {
    if n == 0 then [] else Zeros(n - 1) + [0]
  }

  /** Some bytes padded from their own start. */
  function Padded(b: seq<Byte>): (r: seq<Byte>)
    ensures |r| == |b| + Padding(|b|) && r[..|b|] == b
  {
    b + Zeros(Padding(|b|))
  }

  /** A cast to 32 bits. */
  function Low32(n: nat): (r: nat)
    ensures r < TWO32
  {
    if n < TWO32 then n else n % TWO32
  }

  /** The 13 header fields; lengths are cut to 32 bits as the casts in the writer cut them. */
  function Fields(ino: U32, e: Entry): (r: seq<nat>)
    ensures |r| == 13 && forall i | 0 <= i < 13 :: r[i] < TWO32
  {
    [ino, e.mode, 0, 0, 1, 0, Low32(|e.data|), 0, 0, e.rmajor, e.rminor, Low32(Low32(|e.name|) + 1), 0]
  }

  function Header(ino: U32, e: Entry): (r: seq<Byte>)
    ensures |r| == 110
  {
    MAGIC + HexFields(Fields(ino, e))
  }

  /** Header and name padded together, then the data padded on its own. */
  function Frame(header: seq<Byte>, name: seq<Byte>, data: seq<Byte>): seq<Byte> {
    Padded(header + name + [0]) + Padded(data)
  }

  function EncodeEntry(ino: U32, e: Entry): seq<Byte> {
    Frame(Header(ino, e), e.name, e.data)
  }

  function EncodeAll(es: seq<Entry>, first: nat): seq<Byte> {
    if es == [] then [] else EncodeEntry(Low32(first), es[0]) + EncodeAll(es[1..], first + 1)
  }

  lemma FrameAligned(header: seq<Byte>, name: seq<Byte>, data: seq<Byte>)
    ensures |Frame(header, name, data)| % 4 == 0 && |Padded(header + name + [0])| % 4 == 0
  {
    hide Padding, Zeros, Padded;
    AlignedSum(Padded(header + name + [0]), Padded(data));
  }

  /** Entries end, and so the next one starts, at a multiple of four. */
  lemma {:induction false} EntriesAligned(es: seq<Entry>, first: nat)
    ensures |EncodeAll(es, first)| % 4 == 0
  {
    if es != [] {
      var header := Header(Low32(first), es[0]);
      FrameAligned(header, es[0].name, es[0].data);
      EntriesAligned(es[1..], first + 1);
      AlignedSum(Frame(header, es[0].name, es[0].data), EncodeAll(es[1..], first + 1));
    }
  }

  lemma AlignedSum(a: seq<Byte>, b: seq<Byte>)
    requires |a| % 4 == 0 && |b| % 4 == 0
    ensures |a + b| % 4 == 0
  {
  }

  function TrailerEntry(): Entry {
    Entry(TRAILER, 0, 0, 0, [])
  }

  function Archive(es: seq<Entry>): seq<Byte> {
    EncodeAll(es + [TrailerEntry()], 1)
  }

  lemma {:induction false} EncodeAllSnoc(es: seq<Entry>, first: nat, e: Entry)
    ensures EncodeAll(es + [e], first) == EncodeAll(es, first) + EncodeEntry(Low32(first + |es|), e)
  {
    hide EncodeEntry;
    if es == [] {
      assert EncodeAll([e], first) == EncodeEntry(Low32(first), e) + [];
    } else {
      EncodeAllSnoc(es[1..], first + 1, e);
      assert (es + [e])[1..] == es[1..] + [e];
    }
  }

  // ------------------------------------------------------------------- writer

  /** After an aligned prefix, padding the whole and padding the tail agree. */
  lemma PaddedAfter(prefix: seq<Byte>, tail: seq<Byte>)
    requires |prefix| % 4 == 0
    ensures Padded(prefix + tail) == prefix + Padded(tail)
  {
  }

  lemma NextIno(n: nat)
    ensures Low32(Low32(1 + n) + 1) == Low32(1 + (n + 1))
  {
  }

  const S_IFDIR: bv32 := 0x4000
  const S_IFCHR: bv32 := 0x2000
  const S_IFREG: bv32 := 0x8000
  const S_IFLNK: bv32 := 0xA000

  /** The file type is in the top four of sixteen bits, the permissions are below it. */
  lemma ModeBits(perm: bv32)
    requires perm < 0x1000
    ensures (S_IFDIR | perm) & 0xF000 == 0x4000 && (S_IFDIR | perm) & 0xFFF == perm && S_IFDIR | perm < 0x1_0000
    ensures (S_IFCHR | perm) & 0xF000 == 0x2000 && (S_IFCHR | perm) & 0xFFF == perm && S_IFCHR | perm < 0x1_0000
    ensures (S_IFREG | perm) & 0xF000 == 0x8000 && (S_IFREG | perm) & 0xFFF == perm && S_IFREG | perm < 0x1_0000
    ensures (S_IFLNK | perm) & 0xF000 == 0xA000 && (S_IFLNK | perm) & 0xFFF == perm && S_IFLNK | perm < 0x1_0000
  {
  }

  class CpioWriter {
    var buf: seq<Byte>
    var ino: U32
    ghost var entries: seq<Entry>

    ghost predicate Valid()
      reads this
    {
      buf == EncodeAll(entries, 1) && ino == Low32(1 + |entries|)
    }

    constructor ()
      ensures Valid() && entries == []
    {
      buf, ino, entries := [], 1, [];
    }

    /** Pad the whole buffer. */
    method Pad4()
      modifies this`buf
      ensures buf == Padded(old(buf))
    {
      ghost var n := |buf|;
      while |buf| % 4 != 0
        invariant n <= |buf| <= n + Padding(n) && buf == old(buf) + Zeros(|buf| - n)
        decreases n + Padding(n) - |buf|
      {
        buf := buf + [0];
      }
    }

    method WriteHeader(n: U32, e: Entry)
      modifies this`buf
      ensures buf == old(buf) + Header(n, e)
    {
      hide HexDigits;
      ghost var b0 := buf;
      var fields := Fields(n, e);
      buf := buf + MAGIC;
      var i := 0;
      while i < |fields|
        invariant 0 <= i <= |fields| && buf == b0 + (MAGIC + HexFields(fields[..i]))
      {
        assert fields[..i+1][..i] == fields[..i];
        buf := buf + HexDigits(fields[i], 8);
        i := i + 1;
      }
      assert fields[..i] == fields;
    }

    /** Padding the whole buffer twice is the same as padding each region from its own start. */
    method WriteEntry(n: U32, e: Entry)
      requires |buf| % 4 == 0
      modifies this`buf
      ensures buf == old(buf) + EncodeEntry(n, e)
    {
      hide Header, Padded;
      ghost var b0 := buf;
      WriteHeader(n, e);
      buf := buf + e.name;
      buf := buf + [0];
      ghost var raw := Header(n, e) + e.name + [0];
      assert buf == b0 + raw;
      PaddedAfter(b0, raw);
      Pad4();
      buf := buf + e.data;
      FrameAligned(Header(n, e), e.name, e.data);
      AlignedSum(b0, Padded(raw));
      PaddedAfter(b0 + Padded(raw), e.data);
      Pad4();
    }

    method Add(e: Entry)
      requires Valid()
      modifies this
      ensures Valid() && entries == old(entries) + [e]
    {
      hide EncodeEntry, EncodeAll, Low32;
      var n := ino;
      ino := Low32(ino + 1);
      EntriesAligned(entries, 1);
      WriteEntry(n, e);
      EncodeAllSnoc(entries, 1, e);
      NextIno(|entries|);
      entries := entries + [e];
    }

    method Dir(name: seq<Byte>, perm: bv32)
      requires Valid()
      modifies this
      ensures Valid() && entries == old(entries) + [Entry(name, (S_IFDIR | perm) as int, 0, 0, [])]
    {
      Add(Entry(name, (S_IFDIR | perm) as int, 0, 0, []));
    }

    method File(name: seq<Byte>, perm: bv32, data: seq<Byte>)
      requires Valid()
      modifies this
      ensures Valid() && entries == old(entries) + [Entry(name, (S_IFREG | perm) as int, 0, 0, data)]
    {
      Add(Entry(name, (S_IFREG | perm) as int, 0, 0, data));
    }

    method Symlink(name: seq<Byte>, target: seq<Byte>)
      requires Valid()
      modifies this
      ensures Valid() && entries == old(entries) + [Entry(name, (S_IFLNK | 0x1FF) as int, 0, 0, target)]
    {
      Add(Entry(name, (S_IFLNK | 0x1FF) as int, 0, 0, target));
    }

    method CharDevice(name: seq<Byte>, perm: bv32, major: U32, minor: U32)
      requires Valid()
      modifies this
      ensures Valid() && entries == old(entries) + [Entry(name, (S_IFCHR | perm) as int, major, minor, [])]
    {
      Add(Entry(name, (S_IFCHR | perm) as int, major, minor, []));
    }

    /** The finished archive reads back as the added entries exactly when they are encodable. */
    method Finish() returns (r: seq<Byte>)
      requires Valid()
      modifies this
      ensures r == Archive(old(entries))
      ensures Decode(r) == Some(Numbered(old(entries), 1)) <==> Encodable(old(entries))
    {
      RoundTrip(entries);
      Add(TrailerEntry());
      r := buf;
    }
  }

  // ------------------------------------------------------------------- reader

  datatype Parsed = Parsed(record: Record, rest: seq<Byte>)

  /** Read one entry from the front. */
  function DecodeOne(b: seq<Byte>): (r: Option<Parsed>)
    ensures r.Some? ==> |r.value.rest| < |b|
  {
    if |b| < 110 || b[..6] != MAGIC then None
    else
      var h := b[6..110];
      match (Field(h, 0), Field(h, 1), Field(h, 6), Field(h, 9), Field(h, 10), Field(h, 11))
      case (Some(ino), Some(mode), Some(size), Some(rmajor), Some(rminor), Some(namesize)) =>
        var dataAt := 110 + namesize + Padding(110 + namesize);
        var next := dataAt + size + Padding(size);
        if namesize == 0 || |b| < next || mode >= TWO32 || rmajor >= TWO32 || rminor >= TWO32 then None
        else
          Some(Parsed(Record(ino, Entry(b[110..109 + namesize], mode, rmajor, rminor, b[dataAt..dataAt + size])), b[next..]))
      case _ => None
  }

  /** Read entries up to the trailer. */
  function Decode(b: seq<Byte>): Option<seq<Record>>
    decreases |b|
  {
    var one := DecodeOne(b);
    if one.None? then None
    else if one.value.record.entry.name == TRAILER then Some([])
    else
      var more := Decode(one.value.rest);
      if more.None? then None else Some([one.value.record] + more.value)
  }

  function Numbered(es: seq<Entry>, first: nat): (r: seq<Record>)
    ensures |r| == |es| && forall i | 0 <= i < |es| :: r[i] == Record(first + i, es[i])
  {
    if es == [] then [] else [Record(first, es[0])] + Numbered(es[1..], first + 1)
  }

  /** The lengths fit their 32-bit fields. */
  predicate Fits(e: Entry) {
    |e.name| + 1 < TWO32 && |e.data| < TWO32
  }

  /** What the format can carry: lengths and inode numbers in 32 bits, and no entry named as the trailer. */
  ghost predicate Encodable(es: seq<Entry>) {
    |es| < TWO32 && forall e | e in es :: Fits(e) && e.name != TRAILER
  }

  lemma AfterMagic(h: seq<Byte>)
    requires |h| == 104
    ensures (MAGIC + h)[..6] == MAGIC && (MAGIC + h)[6..110] == h
  {
  }

  lemma HeaderFields(ino: U32, e: Entry)
    ensures Header(ino, e)[..6] == MAGIC
    ensures forall n | 0 <= n < 13 :: Field(Header(ino, e)[6..110], n) == Some(Fields(ino, e)[n])
  {
    var fields := Fields(ino, e);
    AfterMagic(HexFields(fields));
    forall n | 0 <= n < 13 ensures Field(HexFields(fields), n) == Some(fields[n]) {
      FieldOf(fields, n);
    }
  }

  /** Where the regions of a framed entry are. */
  lemma FrameSlices(header: seq<Byte>, name: seq<Byte>, data: seq<Byte>, rest: seq<Byte>)
    requires |header| == 110
    ensures var b, dataAt := Frame(header, name, data) + rest, 110 + |name| + 1 + Padding(110 + |name| + 1);
      && |b| == dataAt + |data| + Padding(|data|) + |rest|
      && b[..6] == header[..6] && b[6..110] == header[6..110] && b[110..110 + |name|] == name
      && b[dataAt..dataAt + |data|] == data && b[dataAt + |data| + Padding(|data|)..] == rest
  {
    var raw := header + name + [0];
    var b, dataAt := Frame(header, name, data) + rest, |Padded(raw)|;
    assert b == Padded(raw) + (Padded(data) + rest);
    assert b[..|raw|] == raw;
    assert b[dataAt..] == Padded(data) + rest;
    assert b[dataAt..dataAt + |data|] == b[dataAt..][..|data|];
  }

  lemma DecodesEntry(ino: U32, e: Entry, rest: seq<Byte>)
    requires Fits(e)
    ensures DecodeOne(EncodeEntry(ino, e) + rest) == Some(Parsed(Record(ino, e), rest))
  {
    hide Header, Frame, Padded, Fields, Field, HexFields;
    FrameSlices(Header(ino, e), e.name, e.data, rest);
    HeaderFields(ino, e);
    FieldValues(ino, e);
  }

  lemma FieldValues(ino: U32, e: Entry)
    requires Fits(e)
    ensures var f := Fields(ino, e);
      f[0] == ino && f[1] == e.mode && f[6] == |e.data| && f[9] == e.rmajor && f[10] == e.rminor && f[11] == |e.name| + 1
  {
  }

  lemma DecodeStep(b: seq<Byte>, r: Record, rest: seq<Byte>)
    requires DecodeOne(b) == Some(Parsed(r, rest))
    ensures r.entry.name == TRAILER ==> Decode(b) == Some([])
    ensures r.entry.name != TRAILER && Decode(rest).Some? ==> Decode(b) == Some([r] + Decode(rest).value)
  {
  }

  /** A reader stops at the first entry named as the trailer. */
  lemma {:induction false} DecodesToTrailer(es: seq<Entry>, stop: Entry, after: seq<Entry>, first: nat)
    requires first + |es| <= TWO32 && forall e | e in es :: Fits(e) && e.name != TRAILER
    requires Fits(stop) && stop.name == TRAILER
    ensures Decode(EncodeAll(es + [stop] + after, first)) == Some(Numbered(es, first))
    decreases |es|
  {
    hide EncodeEntry, DecodeOne, Decode;
    var all := es + [stop] + after;
    var rest := EncodeAll(all[1..], first + 1);
    DecodesEntry(Low32(first), all[0], rest);
    DecodeStep(EncodeEntry(Low32(first), all[0]) + rest, Record(Low32(first), all[0]), rest);
    if es != [] {
      assert all[1..] == es[1..] + [stop] + after;
      DecodesToTrailer(es[1..], stop, after, first + 1);
    }
  }

  predicate Bounded(r: Record) {
    r.ino < TWO32 && Fits(r.entry)
  }

  lemma OneIsBounded(b: seq<Byte>)
    requires DecodeOne(b).Some?
    ensures Bounded(DecodeOne(b).value.record)
  {
    var h := b[6..110];
    Pow16Of8();
    ParseHexBound(h[0..8]);
    ParseHexBound(h[48..56]);
    ParseHexBound(h[88..96]);
  }

  /** Whatever a reader returns fits the 32-bit fields and is not the trailer. */
  lemma {:induction false} DecodedIsBounded(b: seq<Byte>)
    requires Decode(b).Some?
    ensures forall r | r in Decode(b).value :: Bounded(r) && r.entry.name != TRAILER
    decreases |b|
  {
    OneIsBounded(b);
    var one := DecodeOne(b).value;
    if one.record.entry.name != TRAILER {
      DecodedIsBounded(one.rest);
      DecodeStep(b, one.record, one.rest);
    }
  }

  /** The round trip holds for exactly the encodable entries. */
  lemma RoundTrip(es: seq<Entry>)
    ensures Decode(Archive(es)) == Some(Numbered(es, 1)) <==> Encodable(es)
  {
    if Encodable(es) {
      assert es + [TrailerEntry()] + [] == es + [TrailerEntry()];
      DecodesToTrailer(es, TrailerEntry(), [], 1);
    }
    if Decode(Archive(es)) == Some(Numbered(es, 1)) {
      DecodedIsBounded(Archive(es));
      var rs := Numbered(es, 1);
      forall e | e in es ensures Fits(e) && e.name != TRAILER {
        var i :| 0 <= i < |es| && es[i] == e;
        assert rs[i] in rs && rs[i].entry == e;
      }
      if es != [] {
        assert rs[|es|-1] in rs && rs[|es|-1].ino == |es|;
      }
    }
  }

  /** An entry named as the trailer is lost, with all that follow it. */
  lemma TrailerNameCuts(es: seq<Entry>, stop: Entry, after: seq<Entry>)
    requires Encodable(es) && Fits(stop) && stop.name == TRAILER
    ensures Decode(Archive(es + [stop] + after)) == Some(Numbered(es, 1))
  {
    assert es + [stop] + after + [TrailerEntry()] == es + [stop] + (after + [TrailerEntry()]);
    DecodesToTrailer(es, stop, after + [TrailerEntry()], 1);
  }

  // ------------------------------------------------------------------ the format's text

  predicate Spells(b: seq<Byte>, text: string) {
    |b| == |text| && forall i | 0 <= i < |b| :: b[i] == text[i] as int
  }

  /** The magic and the trailer's name as text, and the digits a field is written and read in. */
  lemma FormatText()
    ensures Spells(MAGIC, "070701") && Spells(TRAILER, "TRAILER!!!")
    ensures forall i | 0 <= i < 16 :: Digit(i) == "0123456789ABCDEF"[i] as int
    ensures forall i | 0 <= i < 16 :: DigitValue("0123456789ABCDEF"[i] as int) == DigitValue("0123456789abcdef"[i] as int) == Some(i)
  {
  }

  /** Reproducible headers: owner, times, device and checksum are zero and there is one link, whatever the entry. */
  lemma HeaderIsReproducible(ino: U32, e: Entry)
    ensures var h := Header(ino, e)[6..110];
      && Field(h, 2) == Field(h, 3) == Field(h, 5) == Field(h, 7) == Field(h, 8) == Field(h, 12) == Some(0)
      && Field(h, 4) == Some(1)
  {
    hide Header, Field;
    HeaderFields(ino, e);
  }

  /** Input that does not begin with the magic is refused. */
  lemma OtherMagicRefused(b: seq<Byte>)
    requires |b| >= 6 && !Spells(b[..6], "070701")
    ensures Decode(b) == None
  {
    FormatText();
  }

  /** The trailer is an entry with no mode, device or data. */
  lemma ArchiveEnds(es: seq<Entry>)
    ensures Archive(es) == EncodeAll(es, 1) + EncodeEntry(Low32(1 + |es|), Entry(TRAILER, 0, 0, 0, []))
  {
    EncodeAllSnoc(es, 1, TrailerEntry());
  }
}
