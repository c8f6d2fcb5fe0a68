/** The string operations of the Rust standard library that the modelled code relies on. */
module Text {

  /** Unicode White_Space. */
  predicate IsWhitespace(c: char) {
    || '\t' <= c <= '\r'
    || c == ' ' || c == '\U{85}' || c == '\U{a0}' || c == '\U{1680}'
    || '\U{2000}' <= c <= '\U{200a}'
    || c == '\U{2028}' || c == '\U{2029}' || c == '\U{202f}' || c == '\U{205f}' || c == '\U{3000}'
  }

  predicate StartsWith(s: string, prefix: string) {
    |prefix| <= |s| && s[..|prefix|] == prefix
  }

  predicate EndsWith(s: string, suffix: string) {
    |suffix| <= |s| && s[|s|-|suffix|..] == suffix
  }

  function TrimStart(s: string): string {
    if s != [] && IsWhitespace(s[0]) then TrimStart(s[1..]) else s
  }

  function TrimEnd(s: string): string {
    if s != [] && IsWhitespace(s[|s|-1]) then TrimEnd(s[..|s|-1]) else s
  }

  function Trim(s: string): string {
    TrimEnd(TrimStart(s))
  }

  /** Length of the longest prefix without whitespace. */
  function WordLength(s: string): (n: nat)
    ensures n <= |s|
    ensures forall i | 0 <= i < n :: !IsWhitespace(s[i])
    ensures n < |s| ==> IsWhitespace(s[n])
  {
    if s == [] || IsWhitespace(s[0]) then 0 else 1 + WordLength(s[1..])
  }

  /** The maximal whitespace-free pieces, in order. */
  function SplitWhitespace(s: string): seq<string>
    decreases |s|
  {
    if s == [] then []
    else if IsWhitespace(s[0]) then SplitWhitespace(s[1..])
    else
      var n := WordLength(s);
      [s[..n]] + SplitWhitespace(s[n..])
  }

  /** Position of the first `c`, or the length when there is none. */
  function IndexOf(s: string, c: char): (n: nat)
    ensures n <= |s|
    ensures forall i | 0 <= i < n :: s[i] != c
    ensures n < |s| ==> s[n] == c
  {
    if s == [] || s[0] == c then 0 else 1 + IndexOf(s[1..], c)
  }

  lemma IndexOfMissing(s: string, c: char)
    requires c !in s
    ensures IndexOf(s, c) == |s|
  {
  }

  function StripCr(l: string): string {
    if l != [] && l[|l|-1] == '\r' then l[..|l|-1] else l
  }

  /** Pieces ended by a newline, each losing one carriage return; a last piece without newline stays as it is. */
  function Lines(s: string): seq<string>
    decreases |s|
  {
    if s == [] then []
    else
      var n := IndexOf(s, '\n');
      if n == |s| then [s] else [StripCr(s[..n])] + Lines(s[n+1..])
  }

  /** The piece after the last `c`: `s.rsplit(c).next()`. */
  function AfterLast(s: string, c: char): string
    decreases |s|
  {
    var n := IndexOf(s, c);
    if n == |s| then s else AfterLast(s[n+1..], c)
  }

  // ---------------------------------------------------------- what the operations give

  predicate AllWhitespace(s: string) {
    forall i | 0 <= i < |s| :: IsWhitespace(s[i])
  }

  /** Trimming takes whitespace off the front and nothing else. */
  lemma {:induction false} TrimStartExact(s: string) returns (a: string)
    ensures s == a + TrimStart(s) && AllWhitespace(a) && (TrimStart(s) != [] ==> !IsWhitespace(TrimStart(s)[0]))
  {
    hide IsWhitespace;
    a := [];
    if s != [] && IsWhitespace(s[0]) {
      var rest := TrimStartExact(s[1..]);
      a := [s[0]] + rest;
      assert s == [s[0]] + s[1..];
    }
  }

  lemma {:induction false} TrimEndExact(s: string) returns (b: string)
    ensures s == TrimEnd(s) + b && AllWhitespace(b) && (TrimEnd(s) != [] ==> !IsWhitespace(TrimEnd(s)[|TrimEnd(s)|-1]))
  {
    hide IsWhitespace;
    b := [];
    if s != [] && IsWhitespace(s[|s|-1]) {
      var rest := TrimEndExact(s[..|s|-1]);
      b := rest + [s[|s|-1]];
      assert s == s[..|s|-1] + [s[|s|-1]];
    }
  }

  /** Trimmed text is what lies between the whitespace at both ends. */
  lemma TrimExact(s: string) returns (a: string, b: string)
    ensures s == a + Trim(s) + b && AllWhitespace(a) && AllWhitespace(b)
    ensures Trim(s) != [] ==> !IsWhitespace(Trim(s)[0]) && !IsWhitespace(Trim(s)[|Trim(s)|-1])
  {
    hide IsWhitespace, TrimStart, TrimEnd;
    a := TrimStartExact(s);
    b := TrimEndExact(TrimStart(s));
    assert Trim(s) != [] ==> Trim(s)[0] == TrimStart(s)[0];
  }

  /** The first string is smaller iff it is a proper prefix or has the smaller character where they first differ. */
  lemma {:induction false} LessIff(a: string, b: string)
    ensures Less(a, b) <==> exists n: nat :: n <= |a| && n < |b| && a[..n] == b[..n] && (n == |a| || a[n] < b[n])
    decreases |a|
  {
    if a != [] && b != [] && a[0] == b[0] {
      LessIff(a[1..], b[1..]);
      if n: nat :| n <= |a[1..]| && n < |b[1..]| && a[1..][..n] == b[1..][..n] && (n == |a[1..]| || a[1..][n] < b[1..][n]) {
        assert a[..n+1] == [a[0]] + a[1..][..n] && b[..n+1] == [b[0]] + b[1..][..n];
      }
      if n: nat :| n <= |a| && n < |b| && a[..n] == b[..n] && (n == |a| || a[n] < b[n]) {
        assert a[1..][..n-1] == a[..n][1..] && b[1..][..n-1] == b[..n][1..];
      }
    } else if b != [] && (a == [] || a[0] < b[0]) {
      assert a[..0] == b[..0];
    }
  }

  /** Text without a newline is one line as it stands. */
  lemma LastLine(s: string)
    requires s != [] && '\n' !in s
    ensures Lines(s) == [s]
  {
    IndexOfMissing(s, '\n');
  }

  // --------------------------------------------------------- pieces of a longer text

  lemma {:induction false} OneWord(s: string)
    requires s != [] && forall i | 0 <= i < |s| :: !IsWhitespace(s[i])
    ensures SplitWhitespace(s) == [s]
  {
    hide IsWhitespace;
    assert WordLength(s) == |s|;
    assert s[..|s|] == s && s[|s|..] == [];
  }

  lemma {:induction false} WordLengthStops(a: string, c: char, b: string)
    requires IsWhitespace(c)
    ensures WordLength(a + [c] + b) == WordLength(a)
  {
    hide IsWhitespace;
    if a != [] {
      assert (a + [c] + b)[1..] == a[1..] + [c] + b;
      if !IsWhitespace(a[0]) { WordLengthStops(a[1..], c, b); }
    }
  }

  lemma FirstWord(a: string, c: char, b: string)
    requires IsWhitespace(c) && a != [] && !IsWhitespace(a[0])
    ensures var n := WordLength(a);
      && 0 < n && SplitWhitespace(a) == [a[..n]] + SplitWhitespace(a[n..])
      && SplitWhitespace(a + [c] + b) == [a[..n]] + SplitWhitespace(a[n..] + [c] + b)
  {
    hide IsWhitespace;
    var s, n := a + [c] + b, WordLength(a);
    WordLengthStops(a, c, b);
    assert s[..n] == a[..n] && s[n..] == a[n..] + [c] + b;
  }

  /** A whitespace character separates tokens. */
  lemma {:induction false} SplitAt(a: string, c: char, b: string)
    requires IsWhitespace(c)
    ensures SplitWhitespace(a + [c] + b) == SplitWhitespace(a) + SplitWhitespace(b)
    decreases |a|
  {
    hide IsWhitespace, WordLength;
    var s := a + [c] + b;
    if a == [] {
      assert s[1..] == b;
    } else if IsWhitespace(a[0]) {
      assert s[1..] == a[1..] + [c] + b;
      SplitAt(a[1..], c, b);
    } else {
      FirstWord(a, c, b);
      SplitAt(a[WordLength(a)..], c, b);
    }
  }

  lemma {:induction false} IndexOfFirst(a: string, c: char, b: string)
    requires c !in a
    ensures IndexOf(a + [c] + b, c) == |a|
  {
    var s := a + [c] + b;
    var n := IndexOf(s, c);
    assert s[|a|] == c;
  }

  lemma NoLines()
    ensures Lines("") == []
  {
  }

  lemma {:induction false} LinesCons(a: string, b: string)
    requires '\n' !in a
    ensures Lines(a + "\n" + b) == [StripCr(a)] + Lines(b)
  {
    hide StripCr;
    var s := a + "\n" + b;
    IndexOfFirst(a, '\n', b);
    assert s == a + ['\n'] + b && s[..|a|] == a && s[|a|+1..] == b;
  }

  lemma {:induction false} AfterFirst(s: string, c: char)
    ensures var n := IndexOf(s, c); AfterLast(s, c) == if n == |s| then s else AfterLast(s[n+1..], c)
  {
  }

  lemma {:induction false} AfterLastCons(a: string, c: char, rest: string)
    requires c !in a
    ensures AfterLast(a + [c] + rest, c) == AfterLast(rest, c)
  {
    hide AfterLast;
    IndexOfFirst(a, c, rest);
    AfterFirst(a + [c] + rest, c);
    assert (a + [c] + rest)[|a|+1..] == rest;
  }

  lemma {:induction false} AfterLastOf(a: string, c: char, b: string)
    requires c !in b
    ensures AfterLast(a + [c] + b, c) == b
    decreases |a|
  {
    hide AfterLast;
    var n := IndexOf(a, c);
    if n == |a| {
      AfterLastCons(a, c, b);
      AfterFirst(b, c);
    } else {
      var (head, tail) := (a[..n], a[n+1..]);
      assert a + [c] + b == head + [c] + (tail + [c] + b);
      AfterLastCons(head, c, tail + [c] + b);
      AfterLastOf(tail, c, b);
    }
  }

  // ------------------------------------------------------------------------- order

  /** Byte-wise comparison of strings, as a strict order. */
  predicate Less(a: string, b: string)
    decreases |a|
  {
    b != [] && (a == [] || a[0] < b[0] || (a[0] == b[0] && Less(a[1..], b[1..])))
  }

  lemma {:induction false} LessIsTotal(a: string, b: string)
    ensures a == b || Less(a, b) || Less(b, a)
    decreases |a|
  {
    if a != [] && b != [] && a[0] == b[0] {
      LessIsTotal(a[1..], b[1..]);
      assert a[1..] == b[1..] ==> a == b by {
        assert a == [a[0]] + a[1..] && b == [b[0]] + b[1..];
      }
    }
  }

  lemma {:induction false} LessIsAsymmetric(a: string, b: string)
    requires Less(a, b)
    ensures a != b && !Less(b, a)
    decreases |a|
  {
    if a != [] && a[0] == b[0] {
      LessIsAsymmetric(a[1..], b[1..]);
    }
  }
}
