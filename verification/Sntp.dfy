/** SNTP timestamps, the clock offset and how the time controller uses it. */
module Sntp {
  import opened Resources

  type Byte = x: int | 0 <= x < 256

  const TWO32: int := 0x1_0000_0000
  const TWO63: int := 0x8000_0000_0000_0000
  const BILLION: int := 1_000_000_000
  /** Seconds from 1900 to 1970. */
  const NTP_UNIX_OFFSET: int := 2_208_988_800

  // -------------------------------------------------------------------- timestamps

  function FromBe(b: seq<Byte>): nat
    requires |b| == 4
  {
    b[0] as int * 0x100_0000 + b[1] as int * 0x1_0000 + b[2] as int * 256 + b[3] as int
  }

  function ToBe(n: int): seq<Byte>
    requires 0 <= n < TWO32
  {
    [n / 0x100_0000, n / 0x1_0000 % 256, n / 256 % 256, n % 256]
  }

  lemma BeRoundTrip(n: int)
    requires 0 <= n < TWO32
    ensures |ToBe(n)| == 4 && FromBe(ToBe(n)) == n
  {
    var (a, b) := (n / 256, n / 0x1_0000);
    assert n == a * 256 + n % 256;
    assert a / 256 == b && a == b * 256 + a % 256;
    assert b / 256 == n / 0x100_0000 && b == b / 256 * 256 + b % 256;
  }

  /** A 32.32 fixed-point count of seconds since 1900, in nanoseconds since 1970. */
  function NtpToUnixNs(b: seq<Byte>): int
    requires |b| == 8
  {
    (FromBe(b[..4]) - NTP_UNIX_OFFSET) * BILLION + FromBe(b[4..]) * BILLION / TWO32
  }

  /** Seconds are reduced to 32 bits. */
  function UnixNsToNtp(ns: int): (b: seq<Byte>)
    ensures |b| == 8
  {
    FractionFits(ns % BILLION);
    ToBe((ns / BILLION + NTP_UNIX_OFFSET) % TWO32) + ToBe(ns % BILLION * TWO32 / BILLION)
  }

  lemma FractionFits(rem: int)
    requires 0 <= rem < BILLION
    ensures 0 <= rem * TWO32 / BILLION < TWO32
  {
  }

  /** Converting a fraction there and back loses at most one nanosecond. */
  lemma FractionRoundTrip(rem: int)
    requires 0 <= rem < BILLION
    ensures rem - 1 <= rem * TWO32 / BILLION * BILLION / TWO32 <= rem
  {
  }

  predicate Era0(ns: int) {
    0 <= ns / BILLION + NTP_UNIX_OFFSET < TWO32
  }

  lemma DecodedParts(ns: int)
    ensures NtpToUnixNs(UnixNsToNtp(ns)) ==
            ((ns / BILLION + NTP_UNIX_OFFSET) % TWO32 - NTP_UNIX_OFFSET) * BILLION +
            ns % BILLION * TWO32 / BILLION * BILLION / TWO32
  {
    hide ToBe, FromBe;
    var (secs, frac) := ((ns / BILLION + NTP_UNIX_OFFSET) % TWO32, ns % BILLION * TWO32 / BILLION);
    FractionFits(ns % BILLION);
    BeRoundTrip(secs);
    BeRoundTrip(frac);
    var b := UnixNsToNtp(ns);
    assert b[..4] == ToBe(secs) && b[4..] == ToBe(frac);
  }

  /** A time survives encoding and decoding to within a nanosecond iff it lies in era 0, 1900 to 2036. */
  lemma RoundTripIffEra0(ns: int)
    ensures ns - 1 <= NtpToUnixNs(UnixNsToNtp(ns)) <= ns <==> Era0(ns)
  {
    hide NtpToUnixNs, UnixNsToNtp;
    DecodedParts(ns);
    FractionRoundTrip(ns % BILLION);
    var s := ns / BILLION + NTP_UNIX_OFFSET;
    var lost := ns % BILLION - ns % BILLION * TWO32 / BILLION * BILLION / TWO32;
    assert ns == (s - NTP_UNIX_OFFSET) * BILLION + ns % BILLION;
    assert NtpToUnixNs(UnixNsToNtp(ns)) == ns - lost - (s - s % TWO32) * BILLION;
    assert s == s / TWO32 * TWO32 + s % TWO32;
    assert Era0(ns) <==> s / TWO32 == 0;
  }

  /** The Unix epoch as RFC 4330 gives it, one second later, and half a second later. */
  lemma KnownTimestamps()
    ensures NtpToUnixNs([0x83, 0xAA, 0x7E, 0x80, 0, 0, 0, 0]) == 0
    ensures NtpToUnixNs([0x83, 0xAA, 0x7E, 0x81, 0, 0, 0, 0]) == 1_000_000_000
    ensures NtpToUnixNs([0x83, 0xAA, 0x7E, 0x80, 0x80, 0, 0, 0]) == 500_000_000
  {
  }

  /** The first second after era 0, in 2036, reads back as the start of 1900. */
  lemma Era1ReadsBackAs1900()
    ensures NtpToUnixNs(UnixNsToNtp((TWO32 - NTP_UNIX_OFFSET) * BILLION)) == -NTP_UNIX_OFFSET * BILLION
  {
    hide NtpToUnixNs, UnixNsToNtp;
    DecodedParts((TWO32 - NTP_UNIX_OFFSET) * BILLION);
  }

  // ------------------------------------------------------------------------ offset

  /** Division by two, toward zero. */
  function Half(x: int): int {
    if x >= 0 then x / 2 else -(-x / 2)
  }

  /** A clock reading in nanoseconds since 1970; readings before that count as 0. */
  function StToNs(t: int): nat {
    if t < 0 then 0 else t
  }

  type Packet = b: seq<Byte> | |b| == 48 witness seq(48, _ => 0)

  predicate Rejected(resp: Packet) {
    resp[0] % 8 != 4 || forall i | 40 <= i < 48 :: resp[i] == 0
  }

  function ParseOffset(resp: Packet, t1: int, t4: int): Result<int> {
    if resp[0] % 8 != 4 then Err(Controller("not a server (mode != 4) response"))
    else if forall i | 40 <= i < 48 :: resp[i] == 0 then Err(Controller("zero transmit timestamp"))
    else
      var (t2, t3) := (NtpToUnixNs(resp[32..40]), NtpToUnixNs(resp[40..48]));
      Ok(Half((t2 - StToNs(t1)) + (t3 - StToNs(t4))))
  }

  /**
   The local clock reads t1 when the request leaves and t4 when the response arrives; the
   server's clock runs `theta` ahead, the request takes d1 and the response d2. The offset is
   off by at most half the asymmetry of the path, up to the rounding of two timestamps and a division.
   */
  lemma OffsetAccuracy(resp: Packet, t1: nat, t4: nat, theta: int, d1: int, d2: int, received: int, sent: int)
    requires !Rejected(resp)
    requires resp[32..40] == UnixNsToNtp(received) && resp[40..48] == UnixNsToNtp(sent)
    requires Era0(received) && Era0(sent)
    requires received == t1 + d1 + theta && t4 == sent - theta + d2
    ensures ParseOffset(resp, t1, t4).Ok?
    ensures var offset := ParseOffset(resp, t1, t4).value;
      2 * Abs(offset - theta) <= Abs(d1 - d2) + 3
  {
    hide NtpToUnixNs, UnixNsToNtp, Era0;
    RoundTripIffEra0(received);
    RoundTripIffEra0(sent);
  }

  function Abs(x: int): nat {
    if x < 0 then -x else x
  }

  // -------------------------------------------------------------- the published value

  /** Truncation of a 128-bit integer to 64 bits. */
  function AsI64(x: int): int {
    (x + TWO63) % (2 * TWO63) - TWO63
  }

  /** The cast gives the one 64-bit value that differs by a multiple of 2^64, which is the number itself iff it fits. */
  lemma CastLossless(x: int)
    ensures -0x8000_0000_0000_0000 <= AsI64(x) < 0x8000_0000_0000_0000 && (x - AsI64(x)) % 0x1_0000_0000_0000_0000 == 0
    ensures AsI64(x) == x <==> -TWO63 <= x < TWO63
  {
  }

  lemma TimestampRange(b: seq<Byte>)
    requires |b| == 8
    ensures -NTP_UNIX_OFFSET * BILLION <= NtpToUnixNs(b) < (TWO32 - NTP_UNIX_OFFSET) * BILLION
  {
  }

  /** The largest sum of the two local readings for which no response overflows. */
  const MAX_READINGS: int := 2 * TWO63 + 1 - 2 * NTP_UNIX_OFFSET * BILLION

  /** A response with both timestamps at the start of the era. */
  function Earliest(): Packet {
    seq(48, i => if i == 0 then 4 else if i == 47 then 1 else 0)
  }

  lemma EarliestOffset(t1: nat, t4: nat)
    ensures ParseOffset(Earliest(), t1, t4) == Ok(Half(-2 * NTP_UNIX_OFFSET * BILLION - t1 - t4))
  {
    var p := Earliest();
    assert p[47] != 0;
    assert NtpToUnixNs(p[32..40]) == -NTP_UNIX_OFFSET * BILLION;
    assert FromBe(p[40..48][4..]) == 1;
    assert NtpToUnixNs(p[40..48]) == -NTP_UNIX_OFFSET * BILLION;
  }

  /** A response is refused exactly when it is not from a server or carries no transmit time. */
  lemma RefusedIff(resp: Packet, t1: int, t4: int)
    ensures ParseOffset(resp, t1, t4).Err? <==> resp[0] as int % 8 != 4 || forall i | 40 <= i < 48 :: resp[i] == 0
    ensures ParseOffset(resp, t1, t4).Err? <==> Rejected(resp)
  {
  }

  /** The offset is half of (t2 - t1) + (t3 - t4), rounded toward zero. */
  lemma OffsetIsHalf(resp: Packet, t1: nat, t4: nat)
    requires ParseOffset(resp, t1, t4).Ok?
    ensures var (sum, offset) := ((NtpToUnixNs(resp[32..40]) - t1) + (NtpToUnixNs(resp[40..48]) - t4), ParseOffset(resp, t1, t4).value);
      if sum >= 0 then 2 * offset <= sum <= 2 * offset + 1 else 2 * offset - 1 <= sum <= 2 * offset
  {
    hide NtpToUnixNs;
  }

  /** A local reading from before 1970 counts as 1970 itself, on either end. */
  lemma EarlyReading(resp: Packet, t1: int, t4: int)
    ensures t1 <= 0 ==> ParseOffset(resp, t1, t4) == ParseOffset(resp, 0, t4)
    ensures t4 <= 0 ==> ParseOffset(resp, t1, t4) == ParseOffset(resp, t1, 0)
  {
  }

  /** The cast loses nothing, whatever the server answers, iff the two readings sum to at most MAX_READINGS. */
  lemma PublishedExactlyIff(t1: nat, t4: nat)
    ensures (forall resp: Packet | !Rejected(resp) :: AsI64(ParseOffset(resp, t1, t4).value) == ParseOffset(resp, t1, t4).value)
            <==> t1 + t4 <= MAX_READINGS
  {
    hide NtpToUnixNs, AsI64;
    if t1 + t4 <= MAX_READINGS {
      forall resp: Packet | !Rejected(resp)
        ensures AsI64(ParseOffset(resp, t1, t4).value) == ParseOffset(resp, t1, t4).value
      {
        TimestampRange(resp[32..40]);
        TimestampRange(resp[40..48]);
        CastLossless(ParseOffset(resp, t1, t4).value);
      }
    } else {
      EarliestOffset(t1, t4);
      CastLossless(ParseOffset(Earliest(), t1, t4).value);
      assert !Rejected(Earliest()) by { assert Earliest()[47] != 0; }
    }
  }

  /** In particular for readings up to 7 * 10^18 ns, the year 2191. */
  lemma PublishedExactlyUntil2191(resp: Packet, t1: nat, t4: nat)
    requires !Rejected(resp) && t1 <= 7_000_000_000_000_000_000 && t4 <= 7_000_000_000_000_000_000
    ensures AsI64(ParseOffset(resp, t1, t4).value) == ParseOffset(resp, t1, t4).value
  {
    hide ParseOffset, AsI64;
    PublishedExactlyIff(t1, t4);
  }

  // ------------------------------------------------------------------ the controller

  const STEP_THRESHOLD_NS: int := 128_000_000
  const DEFAULT_SERVERS: seq<string> := ["0.pool.ntp.org", "1.pool.ntp.org"]

  datatype TimeStatus = TimeStatus(synced: bool, server: string, offset: int, syncCount: nat)

  class TimeSyncController {
    var syncCount: nat
    var status: Option<TimeStatus>
    var steps: seq<int>

    /**
     Ask the servers in turn, `answer` giving each one's reply; use the first that answers.
     The clock is stepped by exactly that offset, only beyond the threshold; a failed step
     leaves count and status alone.
     */
    method Reconcile(enabled: bool, configured: seq<string>, answer: string -> Result<int>, stepFails: bool) returns (ok: bool)
      modifies this
      ensures var servers := if configured == [] then ["0.pool.ntp.org", "1.pool.ntp.org"] else configured;
        if !enabled || (forall s | s in servers :: answer(s).Err?) then
          ok && steps == old(steps) && syncCount == old(syncCount) && status == Some(TimeStatus(false, "", 0, syncCount))
        else exists n | 0 <= n < |servers| && answer(servers[n]).Ok? && (forall i | 0 <= i < n :: answer(servers[i]).Err?) ::
          var offset := answer(servers[n]).value;
          var step := offset > 128_000_000 || offset < -128_000_000;
          && ok == !(step && stepFails)
          && steps == old(steps) + (if step && ok then [offset] else [])
          && syncCount == old(syncCount) + (if ok then 1 else 0)
          && status == if ok then Some(TimeStatus(true, servers[n], AsI64(offset), syncCount)) else old(status)
    {
      hide AsI64;
      if !enabled {
        status := Some(TimeStatus(false, "", 0, syncCount));
        return true;
      }
      var servers := if configured == [] then DEFAULT_SERVERS else configured;
      var n := 0;
      while n < |servers|
        invariant 0 <= n <= |servers| && forall i | 0 <= i < n :: answer(servers[i]).Err?
      {
        var reply := answer(servers[n]);
        if reply.Ok? {
          if Abs(reply.value) > STEP_THRESHOLD_NS {
            if stepFails {
              return false;
            }
            steps := steps + [reply.value];
          }
          syncCount := syncCount + 1;
          status := Some(TimeStatus(true, servers[n], AsI64(reply.value), syncCount));
          return true;
        }
        n := n + 1;
      }
      status := Some(TimeStatus(false, "", 0, syncCount));
      ok := true;
    }
  }
}
