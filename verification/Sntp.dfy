/** SNTP timestamps and clock offset, as in sections 3 and 5 of RFC 4330. */
module Sntp {
  import opened Decimals
  import F = FixedPoint

  const TWO32 := 0x1_0000_0000
  const BILLION := 1_000_000_000
  const MILLION := 1_000_000

  /** Seconds from 1900 to 1970. */
  const NTP_EPOCH_OFFSET := 2208988800

  type Byte = n: nat | n < 256

  type Word = n: nat | n < TWO32

  /** An instant: Unix seconds and nanoseconds. */
  datatype Instant = Instant(secs: int, ns: nat)

  predicate IsInstant(t: Instant) {
    t.ns < BILLION
  }

  function Nanos(t: Instant): int {
    t.secs * BILLION + t.ns
  }

  /** The instants that have an NTP timestamp of their own: 1900 to 2036. */
  predicate InEra(t: Instant) {
    0 <= t.secs + 2208988800 < 0x1_0000_0000
  }

  // ---------------------------------------------------------------------------------------------------------
  // Encoding.

  function BigEndian(w: Word): (b: seq<Byte>)
    ensures |b| == 4
  {
    [w / 0x100 / 0x100 / 0x100, w / 0x100 / 0x100 % 0x100, w / 0x100 % 0x100, w % 0x100]
  }

  function ReadBigEndian(b: seq<Byte>): Word
    requires |b| == 4
  {
    ((b[0] as int * 0x100 + b[1] as int) * 0x100 + b[2] as int) * 0x100 + b[3] as int
  }

  lemma BigEndianRoundTrip(w: Word)
    ensures ReadBigEndian(BigEndian(w)) == w
  {
    var w1 := w / 0x100;
    var w2 := w1 / 0x100;
    assert w2 / 0x100 * 0x100 + w2 % 0x100 == w2;
    assert w2 * 0x100 + w1 % 0x100 == w1;
  }

  /** In unsigned 64 bits, and then cut to 32. */
  function WireSeconds(t: Instant): Word {
    (t.secs % F.TWO64 + NTP_EPOCH_OFFSET) % F.TWO64 % TWO32
  }

  function WireFraction(t: Instant): Word
    requires IsInstant(t)
  {
    t.ns * TWO32 / BILLION
  }

  function Encoded(t: Instant): (b: seq<Byte>)
    requires IsInstant(t)
    ensures |b| == 8
  {
    BigEndian(WireSeconds(t)) + BigEndian(WireFraction(t))
  }

  method PutUint32(b: array<Byte>, at: nat, w: Word)
    requires at + 4 <= b.Length
    modifies b
    ensures b[..] == old(b[..at]) + BigEndian(w) + old(b[at + 4..])
  {
    b[at] := w / 0x100 / 0x100 / 0x100;
    b[at + 1] := w / 0x100 / 0x100 % 0x100;
    b[at + 2] := w / 0x100 % 0x100;
    b[at + 3] := w % 0x100;
  }

  method PutNtpTime(b: array<Byte>, at: nat, t: Instant)
    requires at + 8 <= b.Length && IsInstant(t)
    modifies b
    ensures b[..] == old(b[..at]) + Encoded(t) + old(b[at + 8..])
  {
    PutUint32(b, at, WireSeconds(t));
    PutUint32(b, at + 4, WireFraction(t));
  }

  function NtpTime(b: seq<Byte>): (t: Instant)
    requires |b| == 8
    ensures IsInstant(t)
  {
    var secs, frac := ReadBigEndian(b[..4]), ReadBigEndian(b[4..]);
    assert frac * BILLION / TWO32 < BILLION;
    Instant(secs - NTP_EPOCH_OFFSET, frac * BILLION / TWO32)
  }

  /** The products of both conversions fit in 64 bits. */
  lemma NoOverflow(ns: nat, frac: Word)
    requires ns < BILLION
    ensures ns * TWO32 <= F.MAX && frac * BILLION <= F.MAX && ns * TWO32 / BILLION < TWO32
  {
  }

  /** The detour through 64 bits makes no difference. */
  lemma WireSecondsIs(t: Instant)
    ensures WireSeconds(t) == (t.secs + NTP_EPOCH_OFFSET) % TWO32
  {
    var y := t.secs + NTP_EPOCH_OFFSET;
    var z := t.secs % F.TWO64 + NTP_EPOCH_OFFSET;
    var k := t.secs / F.TWO64;
    assert y == z + k * F.TWO64;
    var w := z % F.TWO64;
    assert y == w + (k + z / F.TWO64) * F.TWO64;
    var m := (k + z / F.TWO64) * TWO32 + w / TWO32;
    assert y == m * TWO32 + w % TWO32;
    SameRemainder(y, m, w % TWO32);
  }

  lemma SameRemainder(y: int, m: int, r: int)
    requires y == m * TWO32 + r && 0 <= r < TWO32
    ensures y % TWO32 == r
  {
  }

  /** A timestamp keeps its second exactly when it is of this era. */
  lemma SecondIsKeptIff(t: Instant)
    requires IsInstant(t)
    ensures NtpTime(Encoded(t)).secs == t.secs <==> InEra(t)
  {
    hide BigEndian, ReadBigEndian, WireSeconds;
    WireSecondsIs(t);
    BigEndianRoundTrip(WireSeconds(t));
    assert Encoded(t)[..4] == BigEndian(WireSeconds(t));
  }

  /** Nanoseconds lose at most one, and none exactly for the multiples of 5^9. */
  lemma NanosecondDrift(t: Instant)
    requires IsInstant(t)
    ensures var ns := NtpTime(Encoded(t)).ns;
            ns == if t.ns % 1953125 == 0 then t.ns else t.ns - 1
  {
    var f := WireFraction(t);
    BigEndianRoundTrip(f);
    assert Encoded(t)[4..] == BigEndian(f);
    var r := t.ns * TWO32 % BILLION;
    assert t.ns * TWO32 == f * BILLION + r;
    assert f * BILLION == t.ns * TWO32 - r;
    DivisibleIff(t.ns);
  }

  /** 10^9 divides n * 2^32 exactly when 5^9 divides n. */
  lemma DivisibleIff(n: nat)
    ensures n * TWO32 % BILLION == 0 <==> n % 1953125 == 0
  {
    if n % 1953125 == 0 {
      var m := n / 1953125;
      assert n * TWO32 == m * 8388608 * BILLION;
      MultipleOf(m * 8388608, BILLION);
    }
    if n * TWO32 % BILLION == 0 {
      var f := n * TWO32 / BILLION;
      assert n * 8388608 == f * 1953125;
      assert n == (3054701 * n - 711228 * f) * 1953125;
      MultipleOf(3054701 * n - 711228 * f, 1953125);
    }
  }

  lemma MultipleOf(k: int, d: int)
    requires d > 0
    ensures k * d % d == 0
  {
    var q, r := k * d / d, k * d % d;
    assert k * d == q * d + r;
    assert (k - q) * d == r;
    assert k - q >= 1 ==> (k - q) * d >= d;
    assert k - q <= -1 ==> (k - q) * d <= -d;
  }

  // ---------------------------------------------------------------------------------------------------------
  // The offset.

  datatype Sample = Sample(offset: int, rtt: int)

  datatype Error = UnexpectedMode | KissOfDeath

  /** The reply as it is judged, in nanoseconds. */
  function Judged(resp: seq<Byte>, t0: int, t3: int): Result<Sample, Error>
    requires |resp| == 48
  {
    var mode := resp[0] % 8;
    if mode != 4 && mode != 5 then Err(UnexpectedMode)
    else if resp[1] == 0 then Err(KissOfDeath)
    else
      var t1, t2 := Nanos(NtpTime(resp[32..40])), Nanos(NtpTime(resp[40..48]));
      Ok(Sample(F.Truncated((t1 - t0) + (t2 - t3), 2), (t3 - t0) - (t2 - t1)))
  }

  /** What is reported. */
  function Milliseconds(ns: int): int {
    F.Truncated(ns, MILLION)
  }

  function Distance(a: int, b: int): int {
    if a < b then b - a else a - b
  }

  /** A server whose clock is `ahead` of ours receives the request at t1 of its own clock, after one path delay, and
      answers at t2; the answer arrives after another. */
  predicate IsExchange(t0: int, t1: Instant, t2: Instant, t3: int, ahead: int) {
    && IsInstant(t1) && IsInstant(t2) && InEra(t1) && InEra(t2)
    && t0 <= Nanos(t1) - ahead && Nanos(t1) <= Nanos(t2) && Nanos(t2) - ahead <= t3
  }

  /** What the packet's two timestamps say, for an encoding server. */
  lemma PacketSays(head: seq<Byte>, t1: Instant, t2: Instant)
    requires |head| == 32 && IsInstant(t1) && IsInstant(t2) && InEra(t1) && InEra(t2)
    ensures var resp := head + Encoded(t1) + Encoded(t2);
            && Nanos(t1) - 1 <= Nanos(NtpTime(resp[32..40])) <= Nanos(t1)
            && Nanos(t2) - 1 <= Nanos(NtpTime(resp[40..48])) <= Nanos(t2)
  {
    hide Encoded, NtpTime;
    var resp := head + Encoded(t1) + Encoded(t2);
    assert resp[32..40] == Encoded(t1);
    assert resp[40..48] == Encoded(t2);
    SecondIsKeptIff(t1);
    SecondIsKeptIff(t2);
    NanosecondDrift(t1);
    NanosecondDrift(t2);
  }

  /** Whatever the delays of the two paths: if the reply is accepted, the offset is right up to half the round trip
      and what the encoding and the halving cut off. */
  lemma OffsetIsAccurate(head: seq<Byte>, t0: int, t1: Instant, t2: Instant, t3: int, ahead: int)
    requires |head| == 32 && IsExchange(t0, t1, t2, t3, ahead)
    ensures match Judged(head + Encoded(t1) + Encoded(t2), t0, t3)
            case Ok(s) =>
              && 2 * Distance(s.offset, ahead) <= s.rtt + 3
              && 2 * Distance(Milliseconds(s.offset) * 1_000_000, ahead) < s.rtt + 3 + 2 * 1_000_000
            case Err(_) => head[0] % 8 !in {4, 5} || head[1] == 0
  {
    PacketSays(head, t1, t2);
    hide Encoded, NtpTime;
    var resp := head + Encoded(t1) + Encoded(t2);
    assert resp[0] == head[0] && resp[1] == head[1];
  }

  /** A reply is refused for its mode exactly when that is neither 4 nor 5, and as a kiss of death exactly when the mode
      is fine and the stratum 0. */
  lemma ReplyIsRefusedIff(resp: seq<Byte>, t0: int, t3: int)
    requires |resp| == 48
    ensures Judged(resp, t0, t3) == Err(UnexpectedMode) <==> resp[0] % 8 != 4 && resp[0] % 8 != 5
    ensures Judged(resp, t0, t3) == Err(KissOfDeath) <==> (resp[0] % 8 == 4 || resp[0] % 8 == 5) && resp[1] == 0
  {
    hide NtpTime;
  }

  /** The round trip that is reported is the time both ways, without what the server took, up to the encoding. */
  lemma RoundTripIsAccurate(head: seq<Byte>, t0: int, t1: Instant, t2: Instant, t3: int, ahead: int)
    requires |head| == 32 && IsExchange(t0, t1, t2, t3, ahead)
    ensures match Judged(head + Encoded(t1) + Encoded(t2), t0, t3)
            case Ok(s) =>
              var there, back := Nanos(t1) - ahead - t0, t3 - (Nanos(t2) - ahead);
              there + back - 1 <= s.rtt <= there + back + 1
            case Err(_) => true
  {
    PacketSays(head, t1, t2);
    hide Encoded, NtpTime;
  }
}
