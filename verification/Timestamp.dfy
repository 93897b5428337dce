/** Interest lifetimes as ccnb timestamps: seconds and a 12-bit fraction
    (helper/ndn-encoding-helper.cc, helper/ccnb-parser/visitors/ccnb-parser-timestamp-visitor.cc).
    A duration is a number of microseconds. */
module Timestamp {
  import opened Names
  import opened PacketBuffer
  import opened BlockHeader
  import opened CcnbTree

  const MICROS: nat := 1_000_000

  /** `time.seconds()` is the seconds field, `time.total_seconds()` the whole duration. */
  function TotalSeconds(d: nat): nat { d / MICROS }
  function SecondsField(d: nat): nat { TotalSeconds(d) % 60 }

  /** 2 bytes, and one more for every base-256 digit of `ts`, up to 7. */
  function RequiredBytes(ts: nat, n: nat): (r: nat)
    requires n <= 7
    ensures n <= r <= 7
    decreases 7 - n
  {
    if n < 7 && ts != 0 then RequiredBytes(ts / 256, n + 1) else n
  }

  /** The fraction of a second in units of 1/4096, rounded; 4096 when it rounds up to a second. */
  function Fraction(d: nat): (f: nat)
    ensures f <= 4096
  {
    (d % MICROS * 1000 / 5 * 8 + 195312) / 390625
  }

  /** `v >> (8 * k)` */
  function ShiftBytes(v: nat, k: nat): nat {
    if k == 0 then v else ShiftBytes(v / 256, k - 1)
  }

  function BigEndian(v: nat, n: nat): (s: seq<byte>)
    ensures |s| == n
  {
    if n == 0 then [] else BigEndian(v / 256, n - 1) + [v % 256]
  }

  function BigEndianValue(s: seq<byte>): nat {
    if s == [] then 0 else BigEndianValue(s[..|s| - 1]) * 256 + s[|s| - 1]
  }

  function TimestampBytes(d: nat): (s: seq<byte>)
    ensures |s| >= 2
  {
    BigEndian(TotalSeconds(d) / 16, RequiredBytes(SecondsField(d) / 16, 2) - 2)
    + BigEndian(TotalSeconds(d) % 16 * 4096 + Fraction(d), 2)
  }

  /** `signedChar` tells whether the platform's `char` is signed, which decides how the
      last byte is widened. */
  function DecodeTimestamp(blob: seq<byte>, signedChar: bool): (d: int)
    requires |blob| >= 2
  {
    var combo, last := blob[|blob| - 2], blob[|blob| - 1];
    var sec := BigEndianValue(blob[..|blob| - 2]) * 16 + combo / 16;
    var f: int := if signedChar && last >= 128 then (last as int) - 256 else (combo as int) % 16 * 256 + last;
    var usec := if f >= 0 then f * MICROS / 4096 else -((-f) * MICROS / 4096);
    sec * MICROS + usec
  }

  function RoundTrip(d: nat, signedChar: bool): int {
    DecodeTimestamp(TimestampBytes(d), signedChar)
  }

  /** The encoder sizes itself from the seconds field alone. */
  predicate Fits(seconds: nat) {
    seconds < 16 || (seconds % 60 >= 16 && seconds < 4096)
  }

  lemma Sizes(d: nat)
    ensures RequiredBytes(SecondsField(d) / 16, 2) == if SecondsField(d) < 16 then 2 else 3
  {
    var ts := SecondsField(d) / 16;
    assert ts / 256 == 0;
    assert RequiredBytes(0, 3) == 3;
  }

  /** The seconds that come back when the fraction does not round up to a whole second. */
  function KeptSeconds(t: nat): nat {
    (if t % 60 < 16 then 0 else t / 16 % 256) * 16 + t % 16
  }

  /** Right exactly when the seconds fit, else at least 16 too few. */
  lemma SecondsKept(t: nat)
    ensures (KeptSeconds(t) == t <==> Fits(t)) && (KeptSeconds(t) != t ==> KeptSeconds(t) + 16 <= t)
  {
    if t % 60 < 16 {
      assert t % 16 == t - t / 16 * 16;
    } else {
      assert t == t / 16 * 16 + t % 16 && t / 16 == t / 16 / 256 * 256 + t / 16 % 256;
    }
  }

  lemma HighBytes(t: nat)
    ensures var n := if t % 60 < 16 then 0 else 1;
      BigEndianValue(BigEndian(t / 16, n)) == if n == 0 then 0 else t / 16 % 256
  {
    if t % 60 >= 16 {
      assert BigEndian(t / 16 / 256, 0) == [];
      assert BigEndian(t / 16, 1) == [t / 16 % 256];
      assert BigEndianValue([t / 16 % 256][..0]) == 0;
    }
  }

  /** The last two bytes hold 4 bits of seconds `s` and the fraction `f`. */
  lemma LowBytes(s: nat, f: nat) returns (x: byte, y: byte)
    requires s < 16 && f <= 4096
    ensures BigEndian(s * 4096 + f, 2) == [x, y]
    ensures x / 16 == (if f < 4096 then s else if s < 15 then s + 1 else 0)
    ensures x % 16 * 256 + y == if f < 4096 then f else 0
  {
    var lo := s * 4096 + f;
    x, y := lo / 256 % 256, lo % 256;
    assert BigEndian(lo / 256 / 256, 0) == [];
    assert BigEndian(lo / 256, 1) == [x];
    assert lo / 256 == s * 16 + f / 256;
    if f < 4096 {
      assert x == s * 16 + f / 256;
    } else if s < 15 {
      assert x == (s + 1) * 16;
    } else {
      assert lo == 65536;
    }
  }

  /** The sub-second part that comes back for a fraction `f`. */
  function KeptMicros(f: nat, signedChar: bool): int
    requires f <= 4096
  {
    if f == 4096 then 0
    else if signedChar && f % 256 >= 128 then -((256 - f % 256) * MICROS / 4096)
    else f * MICROS / 4096
  }

  lemma DecodeParts(hi: seq<byte>, x: byte, y: byte, f: nat, signedChar: bool)
    requires f <= 4096 && x % 16 * 256 + y == if f < 4096 then f else 0
    ensures DecodeTimestamp(hi + [x, y], signedChar) ==
      (BigEndianValue(hi) * 16 + x / 16) * MICROS + KeptMicros(f, signedChar)
  {
    var blob := hi + [x, y];
    assert blob[..|blob| - 2] == hi;
    assert y == f % 256 by {
      if f == 4096 { assert y == 0; } else { assert f % 256 == y; }
    }
  }

  /** Exactly what comes back. */
  lemma Decoded(d: nat, signedChar: bool)
    ensures var t, f := TotalSeconds(d), Fraction(d);
      RoundTrip(d, signedChar) == KeptMicros(f, signedChar) + MICROS *
        (if f < 4096 then KeptSeconds(t) else if t % 16 < 15 then KeptSeconds(t) + 1 else KeptSeconds(t) - 15)
  {
    var t, f := TotalSeconds(d), Fraction(d);
    Sizes(d);
    HighBytes(t);
    var n := if t % 60 < 16 then 0 else 1;
    var x, y := LowBytes(t % 16, f);
    assert TimestampBytes(d) == BigEndian(t / 16, n) + [x, y];
    DecodeParts(BigEndian(t / 16, n), x, y, f, signedChar);
  }

  /** Whole seconds survive exactly when they fit, on every platform. */
  lemma WholeSecondsExact(t: nat, signedChar: bool)
    ensures RoundTrip(t * MICROS, signedChar) == t * MICROS <==> Fits(t)
  {
    Decoded(t * MICROS, signedChar);
    assert TotalSeconds(t * MICROS) == t && Fraction(t * MICROS) == 0;
    SecondsKept(t);
  }

  /** A minute does not survive. */
  lemma MinuteIsLost(signedChar: bool)
    ensures RoundTrip(60 * MICROS, signedChar) != 60 * MICROS
  {
    WholeSecondsExact(60, signedChar);
  }

  /** Where characters are signed, a timestamp can be read as negative. */
  lemma CanBeNegative()
    ensures DecodeTimestamp([0, 128], true) == -31250 && DecodeTimestamp([0, 128], false) == 31250
  {
    assert [0, 128][..0] == [];
  }

  /** A sub-second part that rounds up at the end of a 16-second period overflows its field. */
  predicate RoundsInField(d: nat) {
    Fraction(d) < 4096 || TotalSeconds(d) % 16 != 15
  }

  predicate LastByteReadable(d: nat, signedChar: bool) {
    signedChar ==> Fraction(d) % 256 < 128
  }

  lemma MicrosKept(u: nat, f: nat, signedChar: bool)
    requires u < MICROS && f == (u * 1000 / 5 * 8 + 195312) / 390625
    ensures f <= 4096
    ensures if f == 4096 then u >= MICROS - 123
            else if signedChar && f % 256 >= 128 then -31250 <= KeptMicros(f, signedChar) < 0 && u >= 31128
            else u - 123 <= KeptMicros(f, signedChar) <= u + 122
  {
    assert u - 123 <= f * MICROS / 4096 <= u + 122;
    if f % 256 >= 128 {
      assert f >= 128;
    }
  }

  /** How a duration of `t` seconds and `u` microseconds comes back: `s` seconds are kept,
      `up` and `end` tell that the fraction rounds up and that it overflows doing so, and
      `bad` that the last byte is misread. */
  datatype Parts = Parts(t: nat, u: nat, s: nat, sec: int, usec: int, up: bool, end: bool, bad: bool) {
    predicate Consistent() {
      && u < MICROS && (s == t || s + 16 <= t)
      && (sec == if up then (if end then s - 15 else s + 1) else s)
      && (if up then u >= MICROS - 123 && usec == 0 && !bad
          else if bad then -31250 <= usec < 0 && u >= 31128 else u - 123 <= usec <= u + 122)
    }
  }

  lemma ErrorOfParts(p: Parts)
    requires p.Consistent()
    ensures p.t * MICROS + p.u - 123 <= MICROS * p.sec + p.usec <= p.t * MICROS + p.u + 123 <==>
      p.s == p.t && !(p.up && p.end) && !p.bad
  {
  }

  lemma PartsOf(d: nat, signedChar: bool) returns (p: Parts)
    ensures p.Consistent() && d == p.t * MICROS + p.u
    ensures RoundTrip(d, signedChar) == MICROS * p.sec + p.usec
    ensures p.s == p.t <==> Fits(TotalSeconds(d))
    ensures p.up && p.end <==> !RoundsInField(d)
    ensures p.bad <==> !LastByteReadable(d, signedChar)
  {
    var t, u, f := TotalSeconds(d), d % MICROS, Fraction(d);
    Decoded(d, signedChar);
    SecondsKept(t);
    MicrosKept(u, f, signedChar);
    var up, end := f == 4096, t % 16 == 15;
    var sec := if !up then KeptSeconds(t) else if !end then KeptSeconds(t) + 1 else KeptSeconds(t) - 15;
    p := Parts(t, u, KeptSeconds(t), sec, KeptMicros(f, signedChar), up, end, signedChar && f % 256 >= 128);
  }

  /** The error is at most 123 microseconds exactly when the seconds fit, the rounding does
      not overflow and the last byte is read as unsigned or is small. */
  lemma RoundTripBound(d: nat, signedChar: bool)
    ensures d - 123 <= RoundTrip(d, signedChar) <= d + 123 <==>
      Fits(TotalSeconds(d)) && RoundsInField(d) && LastByteReadable(d, signedChar)
  {
    var p := PartsOf(d, signedChar);
    ErrorOfParts(p);
  }

  /** The predicted size is the written size exactly when the seconds fit. */
  lemma SizePredicted(d: nat)
    ensures RequiredBytes(TotalSeconds(d) / 16, 2) == RequiredBytes(SecondsField(d) / 16, 2) <==> Fits(TotalSeconds(d))
  {
    Sizes(d);
    var ts := TotalSeconds(d) / 16;
    if ts >= 256 {
      assert RequiredBytes(ts / 256, 3) == RequiredBytes(ts / 256 / 256, 4) >= 4;
    } else if ts != 0 {
      assert RequiredBytes(ts / 256, 3) == 3;
    }
  }

  lemma {:induction false} ShiftOnce(v: nat, k: nat)
    ensures ShiftBytes(v, k) / 256 == ShiftBytes(v, k + 1)
  {
    if k > 0 {
      ShiftOnce(v / 256, k - 1);
    }
  }

  method AppendTimestampBlob(start: Buffer, d: nat) returns (written: nat)
    requires start.Valid() && start.size + |Print(Blob(TimestampBytes(d)))| <= BUFLEN
    modifies start, start.data
    ensures start.Valid() && start.Contents() == old(start.Contents()) + Print(Blob(TimestampBytes(d)))
    ensures written == |Print(Blob(TimestampBytes(d)))|
  {
    var required := 2;
    var ts: nat := SecondsField(d) / 16;
    while required < 7 && ts != 0
      invariant 2 <= required <= 7
      invariant RequiredBytes(ts, required) == RequiredBytes(SecondsField(d) / 16, 2)
      decreases 7 - required
    {
      ts := ts / 256;
      required := required + 1;
    }
    var hi, lo := TotalSeconds(d) / 16, TotalSeconds(d) % 16 * 4096 + Fraction(d);
    var len := AppendBlockHeader(start, required, CCN_BLOB);
    ghost var header := HeaderBytes(required, CCN_BLOB);
    assert Print(Blob(TimestampBytes(d))) == header + (BigEndian(hi, required - 2) + BigEndian(lo, 2));
    WriteShifted(start, hi, required - 2);
    WriteShifted(start, lo, 2);
    written := len + required;
  }

  /** Writes the low `count` bytes of `v`, most significant first. */
  method WriteShifted(start: Buffer, v: nat, count: nat)
    requires start.Valid() && start.size + count <= BUFLEN
    modifies start, start.data
    ensures start.Valid() && start.Contents() == old(start.Contents()) + BigEndian(v, count)
  {
    for i := 0 to count
      invariant start.Valid()
      invariant start.Contents() == old(start.Contents()) + BigEndian(ShiftBytes(v, count - i), i)
    {
      ShiftOnce(v, count - 1 - i);
      start.WriteU8(ShiftBytes(v, count - 1 - i) % 256);
    }
  }

  method EstimateTimestampBlob(d: nat) returns (n: nat)
    ensures var r := RequiredBytes(TotalSeconds(d) / 16, 2); n == |HeaderBytes(r, CCN_BLOB)| + r
    ensures n == |Print(Blob(TimestampBytes(d)))| <==> Fits(TotalSeconds(d))
  {
    var required := 2;
    var ts: nat := TotalSeconds(d) / 16;
    while required < 7 && ts != 0
      invariant 2 <= required <= 7
      invariant RequiredBytes(ts, required) == RequiredBytes(TotalSeconds(d) / 16, 2)
      decreases 7 - required
    {
      ts := ts / 256;
      required := required + 1;
    }
    n := EstimateBlockHeader(required);
    n := n + required;
    SizePredicted(d);
    assert Continuation(0) == [];
  }
}
