/** Decimal text: how a number is written with `<<` and read back with `>>` into a
    32-bit signed integer (helper/ndn-encoding-helper.cc AppendNumber,
    helper/ccnb-parser/visitors/ccnb-parser-non-negative-integer-visitor.cc). */
module Decimal {
  import opened Names
  import opened PacketBuffer
  import opened BlockHeader
  import opened CcnbTree

  const INT32_MAX: nat := 0x7fff_ffff

  predicate IsDigit(c: byte) {
    48 <= c <= 57
  }

  predicate IsSpace(c: byte) {
    9 <= c <= 13 || c == 32
  }

  function Digits(n: nat): (s: seq<byte>)
    ensures |s| > 0 && forall i :: 0 <= i < |s| ==> IsDigit(s[i])
  {
    if n < 10 then [48 + n] else Digits(n / 10) + [48 + n % 10]
  }

  /** The value of the digits that `s` starts with. */
  function LeadingNumber(s: seq<byte>, acc: nat): (n: nat) {
    if s == [] || !IsDigit(s[0]) then acc else LeadingNumber(s[1..], acc * 10 + (s[0] - 48))
  }

  function SkipSpace(s: seq<byte>): (r: seq<byte>) {
    if s != [] && IsSpace(s[0]) then SkipSpace(s[1..]) else s
  }

  /** Reading into an int32: blanks, a sign and digits; out of range sticks at the limit,
      and text without digits reads as 0. */
  function StreamInt32(s: seq<byte>): (v: int)
    ensures -0x8000_0000 <= v <= INT32_MAX
  {
    var t := SkipSpace(s);
    var negative := t != [] && t[0] == 45;
    var u := if t != [] && (t[0] == 45 || t[0] == 43) then t[1..] else t;
    var n: int := LeadingNumber(u, 0);
    if negative then (if n > 0x8000_0000 then -0x8000_0000 else -n)
    else (if n > INT32_MAX then INT32_MAX else n)
  }

  lemma {:induction false} LeadingNumberSnoc(s: seq<byte>, c: byte, acc: nat)
    requires IsDigit(c) && forall i :: 0 <= i < |s| ==> IsDigit(s[i])
    ensures LeadingNumber(s + [c], acc) == LeadingNumber(s, acc) * 10 + (c - 48)
  {
    if s == [] {
      assert LeadingNumber([c][1..], acc * 10 + (c - 48)) == acc * 10 + (c - 48);
    } else {
      assert (s + [c])[1..] == s[1..] + [c];
      LeadingNumberSnoc(s[1..], c, acc * 10 + (s[0] - 48));
    }
  }

  lemma {:induction false} LeadingNumberOfDigits(n: nat)
    ensures LeadingNumber(Digits(n), 0) == n
  {
    if n < 10 {
      assert LeadingNumber([48 + n][1..], n) == n;
    } else {
      LeadingNumberOfDigits(n / 10);
      LeadingNumberSnoc(Digits(n / 10), 48 + n % 10, 0);
    }
  }

  /** A printed number is read back, up to the largest int32. */
  lemma NumberRoundTrip(n: nat)
    ensures StreamInt32(Digits(n)) == if n <= INT32_MAX then n else INT32_MAX
  {
    LeadingNumberOfDigits(n);
    assert IsDigit(Digits(n)[0]);
  }

  lemma {:induction false} DigitsLength(n: nat)
    requires n < U32
    ensures |Digits(n)| <= 10
  {
    assert |Digits(n / 1000000000)| == 1;
    assert |Digits(n / 100000000)| <= 2;
    assert |Digits(n / 10000000)| <= 3;
    assert |Digits(n / 1000000)| <= 4;
    assert |Digits(n / 100000)| <= 5;
    assert |Digits(n / 10000)| <= 6;
    assert |Digits(n / 1000)| <= 7;
    assert |Digits(n / 100)| <= 8;
    assert |Digits(n / 10)| <= 9;
  }

  method AppendNumber(start: Buffer, number: u32) returns (written: nat)
    requires start.Valid() && start.size + |Print(Udata(Digits(number)))| <= BUFLEN
    modifies start, start.data
    ensures start.Valid() && start.Contents() == old(start.Contents()) + Print(Udata(Digits(number)))
    ensures written == |Print(Udata(Digits(number)))|
  {
    var os := Digits(number);
    DigitsLength(number);
    written := AppendBlockHeader(start, |os|, CCN_UDATA);
    written := written + |os|;
    start.Write(os);
  }

  method EstimateNumber(number: u32) returns (n: nat)
    ensures n == |Print(Udata(Digits(number)))|
  {
    var os := Digits(number);
    n := EstimateBlockHeader(|os|);
    n := n + |os|;
  }
}
