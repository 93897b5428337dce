/** The rate limit of a face: a bucket that fills by one for every interest sent and leaks
    with time (daemon/ndn-face.cc). */
module RateLimit {
  import opened Names

  /** A maximum of zero or less means no limit; `last` is the time of the last leak, in
      microseconds. */
  datatype Bucket = Bucket(level: real, max: real, rate: real, last: Option<int>)

  /** The seconds field of a time difference: whole seconds, without the minutes, and of the
      sign of the difference. */
  function SecondsField(interval: int): int {
    if interval >= 0 then interval / 1000000 % 60 else -(-interval / 1000000 % 60)
  }

  function Leak(rate: real, interval: int): real {
    rate * SecondsField(interval) as real
  }

  function AfterLeak(b: Bucket, now: int): Bucket {
    if b.last == None then b.(last := Some(now))
    else
      var leak := Leak(b.rate, now - b.last.value);
      if leak >= 1.0 then b.(level := if b.level - leak > 0.0 then b.level - leak else 0.0, last := Some(now)) else b
  }

  /** One more interest: the bucket afterwards, and whether it may be sent. */
  function Ask(b: Bucket, now: int): (Bucket, bool) {
    var c := AfterLeak(b, now);
    if c.max > 0.0 then
      if c.level + 1.0 > c.max then (c, false) else (c.(level := c.level + 1.0), true)
    else (c, true)
  }

  class Face {
    var bucket: real
    var bucketMax: real
    var bucketLeak: real
    var lastLeakTime: Option<int>

    ghost function Abs(): Bucket
      reads this
    {
      Bucket(bucket, bucketMax, bucketLeak, lastLeakTime)
    }

    constructor (max: real, leak: real)
      ensures Abs() == Bucket(0.0, max, leak, None)
    {
      bucket, bucketMax, bucketLeak, lastLeakTime := 0.0, max, leak, None;
    }

    method LeakBucket(now: int)
      modifies this`bucket, this`lastLeakTime
      ensures Abs() == AfterLeak(old(Abs()), now)
    {
      if lastLeakTime == None {
        lastLeakTime := Some(now);
        return;
      }
      var interval := now - lastLeakTime.value;
      var leak := Leak(bucketLeak, interval);
      if leak >= 1.0 {
        bucket := if bucket - leak > 0.0 then bucket - leak else 0.0;
        lastLeakTime := Some(now);
      }
    }

    method IsBelowLimit(now: int) returns (ok: bool)
      modifies this`bucket, this`lastLeakTime
      ensures (Abs(), ok) == Ask(old(Abs()), now)
      ensures ok <==> bucketMax <= 0.0 || AfterLeak(old(Abs()), now).level + 1.0 <= bucketMax
    {
      LeakBucket(now);
      if bucketMax > 0.0 {
        if bucket + 1.0 > bucketMax {
          return false;
        }
        bucket := bucket + 1.0;
      }
      return true;
    }
  }

  //////////////////// the rate over a run ////////////////////

  function AfterAll(b: Bucket, times: seq<int>): Bucket
    decreases |times|
  {
    if times == [] then b else AfterAll(Ask(b, times[0]).0, times[1..])
  }

  /** How many of the interests asked for at these times may be sent. */
  function Sent(b: Bucket, times: seq<int>): nat
    decreases |times|
  {
    if times == [] then 0 else (if Ask(b, times[0]).1 then 1 else 0) + Sent(Ask(b, times[0]).0, times[1..])
  }

  function Elapsed(from: int, to: int): real {
    (to - from) as real / 1000000.0
  }

  ghost predicate Limited(b: Bucket) {
    b.max > 0.0 && b.rate >= 0.0 && 0.0 <= b.level <= b.max
  }

  /** How much leaks away when an interest is asked for. */
  function LeakedBy(b: Bucket, now: int): real {
    b.level - AfterLeak(b, now).level
  }

  function Leaked(b: Bucket, times: seq<int>): real
    decreases |times|
  {
    if times == [] then 0.0 else LeakedBy(b, times[0]) + Leaked(Ask(b, times[0]).0, times[1..])
  }

  lemma SecondsAtMostElapsed(from: int, to: int)
    requires from <= to
    ensures SecondsField(to - from) as real <= Elapsed(from, to)
  {
    var whole := (to - from) / 1000000;
    assert to - from == 1000000 * whole + (to - from) % 1000000;
    assert whole % 60 <= whole;
  }

  lemma Scale(rate: real, x: real, y: real)
    requires rate >= 0.0 && x <= y
    ensures rate * x <= rate * y
  {
  }

  /** A clock that has run backwards leaks nothing. */
  lemma LeakIsBounded(rate: real, from: int, to: int)
    requires rate >= 0.0
    ensures if from <= to then Leak(rate, to - from) <= Allowance(rate, from, to) else Leak(rate, to - from) <= 0.0
  {
    if from <= to {
      SecondsAtMostElapsed(from, to);
      Scale(rate, SecondsField(to - from) as real, Elapsed(from, to));
    } else {
      Scale(rate, SecondsField(to - from) as real, 0.0);
    }
  }

  /** What the rate allows between two times. */
  function Allowance(rate: real, from: int, to: int): real {
    rate * Elapsed(from, to)
  }

  lemma AllowanceAdds(rate: real, a: int, b: int, c: int)
    ensures Allowance(rate, a, b) + Allowance(rate, b, c) == Allowance(rate, a, c)
    ensures Allowance(rate, a, a) == 0.0
  {
    assert Elapsed(a, b) + Elapsed(b, c) == Elapsed(a, c);
    Distribute(rate, Elapsed(a, b), Elapsed(b, c));
    assert Elapsed(a, a) == 0.0;
  }

  lemma Distribute(rate: real, x: real, y: real)
    ensures rate * x + rate * y == rate * (x + y)
  {
  }

  lemma AllowanceGrows(rate: real, a: int, b: int, c: int)
    requires rate >= 0.0 && a <= b <= c
    ensures Allowance(rate, a, b) <= Allowance(rate, a, c)
  {
    Scale(rate, Elapsed(a, b), Elapsed(a, c));
  }

  /** The time from which leaking counts: the last leak, or the first reading of the clock. */
  function Since(b: Bucket, times: seq<int>): int
    requires b.last.Some? || times != []
  {
    if b.last.Some? then b.last.value else times[0]
  }

  lemma OneAsk(b: Bucket, now: int)
    requires Limited(b)
    ensures var (c, sent) := Ask(b, now);
      && Limited(c) && c.max == b.max && c.rate == b.rate
      && c.last.Some? && (c.last.value == now || c.last == b.last) && Since(b, [now]) <= c.last.value
      && (if sent then 1.0 else 0.0) == c.level - b.level + LeakedBy(b, now)
      && LeakedBy(b, now) <= Allowance(b.rate, Since(b, [now]), c.last.value)
  {
    var from := Since(b, [now]);
    LeakIsBounded(b.rate, from, now);
    AllowanceAdds(b.rate, from, from, now);
  }

  /** Conservation, whatever the clock does: what is sent stays in the bucket or has leaked,
      and no more leaks than the time that has passed allows. */
  lemma {:induction false} Conservation(b: Bucket, times: seq<int>)
    requires Limited(b)
    ensures var c := AfterAll(b, times);
      && Limited(c) && c.max == b.max && c.rate == b.rate
      && Sent(b, times) as real == c.level - b.level + Leaked(b, times)
      && (times == [] ==> c == b && Leaked(b, times) == 0.0)
      && (times != [] ==>
            && c.last.Some? && Since(b, times) <= c.last.value && (c.last.value in times || c.last == b.last)
            && Leaked(b, times) <= Allowance(b.rate, Since(b, times), c.last.value))
    decreases |times|
  {
    if times != [] {
      OneAsk(b, times[0]);
      var c := Ask(b, times[0]).0;
      Conservation(c, times[1..]);
      var from, end := Since(b, times), AfterAll(b, times).last.value;
      AllowanceAdds(b.rate, from, c.last.value, end);
    }
  }

  /** However the interests come and whatever the clock does, a limited face sends no more
      than the bucket holds plus what the rate allows up to the latest reading. */
  lemma RateIsBounded(b: Bucket, times: seq<int>, latest: int)
    requires Limited(b) && times != [] && forall t :: t in times ==> t <= latest
    requires b.last.Some? ==> b.last.value <= latest
    ensures Sent(b, times) as real <= b.max - b.level + Allowance(b.rate, Since(b, times), latest)
  {
    Conservation(b, times);
    AllowanceGrows(b.rate, Since(b, times), AfterAll(b, times).last.value, latest);
  }

  /** A new face: the bound counts from the first reading of the clock. */
  lemma NewFaceIsBounded(max: real, rate: real, times: seq<int>, latest: int)
    requires max > 0.0 && rate >= 0.0 && times != [] && forall t :: t in times ==> t <= latest
    ensures Sent(Bucket(0.0, max, rate, None), times) as real <= max + Allowance(rate, times[0], latest)
  {
    RateIsBounded(Bucket(0.0, max, rate, None), times, latest);
  }

  //////////////////// what must be allowed ////////////////////

  /** A face without a limit may always send. */
  lemma {:induction false} UnlimitedMaySend(b: Bucket, times: seq<int>)
    requires b.max <= 0.0
    ensures Sent(b, times) == |times|
    decreases |times|
  {
    if times != [] {
      UnlimitedMaySend(Ask(b, times[0]).0, times[1..]);
    }
  }

  /** A limited face may send as long as there is room in the bucket, whatever the clock
      does. */
  lemma {:induction false} RoomMayBeUsed(b: Bucket, times: seq<int>)
    requires Limited(b) && b.level + |times| as real <= b.max
    ensures Sent(b, times) == |times|
    decreases |times|
  {
    if times != [] {
      OneAsk(b, times[0]);
      LeakOnlyLowers(b, times[0]);
      RoomMayBeUsed(Ask(b, times[0]).0, times[1..]);
    }
  }

  lemma LeakOnlyLowers(b: Bucket, now: int)
    requires Limited(b)
    ensures AfterLeak(b, now).level <= b.level
  {
  }

  /** A reading of the clock at which nothing leaks yet takes nothing from a later leak, and
      after a leak the time counts from it. */
  lemma ReadingForgetsNothing(b: Bucket, now: int, later: int)
    requires b.last.Some?
    ensures Leak(b.rate, now - b.last.value) < 1.0 ==>
      AfterLeak(AfterLeak(b, now), later).level == Drained(b.level, Leak(b.rate, later - b.last.value))
    ensures Leak(b.rate, now - b.last.value) >= 1.0 ==>
      AfterLeak(AfterLeak(b, now), later).level ==
        Drained(Drained(b.level, Leak(b.rate, now - b.last.value)), Leak(b.rate, later - now))
  {
  }

  //////////////////// what leaks and what should ////////////////////

  /** The rate for every whole second that has passed. */
  function DueLeak(rate: real, interval: int): real {
    rate * (interval / 1000000) as real
  }

  /** The level if that leaked. */
  function DueLevel(b: Bucket, now: int): real
    requires b.last.Some?
  {
    Drained(b.level, DueLeak(b.rate, now - b.last.value))
  }

  function Drained(level: real, leak: real): real {
    if leak >= 1.0 then (if level - leak > 0.0 then level - leak else 0.0) else level
  }

  lemma DrainedAlike(level: real, leak: real, due: real)
    requires level >= 0.0 && leak <= due
    ensures Drained(level, leak) == Drained(level, due) <==>
      leak == due || level == 0.0 || due < 1.0 || (leak >= 1.0 && level <= leak)
  {
  }

  lemma ScaleStrictly(rate: real, x: real, y: real)
    requires rate > 0.0 && x < y
    ensures rate * x < rate * y
  {
  }

  /** What leaks is what should, exactly in the first minute: of a longer interval only the
      seconds within the minute count. */
  lemma LeakIsDueIff(rate: real, interval: int)
    requires rate > 0.0 && interval >= 0
    ensures Leak(rate, interval) <= DueLeak(rate, interval)
    ensures Leak(rate, interval) == DueLeak(rate, interval) <==> interval < 60000000
  {
    var within, whole := SecondsField(interval), interval / 1000000;
    if interval < 60000000 {
      assert within == whole;
    } else {
      assert within < whole;
      ScaleStrictly(rate, within as real, whole as real);
    }
  }

  /** The bucket is left as full as it should be exactly in the first minute, if it was empty,
      if nothing was due, or if the seconds within the minute empty it anyway. */
  lemma LevelIsDueIff(b: Bucket, now: int)
    requires Limited(b) && b.last.Some? && b.last.value <= now
    ensures var interval := now - b.last.value;
      AfterLeak(b, now).level == DueLevel(b, now) <==>
        || interval < 60000000 || b.level == 0.0 || DueLeak(b.rate, interval) < 1.0
        || (Leak(b.rate, interval) >= 1.0 && b.level <= Leak(b.rate, interval))
  {
    var interval := now - b.last.value;
    var leak, due := Leak(b.rate, interval), DueLeak(b.rate, interval);
    if b.rate > 0.0 {
      LeakIsDueIff(b.rate, interval);
      assert leak == due <==> interval < 60000000;
    } else {
      assert due == 0.0 && leak == 0.0;
    }
    DrainedAlike(b.level, leak, due);
    assert AfterLeak(b, now).level == Drained(b.level, leak);
    assert DueLevel(b, now) == Drained(b.level, due);
  }

  /** A bucket left alone for a whole number of minutes is as full as before. */
  lemma WholeMinutesLeakNothing(b: Bucket, minutes: nat)
    requires Limited(b) && b.last.Some?
    ensures AfterLeak(b, b.last.value + minutes * 60000000) == b
  {
    var interval := minutes * 60000000;
    assert b.last.value + interval - b.last.value == interval;
    assert interval / 1000000 == minutes * 60;
    assert SecondsField(interval) == 0;
    assert Leak(b.rate, interval) == 0.0;
  }
}
