/** The ring of shared slots between the daemon thread and a device thread: one writer, one
    reader, interleaved step by step (network/mac/ll-upper-layer-comm-service.cc,
    daemon/ndn-adhoc-net-device-face.cc). */
module Ring {
  import opened Names

  const SIZE: nat := 100

  /** `sem` is the value of the slot's semaphore. */
  datatype Slot = Slot(sem: nat, used: bool, data: Packet)

  /** Where the writer is: `Wait` before sem_wait, and so on to the trigger. */
  datatype Writer =
    | WIdle | WWait(m: Packet) | WCheck(m: Packet) | WMark(m: Packet) | WCopy(m: Packet)
    | WPost | WAdvance | WTrigger

  datatype Reader = RIdle | RCheck | RWait | RCopy | RClear | RPost | RAdvance

  /** `checks` tells whether the reader looks at the used flag before it takes the semaphore:
      the device thread does, the daemon thread does not. `accepted` and `received` are the
      messages taken over from the caller of the writer and copied out by the reader;
      `stuck` records that the writer has returned while holding a semaphore, and `failed`
      that the reader has found a slot unused. */
  datatype State = State(
    slots: seq<Slot>, counter: nat, checks: bool,
    writer: Writer, windex: nat, reader: Reader, rindex: nat,
    accepted: seq<Packet>, received: seq<Packet>, stuck: bool, failed: bool)

  datatype Event = Call(m: Packet) | WriterStep | ReaderStep

  function Initial(checks: bool): State {
    State(seq(SIZE, i => Slot(1, false, [])), 0, checks, WIdle, 0, RIdle, 0, [], [], false, false)
  }

  //////////////////// steps ////////////////////

  ghost predicate InRange(s: State) {
    |s.slots| == SIZE && s.windex < SIZE && s.rindex < SIZE
  }

  /** A thread is blocked by a semaphore of value zero, the reader also by a zero counter. */
  ghost predicate Enabled(s: State, e: Event)
    requires InRange(s)
  {
    match e
    case Call(m) => s.writer == WIdle
    case WriterStep => s.writer != WIdle && (s.writer.WWait? ==> s.slots[s.windex].sem > 0)
    case ReaderStep =>
      && (s.reader == RIdle ==> s.counter > 0)
      && (s.reader == RWait ==> s.slots[s.rindex].sem > 0)
  }

  function WithSlot(s: State, k: nat, slot: Slot): State
    requires k < |s.slots|
  {
    s.(slots := s.slots[k := slot])
  }

  ghost function StepWriter(s: State): State
    requires InRange(s) && Enabled(s, WriterStep)
  {
    var slot := s.slots[s.windex];
    match s.writer
    case WWait(m) => WithSlot(s, s.windex, slot.(sem := slot.sem - 1)).(writer := WCheck(m))
    case WCheck(m) =>
      if slot.used then s.(writer := WIdle, stuck := true)
      else s.(writer := WMark(m), accepted := s.accepted + [m])
    case WMark(m) => WithSlot(s, s.windex, slot.(used := true)).(writer := WCopy(m))
    case WCopy(m) => WithSlot(s, s.windex, slot.(data := m)).(writer := WPost)
    case WPost => WithSlot(s, s.windex, slot.(sem := slot.sem + 1)).(writer := WAdvance)
    case WAdvance => s.(windex := (s.windex + 1) % SIZE, writer := WTrigger)
    case WTrigger => s.(counter := s.counter + 1, writer := WIdle)
  }

  ghost function StepReader(s: State): State
    requires InRange(s) && Enabled(s, ReaderStep)
  {
    var slot := s.slots[s.rindex];
    match s.reader
    case RIdle => s.(counter := s.counter - 1, reader := if s.checks then RCheck else RWait)
    case RCheck => if slot.used then s.(reader := RWait) else s.(reader := RIdle, failed := true)
    case RWait => WithSlot(s, s.rindex, slot.(sem := slot.sem - 1)).(reader := RCopy)
    case RCopy => s.(received := s.received + [slot.data], reader := RClear)
    case RClear => WithSlot(s, s.rindex, slot.(used := false)).(reader := RPost)
    case RPost => WithSlot(s, s.rindex, slot.(sem := slot.sem + 1)).(reader := RAdvance)
    case RAdvance => s.(rindex := (s.rindex + 1) % SIZE, reader := RIdle)
  }

  ghost function Step(s: State, e: Event): State
    requires InRange(s) && Enabled(s, e)
  {
    match e
    case Call(m) => s.(writer := WWait(m))
    case WriterStep => StepWriter(s)
    case ReaderStep => StepReader(s)
  }

  ghost predicate Run(checks: bool, es: seq<Event>, s: State) {
    if es == [] then s == Initial(checks)
    else
      var before, last := es[..|es| - 1], es[|es| - 1];
      exists s0 :: Run(checks, before, s0) && InRange(s0) && Enabled(s0, last) && s == Step(s0, last)
  }

  //////////////////// how far the threads have come ////////////////////

  /** The number of slots marked as used. */
  function Marked(s: State): int {
    |s.accepted| - if s.writer.WMark? then 1 else 0
  }

  /** The number of messages that lie complete in their slots. */
  function Filled(s: State): int {
    |s.accepted| - if s.writer.WMark? || s.writer.WCopy? then 1 else 0
  }

  /** The number of triggers sent. */
  function Triggered(s: State): int {
    |s.accepted| - if s.writer.WIdle? || s.writer.WWait? || s.writer.WCheck? then 0 else 1
  }

  /** The number of times the writer has moved on to the next slot. */
  function Advanced(s: State): int {
    |s.accepted| - if s.writer.WMark? || s.writer.WCopy? || s.writer.WPost? || s.writer.WAdvance? then 1 else 0
  }

  /** The number of triggers taken. */
  function Woken(s: State): nat {
    |s.received| + if s.reader.RCheck? || s.reader.RWait? || s.reader.RCopy? then 1 else 0
  }

  /** The number of slots given back. */
  function Cleared(s: State): int {
    |s.received| - if s.reader.RClear? then 1 else 0
  }

  function Passed(s: State): int {
    |s.received| - if s.reader.RClear? || s.reader.RPost? || s.reader.RAdvance? then 1 else 0
  }

  predicate WriterHolds(s: State, k: nat) {
    k == s.windex && (s.stuck || s.writer.WCheck? || s.writer.WMark? || s.writer.WCopy? || s.writer.WPost?)
  }

  predicate ReaderHolds(s: State, k: nat) {
    k == s.rindex && (s.reader.RCopy? || s.reader.RClear? || s.reader.RPost?)
  }

  function SlotOf(n: int): (k: nat)
    ensures k < SIZE
  {
    n % SIZE
  }

  //////////////////// invariant ////////////////////

  ghost predicate Counts(s: State) {
    && InRange(s)
    && 0 <= Passed(s) && 0 <= Advanced(s)
    && s.windex == SlotOf(Advanced(s)) && s.rindex == SlotOf(Passed(s))
    && s.counter == Triggered(s) - Woken(s)
    && |s.accepted| <= Cleared(s) + SIZE
    && (s.stuck ==> s.writer.WIdle? || s.writer.WWait?)
    && !s.failed
  }

  /** The used flags mark the slots from the next one to clear to the last one marked. */
  ghost predicate Flags(s: State)
    requires InRange(s)
  {
    && (forall n :: Cleared(s) <= n < Marked(s) ==> s.slots[SlotOf(n)].used)
    && (forall n :: Marked(s) <= n < Cleared(s) + SIZE ==> !s.slots[SlotOf(n)].used)
  }

  /** Every message not yet read lies in its slot. */
  ghost predicate Kept(s: State)
    requires InRange(s)
  {
    && s.received <= s.accepted
    && (s.writer.WMark? || s.writer.WCopy? ==> s.accepted != [] && s.accepted[|s.accepted| - 1] == s.writer.m)
    && forall n :: |s.received| <= n < Filled(s) ==> s.slots[SlotOf(n)].data == s.accepted[n]
  }

  /** A semaphore is one, or zero when exactly one thread holds it. */
  ghost predicate Exclusive(s: State)
    requires InRange(s)
  {
    forall k :: 0 <= k < SIZE ==>
      && !(WriterHolds(s, k) && ReaderHolds(s, k))
      && s.slots[k].sem == if WriterHolds(s, k) || ReaderHolds(s, k) then 0 else 1
  }

  /** The writer gets stuck only when the ring is full, and then the ring stays full. */
  ghost predicate StuckWhenFull(s: State) {
    s.stuck ==> |s.accepted| == |s.received| + SIZE
  }

  ghost predicate Inv(s: State) {
    Counts(s) && Flags(s) && Kept(s) && Exclusive(s) && StuckWhenFull(s)
  }

  /** Numbers less than a round apart have different slots. */
  lemma SlotsDiffer(a: int, b: int)
    requires a < b < a + SIZE
    ensures SlotOf(a) != SlotOf(b)
  {
  }

  lemma NextSlot(n: int)
    ensures SlotOf(n + 1) == (SlotOf(n) + 1) % SIZE && SlotOf(n + SIZE) == SlotOf(n)
  {
    var q := n / SIZE;
    assert n == SIZE * q + SlotOf(n);
    assert n + SIZE == SIZE * (q + 1) + SlotOf(n);
    if SlotOf(n) + 1 == SIZE {
      assert n + 1 == SIZE * (q + 1) + 0;
    }
  }

  /** Only one number within a round of `n` has the slot of `n`. */
  lemma OthersDiffer(n: int)
    ensures forall m :: n - SIZE < m < n + SIZE && m != n ==> SlotOf(m) != SlotOf(n)
  {
    forall m | n - SIZE < m < n + SIZE && m != n
      ensures SlotOf(m) != SlotOf(n)
    {
      if m < n { SlotsDiffer(m, n); } else { SlotsDiffer(n, m); }
    }
  }

  lemma FullMeansUsed(s: State)
    requires Counts(s) && Flags(s) && s.writer.WCheck? && |s.accepted| == Cleared(s) + SIZE
    ensures s.slots[s.windex].used
  {
    NextSlot(Cleared(s));
    assert s.slots[SlotOf(Cleared(s))].used;
  }

  lemma WriterKeepsCounts(s: State)
    requires Counts(s) && Enabled(s, WriterStep) && (s.stuck ==> s.slots[s.windex].sem == 0)
    requires s.writer.WCheck? && |s.accepted| == Cleared(s) + SIZE ==> s.slots[s.windex].used
    ensures Counts(StepWriter(s))
  {
    if s.writer.WAdvance? {
      NextSlot(Advanced(s));
    }
  }

  /** A step that moves no flag and no count of flags keeps what they mark. */
  lemma SameFlags(s: State, s': State)
    requires InRange(s) && InRange(s') && Flags(s) && Marked(s') == Marked(s) && Cleared(s') == Cleared(s)
    requires forall k :: 0 <= k < SIZE ==> s'.slots[k].used == s.slots[k].used
    ensures Flags(s')
  {
  }

  /** The same for the messages in their slots. */
  lemma SameMessages(s: State, s': State)
    requires InRange(s) && InRange(s') && Kept(s) && Filled(s') == Filled(s)
    requires s'.received == s.received && s.accepted <= s'.accepted
    requires forall k :: 0 <= k < SIZE ==> s'.slots[k].data == s.slots[k].data
    requires s'.writer.WMark? || s'.writer.WCopy? ==>
      s'.accepted != [] && s'.accepted[|s'.accepted| - 1] == s'.writer.m
    ensures Kept(s')
  {
  }

  lemma MarkKeepsFlags(s: State)
    requires Counts(s) && Flags(s) && s.writer.WMark?
    ensures Flags(StepWriter(s))
  {
    OthersDiffer(Advanced(s));
    NextSlot(Cleared(s));
  }

  lemma WriterKeepsFlags(s: State)
    requires Counts(s) && Flags(s) && Enabled(s, WriterStep)
    ensures Flags(StepWriter(s))
  {
    if s.writer.WMark? { MarkKeepsFlags(s); } else { SameFlags(s, StepWriter(s)); }
  }

  lemma CopyInKeepsMessages(s: State)
    requires Counts(s) && Kept(s) && s.writer.WCopy?
    ensures Kept(StepWriter(s))
  {
    OthersDiffer(Advanced(s));
  }

  lemma WriterKeepsMessages(s: State)
    requires Counts(s) && Kept(s) && Enabled(s, WriterStep)
    ensures Kept(StepWriter(s))
  {
    if s.writer.WCopy? { CopyInKeepsMessages(s); } else { SameMessages(s, StepWriter(s)); }
  }

  lemma WriterKeepsExclusive(s: State)
    requires Counts(s) && Exclusive(s) && Enabled(s, WriterStep)
    ensures Exclusive(StepWriter(s))
  {
  }

  /** A trigger has been taken, so a message lies in the slot. */
  lemma WokenFindsUsed(s: State)
    requires Counts(s) && Flags(s) && s.reader.RCheck?
    ensures s.slots[s.rindex].used
  {
    assert s.slots[SlotOf(Cleared(s))].used;
  }

  lemma ReaderKeepsPlace(s: State)
    requires Counts(s) && Enabled(s, ReaderStep)
    ensures var s' := StepReader(s);
      InRange(s') && s'.windex == SlotOf(Advanced(s')) && s'.rindex == SlotOf(Passed(s'))
  {
    match s.reader
    case RIdle =>
    case RCheck =>
    case RWait =>
    case RCopy =>
    case RClear =>
    case RPost =>
    case RAdvance => NextSlot(Passed(s));
  }

  lemma ReaderKeepsCounts(s: State)
    requires Counts(s) && Enabled(s, ReaderStep) && (s.reader.RCheck? ==> s.slots[s.rindex].used)
    ensures Counts(StepReader(s))
  {
    ReaderKeepsPlace(s);
  }

  lemma ClearKeepsFlags(s: State)
    requires Counts(s) && Flags(s) && s.reader.RClear?
    ensures Flags(StepReader(s))
  {
    OthersDiffer(Passed(s));
    NextSlot(Cleared(s));
  }

  lemma ReaderKeepsFlags(s: State)
    requires Counts(s) && Flags(s) && Enabled(s, ReaderStep)
    ensures Flags(StepReader(s))
  {
    if s.reader.RClear? { ClearKeepsFlags(s); } else { SameFlags(s, StepReader(s)); }
  }

  lemma CopyOutKeepsMessages(s: State)
    requires Counts(s) && Kept(s) && s.reader.RCopy?
    ensures Kept(StepReader(s))
  {
    assert s.slots[SlotOf(|s.received|)].data == s.accepted[|s.received|];
  }

  /** The reader writes no data. */
  lemma ReaderKeepsData(s: State)
    requires InRange(s) && Enabled(s, ReaderStep)
    ensures var s' := StepReader(s);
      && |s'.slots| == SIZE && s'.writer == s.writer && s'.accepted == s.accepted
      && (forall k :: 0 <= k < SIZE ==> s'.slots[k].data == s.slots[k].data)
      && (!s.reader.RCopy? ==> s'.received == s.received)
  {
    match s.reader
    case RIdle =>
    case RCheck =>
    case RWait =>
    case RCopy =>
    case RClear =>
    case RPost =>
    case RAdvance =>
  }

  lemma ReaderKeepsMessages(s: State)
    requires Counts(s) && Kept(s) && Enabled(s, ReaderStep)
    ensures Kept(StepReader(s))
  {
    ReaderKeepsData(s);
    if s.reader.RCopy? { CopyOutKeepsMessages(s); } else { SameMessages(s, StepReader(s)); }
  }

  lemma ReaderKeepsExclusive(s: State)
    requires Counts(s) && Exclusive(s) && Enabled(s, ReaderStep)
    ensures Exclusive(StepReader(s))
  {
  }

  /** The writer finds its slot used exactly when the ring is full. */
  lemma OverflowIff(s: State)
    requires Inv(s) && s.writer.WCheck?
    ensures StepWriter(s).stuck <==> |s.accepted| == |s.received| + 100
  {
    NextSlot(Cleared(s));
    NextSlot(Passed(s));
    assert !(WriterHolds(s, s.windex) && ReaderHolds(s, s.windex));
    assert Marked(s) <= |s.accepted| < Cleared(s) + SIZE ==> !s.slots[SlotOf(|s.accepted|)].used;
    assert |s.accepted| == Cleared(s) + SIZE && Cleared(s) < Marked(s) ==> s.slots[SlotOf(Cleared(s))].used;
  }

  lemma WriterKeepsFull(s: State)
    requires Inv(s) && Enabled(s, WriterStep)
    ensures StuckWhenFull(StepWriter(s))
  {
    if s.writer.WCheck? {
      OverflowIff(s);
    }
  }

  /** While the writer is stuck it holds the slot of the next message to read. */
  lemma ReaderKeepsFull(s: State)
    requires Inv(s) && Enabled(s, ReaderStep)
    ensures StuckWhenFull(StepReader(s))
  {
    NextSlot(|s.received|);
    assert !(WriterHolds(s, s.windex) && ReaderHolds(s, s.windex));
  }

  lemma StepKeepsInv(s: State, e: Event)
    requires Inv(s) && Enabled(s, e)
    ensures Inv(Step(s, e))
  {
    match e
    case Call(m) =>
    case WriterStep =>
      if s.writer.WCheck? && |s.accepted| == Cleared(s) + SIZE {
        FullMeansUsed(s);
      }
      WriterKeepsCounts(s);
      WriterKeepsFlags(s);
      WriterKeepsMessages(s);
      WriterKeepsExclusive(s);
      WriterKeepsFull(s);
    case ReaderStep =>
      if s.reader.RCheck? {
        WokenFindsUsed(s);
      }
      ReaderKeepsCounts(s);
      ReaderKeepsFlags(s);
      ReaderKeepsMessages(s);
      ReaderKeepsExclusive(s);
      ReaderKeepsFull(s);
  }

  //////////////////// all runs ////////////////////

  lemma {:induction false} RunsKeepInv(checks: bool, es: seq<Event>, s: State)
    requires Run(checks, es, s)
    ensures Inv(s)
  {
    if es != [] {
      var before, last := es[..|es| - 1], es[|es| - 1];
      var s0 :| Run(checks, before, s0) && InRange(s0) && Enabled(s0, last) && s == Step(s0, last);
      RunsKeepInv(checks, before, s0);
      StepKeepsInv(s0, last);
    }
  }

  /** Under every interleaving: messages are read in the order in which they were accepted,
      at most one round of them is outstanding, each stays in its slot until it is read, a
      woken reader never finds its slot unused, and no slot is held by both threads. */
  lemma RingIsSafe(checks: bool, es: seq<Event>, s: State)
    requires Run(checks, es, s)
    ensures InRange(s) && s.received <= s.accepted && |s.accepted| <= |s.received| + 100
    ensures forall n :: |s.received| <= n < Filled(s) ==> s.slots[SlotOf(n)].data == s.accepted[n]
    ensures !s.failed
    ensures forall k :: 0 <= k < 100 ==> !(WriterHolds(s, k) && ReaderHolds(s, k))
  {
    RunsKeepInv(checks, es, s);
  }

  /** No wakeup is lost: with both threads at rest there is one trigger for every message
      not yet read. */
  lemma NoLostWakeup(checks: bool, es: seq<Event>, s: State)
    requires Run(checks, es, s) && s.writer == WIdle && s.reader == RIdle
    ensures s.counter == |s.accepted| - |s.received|
  {
    RunsKeepInv(checks, es, s);
  }

  /** Unless the writer is stuck, one of the threads can go on as long as there is work. */
  lemma NoDeadlock(checks: bool, es: seq<Event>, s: State)
    requires Run(checks, es, s) && !s.stuck && (s.writer != WIdle || s.reader != RIdle || s.counter > 0)
    ensures InRange(s) && (Enabled(s, WriterStep) || Enabled(s, ReaderStep))
  {
    RunsKeepInv(checks, es, s);
    if s.writer.WWait? && s.reader == RWait {
      assert s.slots[s.windex].sem == 1;
    }
  }

  ghost predicate RunFrom(s: State, es: seq<Event>, s': State)
    decreases |es|
  {
    if es == [] then s' == s
    else
      InRange(s) && Enabled(s, es[0]) && RunFrom(Step(s, es[0]), es[1..], s')
  }

  /** An overflow is final: the writer returned with the semaphore of the slot that is to be
      read next, so from then on no message is accepted and none is read. */
  lemma {:induction false} OverflowIsFinal(s: State, es: seq<Event>, s': State)
    requires Inv(s) && s.stuck && RunFrom(s, es, s')
    ensures Inv(s') && s'.stuck && s'.accepted == s.accepted && s'.received == s.received
    decreases |es|
  {
    if es != [] {
      StepKeepsInv(s, es[0]);
      assert s.writer.WWait? ==> s.slots[s.windex].sem == 0;
      assert !(WriterHolds(s, s.windex) && ReaderHolds(s, s.windex));
      NextSlot(|s.received|);
      OverflowIsFinal(Step(s, es[0]), es[1..], s');
    }
  }

  //////////////////// an overflow can happen ////////////////////

  lemma RunOneMore(checks: bool, es: seq<Event>, s: State, e: Event)
    requires Run(checks, es, s) && InRange(s) && Enabled(s, e)
    ensures Run(checks, es + [e], Step(s, e))
  {
    assert (es + [e])[..|es + [e]| - 1] == es;
  }

  /** Both threads are at rest and nothing has been read. */
  ghost predicate Unread(s: State) {
    s.writer == WIdle && s.reader == RIdle && s.received == [] && !s.stuck
  }

  /** The writer is called and takes the semaphore of its slot. */
  lemma CallAndLock(checks: bool, es: seq<Event>, s: State, m: Packet) returns (es': seq<Event>, s': State)
    requires Run(checks, es, s) && Unread(s)
    ensures Run(checks, es', s') && Inv(s') && s'.writer == WCheck(m) && s'.reader == RIdle
    ensures s'.accepted == s.accepted && s'.received == [] && !s'.stuck
  {
    RunsKeepInv(checks, es, s);
    RunOneMore(checks, es, s, Call(m));
    var waiting := Step(s, Call(m));
    assert waiting.slots[waiting.windex].sem == 1;
    RunOneMore(checks, es + [Call(m)], waiting, WriterStep);
    es', s' := es + [Call(m)] + [WriterStep], Step(waiting, WriterStep);
    RunsKeepInv(checks, es', s');
  }

  lemma WriteOnce(checks: bool, es: seq<Event>, s: State) returns (es': seq<Event>, s': State)
    requires Run(checks, es, s) && Inv(s)
    requires !s.writer.WIdle? && !s.writer.WWait? && !s.writer.WCheck?
    ensures Run(checks, es', s') && Inv(s') && !s'.writer.WWait? && !s'.writer.WCheck?
    ensures Remaining(s'.writer) < Remaining(s.writer)
    ensures s'.reader == s.reader && s'.received == s.received && s'.stuck == s.stuck && s'.accepted == s.accepted
  {
    RunOneMore(checks, es, s, WriterStep);
    StepKeepsInv(s, WriterStep);
    es', s' := es + [WriterStep], Step(s, WriterStep);
  }

  /** From its check on, a writer that is not stuck finishes in six steps. */
  lemma FinishWriting(checks: bool, es: seq<Event>, s: State) returns (es': seq<Event>, s': State)
    requires Run(checks, es, s) && Inv(s) && s.writer.WMark? && s.reader == RIdle && s.received == [] && !s.stuck
    ensures Run(checks, es', s') && Unread(s') && s'.accepted == s.accepted
  {
    es', s' := es, s;
    while s'.writer != WIdle
      invariant Run(checks, es', s') && Inv(s') && s'.reader == RIdle && s'.received == [] && !s'.stuck
      invariant s'.accepted == s.accepted && !s'.writer.WWait? && !s'.writer.WCheck?
      decreases Remaining(s'.writer)
    {
      es', s' := WriteOnce(checks, es', s');
    }
  }

  function Remaining(w: Writer): nat {
    match w
    case WIdle => 0
    case WTrigger => 1
    case WAdvance => 2
    case WPost => 3
    case WCopy(_) => 4
    case WMark(_) => 5
    case WCheck(_) => 6
    case WWait(_) => 7
  }

  /** While the reader sleeps, any number of messages up to a round is accepted. */
  lemma {:induction false} Fill(checks: bool, m: Packet, n: nat) returns (es: seq<Event>, s: State)
    requires n <= SIZE
    ensures Run(checks, es, s) && Unread(s) && |s.accepted| == n
  {
    if n == 0 {
      es, s := [], Initial(checks);
    } else {
      es, s := Fill(checks, m, n - 1);
      es, s := CallAndLock(checks, es, s, m);
      OverflowIff(s);
      RunOneMore(checks, es, s, WriterStep);
      StepKeepsInv(s, WriterStep);
      es, s := FinishWriting(checks, es + [WriterStep], Step(s, WriterStep));
    }
  }

  /** On either ring, and whatever is sent, there is a run that overflows: a
      round of messages that is not read, and one more call. */
  lemma CanOverflow(checks: bool, m: Packet) returns (es: seq<Event>, s: State)
    ensures Run(checks, es, s) && s.stuck && |s.accepted| == 100 && s.received == []
  {
    es, s := Fill(checks, m, SIZE);
    es, s := CallAndLock(checks, es, s, m);
    OverflowIff(s);
    RunOneMore(checks, es, s, WriterStep);
    es, s := es + [WriterStep], Step(s, WriterStep);
  }
}
