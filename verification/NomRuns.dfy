/** Whole runs of the link layer policy: what every step keeps, how often a packet is sent,
    and that no pending packet is overtaken twice. */
module NomRuns {
  import opened Names
  import opened PacketStorage
  import opened NomPolicy

  datatype Event =
    | Out(p: Outgoing, data: Packet, now: Timer, rand: nat, distance: Option<real>)
    | Transmit(now: Timer)
    | HeardInterest(name: Name, nonce: nat, acks: bool)
    | HeardContent(name: Name, acks: bool)

  /** At most one pending packet is left that a content heard satisfies. */
  ghost predicate OneMatch(t: Table, name: Name, acks: bool) {
    |Matches(AckedByContent(t, name, acks), name, |name| + 1)| <= 1
  }

  /** The clock may show any time. */
  ghost predicate Enabled(s: State, e: Event) {
    match e
    case Out(_, _, _, _, distance) => distance != None ==> distance.value >= 0.0
    case HeardContent(name, acks) => OneMatch(s.table, name, acks)
    case _ => true
  }

  /** The event reads the clock. */
  ghost predicate ReadsClock(s: State, e: Event) {
    (e.Out? && e.p != Unknown) || (e.Transmit? && s.table != [] && s.table[0].retransmission < s.table[0].limit)
  }

  /** If it does, it reads a later time than before, and the second counter has not run over. */
  ghost predicate OnTime(s: State, e: Event) {
    ReadsClock(s, e) ==> BeforeWrap(e.now) && s.clock < Micros(e.now)
  }

  ghost function Step(s: State, e: Event): State
    requires Enabled(s, e)
  {
    match e
    case Out(p, data, now, rand, distance) =>
      AfterOutgoing(s, p, data, FirstTimer(now, rand % MAX_TCA, distance), now)
    case Transmit(now) => AfterTransmit(s, now)
    case HeardInterest(name, nonce, acks) => AfterInterestHeard(s, name, nonce, acks)
    case HeardContent(name, acks) => AfterContentHeard(s, name, acks)
  }

  ghost predicate StepsTo(ss: seq<State>, es: seq<Event>, i: nat)
    requires i < |es| < |ss|
  {
    Enabled(ss[i], es[i]) && ss[i + 1] == Step(ss[i], es[i])
  }

  /** A run from the empty storage: the states before and after each event. */
  ghost predicate Trace(ss: seq<State>, es: seq<Event>) {
    && |ss| == |es| + 1 && ss[0] == State([], 0, 0)
    && forall i: nat :: i < |es| ==> StepsTo(ss, es, i)
  }

  /** Every reading of the clock in the run is later than the one before. */
  ghost predicate StrictClock(ss: seq<State>, es: seq<Event>)
    requires |es| <= |ss|
  {
    forall i {:trigger es[i]} :: 0 <= i < |es| ==> OnTime(ss[i], es[i])
  }

  //////////////////// invariant ////////////////////

  ghost predicate DueSoon(t: Table, clock: nat) {
    forall x :: x in t ==> Normal(x.timer) && Micros(x.timer) <= clock + 500000
  }

  ghost predicate Keyed(t: Table) {
    forall x :: x in t ==> x.name == InterestKey(x.components) || x.name == DataKey(x.components)
  }

  ghost predicate Inv(s: State) {
    && Ordered(s.table) && Unique(s.table) && Counted(s.table) && Keyed(s.table)
    && forall x :: x in s.table ==> x.id < s.nextId
  }

  /** The packet of insertion `id` is the one the event sends. */
  ghost predicate Sends(s: State, e: Event, id: nat) {
    e.Transmit? && s.table != [] && s.table[0].id == id
  }

  ghost predicate Waiting(s: State, id: nat) {
    exists x :: x in s.table && x.id == id
  }

  ghost function Pending(s: State, id: nat): (x: Element)
    requires Waiting(s, id)
    ensures x in s.table && x.id == id
  {
    var x :| x in s.table && x.id == id;
    x
  }

  function Resent(x: Element, now: Timer): Element {
    x.(retransmission := x.retransmission + 1, timer := NextTimer(now))
  }

  /** A packet still waiting after a step was waiting before and has not changed, unless it
      has just been sent or stored. */
  ghost predicate Changed(s: State, s': State, e: Event) {
    && (forall y :: y in s'.table ==>
          || (y in s.table && !Sends(s, e, y.id))
          || (y.id == s.nextId < s'.nextId && y.retransmission == 1)
          || (Sends(s, e, y.id) && y == Resent(s.table[0], e.now)))
    && s'.nextId <= s.nextId + 1 && (s.nextId < s'.nextId ==> Waiting(s', s.nextId))
  }

  lemma StoreKeepsInv(s: State, data: Packet, name: Key, components: Name, nonce: nat, timer: Timer, now: Timer)
    requires Inv(s) && !Stored(s.table, name, components)
    requires name == InterestKey(components) || name == DataKey(components)
    ensures var s' := Store(s, data, name, components, nonce, timer, now);
      Inv(s') && forall y :: y in s'.table <==>
        (y in s.table || y == Element(s.nextId, name, components, nonce, data, 1, MAX_RETRANSMISSION, timer))
  {
    InsertKeepsIndices(s.table, Element(s.nextId, name, components, nonce, data, 1, MAX_RETRANSMISSION, timer));
  }

  lemma PurgeKeepsInv(s: State, name: Name)
    requires Inv(s)
    ensures Inv(s.(table := Purged(s.table, name)))
    ensures forall x :: x in Purged(s.table, name) <==> x in s.table && !(x.components <= name)
  {
    PurgedContents(s.table, name);
  }

  lemma OutgoingKeeps(s: State, p: Outgoing, data: Packet, timer: Timer, now: Timer)
    requires Inv(s)
    ensures var s' := AfterOutgoing(s, p, data, timer, now);
      && Inv(s') && s.nextId <= s'.nextId <= s.nextId + 1 && (s.nextId < s'.nextId ==> Waiting(s', s.nextId))
      && forall y :: y in s'.table ==>
           y in s.table || (y.id == s.nextId < s'.nextId && y.retransmission == 1 && y.timer == timer)
  {
    match p
    case Unknown =>
    case Interest(name, nonce) =>
      if !Stored(s.table, InterestKey(name), name) {
        StoreKeepsInv(s, data, InterestKey(name), name, nonce, timer, now);
      }
    case Content(name) =>
      PurgeKeepsInv(s, name);
      var s1 := s.(table := Purged(s.table, name));
      if !Stored(s1.table, DataKey(name), name) {
        StoreKeepsInv(s1, data, DataKey(name), name, NO_NONCE, timer, now);
      }
  }

  lemma FirstTimerIsSoon(now: Timer, rand: nat, distance: Option<real>)
    requires BeforeWrap(now) && (distance != None ==> distance.value >= 0.0)
    ensures var timer := FirstTimer(now, rand % MAX_TCA, distance);
      Normal(timer) && Micros(now) <= Micros(timer) <= Micros(now) + 1999 + 5000
  {
    GapBound(distance);
    LaterIsExact(now, rand % MAX_TCA + Gap(distance));
  }

  lemma OutgoingKeepsInv(s: State, e: Event)
    requires Inv(s) && e.Out? && Enabled(s, e)
    ensures Inv(Step(s, e)) && Changed(s, Step(s, e), e) && s.nextId <= Step(s, e).nextId
  {
    OutgoingKeeps(s, e.p, e.data, FirstTimer(e.now, e.rand % MAX_TCA, e.distance), e.now);
  }

  lemma TransmitKeepsInv(s: State, now: Timer)
    requires Inv(s) && Enabled(s, Transmit(now))
    ensures var s' := Step(s, Transmit(now)); Inv(s') && Changed(s, s', Transmit(now)) && s'.nextId == s.nextId
    ensures s.table != [] ==>
      && (s.table[0].retransmission < MAX_RETRANSMISSION <==> Waiting(AfterTransmit(s, now), s.table[0].id))
      && forall x :: x in s.table && x.id != s.table[0].id ==> x in AfterTransmit(s, now).table
  {
    if s.table != [] {
      var x := s.table[0];
      assert x in s.table;
      if x.retransmission >= x.limit {
        RemoveKeepsIndices(s.table, 0);
      } else {
        var y := x.(retransmission := x.retransmission + 1, timer := NextTimer(now));
        ReplaceKeepsIndices(s.table, 0, y);
        assert y in AfterTransmit(s, now).table && y.id == x.id;
      }
    }
  }

  lemma HeardKeepsInv(s: State, e: Event)
    requires Inv(s) && Enabled(s, e) && (e.HeardInterest? || e.HeardContent?)
    ensures Inv(Step(s, e)) && Changed(s, Step(s, e), e) && s.nextId == Step(s, e).nextId
  {
    match e
    case HeardInterest(name, nonce, acks) =>
      WithoutKeyContents(s.table, InterestKey(name));
    case HeardContent(name, acks) =>
      WithoutKeyContents(s.table, DataKey(name));
      PurgeKeepsInv(s.(table := AckedByContent(s.table, name, acks)), name);
  }

  lemma StepKeepsInv(s: State, e: Event)
    requires Inv(s) && Enabled(s, e)
    ensures Inv(Step(s, e)) && Changed(s, Step(s, e), e) && s.nextId <= Step(s, e).nextId
  {
    match e
    case Out(_, _, _, _, _) => OutgoingKeepsInv(s, e);
    case Transmit(now) => TransmitKeepsInv(s, now);
    case HeardInterest(_, _, _) => HeardKeepsInv(s, e);
    case HeardContent(_, _) => HeardKeepsInv(s, e);
  }

  /** In every state of every run, whatever the clock does, the table is in the order of its
      deadlines, keys, names and identities are unique, and the retransmission counts lie
      between one and the limit. */
  lemma {:induction false} TraceKeepsInv(ss: seq<State>, es: seq<Event>, i: nat)
    requires Trace(ss, es) && i <= |es|
    ensures Inv(ss[i])
  {
    if i > 0 {
      TraceKeepsInv(ss, es, i - 1);
      InvCarriesOver(ss, es, i - 1);
    }
  }

  lemma InvCarriesOver(ss: seq<State>, es: seq<Event>, i: nat)
    requires Trace(ss, es) && i < |es| && Inv(ss[i])
    ensures Inv(ss[i + 1]) && ss[i].nextId <= ss[i + 1].nextId
  {
    assert StepsTo(ss, es, i);
    StepKeepsInv(ss[i], es[i]);
  }

  lemma OutgoingKeepsDeadlines(s: State, e: Event)
    requires Inv(s) && DueSoon(s.table, s.clock) && e.Out? && Enabled(s, e) && OnTime(s, e)
    ensures DueSoon(Step(s, e).table, Step(s, e).clock) && s.clock <= Step(s, e).clock
  {
    if e.p != Unknown {
      FirstTimerIsSoon(e.now, e.rand, e.distance);
    }
    OutgoingKeeps(s, e.p, e.data, FirstTimer(e.now, e.rand % MAX_TCA, e.distance), e.now);
  }

  lemma StepKeepsDeadlines(s: State, e: Event)
    requires Inv(s) && DueSoon(s.table, s.clock) && Enabled(s, e) && OnTime(s, e)
    ensures DueSoon(Step(s, e).table, Step(s, e).clock) && s.clock <= Step(s, e).clock
  {
    StepKeepsInv(s, e);
    match e
    case Out(_, _, _, _, _) => OutgoingKeepsDeadlines(s, e);
    case Transmit(now) =>
      if ReadsClock(s, e) {
        LaterIsExact(now, RETRANSMISSION_USEC);
      }
    case _ =>
  }

  /** With a strict clock every deadline is at most half a second after the last reading. */
  lemma {:induction false} TraceKeepsDeadlines(ss: seq<State>, es: seq<Event>, i: nat)
    requires Trace(ss, es) && StrictClock(ss, es) && i <= |es|
    ensures DueSoon(ss[i].table, ss[i].clock)
  {
    if i > 0 {
      TraceKeepsInv(ss, es, i - 1);
      TraceKeepsDeadlines(ss, es, i - 1);
      DeadlinesCarryOver(ss, es, i - 1);
    }
  }

  lemma DeadlinesCarryOver(ss: seq<State>, es: seq<Event>, i: nat)
    requires Trace(ss, es) && StrictClock(ss, es) && i < |es| && Inv(ss[i]) && DueSoon(ss[i].table, ss[i].clock)
    ensures DueSoon(ss[i + 1].table, ss[i + 1].clock)
  {
    assert StepsTo(ss, es, i);
    StepKeepsDeadlines(ss[i], es[i]);
  }

  //////////////////// one packet over one step ////////////////////

  /** What a step may do to the packet of insertion `id`. Stored by the step, it starts at
      count one. Stored earlier and still waiting, it has not changed unless the step sent it,
      which counts up. */
  ghost predicate Fate(s: State, e: Event, s': State, id: nat) {
    if id >= s.nextId then
      && !Waiting(s, id) && !Sends(s, e, id) && (Waiting(s', id) <==> id < s'.nextId)
      && (Waiting(s', id) ==> Pending(s', id).retransmission == 1)
    else
      && (Waiting(s', id) ==> Waiting(s, id))
      && (Waiting(s', id) && !Sends(s, e, id) ==> Pending(s', id) == Pending(s, id))
      && (Sends(s, e, id) ==>
            Waiting(s, id) && (Waiting(s', id) <==> Pending(s, id).retransmission < MAX_RETRANSMISSION))
      && (Sends(s, e, id) && Waiting(s', id) ==> Pending(s', id) == Resent(Pending(s, id), e.now))
  }

  lemma FateUnlessSent(s: State, e: Event, s': State, id: nat)
    requires Inv(s) && Inv(s') && Changed(s, s', e) && s.nextId <= s'.nextId && !Sends(s, e, id)
    ensures Fate(s, e, s', id)
  {
    assert forall x, y :: x in s.table && y in s.table && x.id == y.id ==> x == y;
  }

  lemma FateIfSent(s: State, e: Event, s': State, id: nat)
    requires Inv(s) && Inv(s') && Changed(s, s', e) && s.nextId <= s'.nextId && Sends(s, e, id)
    requires s.table[0].retransmission < MAX_RETRANSMISSION <==> Waiting(s', id)
    ensures Fate(s, e, s', id)
  {
    assert s.table[0] in s.table && Pending(s, id) == s.table[0];
  }

  lemma StepOf(s: State, e: Event, id: nat)
    requires Inv(s) && Enabled(s, e)
    ensures Fate(s, e, Step(s, e), id)
  {
    StepKeepsInv(s, e);
    if Sends(s, e, id) {
      TransmitKeepsInv(s, e.now);
      FateIfSent(s, e, Step(s, e), id);
    } else {
      FateUnlessSent(s, e, Step(s, e), id);
    }
  }

  ghost predicate FateAt(ss: seq<State>, es: seq<Event>, k: nat, id: nat)
    requires k < |es| < |ss|
  {
    ss[k].nextId <= ss[k + 1].nextId && Fate(ss[k], es[k], ss[k + 1], id)
  }

  /** A run as far as it concerns single packets. */
  ghost predicate Steady(ss: seq<State>, es: seq<Event>) {
    |ss| == |es| + 1 && forall k: nat, id: nat :: k < |es| ==> FateAt(ss, es, k, id)
  }

  lemma TraceIsSteady(ss: seq<State>, es: seq<Event>)
    requires Trace(ss, es)
    ensures Steady(ss, es)
  {
    forall k: nat, id: nat | k < |es|
      ensures FateAt(ss, es, k, id)
    {
      TraceKeepsInv(ss, es, k);
      InvCarriesOver(ss, es, k);
      assert StepsTo(ss, es, k);
      StepOf(ss[k], es[k], id);
    }
  }

  /** A packet waiting at `j` has been waiting ever since it was stored. */
  lemma {:induction false} WaitingSince(ss: seq<State>, es: seq<Event>, id: nat, i: nat, j: nat)
    requires Steady(ss, es) && i <= j <= |es| && id < ss[i].nextId
    ensures id < ss[j].nextId && (Waiting(ss[j], id) ==> Waiting(ss[i], id))
    decreases j - i
  {
    if i < j {
      assert FateAt(ss, es, i, id);
      WaitingSince(ss, es, id, i + 1, j);
    }
  }

  //////////////////// fairness ////////////////////

  /** What a strict clock adds: it does not go back, and a packet sent and still waiting is
      due half a second after a later reading. */
  ghost predicate Punctual(s: State, e: Event, s': State, id: nat) {
    && s.clock <= s'.clock
    && (Sends(s, e, id) && Waiting(s', id) ==>
          s.clock < s'.clock && Micros(Pending(s', id).timer) == s'.clock + RETRANSMISSION_USEC)
  }

  lemma StepIsPunctual(s: State, e: Event, id: nat)
    requires Inv(s) && DueSoon(s.table, s.clock) && Enabled(s, e) && OnTime(s, e)
    ensures Punctual(s, e, Step(s, e), id)
  {
    StepKeepsDeadlines(s, e);
    StepOf(s, e, id);
    if Sends(s, e, id) && Waiting(Step(s, e), id) {
      assert s.table[0] in s.table && Pending(s, id) == s.table[0];
      LaterIsExact(e.now, RETRANSMISSION_USEC);
    }
  }

  ghost predicate PunctualAt(ss: seq<State>, es: seq<Event>, k: nat, id: nat)
    requires k < |es| < |ss|
  {
    Punctual(ss[k], es[k], ss[k + 1], id)
  }

  ghost predicate AllPunctual(ss: seq<State>, es: seq<Event>) {
    |ss| == |es| + 1 && forall k: nat, id: nat :: k < |es| ==> PunctualAt(ss, es, k, id)
  }

  lemma TraceIsPunctual(ss: seq<State>, es: seq<Event>)
    requires Trace(ss, es) && StrictClock(ss, es)
    ensures AllPunctual(ss, es)
  {
    forall k: nat, id: nat | k < |es|
      ensures PunctualAt(ss, es, k, id)
    {
      TraceKeepsInv(ss, es, k);
      TraceKeepsDeadlines(ss, es, k);
      assert StepsTo(ss, es, k);
      StepIsPunctual(ss[k], es[k], id);
    }
  }

  /** After `p` has been sent at `i`, and as long as `q` is not sent, `q` keeps its deadline
      and that of `p` is half a second after the sending or later. */
  lemma {:induction false} Overtaking(ss: seq<State>, es: seq<Event>, p: nat, q: nat, i: nat, m: nat, j: nat)
    requires Steady(ss, es) && AllPunctual(ss, es) && i < m <= j < |es|
    requires p != q && p < ss[i].nextId && q < ss[i].nextId
    requires Sends(ss[i], es[i], p) && Waiting(ss[j], p) && Waiting(ss[j], q)
    requires forall k :: i < k < j ==> !Sends(ss[k], es[k], q)
    ensures ss[m].clock >= ss[i + 1].clock > ss[i].clock
    ensures Waiting(ss[i], q) && Waiting(ss[m], q) && Pending(ss[m], q) == Pending(ss[i], q)
    ensures Waiting(ss[m], p) && Micros(Pending(ss[m], p).timer) >= ss[i + 1].clock + RETRANSMISSION_USEC
    decreases m
  {
    WaitingSince(ss, es, p, i, m);
    WaitingSince(ss, es, q, i, m);
    WaitingSince(ss, es, p, m, j);
    WaitingSince(ss, es, q, m, j);
    if m > i + 1 {
      Overtaking(ss, es, p, q, i, m - 1, j);
      WaitingSince(ss, es, p, i, m - 1);
      WaitingSince(ss, es, q, i, m - 1);
    }
    assert FateAt(ss, es, m - 1, p) && FateAt(ss, es, m - 1, q);
    assert PunctualAt(ss, es, m - 1, p);
  }

  /** Round robin: with a strict clock, between two transmissions of one packet every other
      packet that was pending at the first and is still pending at the second has been
      transmitted. */
  lemma RoundRobin(ss: seq<State>, es: seq<Event>, p: nat, q: nat, i: nat, j: nat)
    requires Trace(ss, es) && StrictClock(ss, es) && i < j < |es| && p != q
    requires Sends(ss[i], es[i], p) && Sends(ss[j], es[j], p)
    requires Waiting(ss[i], q) && Waiting(ss[j], q)
    ensures exists k :: i < k < j && Sends(ss[k], es[k], q)
  {
    if forall k :: i < k < j ==> !Sends(ss[k], es[k], q) {
      TraceKeepsInv(ss, es, i);
      TraceKeepsInv(ss, es, j);
      TraceKeepsDeadlines(ss, es, i);
      TraceKeepsDeadlines(ss, es, j);
      TraceIsSteady(ss, es);
      TraceIsPunctual(ss, es);
      NotOvertaken(ss, es, p, q, i, j);
    }
  }

  lemma NotOvertaken(ss: seq<State>, es: seq<Event>, p: nat, q: nat, i: nat, j: nat)
    requires Steady(ss, es) && AllPunctual(ss, es) && i < j < |es| && p != q && Inv(ss[i]) && Inv(ss[j])
    requires DueSoon(ss[i].table, ss[i].clock) && DueSoon(ss[j].table, ss[j].clock)
    requires Sends(ss[i], es[i], p) && Waiting(ss[i], q) && Waiting(ss[j], p) && Waiting(ss[j], q)
    requires forall k :: i < k < j ==> !Sends(ss[k], es[k], q)
    ensures !Sends(ss[j], es[j], p)
  {
    assert ss[i].table[0] in ss[i].table;
    Overtaking(ss, es, p, q, i, j, j);
    OrderIsTotalMicros(Pending(ss[j], q).timer, Pending(ss[j], p).timer);
  }

  //////////////////// draining ////////////////////

  /** How often the first `k` events send the packet. */
  ghost function SendCount(ss: seq<State>, es: seq<Event>, id: nat, k: nat): nat
    requires k <= |es| <= |ss|
  {
    if k == 0 then 0 else SendCount(ss, es, id, k - 1) + if Sends(ss[k - 1], es[k - 1], id) then 1 else 0
  }

  /** Some step before `k` takes the packet away without sending it: it was acknowledged or
      purged. */
  ghost predicate Settled(ss: seq<State>, es: seq<Event>, id: nat, k: nat)
    requires k <= |es| < |ss|
  {
    exists i :: 0 <= i < k && Waiting(ss[i], id) && !Waiting(ss[i + 1], id) && !Sends(ss[i], es[i], id)
  }

  lemma {:induction false} SentUpToEight(ss: seq<State>, es: seq<Event>, id: nat, k: nat)
    requires Steady(ss, es) && ss[0].table == [] && ss[0].nextId == 0 && k <= |es|
    ensures SendCount(ss, es, id, k) <= MAX_RETRANSMISSION
    ensures Waiting(ss[k], id) ==>
      && id < ss[k].nextId && !Settled(ss, es, id, k)
      && Pending(ss[k], id).retransmission == SendCount(ss, es, id, k) + 1 <= MAX_RETRANSMISSION
    ensures id >= ss[k].nextId ==> SendCount(ss, es, id, k) == 0 && !Settled(ss, es, id, k)
    ensures SendCount(ss, es, id, k) == MAX_RETRANSMISSION <==>
      id < ss[k].nextId && !Waiting(ss[k], id) && !Settled(ss, es, id, k)
  {
    if k > 0 {
      SentUpToEight(ss, es, id, k - 1);
      assert FateAt(ss, es, k - 1, id);
      assert Settled(ss, es, id, k) <==>
        || Settled(ss, es, id, k - 1)
        || (Waiting(ss[k - 1], id) && !Waiting(ss[k], id) && !Sends(ss[k - 1], es[k - 1], id));
    }
  }

  /** A packet is sent at most eight times, and exactly eight times if and only if it has
      been stored, has left the storage and was neither acknowledged nor purged. */
  lemma SentEightTimes(ss: seq<State>, es: seq<Event>, id: nat, k: nat)
    requires Trace(ss, es) && k <= |es|
    ensures SendCount(ss, es, id, k) <= 8
    ensures Waiting(ss[k], id) ==> Pending(ss[k], id).retransmission == SendCount(ss, es, id, k) + 1
    ensures SendCount(ss, es, id, k) == 8 <==>
      id < ss[k].nextId && !Waiting(ss[k], id) && !Settled(ss, es, id, k)
  {
    TraceIsSteady(ss, es);
    SentUpToEight(ss, es, id, k);
  }

  /** Transmissions still owed. */
  function Budget(t: Table): int {
    if t == [] then 0 else t[0].limit - t[0].retransmission + 1 + Budget(t[1..])
  }

  lemma {:induction false} BudgetInsert(t: Table, i: nat, x: Element)
    requires i <= |t|
    ensures Budget(InsertAt(t, i, x)) == Budget(t) + x.limit - x.retransmission + 1
  {
    var s := InsertAt(t, i, x);
    if i == 0 {
      assert s[1..] == t;
    } else {
      assert s[1..] == InsertAt(t[1..], i - 1, x);
      BudgetInsert(t[1..], i - 1, x);
    }
  }

  lemma BudgetReplace(t: Table, y: Element)
    requires t != []
    ensures Budget(RemoveAt(t, 0)) == Budget(t) - (t[0].limit - t[0].retransmission + 1)
    ensures Budget(Replaced(t, 0, y)) == Budget(RemoveAt(t, 0)) + y.limit - y.retransmission + 1
  {
    var rest := RemoveAt(t, 0);
    assert rest == t[1..] == t[0 := y][1..];
    BudgetInsert(rest, UpperBound(rest, y.timer), y);
  }

  /** Every transmission uses up exactly one of those owed. */
  lemma BudgetFalls(s: State, now: Timer)
    requires Inv(s) && s.table != []
    ensures Budget(AfterTransmit(s, now).table) == Budget(s.table) - 1
  {
    var x := s.table[0];
    assert x in s.table;
    BudgetReplace(s.table, x.(retransmission := x.retransmission + 1, timer := NextTimer(now)));
  }

  ghost predicate Quiet(ss: seq<State>, es: seq<Event>, i: nat, n: nat)
    requires i + n <= |es|
  {
    forall k :: i <= k < i + n ==> es[k].Transmit?
  }

  lemma DrainsByOne(ss: seq<State>, es: seq<Event>, k: nat)
    requires Trace(ss, es) && k < |es| && es[k].Transmit? && ss[k].table != []
    ensures Budget(ss[k + 1].table) == Budget(ss[k].table) - 1
  {
    TraceKeepsInv(ss, es, k);
    assert StepsTo(ss, es, k);
    BudgetFalls(ss[k], es[k].now);
  }

  /** With nothing new to send, the storage is empty after exactly as many transmissions as
      are owed, and not before. */
  lemma {:induction false} Drains(ss: seq<State>, es: seq<Event>, i: nat, n: nat)
    requires Trace(ss, es) && i + n <= |es| && Quiet(ss, es, i, n) && n <= Budget(ss[i].table)
    ensures Budget(ss[i + n].table) == Budget(ss[i].table) - n
    ensures ss[i + n].table == [] <==> n == Budget(ss[i].table)
  {
    TraceKeepsInv(ss, es, i + n);
    BudgetIsPositive(ss[i + n].table);
    if n > 0 {
      Drains(ss, es, i, n - 1);
      DrainsByOne(ss, es, i + n - 1);
    }
  }

  lemma {:induction false} BudgetIsPositive(t: Table)
    requires Counted(t)
    ensures Budget(t) >= |t|
  {
    if t != [] {
      assert t[0] in t;
      BudgetIsPositive(t[1..]);
    }
  }
}
