/** When a content is stored for transmission: the key strings of names, and what happens
    to the packets already pending. */
module NomFacts {
  import opened Names
  import opened PacketStorage
  import opened NomPolicy
  import opened NomRuns

  //////////////////// keys ////////////////////

  ghost predicate SlashFree(name: Name) {
    forall i, k :: 0 <= i < |name| && 0 <= k < |name[i]| ==> name[i][k] != SLASH
  }

  /** The last component starts behind the last but one slash of the key. */
  lemma SlashPositions(name: Name)
    requires name != []
    ensures var s, c := Joined(name), name[|name| - 1];
      && |s| == |Joined(name[..|name| - 1])| + |c| + 1
      && s[|s| - 1 - |c|..|s| - 1] == c && s[..|s| - 1 - |c|] == Joined(name[..|name| - 1])
      && (|name| > 1 ==> |s| >= |c| + 2 && s[|s| - 2 - |c|] == SLASH)
  {
    var before, c := name[..|name| - 1], name[|name| - 1];
    assert Joined(name) == Joined(before) + c + [SLASH];
    if |name| > 1 {
      assert Joined(before) == Joined(before[..|before| - 1]) + before[|before| - 1] + [SLASH];
    }
  }

  lemma NoSlashAtTheEnd(name: Name, j: nat)
    requires name != [] && SlashFree(name)
    requires |Joined(name)| - 1 - |name[|name| - 1]| <= j < |Joined(name)| - 1
    ensures Joined(name)[j] != SLASH
  {
    SlashPositions(name);
    var s, c := Joined(name), name[|name| - 1];
    assert s[j] == s[|s| - 1 - |c|..|s| - 1][j - (|s| - 1 - |c|)];
  }

  lemma LastComponentNotShorter(a: Name, b: Name)
    requires a != [] && b != [] && SlashFree(b) && Joined(a) == Joined(b)
    ensures |a[|a| - 1]| >= |b[|b| - 1]|
  {
    SlashPositions(a);
    SlashPositions(b);
    forall j | |Joined(b)| - 1 - |b[|b| - 1]| <= j < |Joined(b)| - 1
      ensures Joined(b)[j] != SLASH
    {
      NoSlashAtTheEnd(b, j);
    }
  }

  /** Names whose components hold no slash have different key strings. */
  lemma {:induction false} JoinInjective(a: Name, b: Name)
    requires SlashFree(a) && SlashFree(b) && Joined(a) == Joined(b)
    ensures a == b
  {
    if a != [] && b != [] {
      LastComponentNotShorter(a, b);
      LastComponentNotShorter(b, a);
      SlashPositions(a);
      SlashPositions(b);
      JoinInjective(a[..|a| - 1], b[..|b| - 1]);
      assert a == a[..|a| - 1] + [a[|a| - 1]] && b == b[..|b| - 1] + [b[|b| - 1]];
    }
  }

  lemma KeyKinds(a: Name, b: Name)
    ensures InterestKey(a) != DataKey(b)
    ensures InterestKey(a) == InterestKey(b) <==> Joined(a) == Joined(b)
    ensures DataKey(a) == DataKey(b) <==> Joined(a) == Joined(b)
  {
    assert InterestKey(a)[0] == 73 && DataKey(b)[0] == 68;
    assert InterestKey(a)[8..] == Joined(a) && InterestKey(b)[8..] == Joined(b);
    assert DataKey(a)[10..] == Joined(a) && DataKey(b)[10..] == Joined(b);
  }

  //////////////////// sending a content ////////////////////

  /** Sending a content leaves exactly the pending packets whose name is not a prefix of its
      name, and stores the content unless one of those has its key. */
  lemma ContentPurgesAndIsStored(s: State, name: Name, data: Packet, timer: Timer, now: Timer)
    requires Inv(s)
    ensures var s', x := AfterOutgoing(s, Content(name), data, timer, now),
          Element(s.nextId, DataKey(name), name, NO_NONCE, data, 1, MAX_RETRANSMISSION, timer);
      && (forall y :: y in s'.table <==> (y in s.table && !(y.components <= name)) || (y == x && x in s'.table))
      && s'.nextId == s.nextId + (if x in s'.table then 1 else 0)
      && (x in s'.table <==> forall y :: y in s.table && y.name == DataKey(name) ==> y.components <= name)
  {
    PurgeKeepsInv(s, name);
    var t := Purged(s.table, name);
    if !Stored(t, DataKey(name), name) {
      InsertKeepsIndices(t, Element(s.nextId, DataKey(name), name, NO_NONCE, data, 1, MAX_RETRANSMISSION, timer));
    }
  }

  //////////////////// sending an interest ////////////////////

  /** Sending an interest takes nothing away, and stores the interest exactly when no pending
      packet, interest or content, has its name and none has its key. */
  lemma InterestIsStoredIff(s: State, name: Name, nonce: nat, data: Packet, timer: Timer, now: Timer)
    requires Inv(s)
    ensures var s', x := AfterOutgoing(s, Interest(name, nonce), data, timer, now),
          Element(s.nextId, InterestKey(name), name, nonce, data, 1, MAX_RETRANSMISSION, timer);
      && (forall y :: y in s'.table <==> y in s.table || (y == x && x in s'.table))
      && s'.nextId == s.nextId + (if x in s'.table then 1 else 0)
      && (x in s'.table <==> forall y :: y in s.table ==> y.components != name && y.name != InterestKey(name))
  {
    if !Stored(s.table, InterestKey(name), name) {
      StoreKeepsInv(s, data, InterestKey(name), name, nonce, timer, now);
    }
  }

  /** In every run without slashes in names, an interest is stored exactly when no packet of
      its name is pending. */
  lemma InterestStoredUnlessPending(ss: seq<State>, es: seq<Event>, i: nat)
    requires Trace(ss, es) && SlashFreeEvents(es) && i < |es| && es[i].Out? && es[i].p.Interest?
    ensures ss[i + 1].nextId == ss[i].nextId + 1 <==>
      forall y :: y in ss[i].table ==> y.components != es[i].p.name
  {
    TraceKeepsInv(ss, es, i);
    RunsKeepSlashFree(ss, es, i);
    assert StepsTo(ss, es, i);
    var s, e := ss[i], es[i];
    var name := e.p.name;
    forall y | y in s.table && y.name == InterestKey(name)
      ensures y.components == name
    {
      KeyKinds(y.components, name);
      KeyKinds(name, y.components);
      JoinInjective(y.components, name);
    }
    InterestIsStoredIff(s, name, e.p.nonce, e.data, FirstTimer(e.now, e.rand % MAX_TCA, e.distance), e.now);
  }

  //////////////////// names without slashes ////////////////////

  ghost predicate SlashFreeNames(t: Table) {
    forall x :: x in t ==> SlashFree(x.components)
  }

  /** Every name handed down by the daemon is free of slashes. */
  ghost predicate SlashFreeEvents(es: seq<Event>) {
    forall k :: 0 <= k < |es| && es[k].Out? && es[k].p != Unknown ==> SlashFree(es[k].p.name)
  }

  lemma StepKeepsSlashFree(s: State, e: Event)
    requires Inv(s) && Enabled(s, e) && SlashFreeNames(s.table)
    requires e.Out? && e.p != Unknown ==> SlashFree(e.p.name)
    ensures SlashFreeNames(Step(s, e).table)
  {
    match e
    case Out(p, data, now, rand, distance) =>
      OutgoingKeepsSlashFree(s, p, data, FirstTimer(now, rand % MAX_TCA, distance), now);
    case Transmit(now) =>
      StepKeepsInv(s, e);
      TransmitKeepsInv(s, now);
      assert s.table != [] ==> s.table[0] in s.table;
    case HeardInterest(name, nonce, acks) =>
      WithoutKeyContents(s.table, InterestKey(name));
    case HeardContent(name, acks) =>
      WithoutKeyContents(s.table, DataKey(name));
      PurgedContents(AckedByContent(s.table, name, acks), name);
  }

  lemma OutgoingKeepsSlashFree(s: State, p: Outgoing, data: Packet, timer: Timer, now: Timer)
    requires Inv(s) && SlashFreeNames(s.table) && (p != Unknown ==> SlashFree(p.name))
    ensures SlashFreeNames(AfterOutgoing(s, p, data, timer, now).table)
  {
    match p
    case Unknown =>
    case Interest(name, nonce) =>
      InsertedContents(s.table, Element(s.nextId, InterestKey(name), name, nonce, data, 1, MAX_RETRANSMISSION, timer));
    case Content(name) =>
      PurgedContents(s.table, name);
      InsertedContents(Purged(s.table, name),
                       Element(s.nextId, DataKey(name), name, NO_NONCE, data, 1, MAX_RETRANSMISSION, timer));
  }

  lemma {:induction false} RunsKeepSlashFree(ss: seq<State>, es: seq<Event>, i: nat)
    requires Trace(ss, es) && SlashFreeEvents(es) && i <= |es|
    ensures SlashFreeNames(ss[i].table)
  {
    if i > 0 {
      RunsKeepSlashFree(ss, es, i - 1);
      TraceKeepsInv(ss, es, i - 1);
      assert StepsTo(ss, es, i - 1);
      StepKeepsSlashFree(ss[i - 1], es[i - 1]);
    }
  }

  /** In every run without slashes in names, a content is always stored. */
  lemma ContentAlwaysStored(ss: seq<State>, es: seq<Event>, i: nat)
    requires Trace(ss, es) && SlashFreeEvents(es) && i < |es| && es[i].Out? && es[i].p.Content?
    ensures ss[i + 1].nextId == ss[i].nextId + 1 && Waiting(ss[i + 1], ss[i].nextId)
    ensures Pending(ss[i + 1], ss[i].nextId).name == DataKey(es[i].p.name)
  {
    TraceKeepsInv(ss, es, i);
    RunsKeepSlashFree(ss, es, i);
    assert StepsTo(ss, es, i);
    var s, e := ss[i], es[i];
    var name, timer := e.p.name, FirstTimer(e.now, e.rand % MAX_TCA, e.distance);
    forall y | y in s.table && y.name == DataKey(name)
      ensures y.components <= name
    {
      KeyKinds(y.components, name);
      JoinInjective(y.components, name);
    }
    StoredWithItsKey(s, name, e.data, timer, e.now);
  }

  lemma StoredWithItsKey(s: State, name: Name, data: Packet, timer: Timer, now: Timer)
    requires Inv(s) && forall y :: y in s.table && y.name == DataKey(name) ==> y.components <= name
    ensures var s' := AfterOutgoing(s, Content(name), data, timer, now);
      s'.nextId == s.nextId + 1 && Waiting(s', s.nextId) && Pending(s', s.nextId).name == DataKey(name)
  {
    ContentPurgesAndIsStored(s, name, data, timer, now);
    var x := Element(s.nextId, DataKey(name), name, NO_NONCE, data, 1, MAX_RETRANSMISSION, timer);
    var s' := AfterOutgoing(s, Content(name), data, timer, now);
    assert x in s'.table && x.id == s.nextId;
  }

  /** a/b as one component has the key of a, b. */
  lemma SlashCollides()
    ensures var one, two := [[97, SLASH, 98]], [[97], [98]];
      DataKey(one) == DataKey(two) && !(one <= two)
  {
    var one: Name, two: Name := [[97, SLASH, 98]], [[97], [98]];
    assert one[..0] == [] && two[..1] == [[97]] && two[..1][..0] == [];
    assert Joined(two[..1]) == [97, SLASH];
    assert Joined(one) == [97, SLASH, 98, SLASH] == Joined(two);
  }

  lemma HasElement<T>(s: seq<T>)
    ensures s == [] || exists x :: x in s
  {
    assert |s| > 0 ==> s[0] in s;
  }

  lemma NothingToPurge(name: Name)
    ensures Purged([], name) == []
  {
    PurgedContents([], name);
    HasElement(Purged([], name));
  }

  lemma FirstStored(name: Name, data: Packet, timer: Timer, now: Timer) returns (x: Element)
    ensures x == Element(0, DataKey(name), name, NO_NONCE, data, 1, MAX_RETRANSMISSION, timer)
    ensures AfterOutgoing(State([], 0, 0), Content(name), data, timer, now) == State([x], 1, Micros(now))
  {
    x := Element(0, DataKey(name), name, NO_NONCE, data, 1, MAX_RETRANSMISSION, timer);
    NothingToPurge(name);
  }

  lemma OtherKept(x: Element, name: Name)
    requires !(x.components <= name)
    ensures Purged([x], name) == [x]
  {
    MatchesArePrefixes([x], name, |name| + 1);
    HasElement(Matches([x], name, |name| + 1));
  }

  lemma SecondRefused(one: Name, two: Name, data: Packet, other: Packet, t1: Timer, t2: Timer, now1: Timer, now2: Timer)
    requires DataKey(one) == DataKey(two) && !(one <= two)
    ensures var s1 := AfterOutgoing(State([], 0, 0), Content(one), data, t1, now1);
      var s2 := AfterOutgoing(s1, Content(two), other, t2, now2);
      && s1.nextId == 1 && Waiting(s1, 0) && Pending(s1, 0).data == data
      && s2.nextId == s1.nextId && s2.table == s1.table
  {
    var x := FirstStored(one, data, t1, now1);
    OtherKept(x, two);
    assert x in [x];
  }

  lemma OneMoreStep(ss: seq<State>, es: seq<Event>, e: Event)
    requires Trace(ss, es) && Enabled(ss[|es|], e)
    ensures Trace(ss + [Step(ss[|es|], e)], es + [e])
  {
    var ss', es' := ss + [Step(ss[|es|], e)], es + [e];
    forall i: nat | i < |es'|
      ensures StepsTo(ss', es', i)
    {
      if i < |es| {
        assert StepsTo(ss, es, i) && es'[i] == es[i] && ss'[i] == ss[i] && ss'[i + 1] == ss[i + 1];
      }
    }
  }

  lemma TwoSteps(s0: State, e1: Event, e2: Event)
    requires s0 == State([], 0, 0) && Enabled(s0, e1) && Enabled(Step(s0, e1), e2)
    ensures Trace([s0, Step(s0, e1), Step(Step(s0, e1), e2)], [e1, e2])
  {
    var s1 := Step(s0, e1);
    OneMoreStep([s0], [], e1);
    OneMoreStep([s0] + [s1], [] + [e1], e2);
    assert [s0] + [s1] + [Step(s1, e2)] == [s0, s1, Step(s1, e2)] && [] + [e1] + [e2] == [e1, e2];
  }

  lemma RefusedRun(one: Name, two: Name, e1: Event, e2: Event) returns (s1: State, s2: State)
    requires DataKey(one) == DataKey(two) && !(one <= two)
    requires e1.Out? && e1.p == Content(one) && e2.Out? && e2.p == Content(two)
    requires Enabled(State([], 0, 0), e1) && Enabled(Step(State([], 0, 0), e1), e2)
    ensures Trace([State([], 0, 0), s1, s2], [e1, e2])
    ensures s1.nextId == 1 && Waiting(s1, 0) && Pending(s1, 0).data == e1.data
    ensures s2.nextId == s1.nextId && s2.table == s1.table
  {
    var s0 := State([], 0, 0);
    s1 := Step(s0, e1);
    s2 := Step(s1, e2);
    TwoSteps(s0, e1, e2);
    SecondRefused(one, two, e1.data, e2.data, FirstTimer(e1.now, e1.rand % MAX_TCA, e1.distance),
                  FirstTimer(e2.now, e2.rand % MAX_TCA, e2.distance), e1.now, e2.now);
  }

  /** With a slash in a component a content can be refused. In every run that begins with
      the content a/b in one component and then the content a, b, whatever their bytes,
      delays and times, the second is not stored and the first stays pending. */
  lemma SlashRefuses(e1: Event, e2: Event) returns (s1: State, s2: State)
    requires e1.Out? && e1.p == Content([[97, SLASH, 98]]) && e2.Out? && e2.p == Content([[97], [98]])
    requires Enabled(State([], 0, 0), e1) && Enabled(Step(State([], 0, 0), e1), e2)
    ensures Trace([State([], 0, 0), s1, s2], [e1, e2])
    ensures s1.nextId == 1 && Waiting(s1, 0) && Pending(s1, 0).data == e1.data
    ensures s2.nextId == s1.nextId && s2.table == s1.table
  {
    SlashCollides();
    s1, s2 := RefusedRun([[97, SLASH, 98]], [[97], [98]], e1, e2);
  }

  //////////////////// hearing a content ////////////////////

  /** Hearing a content that satisfies at most one further packet leaves exactly the pending
      packets whose name is not a prefix of its name and that are not acknowledged. */
  lemma HeardContentPurges(s: State, name: Name, acks: bool)
    requires Inv(s) && OneMatch(s.table, name, acks)
    ensures forall x :: x in AfterContentHeard(s, name, acks).table <==>
      x in s.table && !(x.components <= name) && !(acks && x.name == DataKey(name))
  {
    WithoutKeyContents(s.table, DataKey(name));
    PurgedContents(AckedByContent(s.table, name, acks), name);
  }

  //////////////////// acknowledgements ////////////////////

  /** Hearing an interest leaves exactly the pending packets that it does not acknowledge: the
      interest of that name and nonce goes, if it is heard from far enough. */
  lemma HeardInterestLeaves(s: State, name: Name, nonce: nat, acks: bool)
    requires Inv(s)
    ensures forall x :: x in AfterInterestHeard(s, name, nonce, acks).table <==>
      x in s.table && !(acks && x.name == InterestKey(name) && x.nonce == nonce)
  {
    WithoutKeyContents(s.table, InterestKey(name));
  }

  /** What is heard acknowledges or satisfies the pending packet. */
  ghost predicate Settles(e: Event, x: Element) {
    match e
    case HeardInterest(name, nonce, acks) => acks && x.name == InterestKey(name) && x.nonce == nonce
    case HeardContent(name, acks) => x.components <= name || (acks && x.name == DataKey(name))
    case _ => false
  }

  lemma SettledIsGone(s: State, e: Event, x: Element)
    requires Inv(s) && Enabled(s, e) && x in s.table && (e.HeardInterest? || e.HeardContent?)
    ensures Waiting(Step(s, e), x.id) <==> !Settles(e, x)
  {
    match e
    case HeardInterest(name, nonce, acks) => HeardInterestLeaves(s, name, nonce, acks);
    case HeardContent(name, acks) => HeardContentPurges(s, name, acks);
  }

  lemma {:induction false} NotSentOnceGone(ss: seq<State>, es: seq<Event>, id: nat, i: nat, k: nat)
    requires Steady(ss, es) && i <= k <= |es| && id < ss[i].nextId && !Waiting(ss[i], id)
    ensures SendCount(ss, es, id, k) == SendCount(ss, es, id, i)
    decreases k
  {
    if i < k {
      NotSentOnceGone(ss, es, id, i, k - 1);
      WaitingSince(ss, es, id, i, k - 1);
      assert FateAt(ss, es, k - 1, id);
    }
  }

  lemma GoneOnceSettled(ss: seq<State>, es: seq<Event>, i: nat, x: Element)
    requires Trace(ss, es) && i < |es| && x in ss[i].table && Settles(es[i], x)
    ensures x.id < ss[i].nextId <= ss[i + 1].nextId && !Waiting(ss[i + 1], x.id) && !Sends(ss[i], es[i], x.id)
  {
    TraceKeepsInv(ss, es, i);
    InvCarriesOver(ss, es, i);
    assert StepsTo(ss, es, i);
    SettledIsGone(ss[i], es[i], x);
  }

  lemma StaysGone(ss: seq<State>, es: seq<Event>, id: nat, i: nat, k: nat)
    requires Steady(ss, es) && i <= k <= |es| && id < ss[i].nextId && !Waiting(ss[i], id)
    ensures !Waiting(ss[k], id) && SendCount(ss, es, id, k) == SendCount(ss, es, id, i)
    ensures k < |es| ==> !Sends(ss[k], es[k], id)
  {
    NotSentOnceGone(ss, es, id, i, k);
    WaitingSince(ss, es, id, i, k);
    assert k < |es| ==> FateAt(ss, es, k, id);
  }

  /** In every run: a packet that is acknowledged, or satisfied by a content heard, is not sent
      by that event nor by any later one. */
  lemma AcknowledgedIsNotSentAgain(ss: seq<State>, es: seq<Event>, i: nat, k: nat, x: Element)
    requires Trace(ss, es) && i < k <= |es| && x in ss[i].table && Settles(es[i], x)
    ensures !Waiting(ss[k], x.id) && SendCount(ss, es, x.id, k) == SendCount(ss, es, x.id, i)
    ensures k < |es| ==> !Sends(ss[k], es[k], x.id)
  {
    TraceIsSteady(ss, es);
    GoneOnceSettled(ss, es, i, x);
    StaysGone(ss, es, x.id, i + 1, k);
  }

  lemma DueAtOnce(sec: nat)
    requires sec < 100
    ensures FirstTimer(Timer(sec, 0), 0 % MAX_TCA, None) == Timer(sec, 0)
  {
  }

  /** Handed down by this node at a whole second. */
  function OutAt(p: Outgoing, data: Packet, sec: nat): Event {
    Out(p, data, Timer(sec, 0), 0, None)
  }

  lemma OutIsOnTime(s: State, p: Outgoing, data: Packet, sec: nat)
    requires 0 < sec < 100 && p != Unknown && s.clock < sec * 1000000
    ensures Enabled(s, OutAt(p, data, sec)) && OnTime(s, OutAt(p, data, sec))
    ensures var s' := Step(s, OutAt(p, data, sec));
      s' == AfterOutgoing(s, p, data, Timer(sec, 0), Timer(sec, 0)) && s'.clock == sec * 1000000
  {
    DueAtOnce(sec);
  }

  /** Two packets handed down one second after the other. */
  lemma TwoHandedDown(p1: Outgoing, d1: Packet, p2: Outgoing, d2: Packet) returns (ss: seq<State>)
    requires p1 != Unknown && p2 != Unknown
    ensures Trace(ss, [OutAt(p1, d1, 1), OutAt(p2, d2, 2)]) && StrictClock(ss, [OutAt(p1, d1, 1), OutAt(p2, d2, 2)])
    ensures ss[1] == AfterOutgoing(State([], 0, 0), p1, d1, Timer(1, 0), Timer(1, 0))
    ensures ss[2] == AfterOutgoing(ss[1], p2, d2, Timer(2, 0), Timer(2, 0))
  {
    var s0, e1, e2 := State([], 0, 0), OutAt(p1, d1, 1), OutAt(p2, d2, 2);
    OutIsOnTime(s0, p1, d1, 1);
    var s1 := Step(s0, e1);
    OutIsOnTime(s1, p2, d2, 2);
    TwoSteps(s0, e1, e2);
    BothOnTime(s0, s1, Step(s1, e2), e1, e2);
    ss := [s0, s1, Step(s1, e2)];
  }

  lemma BothOnTime(s0: State, s1: State, s2: State, e1: Event, e2: Event)
    requires OnTime(s0, e1) && OnTime(s1, e2)
    ensures StrictClock([s0, s1, s2], [e1, e2])
  {
    var ss, es := [s0, s1, s2], [e1, e2];
    assert ss[0] == s0 && ss[1] == s1 && es[0] == e1 && es[1] == e2;
  }

  /** More than one packet can be satisfied: for any name and any proper prefix of it there is
      a run, a content sent and then an interest, after which hearing that content without a
      full acknowledgement satisfies both. */
  lemma TwoMatchesReachable(short: Name, long: Name, data: Packet) returns (ss: seq<State>, es: seq<Event>)
    requires short < long
    ensures Trace(ss, es) && |es| == 2 && StrictClock(ss, es) && !OneMatch(ss[2].table, long, false)
  {
    ss := TwoHandedDown(Content(long), data, Interest(short, 0), data);
    es := [OutAt(Content(long), data, 1), OutAt(Interest(short, 0), data, 2)];
    var x := FirstStored(long, data, Timer(1, 0), Timer(1, 0));
    BothMatch(x, ss[1].clock, short, long, data, Timer(2, 0), Timer(2, 0));
  }

  lemma BothMatch(x: Element, clock: nat, short: Name, long: Name, data: Packet, timer: Timer, now: Timer)
    requires short < long && x.components == long && x.name == DataKey(long) && x.id == 0
    requires 1 <= x.retransmission <= x.limit == MAX_RETRANSMISSION
    ensures !OneMatch(AfterOutgoing(State([x], 1, clock), Interest(short, 0), data, timer, now).table, long, false)
  {
    var s1 := State([x], 1, clock);
    assert Inv(s1);
    KeyKinds(short, long);
    InterestIsStoredIff(s1, short, 0, data, timer, now);
    OutgoingKeeps(s1, Interest(short, 0), data, timer, now);
    var t := AfterOutgoing(s1, Interest(short, 0), data, timer, now).table;
    var y := Element(1, InterestKey(short), short, 0, data, 1, MAX_RETRANSMISSION, timer);
    assert x in [x] && x in t && y in t;
    MatchesArePrefixes(t, long, |long| + 1);
    TwoElements(Matches(t, long, |long| + 1), x, y);
  }

  lemma TwoElements<T>(s: seq<T>, x: T, y: T)
    requires x in s && y in s && x != y
    ensures |s| >= 2
  {
  }

  /** The test whether a neighbour is far enough to acknowledge a content has no effect where
      at most one packet is satisfied: the pending content is deleted either way, because the
      search for satisfied packets finds the content itself. It makes a difference exactly
      for a pending content of another name with the same key. */
  lemma AcknowledgementMattersIff(s: State, name: Name)
    requires Inv(s) && OneMatch(s.table, name, true) && OneMatch(s.table, name, false)
    ensures (forall x :: x in AfterContentHeard(s, name, true).table <==> x in AfterContentHeard(s, name, false).table)
      <==> (forall x :: x in s.table && x.name == DataKey(name) ==> x.components <= name)
    ensures forall x :: x in s.table && x.components == name ==> x !in AfterContentHeard(s, name, false).table
  {
    HeardContentPurges(s, name, true);
    HeardContentPurges(s, name, false);
  }

  //////////////////// a clock that repeats a reading ////////////////////

  /** Of two packets sent in turn at one reading, the second is due first again: its new
      deadline equals that of the first and it stays in its place. */
  lemma SentOutOfTurn(s: State, a: Element, b: Element, now: Timer)
    requires s.table == [a, b] && a.retransmission < a.limit && b.retransmission < b.limit
    requires Before(b.timer, NextTimer(now))
    ensures AfterTransmit(s, now).table == [b, Resent(a, now)] && AfterTransmit(s, now).clock == Micros(now)
    ensures AfterTransmit(AfterTransmit(s, now), now).clock == Micros(now)
    ensures AfterTransmit(AfterTransmit(s, now), now).table == [Resent(b, now), Resent(a, now)]
  {
    MovedBehind(a, b, Resent(a, now));
    KeptInFront(b, Resent(a, now), Resent(b, now));
  }

  lemma MovedBehind(a: Element, b: Element, c: Element)
    requires Before(b.timer, c.timer)
    ensures Replaced([a, b], 0, c) == [b, c]
  {
    assert RemoveAt([a, b], 0) == [b];
    assert UpperBound([b], c.timer) == 1 by {
      assert [b][1..] == [];
    }
  }

  lemma KeptInFront(b: Element, c: Element, d: Element)
    requires !Before(c.timer, d.timer)
    ensures Replaced([b, c], 0, d) == [d, c]
  {
  }

  function Asked(id: nat, name: Name, timer: Timer): Element {
    Element(id, InterestKey(name), name, id, [], 1, MAX_RETRANSMISSION, timer)
  }

  lemma StoredBehind(n: Name, m: Name, t1: Timer, t2: Timer, clock: nat, now: Timer)
    requires InterestKey(n) != InterestKey(m) && !Before(t2, t1)
    ensures AfterOutgoing(State([], 0, clock), Interest(n, 0), [], t1, now) == State([Asked(0, n, t1)], 1, Micros(now))
    ensures AfterOutgoing(State([Asked(0, n, t1)], 1, clock), Interest(m, 1), [], t2, now) ==
      State([Asked(0, n, t1), Asked(1, m, t2)], 2, Micros(now))
  {
    var x := Asked(0, n, t1);
    assert UpperBound([x], t2) == 1 by {
      assert [x][1..] == [];
    }
  }

  lemma TwoPending(n: Name, m: Name) returns (ss: seq<State>)
    requires InterestKey(n) != InterestKey(m)
    ensures var es := [OutAt(Interest(n, 0), [], 1), OutAt(Interest(m, 1), [], 2)];
      && Trace(ss, es) && StrictClock(ss, es)
      && ss[2] == State([Asked(0, n, Timer(1, 0)), Asked(1, m, Timer(2, 0))], 2, 2000000)
  {
    ss := TwoHandedDown(Interest(n, 0), [], Interest(m, 1), []);
    StoredBehind(n, m, Timer(1, 0), Timer(2, 0), 0, Timer(1, 0));
    StoredBehind(n, m, Timer(1, 0), Timer(2, 0), 1000000, Timer(2, 0));
  }

  /** A strict clock is needed for round robin: for any two names with different keys there
      is a run with one repeated reading, all others later than the one before, in which the
      second packet is sent twice in a row while the first is pending. */
  lemma RepeatedReadingBreaksRoundRobin(n: Name, m: Name) returns (ss: seq<State>, es: seq<Event>)
    requires InterestKey(n) != InterestKey(m)
    ensures Trace(ss, es) && |es| == 5 && es[3].Transmit? && ss[3].clock == Micros(es[3].now)
    ensures forall i :: 0 <= i < |es| && i != 3 ==> OnTime(ss[i], es[i])
    ensures Sends(ss[3], es[3], 1) && Sends(ss[4], es[4], 1) && Waiting(ss[3], 0) && Waiting(ss[4], 0)
  {
    ss := TwoPending(n, m);
    es := [OutAt(Interest(n, 0), [], 1), OutAt(Interest(m, 1), [], 2)];
    assert NextTimer(Timer(3, 0)) == Timer(3, 500000);
    ss, es := SendThrice(ss, es, Asked(0, n, Timer(1, 0)), Asked(1, m, Timer(2, 0)), Timer(3, 0), Timer(4, 0));
  }

  lemma SendThrice(ss: seq<State>, es: seq<Event>, a: Element, b: Element, now: Timer, later: Timer)
    returns (ss': seq<State>, es': seq<Event>)
    requires Trace(ss, es) && StrictClock(ss, es) && |es| == 2 && ss[2].table == [a, b] && a.id == 0 && b.id == 1
    requires a.retransmission < a.limit && b.retransmission + 1 < b.limit && Before(b.timer, NextTimer(now))
    requires BeforeWrap(now) && BeforeWrap(later) && ss[2].clock < Micros(now) < Micros(later)
    ensures Trace(ss', es') && |es'| == 5 && es'[3].Transmit? && ss'[3].clock == Micros(es'[3].now)
    ensures forall i :: 0 <= i < |es'| && i != 3 ==> OnTime(ss'[i], es'[i])
    ensures Sends(ss'[3], es'[3], 1) && Sends(ss'[4], es'[4], 1) && Waiting(ss'[3], 0) && Waiting(ss'[4], 0)
  {
    ss', es' := ThreeMore(ss, es, now, later);
    SentOutOfTurn(ss[2], a, b, now);
    assert Resent(a, now) in ss'[3].table && Resent(a, now) in ss'[4].table;
    assert forall i :: 0 <= i < 2 ==> OnTime(ss[i], es[i]);
  }

  lemma ThreeMore(ss: seq<State>, es: seq<Event>, now: Timer, later: Timer)
    returns (ss': seq<State>, es': seq<Event>)
    requires Trace(ss, es) && |es| == 2
    ensures Trace(ss', es') && |es'| == 5 && es'[2] == es'[3] == Transmit(now) && es'[4] == Transmit(later)
    ensures forall i :: 0 <= i < 2 ==> ss'[i] == ss[i] && es'[i] == es[i]
    ensures ss'[2] == ss[2] && ss'[3] == AfterTransmit(ss[2], now) && ss'[4] == AfterTransmit(ss'[3], now)
  {
    ss', es' := SentMore(ss, es, now);
    ss', es' := SentMore(ss', es', now);
    ss', es' := SentMore(ss', es', later);
  }

  lemma SentMore(ss: seq<State>, es: seq<Event>, now: Timer) returns (ss': seq<State>, es': seq<Event>)
    requires Trace(ss, es)
    ensures Trace(ss', es') && es' == es + [Transmit(now)] && |ss'| == |ss| + 1 && ss <= ss'
    ensures ss'[|es| + 1] == AfterTransmit(ss[|es|], now)
  {
    OneMoreStep(ss, es, Transmit(now));
    ss', es' := ss + [AfterTransmit(ss[|es|], now)], es + [Transmit(now)];
  }

  //////////////////// the end of the 32-bit second counter ////////////////////

  /** In the last half second before the counter runs over, a new deadline lies before the
      clock; at no other time does it. */
  lemma DeadlineBeforeClockIff(now: Timer)
    requires Normal(now) && now.sec < 0x1_0000_0000
    ensures Before(NextTimer(now), now) <==> now.sec == 0xFFFF_FFFF && now.usec >= 500000
  {
  }
}
