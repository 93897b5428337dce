/** Which interests the data that is sent answers. */
module EngineDelivery {
  import opened Names
  import opened LruCache
  import opened FaceRanking
  import opened Engine
  import opened EngineInvariants
  import opened EngineFacts

  /** An interest named `a` from `f` was taken by the PIT entry of `n` while it lives. */
  ghost predicate Lists(s: State, n: Name, f: Face, a: Name)
    requires n in s.pit
  {
    (s.pit[n].id, f, a) in s.listed
  }

  /** Every incoming face of an entry stands for an interest taken by it, and every interest
      an entry has taken extends its name. */
  ghost predicate Listed(s: State) {
    && (forall n, f :: n in s.pit && f in s.pit[n].incoming ==> exists a :: Lists(s, n, f, a))
    && (forall n, f, a :: n in s.pit && Lists(s, n, f, a) ==> n <= a)
    && (forall t :: t in s.listed ==> t.0 < s.nextId)
  }

  /** No entry has gained an incoming face; new entries are fresh and have none. */
  ghost predicate NoNewPending(s: State, s': State) {
    && s'.listed == s.listed && s.nextId <= s'.nextId
    && forall n :: n in s'.pit ==>
         if s'.pit[n].id >= s.nextId then s'.pit[n].incoming == {}
         else n in s.pit && s'.pit[n].id == s.pit[n].id && s'.pit[n].incoming <= s.pit[n].incoming
  }

  lemma NoNewPendingKeeps(s: State, s': State)
    requires Listed(s) && NoNewPending(s, s')
    ensures Listed(s')
  {
    forall n, f | n in s'.pit && f in s'.pit[n].incoming
      ensures exists a :: Lists(s', n, f, a)
    {
      var a :| Lists(s, n, f, a);
      assert Lists(s', n, f, a);
    }
    forall n, f, a | n in s'.pit && Lists(s', n, f, a)
      ensures n <= a
    {
      assert Lists(s, n, f, a);
    }
  }

  lemma ReceiveKeepsListed(s: State, n: Name, f: Face, p: InterestPacket, now: Time)
    requires Listed(s) && FreshIds(s) && n in s.pit && n <= p.name
    ensures Listed(Receive(s, n, f, p, now))
  {
    var s' := Receive(s, n, f, p, now);
    forall m, g | m in s'.pit && g in s'.pit[m].incoming
      ensures exists a :: Lists(s', m, g, a)
    {
      if m == n && g == f {
        assert Lists(s', m, g, p.name);
      } else {
        var a :| Lists(s, m, g, a);
        assert Lists(s', m, g, a);
      }
    }
    forall m, g, a | m in s'.pit && Lists(s', m, g, a)
      ensures m <= a
    {
      assert (m == n && g == f && a == p.name) || Lists(s, m, g, a);
    }
  }

  lemma LookupFindsPrefix(s: State, cfg: Config, p: InterestPacket, now: Time)
    requires FreshIds(s)
    ensures var (s1, n, isNew, isDuplicate) := PitLookup(s, cfg, p, now);
      n in s1.pit && n <= p.name && NoNewPending(s, s1)
  {
  }

  lemma PropagationKeepsPending(s: State, cfg: Config, n: Name, p: InterestPacket, now: Time, limits: Limits)
    requires Inv(s) && n in s.pit
    ensures NoNewPending(s, PropagateOrGiveUp(s, cfg, n, p, now, limits))
  {
    PropagateTouches(s, n, p, limits);
  }

  lemma InterestKeepsListed(s: State, cfg: Config, f: Face, p: InterestPacket, now: Time, hit: Option<nat>,
                            limits: Limits)
    requires Inv(s) && Listed(s) && f in s.faces && LegalAnswer(s.cs, p.name, hit)
    ensures Listed(OnInterest(s, cfg, f, p, now, hit, limits))
  {
    var s0 := s.(received := s.received + multiset{f});
    LookupKeepsInv(s0, cfg, p, now);
    LookupFindsPrefix(s0, cfg, p, now);
    NoNewPendingKeeps(s, s0);
    var (s1, n, isNew, isDuplicate) := PitLookup(s0, cfg, p, now);
    NoNewPendingKeeps(s0, s1);
    ReceiveKeepsInv(s1, n, f, p, now);
    ReceiveKeepsListed(s1, n, f, p, now);
    AnswerKeepsListed(Receive(s1, n, f, p, now), cfg, n, p, now, hit, limits, isDuplicate);
  }

  lemma AnswerKeepsListed(s: State, cfg: Config, n: Name, p: InterestPacket, now: Time, hit: Option<nat>,
                          limits: Limits, isDuplicate: bool)
    requires Inv(s) && Listed(s) && n in s.pit && LegalAnswer(s.cs, p.name, hit)
    requires !isDuplicate ==> p.nonce in s.pit[n].nonces && (s.pit[n].id, p.nonce) !in s.propagated
    ensures hit.Some? ==> Listed(Satisfy(s.(cs := AfterUse(s.cs, hit.value)), n, s.cs[hit.value].packet))
    ensures hit == None && !isDuplicate ==>
      Listed(PropagateOrGiveUp(s.(propagated := s.propagated + [(s.pit[n].id, p.nonce)]), cfg, n, p, now, limits))
  {
    match hit
    case Some(i) =>
      NoNewPendingKeeps(s, Satisfy(s.(cs := AfterUse(s.cs, i)), n, s.cs[i].packet));
    case None =>
      if !isDuplicate {
        NotePropagated(s, n, p.nonce);
        var noted := s.(propagated := s.propagated + [(s.pit[n].id, p.nonce)]);
        PropagationKeepsPending(noted, cfg, n, p, now, limits);
        NoNewPendingKeeps(s, PropagateOrGiveUp(noted, cfg, n, p, now, limits));
      }
  }

  lemma NackAnswerKeepsListed(s: State, cfg: Config, n: Name, f: Face, p: InterestPacket, now: Time, limits: Limits)
    requires Inv(s) && Listed(s) && n in s.pit && f in s.pit[n].outgoing
    ensures var e := NackEntry(s.pit[n], f, p.nack);
      var s' := UpdateFib(s.(pit := s.pit[n := e]), e.fib, f, Yellow);
      Listed(s') && Listed(PropagateOrGiveUp(s', cfg, n, p, now, limits))
  {
    var e := NackEntry(s.pit[n], f, p.nack);
    var noted := s.(pit := s.pit[n := e]);
    NackEntryKeepsInv(s, n, f, p.nack);
    UpdateFibKeepsInv(noted, e.fib, f, Yellow);
    NoNewPendingKeeps(s, noted);
    var s' := UpdateFib(noted, e.fib, f, Yellow);
    NoNewPendingKeeps(noted, s');
    PropagationKeepsPending(s', cfg, n, p, now, limits);
    NoNewPendingKeeps(s', PropagateOrGiveUp(s', cfg, n, p, now, limits));
  }

  lemma NackKeepsListed(s: State, cfg: Config, f: Face, p: InterestPacket, now: Time, limits: Limits)
    requires Inv(s) && Listed(s)
    ensures Listed(OnNack(s, cfg, f, p, now, limits))
  {
    LookupKeepsInv(s, cfg, p, now);
    LookupFindsPrefix(s, cfg, p, now);
    var (s1, n, isNew, isDuplicate) := PitLookup(s, cfg, p, now);
    NoNewPendingKeeps(s, s1);
    if f in s1.pit[n].outgoing {
      NackAnswerKeepsListed(s1, cfg, n, f, p, now, limits);
    }
  }

  lemma DataKeepsPending(s: State, cfg: Config, f: Face, name: Name, packet: Packet)
    requires FreshIds(s)
    ensures NoNewPending(s, OnData(s, cfg, f, name, packet))
  {
  }

  lemma TablesKeepPending(s: State, f: Face, prefix: Name, cost: int, now: Time)
    requires FreshIds(s)
    ensures NoNewPending(s, RemoveFace(s, f))
    ensures NoNewPending(s, Register(s, prefix, f, cost))
    ensures NoNewPending(s, Reap(s, now))
    ensures NoNewPending(s, s.(faces := s.faces + [f]))
  {
  }

  lemma StepKeepsListed(s: State, cfg: Config, e: Event)
    requires Inv(s) && Listed(s) && Enabled(s, e)
    ensures Listed(Step(s, cfg, e))
  {
    match e
    case GotInterest(f, p, now, hit, limits) => InterestKeepsListed(s, cfg, f, p, now, hit, limits);
    case GotNack(f, p, now, limits) => NackKeepsListed(s, cfg, f, p, now, limits);
    case GotData(f, name, packet) =>
      DataKeepsPending(s, cfg, f, name, packet);
      NoNewPendingKeeps(s, OnData(s, cfg, f, name, packet));
    case AddFace(f) =>
      TablesKeepPending(s, f, [], 0, 0);
      NoNewPendingKeeps(s, s.(faces := s.faces + [f]));
    case DropFace(f) =>
      TablesKeepPending(s, f, [], 0, 0);
      NoNewPendingKeeps(s, RemoveFace(s, f));
    case AddRoute(prefix, f, cost) =>
      TablesKeepPending(s, f, prefix, cost, 0);
      NoNewPendingKeeps(s, Register(s, prefix, f, cost));
    case ReapTimer(now) =>
      TablesKeepPending(s, 0, [], 0, now);
      NoNewPendingKeeps(s, Reap(s, now));
  }

  lemma {:induction false} RunsKeepListed(cfg: Config, es: seq<Event>, s: State)
    requires Run(cfg, es, s)
    ensures Inv(s) && Listed(s)
  {
    RunsKeepInv(cfg, es, s);
    if es != [] {
      var before, last := es[..|es| - 1], es[|es| - 1];
      var s0 :| Run(cfg, before, s0) && Enabled(s0, last) && s == Step(s0, cfg, last);
      RunsKeepListed(cfg, before, s0);
      StepKeepsListed(s0, cfg, last);
    }
  }

  //////////////////// data and the names asked for ////////////////////

  lemma ListedAnswersIff(s: State, n: Name, f: Face)
    requires Listed(s) && n in s.pit && f in s.pit[n].incoming
    ensures exists a :: Lists(s, n, f, a) && n <= a
    ensures (exists a :: Lists(s, n, f, a) && a <= n) <==> Lists(s, n, f, n)
  {
    var a :| Lists(s, n, f, a);
    assert n <= a;
    if b :| Lists(s, n, f, b) && b <= n {
      assert n <= b && b == n;
    }
  }

  /** Data named as a PIT entry goes to each incoming face of it, from which an interest was
      taken that extends the name. It answers one of these exactly if that very name was
      asked for on the face: a longer name listed there is not answered. */
  lemma DataAnswersIff(cfg: Config, es: seq<Event>, s: State, n: Name, f: Face)
    requires Run(cfg, es, s) && n in s.pit && f in s.pit[n].incoming
    ensures exists a :: Lists(s, n, f, a) && n <= a
    ensures (exists a :: Lists(s, n, f, a) && a <= n) <==> Lists(s, n, f, n)
  {
    RunsKeepListed(cfg, es, s);
    ListedAnswersIff(s, n, f);
  }

  /** A shorter prefix of the name is pending and the name itself is not. */
  ghost predicate Shadowed(s: State, name: Name) {
    name !in s.pit && exists n :: n in s.pit && n <= name
  }

  /** An interest that misses the store is listed under a shorter name exactly when it is
      shadowed; then data of its name, from whatever face, is cached and sent to nobody. */
  lemma ShadowedInterestIsNotAnswered(s: State, cfg: Config, f: Face, p: InterestPacket, now: Time, limits: Limits)
    requires Inv(s) && !Extended(s.cs, p.name)
    ensures var s' := OnInterest(s, cfg, f, p, now, None, limits);
      && (p.name !in s'.pit <==> Shadowed(s, p.name))
      && (Shadowed(s, p.name) ==>
            forall g, packet :: OnData(s', cfg, g, p.name, packet) == AddToStore(s', cfg, p.name, packet))
  {
    MissedInterest(s, cfg, f, p, now, limits);
    LookupKeys(s.(received := s.received + multiset{f}), cfg, p, now);
  }

  ghost function Forwarded(s: State, cfg: Config, n: Name, f: Face, p: InterestPacket, now: Time, limits: Limits,
                           isDuplicate: bool): State
    requires n in s.pit
  {
    var s2 := Receive(s, n, f, p, now);
    if isDuplicate then s2
    else
      PropagateOrGiveUp(s2.(propagated := s2.propagated + [(s2.pit[n].id, p.nonce)]), cfg, n, p, now, limits)
  }

  lemma ForwardedKeeps(s: State, cfg: Config, n: Name, f: Face, p: InterestPacket, now: Time, limits: Limits,
                       isDuplicate: bool)
    requires n in s.pit
    ensures var s' := Forwarded(s, cfg, n, f, p, now, limits, isDuplicate);
      && s'.faces == s.faces && s'.cs == s.cs && s'.dataTo == s.dataTo && s'.received == s.received
      && s'.pit.Keys == s.pit.Keys && s'.listed == s.listed + {(s.pit[n].id, f, p.name)}
      && forall m :: m in s.pit ==> s'.pit[m].id == s.pit[m].id && s'.pit[m].nonces == s.pit[m].nonces
  {
    var s2 := Receive(s, n, f, p, now);
    if !isDuplicate {
      PropagateKeepsRoute(s2.(propagated := s2.propagated + [(s2.pit[n].id, p.nonce)]), cfg, n, p, now, limits);
    }
  }

  /** What an interest that misses the store leaves as it was. */
  lemma MissedInterest(s: State, cfg: Config, f: Face, p: InterestPacket, now: Time, limits: Limits)
    requires !Extended(s.cs, p.name)
    ensures var s' := OnInterest(s, cfg, f, p, now, None, limits);
      var (s1, n, isNew, isDuplicate) := PitLookup(s.(received := s.received + multiset{f}), cfg, p, now);
      && s'.faces == s.faces && s'.cs == s.cs && s'.dataTo == s.dataTo && s'.received == s.received + multiset{f}
      && s'.pit.Keys == s1.pit.Keys && s'.listed == s.listed + {(s1.pit[n].id, f, p.name)}
      && forall m :: m in s1.pit ==> s'.pit[m].id == s1.pit[m].id && s'.pit[m].nonces == s1.pit[m].nonces
  {
    var (s1, n, isNew, isDuplicate) := PitLookup(s.(received := s.received + multiset{f}), cfg, p, now);
    ForwardedKeeps(s1, cfg, n, f, p, now, limits, isDuplicate);
    assert OnInterest(s, cfg, f, p, now, None, limits) == Forwarded(s1, cfg, n, f, p, now, limits, isDuplicate);
  }

  lemma LookupKeys(s: State, cfg: Config, p: InterestPacket, now: Time)
    ensures var (s1, n, isNew, isDuplicate) := PitLookup(s, cfg, p, now);
      && n in s1.pit && s1.pit.Keys == s.pit.Keys + {n}
      && (p.name in s1.pit <==> !Shadowed(s, p.name))
  {
    assert p.name <= p.name[..|p.name|];
  }

  lemma OneFace(cfg: Config, f: Face) returns (es: seq<Event>, s: State)
    ensures Run(cfg, es, s) && s.faces == [f] && s.pit == map[] && s.cs == []
    ensures s.received == multiset{} && s.dataTo == multiset{}
  {
    var s0 := State([], map[], map[], [], 0, multiset{}, multiset{}, multiset{}, [], {});
    RunOneMore(cfg, [], s0, AddFace(f));
    es, s := [] + [AddFace(f)], s0.(faces := [] + [f]);
  }

  lemma BothAsked(cfg: Config, f: Face, short: Name, long: Name) returns (es: seq<Event>, s: State)
    requires short < long
    ensures Run(cfg, es, s) && f in s.faces && s.cs == []
    ensures s.received == multiset{f, f} && s.dataTo == multiset{}
    ensures s.pit.Keys == {short} && Lists(s, short, f, short) && Lists(s, short, f, long)
  {
    es, s := OneFace(cfg, f);
    es, s := FirstInterest(cfg, es, s, f, InterestPacket(short, 0, 4, 0));
    es, s := SecondInterest(cfg, es, s, f, short, InterestPacket(long, 1, 4, 0));
  }

  /** For any two names, one a proper prefix of the other, there is a run in which both are
      asked for on a face, the data for the longer one arrives, and nothing is sent. */
  lemma CanBeShadowed(cfg: Config, f: Face, short: Name, long: Name, packet: Packet)
    returns (es: seq<Event>, s: State)
    requires short < long
    ensures Run(cfg, es, s) && s.received == multiset{f, f} && s.dataTo == multiset{}
    ensures Stored(s.cs, long) && short in s.pit && Lists(s, short, f, short) && Lists(s, short, f, long)
  {
    es, s := BothAsked(cfg, f, short, long);
    RunOneMore(cfg, es, s, GotData(f, long, packet));
    es, s := es + [GotData(f, long, packet)], OnData(s, cfg, f, long, packet);
    assert s.cs == [] + [Entry(long, packet)];
    assert s.cs[0].name == long;
  }

  lemma AskOnce(cfg: Config, es: seq<Event>, s: State, f: Face, p: InterestPacket)
    returns (es': seq<Event>, s': State, limits: Limits)
    requires Run(cfg, es, s) && f in s.faces && !Extended(s.cs, p.name)
    ensures Run(cfg, es', s') && s' == OnInterest(s, cfg, f, p, 0, None, limits)
  {
    limits := Limits(_ => true, _ => true);
    RunOneMore(cfg, es, s, GotInterest(f, p, 0, None, limits));
    es', s' := es + [GotInterest(f, p, 0, None, limits)], OnInterest(s, cfg, f, p, 0, None, limits);
  }

  lemma FirstInterest(cfg: Config, es: seq<Event>, s: State, f: Face, p: InterestPacket)
    returns (es': seq<Event>, s': State)
    requires Run(cfg, es, s) && f in s.faces
    requires s.pit == map[] && s.cs == [] && s.received == multiset{} && s.dataTo == multiset{}
    ensures Run(cfg, es', s') && f in s'.faces
    ensures s'.cs == [] && s'.received == multiset{f} && s'.dataTo == multiset{}
    ensures s'.pit.Keys == {p.name} && Lists(s', p.name, f, p.name) && s'.pit[p.name].nonces == {p.nonce}
  {
    var limits;
    es', s', limits := AskOnce(cfg, es, s, f, p);
    MissedInterest(s, cfg, f, p, 0, limits);
    LookupKeys(s.(received := s.received + multiset{f}), cfg, p, 0);
  }

  lemma SecondInterest(cfg: Config, es: seq<Event>, s: State, f: Face, n: Name, q: InterestPacket)
    returns (es': seq<Event>, s': State)
    requires Run(cfg, es, s) && f in s.faces
    requires s.pit.Keys == {n} && n < q.name && s.cs == [] && s.received == multiset{f} && s.dataTo == multiset{}
    requires q.nonce !in s.pit[n].nonces && Lists(s, n, f, n)
    ensures Run(cfg, es', s') && f in s'.faces
    ensures s'.cs == [] && s'.received == multiset{f, f} && s'.dataTo == multiset{}
    ensures s'.pit.Keys == {n} && Lists(s', n, f, n) && Lists(s', n, f, q.name)
  {
    var limits;
    es', s', limits := AskOnce(cfg, es, s, f, q);
    MissedInterest(s, cfg, f, q, 0, limits);
    OnlyPrefixFound(s.(received := s.received + multiset{f}), cfg, n, q);
  }

  lemma OnlyPrefixFound(s: State, cfg: Config, n: Name, q: InterestPacket)
    requires s.pit.Keys == {n} && n < q.name
    ensures var (s1, m, isNew, isDuplicate) := PitLookup(s, cfg, q, 0);
      m == n && s1.pit.Keys == {n} && s1.pit[n].id == s.pit[n].id
  {
    assert n <= q.name[..|q.name|];
  }
}
