/** What each event does to the daemon, in terms of the state before and after it: what is
    sent, to whom, and what becomes of every table entry. */
module EngineOutcomes {
  import opened Names
  import opened LruCache
  import opened FaceRanking
  import opened Engine
  import opened EngineInvariants
  import opened EngineFacts

  /** The PIT entry that takes an interest for `name`: that of its longest pending prefix. */
  ghost function Taker(s: State, name: Name): (m: Option<Name>)
    ensures m.Some? ==> m.value in s.pit && m.value <= name
    ensures forall q :: q in s.pit && q <= name ==> m.Some? && |q| <= |m.value|
  {
    assert name[..|name|] == name;
    LongestMatch(s.pit.Keys, name, |name|)
  }

  ghost function IncomingOf(s: State, m: Option<Name>): set<Face> {
    if m.Some? && m.value in s.pit then s.pit[m.value].incoming else {}
  }

  /** `b` is `a` without the entry of `m`. */
  ghost predicate Erased<V>(a: map<Name, V>, b: map<Name, V>, m: Option<Name>) {
    && (forall n :: n in b <==> n in a && m != Some(n))
    && (forall n :: n in b ==> b[n] == a[n])
  }

  /** `b` is `a` except perhaps for the entry of `n`. */
  ghost predicate SameBut<V>(a: map<Name, V>, b: map<Name, V>, n: Name) {
    forall m :: m != n ==> (m in b <==> m in a) && (m in b ==> b[m] == a[m])
  }

  //////////////////// data ////////////////////

  lemma SatisfyDelivers(s: State, n: Name, packet: Packet)
    requires n in s.pit
    ensures Delivers(s, Satisfy(s, n, packet), s.pit[n].incoming, packet)
  {
  }

  /** The entry as an interest finds it: the one that takes it, or a new one with the route
      of the longest registered prefix and no faces, due after the interest's lifetime or the
      default one. */
  ghost predicate Found(s: State, cfg: Config, p: InterestPacket, now: Time, e: PitEntry) {
    match Taker(s, p.name)
    case Some(n) => e == s.pit[n]
    case None =>
      && e.incoming == {} && e.outgoing == map[] && e.nonces == {} && e.maxRetx == 0 && e.id == s.nextId
      && e.expire == now + (if p.lifetime == 0 then cfg.defaultLifetime else p.lifetime)
      && match e.fib
         case None => forall q :: q in s.fib ==> !(q <= p.name)
         case Some(r) =>
           && Present(s.fib, r) && r.prefix <= p.name
           && forall q :: q in s.fib && q <= p.name ==> |q| <= |r.prefix|
  }

  /** `e'` is `e` after it has taken the interest: it has seen the nonce, lists the face, and
      lives at least as long as the interest. */
  ghost predicate Took(e: PitEntry, e': PitEntry, f: Face, p: InterestPacket, now: Time) {
    && e'.incoming == e.incoming + {f} && e'.nonces == e.nonces + {p.nonce}
    && e'.expire == (if now + p.lifetime > e.expire then now + p.lifetime else e.expire)
    && e'.id == e.id && e'.fib == e.fib && e'.outgoing == e.outgoing && e'.maxRetx == e.maxRetx
  }

  ghost function TakerName(s: State, name: Name): Name {
    if Taker(s, name).Some? then Taker(s, name).value else name
  }

  /** The state in which an interest is looked up in the store. */
  ghost function Arrived(s: State, cfg: Config, f: Face, p: InterestPacket, now: Time): State {
    var (s1, n, isNew, isDuplicate) := PitLookup(s.(received := s.received + multiset{f}), cfg, p, now);
    Receive(s1, n, f, p, now)
  }

  ghost predicate SeenNonce(s: State, p: InterestPacket) {
    Taker(s, p.name).Some? && p.nonce in s.pit[Taker(s, p.name).value].nonces
  }

  lemma LookupOutcome(s: State, cfg: Config, p: InterestPacket, now: Time) returns (e: PitEntry)
    ensures Found(s, cfg, p, now, e)
    ensures var (s1, n, isNew, isDuplicate) := PitLookup(s, cfg, p, now);
      && n == TakerName(s, p.name) && n in s1.pit && SameBut(s.pit, s1.pit, n)
      && s1 == s.(pit := s1.pit, nextId := s1.nextId)
      && isNew == Taker(s, p.name).None? && isDuplicate == SeenNonce(s, p)
      && s1.pit[n] == e.(nonces := e.nonces + {p.nonce})
  {
    var (s1, n, isNew, isDuplicate) := PitLookup(s, cfg, p, now);
    e := if isNew then s1.pit[n].(nonces := {}) else s.pit[n];
    assert p.name[..|p.name|] == p.name;
    assert e.nonces + {p.nonce} == s1.pit[n].nonces;
  }

  lemma ArrivalOutcome(s: State, cfg: Config, f: Face, p: InterestPacket, now: Time) returns (e: PitEntry)
    ensures Found(s, cfg, p, now, e)
    ensures var s2, n := Arrived(s, cfg, f, p, now), TakerName(s, p.name);
      && n in s2.pit && SameBut(s.pit, s2.pit, n) && Took(e, s2.pit[n], f, p, now)
      && s2.faces == s.faces && s2.fib == s.fib && s2.cs == s.cs && s2.received == s.received + multiset{f}
      && s2.dataTo == s.dataTo && s2.out == s.out && s2.propagated == s.propagated
  {
    e := LookupOutcome(s.(received := s.received + multiset{f}), cfg, p, now);
    assert Taker(s.(received := s.received + multiset{f}), p.name) == Taker(s, p.name);
  }

  lemma HitIsSatisfied(s: State, cfg: Config, f: Face, p: InterestPacket, now: Time, i: nat, limits: Limits)
    requires LegalAnswer(s.cs, p.name, Some(i))
    ensures var s2, n := Arrived(s, cfg, f, p, now), TakerName(s, p.name);
      && n in s2.pit && s2.cs == s.cs
      && OnInterest(s, cfg, f, p, now, Some(i), limits) == Satisfy(s2.(cs := AfterUse(s.cs, i)), n, s.cs[i].packet)
  {
    var s0 := s.(received := s.received + multiset{f});
    var e := LookupOutcome(s0, cfg, p, now);
    assert Taker(s0, p.name) == Taker(s, p.name);
  }

  /** The store answers an interest exactly if it holds a name that extends the one asked for,
      and with the very name if it holds that. */
  lemma StoreAnswersIff(s: State, f: Face, p: InterestPacket, now: Time, hit: Option<nat>, limits: Limits)
    requires Enabled(s, GotInterest(f, p, now, hit, limits))
    ensures hit.Some? <==> exists j :: 0 <= j < |s.cs| && p.name <= s.cs[j].name
    ensures hit.Some? ==> hit.value < |s.cs| && (Stored(s.cs, p.name) ==> s.cs[hit.value].name == p.name)
    ensures hit.Some? ==> s.cs[hit.value].name <= p.name || p.name <= s.cs[hit.value].name
  {
    if hit.Some? && Stored(s.cs, p.name) {
      AnswerExtendsIff(s.cs, p.name, hit.value);
      var j :| 0 <= j < |s.cs| && s.cs[j].name == p.name;
      assert s.cs[j].name <= p.name;
    }
  }

  /** An interest that the store answers: every face waiting on the entry that takes it, and
      the one it came from, gets the packet once; the entry is gone. */
  lemma HitDelivers(s: State, cfg: Config, f: Face, p: InterestPacket, now: Time, i: nat, limits: Limits)
    requires Enabled(s, GotInterest(f, p, now, Some(i), limits))
    ensures var s', m := Step(s, cfg, GotInterest(f, p, now, Some(i), limits)), Taker(s, p.name);
      && Delivers(s, s', IncomingOf(s, m) + {f}, s.cs[i].packet)
      && Erased(s.pit, s'.pit, m) && s'.faces == s.faces && s'.fib == s.fib
      && s'.cs == MoveToEnd(s.cs, i) && s'.received == s.received + multiset{f}
  {
    var e := ArrivalOutcome(s, cfg, f, p, now);
    HitIsSatisfied(s, cfg, f, p, now, i, limits);
    var s2, n := Arrived(s, cfg, f, p, now).(cs := AfterUse(s.cs, i)), TakerName(s, p.name);
    SatisfyDelivers(s2, n, s.cs[i].packet);
    SatisfyErases(s, s2, n, s.cs[i].packet);
  }

  lemma SatisfyErases(s: State, s2: State, n: Name, packet: Packet)
    requires n in s2.pit && SameBut(s.pit, s2.pit, n)
    ensures Erased(s.pit, Satisfy(s2, n, packet).pit, Some(n))
  {
  }

  /** Record `y` is in `b` exactly if it is in `a`, except that the record of `f` has the
      status. */
  ghost predicate Recoloured(a: Ranking, b: Ranking, f: Face, status: Status) {
    forall y :: y in b <==> (y in a && y.face != f) || exists x :: x in a && x.face == f && y == x.(status := status)
  }

  /** The route of the entry has `f` recoloured and all other routes are as before. */
  ghost predicate RouteRecoloured(s: State, s': State, e: PitEntry, f: Face, status: Status) {
    match e.fib
    case None => s'.fib == s.fib
    case Some(r) =>
      && r.prefix in s.fib && r.prefix in s'.fib && SameBut(s.fib, s'.fib, r.prefix)
      && s'.fib[r.prefix].id == s.fib[r.prefix].id
      && Recoloured(s.fib[r.prefix].faces, s'.fib[r.prefix].faces, f, status)
  }

  lemma UpdateRecolours(s: State, e: PitEntry, f: Face, status: Status)
    requires Inv(s) && EntryRefers(s, e)
    ensures RouteRecoloured(s, UpdateFib(s, e.fib, f, status), e, f, status)
  {
    if e.fib.Some? {
      assert FibRefers(s, s.fib[e.fib.value.prefix]);
      StatusKeepsRanked(s.fib[e.fib.value.prefix].faces, f, status);
    }
  }

  /** Data nobody waits for under its own name only goes to the store. */
  lemma UnsolicitedDataIsCached(s: State, cfg: Config, f: Face, name: Name, packet: Packet)
    requires Enabled(s, GotData(f, name, packet)) && name !in s.pit
    ensures var s' := Step(s, cfg, GotData(f, name, packet));
      && s' == s.(cs := s'.cs) && Stored(s'.cs, name)
      && (if Stored(s.cs, name) then s'.cs == s.cs else s'.cs[|s'.cs| - 1] == Entry(name, packet))
  {
    AddedIsStored(s.cs, cfg, name, packet);
  }

  lemma AddedIsStored(c: Cache<Component, Packet>, cfg: Config, name: Name, packet: Packet)
    ensures var d := AfterAdd(c, cfg.capacity, Entry(name, packet));
      && Stored(d, name) && (!Stored(c, name) ==> d[|d| - 1] == Entry(name, packet))
  {
    var d := AfterAdd(c, cfg.capacity, Entry(name, packet));
    if !Stored(c, name) {
      assert d[|d| - 1] == Entry(name, packet);
    }
  }

  /** Data from a face that was not asked changes nothing. */
  lemma UnaskedDataIsDropped(s: State, cfg: Config, f: Face, name: Name, packet: Packet)
    requires Enabled(s, GotData(f, name, packet)) && name in s.pit && f !in s.pit[name].outgoing
    ensures Step(s, cfg, GotData(f, name, packet)) == s
  {
  }

  lemma AskedDataIsSatisfied(s: State, cfg: Config, f: Face, name: Name, packet: Packet)
    requires Inv(s) && name in s.pit && f in s.pit[name].outgoing
    ensures var e := s.pit[name];
      var s1 := AddToStore(UpdateFib(s, e.fib, f, Green), cfg, name, packet);
      && s1 == s.(fib := s1.fib, cs := AfterAdd(s.cs, cfg.capacity, Entry(name, packet)))
      && RouteRecoloured(s, s1, e, f, Green) && OnData(s, cfg, f, name, packet) == Satisfy(s1, name, packet)
  {
    assert EntryRefers(s, s.pit[name]);
    UpdateRecolours(s, s.pit[name], f, Green);
  }

  /** Data from a face that was asked is stored, sent once on every face waiting for it, and
      turns the face green in the route; the entry is gone. */
  lemma AskedDataIsDelivered(s: State, cfg: Config, f: Face, name: Name, packet: Packet)
    requires Inv(s) && Enabled(s, GotData(f, name, packet)) && name in s.pit && f in s.pit[name].outgoing
    ensures var s', e := Step(s, cfg, GotData(f, name, packet)), s.pit[name];
      && Delivers(s, s', e.incoming, packet) && Erased(s.pit, s'.pit, Some(name))
      && RouteRecoloured(s, s', e, f, Green)
      && Stored(s'.cs, name) && (!Stored(s.cs, name) ==> s'.cs[|s'.cs| - 1] == Entry(name, packet))
      && s'.faces == s.faces && s'.received == s.received
  {
    AskedDataIsSatisfied(s, cfg, f, name, packet);
    AddedIsStored(s.cs, cfg, name, packet);
    var s1 := AddToStore(UpdateFib(s, s.pit[name].fib, f, Green), cfg, name, packet);
    SatisfyDelivers(s1, name, packet);
    SatisfyErases(s, s1, name, packet);
  }
}
