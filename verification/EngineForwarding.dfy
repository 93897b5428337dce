/** Where interests are forwarded, when a nack makes the daemon try again, and what timers,
    faces and routes change, in terms of the state before and after. */
module EngineForwarding {
  import opened Names
  import opened LruCache
  import opened FaceRanking
  import opened Engine
  import opened EngineInvariants
  import opened EngineFacts
  import opened EngineOutcomes

  //////////////////// one round of forwarding ////////////////////

  /** The faces of the entry's route. */
  ghost function RouteOf(s: State, e: PitEntry): Ranking {
    if e.fib.Some? && e.fib.value.prefix in s.fib then s.fib[e.fib.value.prefix].faces else []
  }

  /** A green face of the route that is not waiting itself, has retransmissions left and is
      below its limit. */
  ghost predicate Usable(x: FaceMetric, e: PitEntry, limits: Limits) {
    && x.status == Green && x.face !in e.incoming && limits.green(x.face)
    && (x.face in e.outgoing ==> e.outgoing[x.face].retx < e.maxRetx)
  }

  /** Where flooding may send: the faces of the route that are not red, or every face. */
  ghost function FloodList(s: State, e: PitEntry): seq<Face> {
    if e.fib.Some? then Candidates(RouteOf(s, e)) else s.faces
  }

  /** The candidates are exactly the faces that are not red. */
  lemma {:induction false} CandidatesAreNotRed(r: Ranking, f: Face)
    ensures f in Candidates(r) <==> exists x :: x in r && x.face == f && x.status != Red
  {
    if r != [] {
      CandidatesAreNotRed(r[1..], f);
      assert r == [r[0]] + r[1..];
    }
  }

  /** The positions from `k` on at which flooding may send on `g`. */
  ghost function Turns(fs: seq<Face>, g: Face, flood: nat -> bool, k: nat): set<nat> {
    set j: nat | k <= j < |fs| && fs[j] == g && flood(j)
  }

  lemma {:induction false} FloodCounts(e: PitEntry, name: Name, nonce: Nonce, fs: seq<Face>, k: nat,
                                       flood: nat -> bool, out: multiset<Action>, a: Action)
    requires k <= |fs|
    ensures var out' := Flood(e, name, nonce, fs, k, flood, out).1;
      out'[a] == out[a] +
        if a.SentInterest? && a == SentInterest(a.to, name, nonce) then |Turns(fs, a.to, flood, k)| else 0
    decreases |fs| - k
  {
    if k == |fs| {
      assert forall g :: Turns(fs, g, flood, k) == {};
    } else {
      var sent := multiset{SentInterest(fs[k], name, nonce)};
      if flood(k) {
        FloodCounts(AddOutgoing(e, fs[k]), name, nonce, fs, k + 1, flood, out + sent, a);
      } else {
        FloodCounts(e, name, nonce, fs, k + 1, flood, out, a);
      }
      NextTurn(fs, a.to, flood, k);
    }
  }

  lemma NextTurn(fs: seq<Face>, g: Face, flood: nat -> bool, k: nat)
    requires k < |fs|
    ensures |Turns(fs, g, flood, k)| == |Turns(fs, g, flood, k + 1)| + if flood(k) && fs[k] == g then 1 else 0
  {
    var rest := Turns(fs, g, flood, k + 1);
    assert Turns(fs, g, flood, k) == if flood(k) && fs[k] == g then rest + {k} else rest;
  }

  /** How often `g` has been sent to is its retransmission count plus one. */
  ghost function SentCount(e: PitEntry, g: Face): nat {
    if g in e.outgoing then e.outgoing[g].retx + 1 else 0
  }

  /** `e'` is `e` after `k` more transmissions on `g`. */
  ghost predicate Marked(e: PitEntry, e': PitEntry, g: Face, k: nat) {
    && SentCount(e', g) == SentCount(e, g) + k
    && (g in e'.outgoing ==> if k > 0 then !e'.outgoing[g].inVain else e'.outgoing[g] == e.outgoing[g])
  }

  lemma {:induction false} FloodMarksTurns(e: PitEntry, name: Name, nonce: Nonce, fs: seq<Face>, k: nat,
                                           flood: nat -> bool, out: multiset<Action>, g: Face)
    requires k <= |fs|
    ensures Marked(e, Flood(e, name, nonce, fs, k, flood, out).0, g, |Turns(fs, g, flood, k)|)
    decreases |fs| - k
  {
    if k == |fs| {
      assert Turns(fs, g, flood, k) == {};
    } else {
      NextTurn(fs, g, flood, k);
      if flood(k) {
        var sent := multiset{SentInterest(fs[k], name, nonce)};
        FloodMarksTurns(AddOutgoing(e, fs[k]), name, nonce, fs, k + 1, flood, out + sent, g);
      } else {
        FloodMarksTurns(e, name, nonce, fs, k + 1, flood, out, g);
      }
    }
  }

  /** The interest has gone out on face `x` once, and the entry keeps the rest of `e`. */
  ghost predicate WentVia(s: State, s': State, e: PitEntry, e': PitEntry, p: InterestPacket, x: Face) {
    && (forall a :: s'.out[a] == s.out[a] + if a == SentInterest(x, p.name, p.nonce) then 1 else 0)
    && Marked(e, e', x, 1) && (forall g :: g != x ==> Marked(e, e', g, 0))
    && e' == e.(outgoing := e'.outgoing)
  }

  /** The interest has gone out at each position of `fs` that its limit allows. */
  ghost predicate WentTo(s: State, s': State, e: PitEntry, e': PitEntry, p: InterestPacket, fs: seq<Face>,
                         flood: nat -> bool) {
    && (forall a :: s'.out[a] == s.out[a] +
          if a.SentInterest? && a.name == p.name && a.nonce == p.nonce then |Turns(fs, a.to, flood, 0)| else 0)
    && (forall g :: Marked(e, e', g, |Turns(fs, g, flood, 0)|))
    && e' == e.(outgoing := e'.outgoing)
  }

  /** Nothing has gone out; the entry has lost its faces and waits for its end. */
  ghost predicate GivenUp(s: State, s': State, e: PitEntry, e': PitEntry, cfg: Config, now: Time) {
    && s'.out == s.out && e'.incoming == {} && e'.outgoing == map[] && e'.expire == now + cfg.pruning
    && e' == e.(incoming := {}, outgoing := map[], expire := e'.expire)
  }

  ghost predicate BestUsable(r: Ranking, e: PitEntry, limits: Limits, i: nat) {
    i < |r| && Usable(r[i], e, limits) && forall j :: 0 <= j < i ==> !Usable(r[j], e, limits)
  }

  ghost predicate CanFlood(s: State, e: PitEntry, limits: Limits) {
    exists j: nat :: j < |FloodList(s, e)| && limits.flood(j)
  }

  /** An interest is forwarded on the best usable face of the entry's route, else on every
      face for flooding that its limit allows; without any it is given up. */
  ghost predicate PassedOn(s: State, s': State, e: PitEntry, e': PitEntry, cfg: Config, p: InterestPacket,
                           now: Time, limits: Limits) {
    var r := RouteOf(s, e);
    if exists i: nat :: BestUsable(r, e, limits, i) then
      exists i: nat :: BestUsable(r, e, limits, i) && WentVia(s, s', e, e', p, r[i].face)
    else
      && (forall x :: x in r ==> !Usable(x, e, limits))
      && if CanFlood(s, e, limits) then WentTo(s, s', e, e', p, FloodList(s, e), limits.flood)
         else GivenUp(s, s', e, e', cfg, now)
  }

  lemma {:induction false} FirstGreenIsBest(r: Ranking, e: PitEntry, limits: Limits) returns (i: nat)
    requires FirstGreen(r, e, limits.green).Some?
    ensures BestUsable(r, e, limits, i) && r[i].face == FirstGreen(r, e, limits.green).value
  {
    i := 0;
    if !Eligible(r[0], e, limits.green) {
      assert forall j :: 0 < j < |r| ==> r[j] == r[1..][j - 1];
      i := FirstGreenIsBest(r[1..], e, limits);
      i := i + 1;
    }
  }

  lemma {:induction false} SomeAllowed(fs: seq<Face>, k: nat, flood: nat -> bool)
    requires k <= |fs|
    ensures Allowed(fs, k, flood) != [] <==> exists j: nat :: k <= j < |fs| && flood(j)
    decreases |fs| - k
  {
    if k < |fs| {
      SomeAllowed(fs, k + 1, flood);
    }
  }

  lemma FloodOutcome(s: State, e: PitEntry, p: InterestPacket, fs: seq<Face>, flood: nat -> bool)
    ensures var (e', out', n) := Flood(e, p.name, p.nonce, fs, 0, flood, s.out);
      && WentTo(s, s.(out := out'), e, e', p, fs, flood)
      && (n > 0 <==> exists j: nat :: j < |fs| && flood(j)) && (n == 0 ==> out' == s.out)
  {
    var (e', out', n) := Flood(e, p.name, p.nonce, fs, 0, flood, s.out);
    FloodTouches(e, p.name, p.nonce, fs, 0, flood, s.out);
    FloodSends(e, p.name, p.nonce, fs, 0, flood, s.out);
    SomeAllowed(fs, 0, flood);
    forall a
      ensures out'[a] == s.out[a] +
        if a.SentInterest? && a.name == p.name && a.nonce == p.nonce then |Turns(fs, a.to, flood, 0)| else 0
    {
      FloodCounts(e, p.name, p.nonce, fs, 0, flood, s.out, a);
    }
    forall g
      ensures Marked(e, e', g, |Turns(fs, g, flood, 0)|)
    {
      FloodMarksTurns(e, p.name, p.nonce, fs, 0, flood, s.out, g);
    }
  }

  lemma ForwardOutcome(s: State, cfg: Config, n: Name, p: InterestPacket, now: Time, limits: Limits)
    requires n in s.pit && Ranked(RouteOf(s, s.pit[n]))
    ensures var s' := PropagateOrGiveUp(s, cfg, n, p, now, limits);
      && n in s'.pit && SameBut(s.pit, s'.pit, n) && s' == s.(pit := s'.pit, out := s'.out)
      && PassedOn(s, s', s.pit[n], s'.pit[n], cfg, p, now, limits)
  {
    var e, r := s.pit[n], RouteOf(s, s.pit[n]);
    var s' := PropagateOrGiveUp(s, cfg, n, p, now, limits);
    assert r == FibFaces(s, e);
    FirstGreenIsComplete(r, e, limits.green);
    if FirstGreen(r, e, limits.green).Some? {
      var i := FirstGreenIsBest(r, e, limits);
      assert WentVia(s, s', e, s'.pit[n], p, r[i].face);
    } else {
      FloodOutcome(s, e, p, FloodList(s, e), limits.flood);
    }
  }

  //////////////////// interests that miss the store ////////////////////

  /** What an interest that misses the store leaves alone. */
  ghost predicate OnlyEntry(s: State, s': State, n: Name) {
    && n in s'.pit && SameBut(s.pit, s'.pit, n)
    && s'.faces == s.faces && s'.fib == s.fib && s'.cs == s.cs && s'.dataTo == s.dataTo
  }

  lemma MissIsForwarded(s: State, cfg: Config, f: Face, p: InterestPacket, now: Time, limits: Limits)
    requires LegalAnswer(s.cs, p.name, None)
    ensures var s2, n := Arrived(s, cfg, f, p, now), TakerName(s, p.name);
      && n in s2.pit
      && OnInterest(s, cfg, f, p, now, None, limits) ==
           if SeenNonce(s, p) then s2
           else
             PropagateOrGiveUp(s2.(propagated := s2.propagated + [(s2.pit[n].id, p.nonce)]), cfg, n, p, now, limits)
  {
    var s0 := s.(received := s.received + multiset{f});
    var e := LookupOutcome(s0, cfg, p, now);
    assert Taker(s0, p.name) == Taker(s, p.name);
    assert SeenNonce(s0, p) == SeenNonce(s, p);
  }

  lemma FoundRouteIsRanked(s: State, cfg: Config, p: InterestPacket, now: Time, e: PitEntry)
    requires Inv(s) && Found(s, cfg, p, now, e)
    ensures Ranked(RouteOf(s, e))
  {
    if e.fib.Some? && e.fib.value.prefix in s.fib {
      assert FibRefers(s, s.fib[e.fib.value.prefix]);
    }
  }

  /** An interest that the store does not answer is taken by its entry. With a nonce the
      entry has seen nothing is sent; otherwise it is forwarded or given up. Nothing else
      changes. */
  lemma MissOutcome(s: State, cfg: Config, f: Face, p: InterestPacket, now: Time, limits: Limits)
    returns (e: PitEntry, e1: PitEntry)
    requires Inv(s) && Enabled(s, GotInterest(f, p, now, None, limits))
    ensures Found(s, cfg, p, now, e) && Took(e, e1, f, p, now)
    ensures var s', n := Step(s, cfg, GotInterest(f, p, now, None, limits)), TakerName(s, p.name);
      && OnlyEntry(s, s', n) && s'.received == s.received + multiset{f}
      && if SeenNonce(s, p) then s'.out == s.out && s'.pit[n] == e1
         else PassedOn(s, s', e1, s'.pit[n], cfg, p, now, limits)
  {
    e := ArrivalOutcome(s, cfg, f, p, now);
    FoundRouteIsRanked(s, cfg, p, now, e);
    MissIsForwarded(s, cfg, f, p, now, limits);
    var s2, n := Arrived(s, cfg, f, p, now), TakerName(s, p.name);
    e1 := s2.pit[n];
    if !SeenNonce(s, p) {
      MissIsPassedOn(s, s2, cfg, n, p, now, limits);
    }
  }

  lemma MissIsPassedOn(s: State, s2: State, cfg: Config, n: Name, p: InterestPacket, now: Time, limits: Limits)
    requires OnlyEntry(s, s2, n) && s2.out == s.out && Ranked(RouteOf(s, s2.pit[n]))
    ensures var s3 := s2.(propagated := s2.propagated + [(s2.pit[n].id, p.nonce)]);
      var s' := PropagateOrGiveUp(s3, cfg, n, p, now, limits);
      && OnlyEntry(s, s', n) && s'.received == s2.received
      && PassedOn(s, s', s2.pit[n], s'.pit[n], cfg, p, now, limits)
  {
    var e1 := s2.pit[n];
    var s3 := s2.(propagated := s2.propagated + [(e1.id, p.nonce)]);
    assert RouteOf(s3, e1) == RouteOf(s, e1);
    ForwardOutcome(s3, cfg, n, p, now, limits);
    PassedOnFrom(s, s3, PropagateOrGiveUp(s3, cfg, n, p, now, limits), e1, cfg, n, p, now, limits);
  }

  /** Forwarding looks at faces, routes and what has been sent only. */
  lemma PassedOnFrom(s: State, s3: State, s': State, e: PitEntry, cfg: Config, n: Name, p: InterestPacket,
                     now: Time, limits: Limits)
    requires s.faces == s3.faces && s.fib == s3.fib && s.out == s3.out
    requires n in s'.pit && PassedOn(s3, s', e, s'.pit[n], cfg, p, now, limits)
    ensures PassedOn(s, s', e, s'.pit[n], cfg, p, now, limits)
  {
    assert RouteOf(s, e) == RouteOf(s3, e) && FloodList(s, e) == FloodList(s3, e);
    assert CanFlood(s, e, limits) == CanFlood(s3, e, limits);
  }

  //////////////////// nacks ////////////////////

  /** `e'` is `e` with outgoing face `f` in vain and, for a give-up nack, off the incoming
      faces. */
  ghost predicate Refused(e: PitEntry, e': PitEntry, f: Face, nack: nat) {
    && f in e.outgoing && e'.outgoing.Keys == e.outgoing.Keys
    && e'.outgoing[f].inVain && e'.outgoing[f].retx == e.outgoing[f].retx
    && (forall g :: g in e.outgoing && g != f ==> e'.outgoing[g] == e.outgoing[g])
    && e'.incoming == (if nack == 12 then e.incoming - {f} else e.incoming)
    && e' == e.(incoming := e'.incoming, outgoing := e'.outgoing)
  }

  /** A face is waiting for `e`, apart from `f` if that gives up, and no other face that has
      been asked can still answer. */
  ghost predicate MustRetry(e: PitEntry, f: Face, nack: nat) {
    && (exists g :: g in e.incoming && !(nack == 12 && g == f))
    && forall g :: g in e.outgoing && g != f ==> e.outgoing[g].inVain
  }

  /** A nack for the interest an entry is waiting for, from a face that was asked. */
  ghost predicate Concerns(s: State, f: Face, p: InterestPacket) {
    SeenNonce(s, p) && f in s.pit[Taker(s, p.name).value].outgoing
  }

  /** A nack that concerns no interest sent on the face sends nothing and turns no face; the
      entry is made or remembers the nonce, as for an interest. */
  lemma StrayNackOutcome(s: State, cfg: Config, f: Face, p: InterestPacket, now: Time, limits: Limits)
    returns (e: PitEntry)
    requires Enabled(s, GotNack(f, p, now, limits)) && !Concerns(s, f, p)
    ensures Found(s, cfg, p, now, e)
    ensures var s', n := Step(s, cfg, GotNack(f, p, now, limits)), TakerName(s, p.name);
      && OnlyEntry(s, s', n) && s'.out == s.out && s'.received == s.received
      && s'.pit[n] == e.(nonces := e.nonces + {p.nonce})
  {
    e := LookupOutcome(s, cfg, p, now);
  }

  lemma NackIsRetried(s: State, cfg: Config, f: Face, p: InterestPacket, now: Time, limits: Limits)
    requires Enabled(s, GotNack(f, p, now, limits)) && Concerns(s, f, p)
    ensures var n := Taker(s, p.name).value;
      var e1 := NackEntry(s.pit[n], f, p.nack);
      var s2 := UpdateFib(s.(pit := s.pit[n := e1]), e1.fib, f, Yellow);
      && Refused(s.pit[n], e1, f, p.nack)
      && OnNack(s, cfg, f, p, now, limits) ==
           if MustRetry(s.pit[n], f, p.nack) then PropagateOrGiveUp(s2, cfg, n, p, now, limits) else s2
  {
    var e := LookupOutcome(s, cfg, p, now);
    var n := Taker(s, p.name).value;
    var e1 := NackEntry(s.pit[n], f, p.nack);
    RetryIff(s.pit[n], f, p.nack);
  }

  lemma RetryIff(e: PitEntry, f: Face, nack: nat)
    requires f in e.outgoing
    ensures var e1 := NackEntry(e, f, nack);
      MustRetry(e, f, nack) <==> e1.incoming != {} && AllInVain(e1)
  {
    var e1 := NackEntry(e, f, nack);
    assert forall g :: g in e1.incoming <==> g in e.incoming && !(nack == 12 && g == f);
    assert e1.incoming != {} <==> exists g :: g in e1.incoming;
    assert forall g :: g in e.outgoing && g != f ==> e1.outgoing[g] == e.outgoing[g];
    assert forall g :: g in e1.outgoing <==> g in e.outgoing;
  }

  /** A nack for an interest sent on the face marks it in vain and turns it yellow in the
      route. The interest is tried again exactly if somebody still waits for it and all
      other faces asked are in vain; otherwise nothing is sent. No data is sent. */
  lemma NackOutcome(s: State, cfg: Config, f: Face, p: InterestPacket, now: Time, limits: Limits)
    returns (e1: PitEntry)
    requires Inv(s) && Enabled(s, GotNack(f, p, now, limits)) && Concerns(s, f, p)
    ensures var s', n := Step(s, cfg, GotNack(f, p, now, limits)), Taker(s, p.name).value;
      && n in s'.pit && SameBut(s.pit, s'.pit, n) && Refused(s.pit[n], e1, f, p.nack)
      && RouteRecoloured(s, s', e1, f, Yellow)
      && s'.faces == s.faces && s'.cs == s.cs && s'.dataTo == s.dataTo && s'.received == s.received
      && if MustRetry(s.pit[n], f, p.nack) then
           PassedOn(s.(fib := s'.fib), s', e1, s'.pit[n], cfg, p, now, limits)
         else s'.out == s.out && s'.pit[n] == e1
  {
    NackIsRetried(s, cfg, f, p, now, limits);
    var n := Taker(s, p.name).value;
    e1 := NackEntry(s.pit[n], f, p.nack);
    var s2 := MarkedInVain(s, n, f, p.nack);
    if MustRetry(s.pit[n], f, p.nack) {
      var s' := PropagateOrGiveUp(s2, cfg, n, p, now, limits);
      ForwardOutcome(s2, cfg, n, p, now, limits);
      PassedOnFrom(s.(fib := s'.fib), s2, s', e1, cfg, n, p, now, limits);
    }
  }

  lemma MarkedInVain(s: State, n: Name, f: Face, nack: nat) returns (s2: State)
    requires Inv(s) && n in s.pit && f in s.pit[n].outgoing
    ensures var e1 := NackEntry(s.pit[n], f, nack);
      && s2 == UpdateFib(s.(pit := s.pit[n := e1]), e1.fib, f, Yellow) && s2 == s.(pit := s.pit[n := e1], fib := s2.fib)
      && RouteRecoloured(s, s2, e1, f, Yellow) && Ranked(RouteOf(s2, e1))
  {
    var e1 := NackEntry(s.pit[n], f, nack);
    s2 := UpdateFib(s.(pit := s.pit[n := e1]), e1.fib, f, Yellow);
    assert EntryRefers(s, s.pit[n]) && EntryRefers(s, e1);
    UpdateRecolours(s, e1, f, Yellow);
    assert s2.fib == UpdateFib(s, e1.fib, f, Yellow).fib;
    if e1.fib.Some? {
      assert FibRefers(s, s.fib[e1.fib.value.prefix]);
      StatusKeepsRanked(s.fib[e1.fib.value.prefix].faces, f, Yellow);
    }
  }

  //////////////////// faces, routes and timers ////////////////////

  /** `f` is the only face of the entry's route. */
  ghost predicate SoleRoute(s: State, e: PitEntry, f: Face) {
    e.fib.Some? && e.fib.value.prefix in s.fib && forall x :: x in s.fib[e.fib.value.prefix].faces ==> x.face == f
  }

  lemma SoleRouteIff(s: State, e: PitEntry, f: Face)
    requires Inv(s) && EntryRefers(s, e)
    ensures SoleRoute(s, e, f) <==> OnlyVia(s, e, f)
  {
    if e.fib.Some? {
      var x := s.fib[e.fib.value.prefix];
      assert FibRefers(s, x);
      assert x.faces[0] in x.faces;
      if |x.faces| > 1 {
        assert x.faces[1] in x.faces && x.faces[0].face != x.faces[1].face;
      }
    }
  }

  ghost predicate Forgot(e: PitEntry, e': PitEntry, f: Face) {
    && (forall g :: g in e'.incoming <==> g in e.incoming && g != f)
    && (forall g :: g in e'.outgoing <==> g in e.outgoing && g != f)
    && (forall g :: g in e'.outgoing ==> e'.outgoing[g] == e.outgoing[g])
    && e' == e.(incoming := e'.incoming, outgoing := e'.outgoing)
  }

  /** `b` has the records of `a` but that of `f`. */
  ghost predicate RecordGone(a: Ranking, b: Ranking, f: Face) {
    forall y :: y in b <==> y in a && y.face != f
  }

  ghost predicate HasOther(r: Ranking, f: Face) {
    exists x :: x in r && x.face != f
  }

  lemma TrimOutcome(s: State, f: Face)
    requires Inv(s)
    ensures var s' := TrimPit(s, f);
      && (forall n :: n in s'.pit <==> n in s.pit && !SoleRoute(s, s.pit[n], f))
      && (forall n :: n in s'.pit ==> Forgot(s.pit[n], s'.pit[n], f))
  {
    forall n | n in s.pit
      ensures SoleRoute(s, s.pit[n], f) <==> OnlyVia(s, s.pit[n], f)
    {
      assert EntryRefers(s, s.pit[n]);
      SoleRouteIff(s, s.pit[n], f);
    }
  }

  lemma FibRemovalOutcome(s: State, f: Face)
    requires Inv(s)
    ensures var s' := RemoveFromFib(s, f);
      && (forall p :: p in s'.fib <==> p in s.fib && HasOther(s.fib[p].faces, f))
      && (forall p :: p in s'.fib ==> s'.fib[p].id == s.fib[p].id && RecordGone(s.fib[p].faces, s'.fib[p].faces, f))
  {
    forall p | p in s.fib
      ensures RecordGone(s.fib[p].faces, AfterRemove(s.fib[p].faces, f), f)
      ensures AfterRemove(s.fib[p].faces, f) != [] <==> HasOther(s.fib[p].faces, f)
    {
      assert FibRefers(s, s.fib[p]);
      RemovalKeepsRanked(s.fib[p].faces, f);
      var r := AfterRemove(s.fib[p].faces, f);
      assert r != [] ==> r[0] in r;
    }
  }

  /** When a face goes, exactly the entries that have no other route are dropped and every
      other entry forgets that face only; exactly the FIB entries with another face stay,
      without it. */
  lemma DropFaceOutcome(s: State, cfg: Config, f: Face)
    requires Inv(s)
    ensures var s' := Step(s, cfg, DropFace(f));
      && (forall n :: n in s'.pit <==> n in s.pit && !SoleRoute(s, s.pit[n], f))
      && (forall n :: n in s'.pit ==> Forgot(s.pit[n], s'.pit[n], f))
      && (forall p :: p in s'.fib <==> p in s.fib && HasOther(s.fib[p].faces, f))
      && (forall p :: p in s'.fib ==> s'.fib[p].id == s.fib[p].id && RecordGone(s.fib[p].faces, s'.fib[p].faces, f))
      && s' == s.(pit := s'.pit, fib := s'.fib, faces := s'.faces)
  {
    TrimOutcome(s, f);
    FibRemovalOutcome(s, f);
    assert Step(s, cfg, DropFace(f)).fib == RemoveFromFib(s, f).fib;
  }

  ghost predicate KnownFace(r: Ranking, f: Face) {
    exists x :: x in r && x.face == f
  }

  /** A route registered with a cost: the face has that cost for the prefix, with the status
      it had or yellow, and all other faces of the prefix and all other prefixes are as
      before. */
  lemma RegisterOutcome(s: State, cfg: Config, prefix: Name, f: Face, cost: int)
    requires Inv(s) && Enabled(s, AddRoute(prefix, f, cost))
    ensures var s' := Step(s, cfg, AddRoute(prefix, f, cost));
      var r := if prefix in s.fib then s.fib[prefix].faces else [];
      && prefix in s'.fib && SameBut(s.fib, s'.fib, prefix) && s' == s.(fib := s'.fib, nextId := s'.nextId)
      && s'.fib[prefix].id == (if prefix in s.fib then s.fib[prefix].id else s.nextId)
      && (forall y: FaceMetric :: y.face != f ==> (y in s'.fib[prefix].faces <==> y in r))
      && (forall y: FaceMetric :: y.face == f ==> (y in s'.fib[prefix].faces <==>
            y.cost == cost && if KnownFace(r, f) then exists x :: x in r && x.face == f && x.status == y.status
                              else y.status == Yellow))
  {
    var r := if prefix in s.fib then s.fib[prefix].faces else [];
    if prefix in s.fib {
      assert FibRefers(s, s.fib[prefix]);
    }
    CostOutcome(r, f, cost);
  }

  lemma CostOutcome(r: Ranking, f: Face, cost: int)
    requires Ranked(r) && DistinctFaces(r)
    ensures var r' := AfterCost(r, f, cost);
      && (forall y: FaceMetric :: y.face != f ==> (y in r' <==> y in r))
      && (forall y: FaceMetric :: y.face == f ==> (y in r' <==>
            y.cost == cost && if KnownFace(r, f) then exists x :: x in r && x.face == f && x.status == y.status
                              else y.status == Yellow))
  {
    CostKeepsRanked(r, f, cost);
    forall y: FaceMetric, x | x in r && x.face == f && y.face == f && y.cost == cost && x.status == y.status
      ensures y in AfterCost(r, f, cost)
    {
      assert y == x.(cost := cost);
    }
  }

  /** After the timer exactly the entries that are not due are left, unchanged. */
  lemma ReapOutcome(s: State, cfg: Config, now: Time)
    ensures var s' := Step(s, cfg, ReapTimer(now));
      && s' == s.(pit := s'.pit)
      && (forall n :: n in s'.pit <==> n in s.pit && s.pit[n].expire > now)
      && (forall n :: n in s'.pit ==> s'.pit[n] == s.pit[n])
  {
  }
}
