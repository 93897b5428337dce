/** What every step of the engine keeps, over all runs: flow balance, no stale references,
    and loop suppression. */
module EngineInvariants {
  import opened Names
  import opened LruCache
  import opened FaceRanking
  import opened Engine

  //////////////////// no stale references ////////////////////

  ghost predicate EntryRefers(s: State, e: PitEntry) {
    && (forall f :: f in e.incoming ==> f in s.faces)
    && (forall f :: f in e.outgoing ==> f in s.faces)
    && (e.fib.Some? ==> Present(s.fib, e.fib.value))
  }

  ghost predicate FibRefers(s: State, x: FibEntry) {
    && x.faces != [] && Ranked(x.faces) && DistinctFaces(x.faces)
    && (forall y :: y in x.faces ==> y.face in s.faces)
  }

  /** Every face named in a table is registered, every FIB entry has a face, and every
      pointer from the PIT to the FIB points to an entry that is still there. */
  ghost predicate NoStale(s: State) {
    && (forall n :: n in s.pit ==> EntryRefers(s, s.pit[n]))
    && (forall p :: p in s.fib ==> FibRefers(s, s.fib[p]))
  }

  /** Identities of FIB entries are unique and below the next one to be given. */
  ghost predicate FreshIds(s: State) {
    && (forall p :: p in s.fib ==> s.fib[p].id < s.nextId)
    && (forall n :: n in s.pit ==> s.pit[n].id < s.nextId)
    && (forall m, n :: m in s.pit && n in s.pit && s.pit[m].id == s.pit[n].id ==> m == n)
    && (forall k :: 0 <= k < |s.propagated| ==> s.propagated[k].0 < s.nextId)
  }

  //////////////////// flow balance ////////////////////

  /** The PIT entries that list `f` as an incoming face. */
  ghost function PendingOn(pit: map<Name, PitEntry>, f: Face): set<Name> {
    set n | n in pit && f in pit[n].incoming
  }

  /** On every face, data sent and interests pending never exceed interests received. */
  ghost predicate Balanced(s: State) {
    forall f :: s.dataTo[f] + |PendingOn(s.pit, f)| <= s.received[f]
  }

  //////////////////// loop suppression ////////////////////

  /** No PIT entry has been propagated twice for the same nonce, and what was propagated is
      remembered as seen for as long as the entry lives. */
  ghost predicate LoopFree(s: State) {
    && NoDup(s.propagated)
    && (forall n, k :: n in s.pit && 0 <= k < |s.propagated| && s.propagated[k].0 == s.pit[n].id ==>
          s.propagated[k].1 in s.pit[n].nonces)
  }

  ghost predicate Inv(s: State) {
    NoStale(s) && FreshIds(s) && Balanced(s) && LoopFree(s)
  }

  //////////////////// events ////////////////////

  datatype Event =
    | AddFace(f: Face)
    | DropFace(f: Face)
    | AddRoute(prefix: Name, f: Face, cost: int)
    | GotInterest(f: Face, p: InterestPacket, now: Time, hit: Option<nat>, limits: Limits)
    | GotNack(f: Face, p: InterestPacket, now: Time, limits: Limits)
    | GotData(f: Face, name: Name, packet: Packet)
    | ReapTimer(now: Time)

  /** Packets arrive on, and routes are registered for, registered faces. */
  ghost predicate Enabled(s: State, e: Event) {
    match e
    case AddRoute(_, f, _) => f in s.faces
    case GotInterest(f, p, _, hit, _) => f in s.faces && LegalAnswer(s.cs, p.name, hit)
    case GotNack(f, _, _, _) => f in s.faces
    case GotData(f, _, _) => f in s.faces
    case _ => true
  }

  ghost function Step(s: State, cfg: Config, e: Event): State
    requires Enabled(s, e)
  {
    match e
    case AddFace(f) => s.(faces := s.faces + [f])
    case DropFace(f) => RemoveFace(s, f)
    case AddRoute(prefix, f, cost) => Register(s, prefix, f, cost)
    case GotInterest(f, p, now, hit, limits) => OnInterest(s, cfg, f, p, now, hit, limits)
    case GotNack(f, p, now, limits) => OnNack(s, cfg, f, p, now, limits)
    case GotData(f, name, packet) => OnData(s, cfg, f, name, packet)
    case ReapTimer(now) => Reap(s, now)
  }

  ghost predicate Run(cfg: Config, es: seq<Event>, s: State) {
    if es == [] then s == State([], map[], map[], [], 0, multiset{}, multiset{}, multiset{}, [], {})
    else
      var before, last := es[..|es| - 1], es[|es| - 1];
      exists s0 :: Run(cfg, before, s0) && Enabled(s0, last) && s == Step(s0, cfg, last)
  }

  //////////////////// changing one PIT entry ////////////////////

  lemma PendingUpdate(pit: map<Name, PitEntry>, n: Name, e: PitEntry, f: Face)
    ensures |PendingOn(pit[n := e], f)| ==
      |PendingOn(pit, f)| + (if f in e.incoming then 1 else 0) - (if n in pit && f in pit[n].incoming then 1 else 0)
  {
    var rest := PendingOn(pit - {n}, f);
    assert PendingOn(pit[n := e], f) == if f in e.incoming then rest + {n} else rest;
    assert PendingOn(pit, f) == if n in pit && f in pit[n].incoming then rest + {n} else rest;
  }

  lemma PendingShrinks(small: map<Name, PitEntry>, big: map<Name, PitEntry>, f: Face)
    requires forall n :: n in small ==> n in big && small[n].incoming <= big[n].incoming
    ensures |PendingOn(small, f)| <= |PendingOn(big, f)|
  {
    SubsetSize(PendingOn(small, f), PendingOn(big, f));
  }

  /** All that is kept of an entry besides its effect on the flow balance. */
  ghost predicate Consistent(s: State) {
    NoStale(s) && FreshIds(s) && LoopFree(s)
  }

  lemma ChangedEntryKeepsRest(s: State, n: Name, e: PitEntry)
    requires Consistent(s) && n in s.pit && EntryRefers(s, e)
    requires e.id == s.pit[n].id && s.pit[n].nonces <= e.nonces
    ensures Consistent(s.(pit := s.pit[n := e]))
  {
    var s' := s.(pit := s.pit[n := e]);
    forall m | m in s'.pit
      ensures EntryRefers(s', s'.pit[m])
    {
      assert m != n ==> EntryRefers(s, s.pit[m]);
    }
    assert forall p :: p in s'.fib ==> FibRefers(s, s.fib[p]) && FibRefers(s', s'.fib[p]);
  }

  lemma FewerEntriesKeepRest(s: State, pit: map<Name, PitEntry>)
    requires Consistent(s) && forall n :: n in pit ==> n in s.pit && pit[n] == s.pit[n]
    ensures Consistent(s.(pit := pit))
  {
    var s' := s.(pit := pit);
    forall m | m in s'.pit
      ensures EntryRefers(s', s'.pit[m])
    {
      assert EntryRefers(s, s.pit[m]);
    }
    assert forall p :: p in s'.fib ==> FibRefers(s, s.fib[p]) && FibRefers(s', s'.fib[p]);
  }

  /** `s'` differs from `s` in entry `n` only, which keeps its identity and its route,
      forgets no nonce, gains no incoming face, and gains only registered outgoing faces. */
  ghost predicate Touched(s: State, s': State, n: Name) {
    && n in s.pit && n in s'.pit && s' == s.(pit := s.pit[n := s'.pit[n]], out := s'.out)
    && s'.pit[n].id == s.pit[n].id && s.pit[n].nonces <= s'.pit[n].nonces && s'.pit[n].fib == s.pit[n].fib
    && s'.pit[n].incoming <= s.pit[n].incoming
    && (forall f :: f in s'.pit[n].outgoing ==> f in s.faces)
  }

  lemma TouchedKeepsInv(s: State, s': State, n: Name)
    requires Inv(s) && Touched(s, s', n)
    ensures Inv(s')
  {
    assert EntryRefers(s, s.pit[n]) && EntryRefers(s, s'.pit[n]);
    ChangedEntryKeepsRest(s, n, s'.pit[n]);
    TouchedKeepsBalance(s, s', n);
    SentKeepsConsistent(s.(pit := s'.pit), s'.out, s'.dataTo);
  }

  /** What has been sent does not bear on the tables. */
  lemma SentKeepsConsistent(s: State, out: multiset<Action>, dataTo: multiset<Face>)
    requires Consistent(s)
    ensures Consistent(s.(out := out, dataTo := dataTo))
  {
    var s' := s.(out := out, dataTo := dataTo);
    assert forall n :: n in s'.pit ==> EntryRefers(s, s.pit[n]) && EntryRefers(s', s'.pit[n]);
    assert forall p :: p in s'.fib ==> FibRefers(s, s.fib[p]) && FibRefers(s', s'.fib[p]);
  }

  lemma TouchedKeepsBalance(s: State, s': State, n: Name)
    requires Balanced(s) && Touched(s, s', n)
    ensures Balanced(s')
  {
    forall f
      ensures s'.dataTo[f] + |PendingOn(s'.pit, f)| <= s'.received[f]
    {
      PendingShrinks(s'.pit, s.pit, f);
    }
  }

  //////////////////// the forwarding strategy ////////////////////

  lemma {:induction false} FirstGreenIsFace(r: Ranking, e: PitEntry, green: Face -> bool)
    ensures FirstGreen(r, e, green).Some? ==> FirstGreen(r, e, green).value in FacesOf(r)
  {
    if r != [] && r[0].status == Green && !Eligible(r[0], e, green) {
      FirstGreenIsFace(r[1..], e, green);
      assert forall i :: 0 <= i < |r| - 1 ==> r[1..][i] == r[i + 1];
    }
  }

  lemma {:induction false} FloodTouches(e: PitEntry, name: Name, nonce: Nonce, fs: seq<Face>, k: nat,
                                        flood: nat -> bool, out: multiset<Action>)
    requires k <= |fs|
    ensures var (e', out', n) := Flood(e, name, nonce, fs, k, flood, out);
      && e' == e.(outgoing := e'.outgoing)
      && forall f :: f in e'.outgoing ==> f in e.outgoing || f in fs
    decreases |fs| - k
  {
    if k < |fs| {
      if flood(k) {
        var sent := multiset{SentInterest(fs[k], name, nonce)};
        FloodTouches(AddOutgoing(e, fs[k]), name, nonce, fs, k + 1, flood, out + sent);
      } else {
        FloodTouches(e, name, nonce, fs, k + 1, flood, out);
      }
    }
  }

  lemma PropagateTouches(s: State, n: Name, p: InterestPacket, limits: Limits)
    requires Inv(s) && n in s.pit
    ensures Touched(s, Propagate(s, n, p, limits).0, n)
  {
    var e := s.pit[n];
    var r := FibFaces(s, e);
    assert EntryRefers(s, e);
    assert forall f :: f in FacesOf(r) ==> f in s.faces;
    FirstGreenIsFace(r, e, limits.green);
    if FirstGreen(r, e, limits.green).None? {
      FloodTouches(e, p.name, p.nonce, if e.fib.Some? then Candidates(r) else s.faces, 0, limits.flood, s.out);
    }
  }

  lemma PropagateOrGiveUpKeepsInv(s: State, cfg: Config, n: Name, p: InterestPacket, now: Time, limits: Limits)
    requires Inv(s) && n in s.pit
    ensures Inv(PropagateOrGiveUp(s, cfg, n, p, now, limits))
  {
    PropagateTouches(s, n, p, limits);
    var (s', propagated) := Propagate(s, n, p, limits);
    TouchedKeepsInv(s, s', n);
    if !propagated {
      TouchedKeepsInv(s', GiveUp(s', cfg, n, now), n);
    }
  }

  //////////////////// PIT lookup ////////////////////

  lemma FreshEntryKeepsRest(s: State, n: Name, e: PitEntry)
    requires Consistent(s) && n !in s.pit && e.id == s.nextId && e.incoming == {} && e.outgoing == map[]
    requires e.fib.Some? ==> Present(s.fib, e.fib.value)
    ensures Consistent(s.(pit := s.pit[n := e], nextId := s.nextId + 1))
  {
    var s' := s.(pit := s.pit[n := e], nextId := s.nextId + 1);
    forall m | m in s'.pit
      ensures EntryRefers(s', s'.pit[m])
    {
      assert m != n ==> EntryRefers(s, s.pit[m]);
    }
    assert forall p :: p in s'.fib ==> FibRefers(s, s.fib[p]) && FibRefers(s', s'.fib[p]);
  }

  lemma FreshEntryKeepsInv(s: State, n: Name, e: PitEntry)
    requires Inv(s) && n !in s.pit && e.id == s.nextId && e.incoming == {} && e.outgoing == map[]
    requires e.fib.Some? ==> Present(s.fib, e.fib.value)
    ensures Inv(s.(pit := s.pit[n := e], nextId := s.nextId + 1))
    ensures forall f :: PendingOn(s.pit[n := e], f) == PendingOn(s.pit, f)
  {
    assert forall f :: PendingOn(s.pit[n := e], f) == PendingOn(s.pit, f);
    FreshEntryKeepsRest(s, n, e);
  }

  lemma SeenNonceKeepsInv(s: State, n: Name, nonces: set<Nonce>)
    requires Inv(s) && n in s.pit
    ensures var e := s.pit[n].(nonces := s.pit[n].nonces + nonces);
      Inv(s.(pit := s.pit[n := e])) && forall f :: PendingOn(s.pit[n := e], f) == PendingOn(s.pit, f)
  {
    var e := s.pit[n].(nonces := s.pit[n].nonces + nonces);
    assert forall f :: PendingOn(s.pit[n := e], f) == PendingOn(s.pit, f);
    assert EntryRefers(s, s.pit[n]);
    TouchedKeepsInv(s, s.(pit := s.pit[n := e]), n);
  }

  lemma LookupKeepsInv(s: State, cfg: Config, p: InterestPacket, now: Time)
    requires Inv(s)
    ensures var (s1, n, isNew, isDuplicate) := PitLookup(s, cfg, p, now);
      && Inv(s1) && n in s1.pit && p.nonce in s1.pit[n].nonces
      && s1 == s.(pit := s1.pit, nextId := s1.nextId)
      && (forall f :: PendingOn(s1.pit, f) == PendingOn(s.pit, f))
      && (!isDuplicate ==> (s1.pit[n].id, p.nonce) !in s.propagated)
  {
    var (s1, n, isNew, isDuplicate) := PitLookup(s, cfg, p, now);
    if isNew {
      FreshEntryKeepsInv(s, n, s1.pit[n]);
    } else if !isDuplicate {
      SeenNonceKeepsInv(s, n, {p.nonce});
    }
  }

  //////////////////// sending data ////////////////////

  lemma SatisfyKeepsBalance(s: State, n: Name, packet: Packet)
    requires Balanced(s) && n in s.pit
    ensures Balanced(Satisfy(s, n, packet))
  {
    var s' := Satisfy(s, n, packet);
    forall f
      ensures s'.dataTo[f] + |PendingOn(s'.pit, f)| <= s'.received[f]
    {
      var rest := PendingOn(s'.pit, f);
      assert PendingOn(s.pit, f) == if f in s.pit[n].incoming then rest + {n} else rest;
    }
  }

  lemma SatisfyKeepsInv(s: State, n: Name, packet: Packet)
    requires Inv(s) && n in s.pit
    ensures Inv(Satisfy(s, n, packet))
  {
    var s' := Satisfy(s, n, packet);
    SatisfyKeepsBalance(s, n, packet);
    FewerEntriesKeepRest(s, s'.pit);
    SentKeepsConsistent(s.(pit := s'.pit), s'.out, s'.dataTo);
  }

  //////////////////// handlers ////////////////////

  /** Listing `f` as incoming uses up the interest just received on it. */
  lemma ReceiveKeepsInv(s: State, n: Name, f: Face, p: InterestPacket, now: Time)
    requires Inv(s) && n in s.pit && f in s.faces
    requires s.dataTo[f] + |PendingOn(s.pit, f)| < s.received[f]
    ensures Inv(Receive(s, n, f, p, now))
  {
    var e := ReceiveOn(s.pit[n], f, p.lifetime, now);
    assert EntryRefers(s, s.pit[n]) && EntryRefers(s, e);
    ChangedEntryKeepsRest(s, n, e);
    ReceiveKeepsBalance(s, n, f, e);
    ListingKeepsInv(s.(pit := s.pit[n := e]), Receive(s, n, f, p, now).listed);
  }

  /** The log of listed interests does not bear on the tables. */
  lemma ListingKeepsInv(s: State, listed: set<(nat, Face, Name)>)
    requires Inv(s)
    ensures Inv(s.(listed := listed))
  {
    var s' := s.(listed := listed);
    assert forall n :: n in s'.pit ==> EntryRefers(s, s.pit[n]) && EntryRefers(s', s'.pit[n]);
    assert forall p :: p in s'.fib ==> FibRefers(s, s.fib[p]) && FibRefers(s', s'.fib[p]);
  }

  lemma ReceiveKeepsBalance(s: State, n: Name, f: Face, e: PitEntry)
    requires Balanced(s) && n in s.pit && e.incoming == s.pit[n].incoming + {f}
    requires s.dataTo[f] + |PendingOn(s.pit, f)| < s.received[f]
    ensures Balanced(s.(pit := s.pit[n := e]))
  {
    var s' := s.(pit := s.pit[n := e]);
    forall g
      ensures s'.dataTo[g] + |PendingOn(s'.pit, g)| <= s'.received[g]
    {
      PendingUpdate(s.pit, n, e, g);
    }
  }

  lemma NotePropagated(s: State, n: Name, nonce: Nonce)
    requires Inv(s) && n in s.pit && nonce in s.pit[n].nonces && (s.pit[n].id, nonce) !in s.propagated
    ensures Inv(s.(propagated := s.propagated + [(s.pit[n].id, nonce)]))
  {
    var s' := s.(propagated := s.propagated + [(s.pit[n].id, nonce)]);
    assert forall k :: 0 <= k < |s.propagated| ==> s.propagated[k] in s.propagated;
    assert NoStale(s') && FreshIds(s') && Balanced(s');
  }

  lemma AnswerKeepsInv(s: State, cfg: Config, n: Name, p: InterestPacket, now: Time, hit: Option<nat>, limits: Limits)
    requires Inv(s) && n in s.pit && p.nonce in s.pit[n].nonces && LegalAnswer(s.cs, p.name, hit)
    ensures hit.Some? ==> Inv(Satisfy(s.(cs := AfterUse(s.cs, hit.value)), n, s.cs[hit.value].packet))
    ensures hit == None && (s.pit[n].id, p.nonce) !in s.propagated ==>
      Inv(PropagateOrGiveUp(s.(propagated := s.propagated + [(s.pit[n].id, p.nonce)]), cfg, n, p, now, limits))
  {
    match hit
    case Some(i) =>
      SatisfyKeepsInv(s.(cs := AfterUse(s.cs, i)), n, s.cs[i].packet);
    case None =>
      if (s.pit[n].id, p.nonce) !in s.propagated {
        NotePropagated(s, n, p.nonce);
        PropagateOrGiveUpKeepsInv(s.(propagated := s.propagated + [(s.pit[n].id, p.nonce)]), cfg, n, p, now, limits);
      }
  }

  lemma InterestKeepsInv(s: State, cfg: Config, f: Face, p: InterestPacket, now: Time, hit: Option<nat>, limits: Limits)
    requires Inv(s) && f in s.faces && LegalAnswer(s.cs, p.name, hit)
    ensures Inv(OnInterest(s, cfg, f, p, now, hit, limits))
  {
    var s0 := s.(received := s.received + multiset{f});
    LookupKeepsInv(s0, cfg, p, now);
    var (s1, n, isNew, isDuplicate) := PitLookup(s0, cfg, p, now);
    assert s.dataTo[f] + |PendingOn(s.pit, f)| <= s.received[f];
    ReceiveKeepsInv(s1, n, f, p, now);
    AnswerKeepsInv(Receive(s1, n, f, p, now), cfg, n, p, now, hit, limits);
  }

  lemma ChangedRouteKeepsInv(s: State, p: Name, x: FibEntry)
    requires Inv(s) && p in s.fib && FibRefers(s, x) && x.id == s.fib[p].id
    ensures Inv(s.(fib := s.fib[p := x]))
  {
    var s' := s.(fib := s.fib[p := x]);
    forall n | n in s'.pit
      ensures EntryRefers(s', s'.pit[n])
    {
      assert EntryRefers(s, s.pit[n]);
    }
    forall q | q in s'.fib
      ensures FibRefers(s', s'.fib[q])
    {
      assert q != p ==> FibRefers(s, s.fib[q]);
    }
    assert Balanced(s') && LoopFree(s') && FreshIds(s');
  }

  lemma StatusKeepsFaces(s: State, x: FibEntry, f: Face, status: Status)
    requires FibRefers(s, x)
    ensures FibRefers(s, x.(faces := AfterStatus(x.faces, f, status)))
  {
    StatusKeepsRanked(x.faces, f, status);
    var y := x.faces[0];
    assert y in x.faces;
    assert (if y.face == f then y.(status := status) else y) in AfterStatus(x.faces, f, status);
  }

  lemma UpdateFibKeepsInv(s: State, r: Option<FibRef>, f: Face, status: Status)
    requires Inv(s)
    ensures Inv(UpdateFib(s, r, f, status))
  {
    if r.Some? && r.value.prefix in s.fib {
      var x := s.fib[r.value.prefix];
      StatusKeepsFaces(s, x, f, status);
      ChangedRouteKeepsInv(s, r.value.prefix, x.(faces := AfterStatus(x.faces, f, status)));
    }
  }

  lemma NackEntryKeepsInv(s: State, n: Name, f: Face, nack: nat)
    requires Inv(s) && n in s.pit && f in s.pit[n].outgoing
    ensures Inv(s.(pit := s.pit[n := NackEntry(s.pit[n], f, nack)]))
  {
    assert EntryRefers(s, s.pit[n]);
    TouchedKeepsInv(s, s.(pit := s.pit[n := NackEntry(s.pit[n], f, nack)]), n);
  }

  lemma NackKeepsInv(s: State, cfg: Config, f: Face, p: InterestPacket, now: Time, limits: Limits)
    requires Inv(s) && f in s.faces
    ensures Inv(OnNack(s, cfg, f, p, now, limits))
  {
    LookupKeepsInv(s, cfg, p, now);
    var (s1, n, isNew, isDuplicate) := PitLookup(s, cfg, p, now);
    if !isNew && isDuplicate && f in s1.pit[n].outgoing {
      var e := NackEntry(s1.pit[n], f, p.nack);
      var s2 := s1.(pit := s1.pit[n := e]);
      NackEntryKeepsInv(s1, n, f, p.nack);
      UpdateFibKeepsInv(s2, e.fib, f, Yellow);
      PropagateOrGiveUpKeepsInv(UpdateFib(s2, e.fib, f, Yellow), cfg, n, p, now, limits);
    }
  }

  lemma DataKeepsInv(s: State, cfg: Config, f: Face, name: Name, packet: Packet)
    requires Inv(s)
    ensures Inv(OnData(s, cfg, f, name, packet))
  {
    if name in s.pit && f in s.pit[name].outgoing {
      var s1 := UpdateFib(s, s.pit[name].fib, f, Green);
      UpdateFibKeepsInv(s, s.pit[name].fib, f, Green);
      SatisfyKeepsInv(AddToStore(s1, cfg, name, packet), name, packet);
    }
  }

  //////////////////// faces, routes and timers ////////////////////

  lemma {:induction false} RemoveFirstKeepsOthers(fs: seq<Face>, f: Face, g: Face)
    requires g in fs && g != f
    ensures g in RemoveFirst(fs, f)
  {
    if fs[0] != f && fs[0] != g {
      RemoveFirstKeepsOthers(fs[1..], f, g);
    }
  }

  /** Trimming the PIT comes first: it drops the entries whose route is about to vanish. */
  lemma TrimKeepsInv(s: State, f: Face)
    requires Inv(s)
    ensures Inv(TrimPit(s, f))
    ensures forall n :: n in TrimPit(s, f).pit ==>
      var e := TrimPit(s, f).pit[n];
      f !in e.incoming && f !in e.outgoing && !OnlyVia(s, e, f)
  {
    var s' := TrimPit(s, f);
    forall g
      ensures s'.dataTo[g] + |PendingOn(s'.pit, g)| <= s'.received[g]
    {
      PendingShrinks(s'.pit, s.pit, g);
    }
    assert forall n :: n in s'.pit ==> EntryRefers(s, s.pit[n]) && EntryRefers(s', s'.pit[n]);
    assert forall p :: p in s'.fib ==> FibRefers(s', s'.fib[p]);
  }

  lemma SurvivesRemoval(r: Ranking, f: Face)
    requires Ranked(r) && DistinctFaces(r) && r != []
    ensures AfterRemove(r, f) == [] <==> |r| == 1 && r[0].face == f
  {
  }

  lemma RemoveFromFibKeepsRefs(s: State, f: Face, p: Name)
    requires Inv(s) && p in s.fib && !(|s.fib[p].faces| == 1 && s.fib[p].faces[0].face == f)
    ensures p in RemoveFromFib(s, f).fib && RemoveFromFib(s, f).fib[p].id == s.fib[p].id
  {
    assert FibRefers(s, s.fib[p]);
    SurvivesRemoval(s.fib[p].faces, f);
  }

  lemma RemoveFaceKeepsInv(s: State, f: Face)
    requires Inv(s)
    ensures Inv(RemoveFace(s, f))
  {
    TrimKeepsInv(s, f);
    var t := TrimPit(s, f);
    var s' := RemoveFace(s, f);
    forall g | g in t.faces && g != f
      ensures g in s'.faces
    {
      RemoveFirstKeepsOthers(t.faces, f, g);
    }
    forall n | n in s'.pit
      ensures EntryRefers(s', s'.pit[n])
    {
      var e := t.pit[n];
      assert EntryRefers(t, e) && !OnlyVia(s, e, f);
      if e.fib.Some? {
        RemoveFromFibKeepsRefs(t, f, e.fib.value.prefix);
      }
    }
    forall p | p in s'.fib
      ensures FibRefers(s', s'.fib[p])
    {
      assert FibRefers(t, t.fib[p]);
      RemovalKeepsRanked(t.fib[p].faces, f);
    }
    assert Balanced(t) && LoopFree(t) && FreshIds(t);
  }

  lemma CostKeepsFaces(s: State, r: Ranking, f: Face, cost: int)
    requires f in s.faces && Ranked(r) && DistinctFaces(r) && forall y :: y in r ==> y.face in s.faces
    ensures AfterCost(r, f, cost) != [] && forall y :: y in AfterCost(r, f, cost) ==> y.face in s.faces
  {
    CostKeepsRanked(r, f, cost);
    var i := FindFace(r, f);
    if i < |r| {
      assert r[i] in r && r[i].(cost := cost) in AfterCost(r, f, cost);
    } else {
      assert FaceMetric(f, Yellow, cost) in AfterCost(r, f, cost) by {
        forall x | x in r
          ensures x.face != f
        {
          var k :| 0 <= k < |r| && r[k] == x;
        }
      }
    }
  }

  lemma NewRouteKeepsInv(s: State, p: Name, x: FibEntry)
    requires Inv(s) && p !in s.fib && FibRefers(s, x) && x.id == s.nextId
    ensures Inv(s.(fib := s.fib[p := x], nextId := s.nextId + 1))
  {
    var s' := s.(fib := s.fib[p := x], nextId := s.nextId + 1);
    forall n | n in s'.pit
      ensures EntryRefers(s', s'.pit[n])
    {
      assert EntryRefers(s, s.pit[n]);
    }
    forall q | q in s'.fib
      ensures FibRefers(s', s'.fib[q])
    {
      assert q != p ==> FibRefers(s, s.fib[q]);
    }
    assert Balanced(s') && LoopFree(s') && FreshIds(s');
  }

  lemma RegisterKeepsInv(s: State, prefix: Name, f: Face, cost: int)
    requires Inv(s) && f in s.faces
    ensures Inv(Register(s, prefix, f, cost))
  {
    var x := if prefix in s.fib then s.fib[prefix] else FibEntry(s.nextId, []);
    var x' := x.(faces := AfterCost(x.faces, f, cost));
    assert prefix in s.fib ==> FibRefers(s, x);
    CostKeepsRanked(x.faces, f, cost);
    CostKeepsFaces(s, x.faces, f, cost);
    if prefix in s.fib {
      ChangedRouteKeepsInv(s, prefix, x');
    } else {
      NewRouteKeepsInv(s, prefix, x');
    }
  }

  lemma ReapKeepsInv(s: State, now: Time)
    requires Inv(s)
    ensures Inv(Reap(s, now))
  {
    var s' := Reap(s, now);
    forall g
      ensures s'.dataTo[g] + |PendingOn(s'.pit, g)| <= s'.received[g]
    {
      PendingShrinks(s'.pit, s.pit, g);
    }
    FewerEntriesKeepRest(s, s'.pit);
  }

  lemma StepKeepsInv(s: State, cfg: Config, e: Event)
    requires Inv(s) && Enabled(s, e)
    ensures Inv(Step(s, cfg, e))
  {
    match e
    case AddFace(f) =>
      var s' := Step(s, cfg, e);
      assert forall n :: n in s'.pit ==> EntryRefers(s, s.pit[n]) && EntryRefers(s', s'.pit[n]);
      assert forall p :: p in s'.fib ==> FibRefers(s, s.fib[p]) && FibRefers(s', s'.fib[p]);
    case DropFace(f) => RemoveFaceKeepsInv(s, f);
    case AddRoute(prefix, f, cost) => RegisterKeepsInv(s, prefix, f, cost);
    case GotInterest(f, p, now, hit, limits) => InterestKeepsInv(s, cfg, f, p, now, hit, limits);
    case GotNack(f, p, now, limits) => NackKeepsInv(s, cfg, f, p, now, limits);
    case GotData(f, name, packet) => DataKeepsInv(s, cfg, f, name, packet);
    case ReapTimer(now) => ReapKeepsInv(s, now);
  }

  /** In every state of every run: on each face data sent plus pending interests never
      exceed interests received, no table names a missing face or route, and no PIT entry
      is propagated twice for one nonce. */
  lemma {:induction false} RunsKeepInv(cfg: Config, es: seq<Event>, s: State)
    requires Run(cfg, es, s)
    ensures Balanced(s) && NoStale(s) && LoopFree(s) && FreshIds(s)
  {
    if es == [] {
      assert forall f :: PendingOn(s.pit, f) == {};
    } else {
      var before, last := es[..|es| - 1], es[|es| - 1];
      var s0 :| Run(cfg, before, s0) && Enabled(s0, last) && s == Step(s0, cfg, last);
      RunsKeepInv(cfg, before, s0);
      StepKeepsInv(s0, cfg, last);
    }
  }
}
