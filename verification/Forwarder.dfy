/** The forwarding daemon: the handlers of NDNL3Protocol over mutable tables and the
    content store, each proved to take the step of the state machine. */
module Forwarder {
  import opened Names
  import opened LruCache
  import opened ContentStore
  import opened FaceRanking
  import opened Engine
  import opened EngineInvariants
  import opened EngineOutcomes

  class Protocol {
    const cfg: Config
    const cs: Store<Component, Packet>
    var faces: seq<Face>
    var fib: map<Name, FibEntry>
    var pit: map<Name, PitEntry>
    var nextId: nat
    ghost var received: multiset<Face>
    ghost var dataTo: multiset<Face>
    ghost var out: multiset<Action>
    ghost var propagated: seq<(nat, Nonce)>
    ghost var listed: set<(nat, Face, Name)>

    ghost function Tables(cache: Cache<Component, Packet>): State
      reads this
    {
      State(faces, fib, pit, cache, nextId, received, dataTo, out, propagated, listed)
    }

    ghost function Abs(): State
      requires cs.ListedBut(null)
      reads this, cs, cs.nodes
    {
      Tables(cs.Abs())
    }

    ghost predicate Valid()
      reads this, cs, cs.nodes
    {
      cs.Valid() && cs.maxSize == cfg.capacity && Inv(Abs())
    }

    constructor (cfg: Config)
      ensures Valid() && fresh(cs) && fresh(cs.nodes) && this.cfg == cfg
      ensures Run(cfg, [], Abs())
    {
      this.cfg := cfg;
      cs := new Store(cfg.capacity);
      faces, fib, pit, nextId := [], map[], map[], 0;
      received, dataTo, out, propagated, listed := multiset{}, multiset{}, multiset{}, [], {};
      new;
      assert Abs().cs == [];
      RunsKeepInv(cfg, [], Abs());
    }

    //////////////////// table lookups ////////////////////

    /** The FIB entry that `e` points to has not been erased. */
    predicate RouteKept(e: PitEntry)
      reads this`fib
    {
      e.fib != None ==> e.fib.value.prefix in fib
    }

    predicate RoutesKept()
      reads this`fib, this`pit
    {
      forall n :: n in pit ==> RouteKept(pit[n])
    }

    twostate lemma StoreUntouched()
      requires old(cs.Valid()) && unchanged(cs) && unchanged(old(cs.nodes))
      ensures cs.Valid() && cs.Abs() == old(cs.Abs())
    {
    }

    lemma ValidKeepsRoutes()
      requires Valid()
      ensures RoutesKept()
    {
      forall n | n in pit
        ensures RouteKept(pit[n])
      {
        assert EntryRefers(Abs(), pit[n]);
      }
    }

    method LongestPrefix(keys: set<Name>, name: Name) returns (r: Option<Name>)
      ensures r == LongestMatch(keys, name, |name|)
    {
      var k := |name|;
      while true
        invariant 0 <= k <= |name| && LongestMatch(keys, name, k) == LongestMatch(keys, name, |name|)
        decreases k
      {
        if name[..k] in keys {
          return Some(name[..k]);
        }
        if k == 0 {
          return None;
        }
        k := k - 1;
      }
    }

    method LookupPit(p: InterestPacket, now: Time, ghost cache: Cache<Component, Packet>)
      returns (n: Name, isNew: bool, isDuplicate: bool)
      modifies this`pit, this`nextId
      ensures (Tables(cache), n, isNew, isDuplicate) == PitLookup(old(Tables(cache)), cfg, p, now)
    {
      var entry := LongestPrefix(pit.Keys, p.name);
      if entry == None {
        var route := LongestPrefix(fib.Keys, p.name);
        var r := if route == None then None else Some(FibRef(route.value, fib[route.value].id));
        var lifetime := if p.lifetime == 0 then cfg.defaultLifetime else p.lifetime;
        pit := pit[p.name := PitEntry(nextId, r, {p.nonce}, {}, map[], now + lifetime, 0)];
        nextId := nextId + 1;
        return p.name, true, false;
      }
      n := entry.value;
      isNew := false;
      isDuplicate := p.nonce in pit[n].nonces;
      if !isDuplicate {
        pit := pit[n := pit[n].(nonces := pit[n].nonces + {p.nonce})];
      }
    }

    //////////////////// forwarding strategy ////////////////////

    /** Sends an interest on `f` and records it in the entry. */
    method SendInterest(n: Name, f: Face, p: InterestPacket)
      requires n in pit
      modifies this`pit, this`out
      ensures pit == old(pit)[n := AddOutgoing(old(pit)[n], f)]
      ensures var before, after := old(pit)[n], pit[n];
        && after == before.(outgoing := after.outgoing)
        && after.outgoing.Keys == before.outgoing.Keys + {f}
        && (forall g :: g in before.outgoing && g != f ==> after.outgoing[g] == before.outgoing[g])
        && !after.outgoing[f].inVain
        && after.outgoing[f].retx == if f in before.outgoing then before.outgoing[f].retx + 1 else 0
      ensures out == old(out) + multiset{SentInterest(f, p.name, p.nonce)}
    {
      pit := pit[n := AddOutgoing(pit[n], f)];
      out := out + multiset{SentInterest(f, p.name, p.nonce)};
    }

    method PropagateViaGreen(n: Name, p: InterestPacket, limits: Limits, r: Ranking) returns (done: bool)
      requires n in pit
      modifies this`pit, this`out
      ensures match FirstGreen(r, old(pit)[n], limits.green)
        case None => !done && pit == old(pit) && out == old(out)
        case Some(f) =>
          && done && pit == old(pit)[n := AddOutgoing(old(pit)[n], f)]
          && out == old(out) + multiset{SentInterest(f, p.name, p.nonce)}
    {
      var e := pit[n];
      assert r[0..] == r;
      for k := 0 to |r|
        invariant pit == old(pit) && out == old(out)
        invariant FirstGreen(r, e, limits.green) == FirstGreen(r[k..], e, limits.green)
      {
        var x := r[k];
        assert r[k..][0] == x && r[k..][1..] == r[k + 1..];
        if x.status == Red || x.status == Yellow {
          return false;
        }
        if x.face in e.incoming {
          continue;
        }
        if x.face in e.outgoing && e.outgoing[x.face].retx >= e.maxRetx {
          continue;
        }
        if !limits.green(x.face) {
          continue;
        }
        SendInterest(n, x.face, p);
        return true;
      }
      return false;
    }

    method ListCandidates(r: Ranking) returns (fs: seq<Face>)
      ensures fs == Candidates(r)
    {
      fs := [];
      assert r[0..] == r;
      for k := 0 to |r|
        invariant fs + Candidates(r[k..]) == Candidates(r)
      {
        assert r[k..][0] == r[k] && r[k..][1..] == r[k + 1..];
        if r[k].status != Red {
          fs := fs + [r[k].face];
        }
      }
    }

    method FloodTo(n: Name, p: InterestPacket, fs: seq<Face>, limits: Limits) returns (count: nat)
      requires n in pit
      modifies this`pit, this`out
      ensures var (e, o, c) := Flood(old(pit)[n], p.name, p.nonce, fs, 0, limits.flood, old(out));
        pit == old(pit)[n := e] && out == o && count == c
    {
      ghost var (e, o, c) := Flood(pit[n], p.name, p.nonce, fs, 0, limits.flood, out);
      count := 0;
      for k := 0 to |fs|
        invariant n in pit && pit == old(pit)[n := pit[n]]
        invariant Flood(pit[n], p.name, p.nonce, fs, k, limits.flood, out) == (e, o, c - count) && count <= c
      {
        if limits.flood(k) {
          SendInterest(n, fs[k], p);
          count := count + 1;
        }
      }
    }

    method PropagateInterest(n: Name, p: InterestPacket, limits: Limits, ghost cache: Cache<Component, Packet>)
      returns (done: bool)
      requires n in pit && RouteKept(pit[n])
      modifies this`pit, this`out
      ensures (Tables(cache), done) == Propagate(old(Tables(cache)), n, p, limits)
    {
      var e := pit[n];
      var r := if e.fib == None then [] else fib[e.fib.value.prefix].faces;
      done := PropagateViaGreen(n, p, limits, r);
      if done {
        return;
      }
      var fs := faces;
      if e.fib != None {
        fs := ListCandidates(r);
      }
      var count := FloodTo(n, p, fs, limits);
      done := count > 0;
    }

    method GiveUpInterest(n: Name, now: Time, ghost cache: Cache<Component, Packet>)
      requires n in pit
      modifies this`pit
      ensures Tables(cache) == GiveUp(old(Tables(cache)), cfg, n, now)
    {
      pit := pit[n := pit[n].(incoming := {})];
      pit := pit[n := pit[n].(outgoing := map[])];
      pit := pit[n := pit[n].(expire := now + cfg.pruning)];
    }

    method TryPropagate(n: Name, p: InterestPacket, now: Time, limits: Limits, ghost cache: Cache<Component, Packet>)
      requires n in pit && RouteKept(pit[n])
      modifies this`pit, this`out
      ensures Tables(cache) == PropagateOrGiveUp(old(Tables(cache)), cfg, n, p, now, limits)
    {
      var done := PropagateInterest(n, p, limits, cache);
      if !done {
        GiveUpInterest(n, now, cache);
      }
    }

    //////////////////// data ////////////////////

    /** Sends the packet on every incoming face of the entry and removes the entry. */
    method SatisfyPendingInterests(n: Name, packet: Packet, ghost cache: Cache<Component, Packet>)
      requires n in pit
      modifies this`pit, this`dataTo, this`out
      ensures Tables(cache) == Satisfy(old(Tables(cache)), n, packet)
      ensures Delivers(old(Tables(cache)), Tables(cache), old(pit)[n].incoming, packet) && pit == old(pit) - {n}
    {
      SendToAll(pit[n].incoming, packet);
      pit := pit - {n};
    }

    /** Sends the packet on each of the faces once. */
    method SendToAll(fs: set<Face>, packet: Packet)
      modifies this`dataTo, this`out
      ensures dataTo == old(dataTo) + multiset(fs) && out == old(out) + DataTo(fs, packet)
      ensures forall g :: dataTo[g] == old(dataTo)[g] + if g in fs then 1 else 0
    {
      var left := fs;
      ghost var sent := {};
      assert DataTo({}, packet) == multiset{};
      while left != {}
        invariant sent + left == fs && sent !! left
        invariant dataTo == old(dataTo) + multiset(sent) && out == old(out) + DataTo(sent, packet)
        decreases left
      {
        var f :| f in left;
        DataToOneMore(sent, f, packet);
        Regroup(old(dataTo), multiset(sent), multiset{f});
        Regroup(old(out), DataTo(sent, packet), multiset{SentData(f, packet)});
        dataTo := dataTo + multiset{f};
        out := out + multiset{SentData(f, packet)};
        sent, left := sent + {f}, left - {f};
      }
      assert sent == fs;
    }

    static lemma Regroup<T>(a: multiset<T>, b: multiset<T>, c: multiset<T>)
      ensures a + b + c == a + (b + c)
    {
    }

    static lemma DataToOneMore(fs: set<Face>, f: Face, packet: Packet)
      requires f !in fs
      ensures multiset(fs + {f}) == multiset(fs) + multiset{f}
      ensures DataTo(fs + {f}, packet) == DataTo(fs, packet) + multiset{SentData(f, packet)}
    {
      var a, b := set g | g in fs :: SentData(g, packet), set g | g in fs + {f} :: SentData(g, packet);
      assert SentData(f, packet) !in a;
      assert b == a + {SentData(f, packet)};
    }

    //////////////////// handlers ////////////////////

    method OnInterestPacket(f: Face, p: InterestPacket, now: Time, limits: Limits) returns (ghost hit: Option<nat>)
      requires Valid() && f in faces && (p.name != [] || cs.recency != [])
      modifies this, cs`recency
      ensures Valid() && LegalAnswer(old(Abs()).cs, p.name, hit)
      ensures Abs() == Step(old(Abs()), cfg, GotInterest(f, p, now, hit, limits))
      ensures hit != None ==>
        var s := old(Abs());
        Delivers(s, Abs(), IncomingOf(s, Taker(s, p.name)) + {f}, s.cs[hit.value].packet)
    {
      ghost var before := Abs();
      ValidKeepsRoutes();
      hit := HandleInterest(f, p, now, limits);
      InterestStep(before, cfg, f, p, now, hit, limits);
    }

    static lemma InterestStep(s: State, cfg: Config, f: Face, p: InterestPacket, now: Time, hit: Option<nat>,
                              limits: Limits)
      requires Inv(s) && f in s.faces && LegalAnswer(s.cs, p.name, hit)
      ensures var s', ev := OnInterest(s, cfg, f, p, now, hit, limits), GotInterest(f, p, now, hit, limits);
        && Inv(s') && Enabled(s, ev) && s' == Step(s, cfg, ev)
        && (hit.Some? ==> Delivers(s, s', IncomingOf(s, Taker(s, p.name)) + {f}, s.cs[hit.value].packet))
    {
      InterestKeepsInv(s, cfg, f, p, now, hit, limits);
      if hit.Some? { HitDelivers(s, cfg, f, p, now, hit.value, limits); }
    }

    method HandleInterest(f: Face, p: InterestPacket, now: Time, limits: Limits) returns (ghost hit: Option<nat>)
      requires cs.Valid() && RoutesKept() && (p.name != [] || cs.recency != [])
      modifies this, cs`recency
      ensures cs.Valid() && LegalAnswer(old(Abs()).cs, p.name, hit)
      ensures Abs() == OnInterest(old(Abs()), cfg, f, p, now, hit, limits)
    {
      var n, isDuplicate := ArriveInPit(f, p, now, cs.Abs());
      StoreUntouched();
      var answer;
      answer, hit := AskStore(p.name);
      label Asked:
      SatisfyOrForward(n, isDuplicate, answer, p, now, limits, cs.Abs());
      StoreUntouched@Asked();
    }

    method ArriveInPit(f: Face, p: InterestPacket, now: Time, ghost cache: Cache<Component, Packet>)
      returns (n: Name, isDuplicate: bool)
      requires RoutesKept()
      modifies this`received, this`pit, this`nextId, this`listed
      ensures n in pit && RouteKept(pit[n])
      ensures var s := old(Tables(cache));
        var (s1, m, isNew, d) := PitLookup(s.(received := s.received + multiset{f}), cfg, p, now);
        && n == m && isDuplicate == d
        && Tables(cache) == Receive(s1, m, f, p, now)
    {
      received := received + multiset{f};
      var isNew;
      n, isNew, isDuplicate := LookupPit(p, now, cache);
      listed := listed + {(pit[n].id, f, p.name)};
      UpdatePit(n, f, p.lifetime, now);
    }

    method AskStore(name: Name) returns (answer: Option<Packet>, ghost hit: Option<nat>)
      requires cs.Valid() && (name != [] || cs.recency != [])
      modifies cs`recency
      ensures cs.Valid() && LegalAnswer(old(cs.Abs()), name, hit)
      ensures match hit
        case None => answer == None && cs.Abs() == old(cs.Abs())
        case Some(i) => answer == Some(old(cs.Abs())[i].packet) && cs.Abs() == AfterUse(old(cs.Abs()), i)
    {
      var entry, i := cs.Lookup(name);
      if entry == None {
        return None, None;
      }
      return Some(entry.value.packet), Some(i);
    }

    method SatisfyOrForward(n: Name, isDuplicate: bool, answer: Option<Packet>, p: InterestPacket, now: Time,
                            limits: Limits, ghost cache: Cache<Component, Packet>)
      requires n in pit && RouteKept(pit[n])
      modifies this`pit, this`dataTo, this`out, this`propagated
      ensures var s := old(Tables(cache));
        Tables(cache) ==
          if answer != None then Satisfy(s, n, answer.value)
          else if isDuplicate then s
          else PropagateOrGiveUp(s.(propagated := s.propagated + [(s.pit[n].id, p.nonce)]), cfg, n, p, now, limits)
    {
      if answer != None {
        SatisfyPendingInterests(n, answer.value, cache);
      } else if !isDuplicate {
        propagated := propagated + [(pit[n].id, p.nonce)];
        TryPropagate(n, p, now, limits, cache);
      }
    }

    method UpdatePit(n: Name, f: Face, lifetime: int, now: Time)
      requires n in pit
      modifies this`pit
      ensures pit == old(pit)[n := ReceiveOn(old(pit)[n], f, lifetime, now)]
    {
      pit := pit[n := pit[n].(incoming := pit[n].incoming + {f})];
      if now + lifetime > pit[n].expire {
        pit := pit[n := pit[n].(expire := now + lifetime)];
      }
    }

    method ChangeStatus(r: Option<FibRef>, f: Face, status: Status, ghost cache: Cache<Component, Packet>)
      requires r != None ==> r.value.prefix in fib
      modifies this`fib
      ensures Tables(cache) == UpdateFib(old(Tables(cache)), r, f, status)
    {
      if r != None {
        var x := fib[r.value.prefix];
        fib := fib[r.value.prefix := x.(faces := AfterStatus(x.faces, f, status))];
      }
    }

    method AreAllInVain(n: Name) returns (r: bool)
      requires n in pit
      ensures r <==> AllInVain(pit[n])
    {
      var out := pit[n].outgoing;
      var left := out.Keys;
      while left != {}
        invariant left <= out.Keys && forall f :: f in out.Keys - left ==> out[f].inVain
      {
        var f :| f in left;
        if !out[f].inVain {
          return false;
        }
        left := left - {f};
      }
      return true;
    }

    method OnNackPacket(f: Face, p: InterestPacket, now: Time, limits: Limits)
      requires Valid() && f in faces
      modifies this
      ensures Valid() && Abs() == Step(old(Abs()), cfg, GotNack(f, p, now, limits))
    {
      NackStep(Abs(), cfg, f, p, now, limits);
      ValidKeepsRoutes();
      HandleNack(f, p, now, limits, cs.Abs());
    }

    static lemma NackStep(s: State, cfg: Config, f: Face, p: InterestPacket, now: Time, limits: Limits)
      requires Inv(s) && f in s.faces
      ensures var s', ev := OnNack(s, cfg, f, p, now, limits), GotNack(f, p, now, limits);
        Inv(s') && Enabled(s, ev) && s' == Step(s, cfg, ev)
    {
      NackKeepsInv(s, cfg, f, p, now, limits);
    }

    method HandleNack(f: Face, p: InterestPacket, now: Time, limits: Limits, ghost cache: Cache<Component, Packet>)
      requires RoutesKept()
      modifies this
      ensures Tables(cache) == OnNack(old(Tables(cache)), cfg, f, p, now, limits)
    {
      var n, isNew, isDuplicate := LookupPit(p, now, cache);
      if isNew || !isDuplicate || f !in pit[n].outgoing {
        return;
      }
      ghost var e := NackEntry(pit[n], f, p.nack);
      ghost var were := pit;
      var out := pit[n].outgoing;
      pit := pit[n := pit[n].(outgoing := out[f := out[f].(inVain := true)])];
      if p.nack == NACK_GIVEUP_PIT {
        pit := pit[n := pit[n].(incoming := pit[n].incoming - {f})];
      }
      assert pit == were[n := e];
      ChangeStatus(pit[n].fib, f, Yellow, cache);
      if pit[n].incoming == {} {
        return;
      }
      var allInVain := AreAllInVain(n);
      if allInVain {
        TryPropagate(n, p, now, limits, cache);
      }
    }

    method OnDataPacket(f: Face, name: Name, packet: Packet)
      requires Valid() && f in faces
      modifies this, cs, cs.nodes
      ensures Valid() && fresh(cs.nodes - old(cs.nodes))
      ensures Abs() == Step(old(Abs()), cfg, GotData(f, name, packet))
      ensures name in old(pit) && f in old(pit)[name].outgoing ==>
        Delivers(old(Abs()), Abs(), old(pit)[name].incoming, packet)
    {
      ghost var before := Abs();
      if name in pit && f in pit[name].outgoing {
        AskedDataIsDelivered(before, cfg, f, name, packet);
      }
      DataKeepsInv(Abs(), cfg, f, name, packet);
      ValidKeepsRoutes();
      HandleData(f, name, packet);
    }

    method HandleData(f: Face, name: Name, packet: Packet)
      requires cs.Valid() && cs.maxSize == cfg.capacity && RoutesKept()
      modifies this, cs, cs.nodes
      ensures cs.Valid() && fresh(cs.nodes - old(cs.nodes))
      ensures Abs() == OnData(old(Abs()), cfg, f, name, packet)
    {
      if name !in pit {
        var added := cs.Add(name, packet);
        return;
      }
      if f !in pit[name].outgoing {
        return;
      }
      ChangeStatus(pit[name].fib, f, Green, cs.Abs());
      StoreUntouched();
      var added := cs.Add(name, packet);
      label Added:
      SatisfyPendingInterests(name, packet, cs.Abs());
      StoreUntouched@Added();
    }

    //////////////////// faces, routes and timers ////////////////////

    method RegisterFace(f: Face)
      requires Valid()
      modifies this`faces
      ensures Valid() && Abs() == Step(old(Abs()), cfg, AddFace(f))
    {
      StepKeepsInv(Abs(), cfg, AddFace(f));
      faces := faces + [f];
    }

    /** Takes `f` out of every PIT entry, then erases the entries whose route goes with it. */
    method TrimPitEntries(f: Face, ghost cache: Cache<Component, Packet>)
      modifies this`pit
      ensures Tables(cache) == TrimPit(old(Tables(cache)), f)
    {
      ghost var before := Tables(cache);
      var left, doomed := pit.Keys, {};
      while left != {}
        invariant left <= pit.Keys == before.pit.Keys && doomed <= pit.Keys - left
        invariant forall n :: n in left ==> pit[n] == before.pit[n]
        invariant forall n :: n in pit.Keys - left ==> pit[n] == WithoutFace(before.pit[n], f)
        invariant forall n :: n in pit.Keys - left ==> (n in doomed <==> OnlyVia(before, before.pit[n], f))
      {
        var n :| n in left;
        var e := pit[n];
        pit := pit[n := e.(incoming := e.incoming - {f}, outgoing := e.outgoing - {f})];
        if e.fib != None && e.fib.value.prefix in fib {
          var r := fib[e.fib.value.prefix].faces;
          if |r| == 1 && r[0].face == f {
            doomed := doomed + {n};
          }
        }
        left := left - {n};
      }
      pit := pit - doomed;
    }

    /** Takes `f` out of one FIB entry and erases the entry if that was its last face. */
    method RemoveRoute(p: Name, f: Face)
      requires p in fib
      modifies this`fib
      ensures var faces := AfterRemove(old(fib)[p].faces, f);
        fib == if faces == [] then old(fib) - {p} else old(fib)[p := old(fib)[p].(faces := faces)]
    {
      fib := fib[p := fib[p].(faces := AfterRemove(fib[p].faces, f))];
      if fib[p].faces == [] {
        fib := fib - {p};
      }
    }

    method RemoveFromAll(f: Face, ghost cache: Cache<Component, Packet>)
      modifies this`fib
      ensures Tables(cache) == RemoveFromFib(old(Tables(cache)), f)
    {
      ghost var before := fib;
      var left := fib.Keys;
      while left != {}
        invariant left <= fib.Keys <= before.Keys
        invariant forall p :: p in left ==> fib[p] == before[p]
        invariant forall p :: p in before.Keys - left ==> (p in fib <==> AfterRemove(before[p].faces, f) != [])
        invariant forall p :: p in fib.Keys - left ==> fib[p] == before[p].(faces := AfterRemove(before[p].faces, f))
      {
        var p :| p in left;
        RemoveRoute(p, f);
        left := left - {p};
      }
      assert fib == RemoveFromFib(old(Tables(cache)), f).fib;
    }

    static lemma {:induction false} RemoveFirstAt(fs: seq<Face>, f: Face, k: nat)
      requires k <= |fs| && (forall j :: 0 <= j < k ==> fs[j] != f) && (k < |fs| ==> fs[k] == f)
      ensures RemoveFirst(fs, f) == if k < |fs| then fs[..k] + fs[k + 1..] else fs
    {
      if k > 0 {
        RemoveFirstAt(fs[1..], f, k - 1);
        assert fs == [fs[0]] + fs[1..];
        assert k < |fs| ==> fs[..k] + fs[k + 1..] == [fs[0]] + (fs[1..][..k - 1] + fs[1..][k..]);
      }
    }

    method DropFaceFrom(f: Face)
      modifies this`faces
      ensures faces == RemoveFirst(old(faces), f)
    {
      var k := 0;
      while k < |faces| && faces[k] != f
        invariant k <= |faces| && forall j :: 0 <= j < k ==> faces[j] != f
      {
        k := k + 1;
      }
      RemoveFirstAt(faces, f, k);
      if k < |faces| {
        faces := faces[..k] + faces[k + 1..];
      }
    }

    method RemoveFromTables(f: Face, ghost cache: Cache<Component, Packet>)
      modifies this
      ensures Tables(cache) == Engine.RemoveFace(old(Tables(cache)), f)
    {
      TrimPitEntries(f, cache);
      RemoveFromAll(f, cache);
      DropFaceFrom(f);
    }

    method UnregisterFace(f: Face)
      requires Valid()
      modifies this
      ensures Valid() && Abs() == Step(old(Abs()), cfg, DropFace(f))
    {
      ghost var cache := cs.Abs();
      RemoveFaceKeepsInv(Abs(), f);
      RemoveFromTables(f, cache);
      StoreUntouched();
    }

    method RegisterRoute(prefix: Name, f: Face, cost: int)
      requires Valid() && f in faces
      modifies this
      ensures Valid() && Abs() == Step(old(Abs()), cfg, AddRoute(prefix, f, cost))
    {
      RegisterKeepsInv(Abs(), prefix, f, cost);
      AddToFib(prefix, f, cost, cs.Abs());
    }

    method AddToFib(prefix: Name, f: Face, cost: int, ghost cache: Cache<Component, Packet>)
      modifies this`fib, this`nextId
      ensures Tables(cache) == Register(old(Tables(cache)), prefix, f, cost)
    {
      if prefix !in fib {
        fib := fib[prefix := FibEntry(nextId, [])];
        nextId := nextId + 1;
      }
      fib := fib[prefix := fib[prefix].(faces := AfterCost(fib[prefix].faces, f, cost))];
    }

    method ReapPit(now: Time)
      requires Valid()
      modifies this`pit
      ensures Valid() && Abs() == Step(old(Abs()), cfg, ReapTimer(now))
      ensures forall n :: n in pit <==> n in old(pit) && now < old(pit)[n].expire
      ensures forall n :: n in pit ==> pit[n] == old(pit)[n]
    {
      ReapKeepsInv(Abs(), now);
      CleanExpired(now, cs.Abs());
    }

    /** Erases from the front of the expiry order while the first entry is stale. */
    method CleanExpired(now: Time, ghost cache: Cache<Component, Packet>)
      modifies this`pit
      ensures Tables(cache) == Reap(old(Tables(cache)), now)
      ensures forall n :: n in pit <==> n in old(pit) && now < old(pit)[n].expire
      ensures forall n :: n in pit ==> pit[n] == old(pit)[n]
    {
      ghost var before := pit;
      while pit != map[]
        invariant pit.Keys <= before.Keys
        invariant forall n :: n in pit ==> pit[n] == before[n]
        invariant forall n :: n in before && n !in pit ==> now >= before[n].expire
        decreases |pit|
      {
        var n := FirstToExpire();
        if now < pit[n].expire {
          break;
        }
        assert |pit| == |pit - {n}| + 1 by {
          assert pit.Keys == (pit - {n}).Keys + {n};
        }
        pit := pit - {n};
      }
      assert pit == Reap(old(Tables(cache)), now).pit;
    }

    /** The head of the expiry index; entries that expire together come in any order. */
    method FirstToExpire() returns (n: Name)
      requires pit != map[]
      ensures n in pit && forall m :: m in pit ==> pit[n].expire <= pit[m].expire
    {
      n :| n in pit;
      var left := pit.Keys - {n};
      while left != {}
        invariant left <= pit.Keys && n in pit
        invariant forall m :: m in pit.Keys - left ==> pit[n].expire <= pit[m].expire
      {
        var m :| m in left;
        if pit[m].expire < pit[n].expire {
          n := m;
        }
        left := left - {m};
      }
    }
  }
}
