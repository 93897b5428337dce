/** What the forwarding strategy achieves, and what goes wrong in other orders of the same
    steps. */
module EngineFacts {
  import opened Names
  import opened LruCache
  import opened FaceRanking
  import opened Engine
  import opened EngineInvariants

  /** Because green faces come first, stopping at the first other face loses nothing: the
      loop fails only when no face is eligible, and it never picks an incoming face. */
  lemma {:induction false} FirstGreenIsComplete(r: Ranking, e: PitEntry, green: Face -> bool)
    requires Ranked(r)
    ensures FirstGreen(r, e, green).None? <==> forall i :: 0 <= i < |r| ==> !Eligible(r[i], e, green)
    ensures FirstGreen(r, e, green).Some? ==>
      var f := FirstGreen(r, e, green).value;
      f !in e.incoming && green(f) && exists i :: 0 <= i < |r| && r[i].face == f && Eligible(r[i], e, green)
  {
    if r != [] {
      if r[0].status != Green {
        forall i | 0 <= i < |r|
          ensures r[i].status != Green
        {
          if i > 0 && r[i].status == Green { GreenPrefix(r, 0, i); }
        }
      } else if !Eligible(r[0], e, green) {
        assert forall i :: 0 <= i < |r| - 1 ==> r[1..][i] == r[i + 1];
        FirstGreenIsComplete(r[1..], e, green);
        assert forall i :: 0 < i < |r| ==> r[i] == r[1..][i - 1];
      }
    }
  }

  /** The candidates whose limit allows them, from position `k` on. */
  function Allowed(fs: seq<Face>, k: nat, flood: nat -> bool): seq<Face>
    requires k <= |fs|
    decreases |fs| - k
  {
    if k == |fs| then [] else (if flood(k) then [fs[k]] else []) + Allowed(fs, k + 1, flood)
  }

  function InterestsTo(fs: seq<Face>, name: Name, nonce: Nonce): multiset<Action> {
    if fs == [] then multiset{} else multiset{SentInterest(fs[0], name, nonce)} + InterestsTo(fs[1..], name, nonce)
  }

  lemma {:induction false} FloodSends(e: PitEntry, name: Name, nonce: Nonce, fs: seq<Face>, k: nat,
                                      flood: nat -> bool, out: multiset<Action>)
    requires k <= |fs|
    ensures var (e', out', n) := Flood(e, name, nonce, fs, k, flood, out);
      var to := Allowed(fs, k, flood);
      n == |to| && out' == out + InterestsTo(to, name, nonce)
    decreases |fs| - k
  {
    if k < |fs| {
      var rest := Allowed(fs, k + 1, flood);
      if flood(k) {
        var sent := multiset{SentInterest(fs[k], name, nonce)};
        FloodSends(AddOutgoing(e, fs[k]), name, nonce, fs, k + 1, flood, out + sent);
        assert Allowed(fs, k, flood)[1..] == rest;
      } else {
        FloodSends(e, name, nonce, fs, k + 1, flood, out);
        assert Allowed(fs, k, flood) == rest;
      }
    }
  }

  lemma AllowedStep(fs: seq<Face>, k: nat, flood: nat -> bool, f: Face)
    requires k < |fs|
    ensures f in Allowed(fs, k, flood) <==> (flood(k) && f == fs[k]) || f in Allowed(fs, k + 1, flood)
  {
  }

  lemma {:induction false} FloodKeepsFresh(e: PitEntry, name: Name, nonce: Nonce, fs: seq<Face>, k: nat,
                                           flood: nat -> bool, out: multiset<Action>, f: Face)
    requires k <= |fs| && f in e.outgoing && !e.outgoing[f].inVain
    ensures var e' := Flood(e, name, nonce, fs, k, flood, out).0; f in e'.outgoing && !e'.outgoing[f].inVain
    decreases |fs| - k
  {
    if k < |fs| {
      if flood(k) {
        var sent := multiset{SentInterest(fs[k], name, nonce)};
        FloodKeepsFresh(AddOutgoing(e, fs[k]), name, nonce, fs, k + 1, flood, out + sent, f);
      } else {
        FloodKeepsFresh(e, name, nonce, fs, k + 1, flood, out, f);
      }
    }
  }

  /** What flooding does to the record of one face. */
  lemma {:induction false} FloodMarks(e: PitEntry, name: Name, nonce: Nonce, fs: seq<Face>, k: nat,
                                      flood: nat -> bool, out: multiset<Action>, f: Face)
    requires k <= |fs|
    ensures var e' := Flood(e, name, nonce, fs, k, flood, out).0;
      if f in Allowed(fs, k, flood) then f in e'.outgoing && !e'.outgoing[f].inVain
      else
        && (f in e'.outgoing <==> f in e.outgoing)
        && (f in e.outgoing ==> e'.outgoing[f] == e.outgoing[f])
    decreases |fs| - k
  {
    if k < |fs| {
      AllowedStep(fs, k, flood, f);
      if flood(k) {
        var e1, sent := AddOutgoing(e, fs[k]), multiset{SentInterest(fs[k], name, nonce)};
        FloodMarks(e1, name, nonce, fs, k + 1, flood, out + sent, f);
        if f == fs[k] {
          FloodKeepsFresh(e1, name, nonce, fs, k + 1, flood, out + sent, f);
        } else {
          OthersUnmarked(e, fs[k], f);
        }
      } else {
        FloodMarks(e, name, nonce, fs, k + 1, flood, out, f);
      }
    }
  }

  lemma OthersUnmarked(e: PitEntry, g: Face, f: Face)
    requires f != g
    ensures var e1 := AddOutgoing(e, g);
      (f in e1.outgoing <==> f in e.outgoing) && (f in e.outgoing ==> e1.outgoing[f] == e.outgoing[f])
  {
  }

  /** Flooding sends once per allowed candidate, also back to where the interest came from,
      and marks exactly those faces as outgoing. */
  lemma FloodSendsToAllowed(e: PitEntry, name: Name, nonce: Nonce, fs: seq<Face>, k: nat,
                            flood: nat -> bool, out: multiset<Action>)
    requires k <= |fs|
    ensures var (e', out', n) := Flood(e, name, nonce, fs, k, flood, out);
      var to := Allowed(fs, k, flood);
      && n == |to| && out' == out + InterestsTo(to, name, nonce)
      && (forall f :: f in e'.outgoing <==> f in e.outgoing || f in to)
      && (forall f :: f in to ==> !e'.outgoing[f].inVain)
      && (forall f :: f in e.outgoing && f !in to ==> e'.outgoing[f] == e.outgoing[f])
  {
    FloodSends(e, name, nonce, fs, k, flood, out);
    var (e', out', n) := Flood(e, name, nonce, fs, k, flood, out);
    var to := Allowed(fs, k, flood);
    forall f
      ensures if f in to then f in e'.outgoing && !e'.outgoing[f].inVain
              else (f in e'.outgoing <==> f in e.outgoing) && (f in e.outgoing ==> e'.outgoing[f] == e.outgoing[f])
    {
      FloodMarks(e, name, nonce, fs, k, flood, out, f);
    }
  }

  /** An interest is given up exactly when no green face is eligible and no candidate for
      flooding is allowed. */
  lemma PropagationFailsOnlyWithoutFaces(s: State, n: Name, p: InterestPacket, limits: Limits)
    requires Inv(s) && n in s.pit
    ensures var e := s.pit[n];
      var r := FibFaces(s, e);
      !Propagate(s, n, p, limits).1 <==>
        && (forall i :: 0 <= i < |r| ==> !Eligible(r[i], e, limits.green))
        && Allowed(if e.fib.Some? then Candidates(r) else s.faces, 0, limits.flood) == []
  {
    var e := s.pit[n];
    var r := FibFaces(s, e);
    assert EntryRefers(s, e);
    FirstGreenIsComplete(r, e, limits.green);
    FloodSendsToAllowed(e, p.name, p.nonce, if e.fib.Some? then Candidates(r) else s.faces, 0, limits.flood, s.out);
  }

  lemma {:induction false} SentExactlyTo(fs: seq<Face>, name: Name, nonce: Nonce, f: Face)
    ensures InterestsTo(fs, name, nonce)[SentInterest(f, name, nonce)] > 0 <==> f in fs
  {
    if fs != [] {
      SentExactlyTo(fs[1..], name, nonce, f);
      assert f in fs <==> f == fs[0] || f in fs[1..];
    }
  }

  /** An interest goes back to a face it came from exactly when no green face is eligible and
      that face is among the allowed candidates for flooding. */
  lemma SendsBackIff(s: State, n: Name, p: InterestPacket, limits: Limits, f: Face)
    requires Inv(s) && n in s.pit && f in s.pit[n].incoming
    ensures var e, sent := s.pit[n], SentInterest(f, p.name, p.nonce);
      var r := FibFaces(s, e);
      Propagate(s, n, p, limits).0.out[sent] > s.out[sent] <==>
        && (forall i :: 0 <= i < |r| ==> !Eligible(r[i], e, limits.green))
        && f in Allowed(if e.fib.Some? then Candidates(r) else s.faces, 0, limits.flood)
  {
    var e := s.pit[n];
    var r := FibFaces(s, e);
    assert EntryRefers(s, e);
    FirstGreenIsComplete(r, e, limits.green);
    var fs := if e.fib.Some? then Candidates(r) else s.faces;
    FloodSendsToAllowed(e, p.name, p.nonce, fs, 0, limits.flood, s.out);
    SentExactlyTo(Allowed(fs, 0, limits.flood), p.name, p.nonce, f);
  }

  /** Removing a route leaves a stale pointer exactly when it was the entry's last face and
      some PIT entry still uses the entry: the management path does not trim the PIT. */
  lemma UnregisterStaleIff(s: State, prefix: Name, f: Face)
    requires Inv(s)
    ensures NoStale(Unregister(s, prefix, f)) <==>
      !(prefix in s.fib && |s.fib[prefix].faces| == 1 && s.fib[prefix].faces[0].face == f
        && exists n :: n in s.pit && s.pit[n].fib == Some(FibRef(prefix, s.fib[prefix].id)))
  {
    if prefix in s.fib {
      var x := s.fib[prefix];
      assert FibRefers(s, x);
      SurvivesRemoval(x.faces, f);
      if AfterRemove(x.faces, f) == [] {
        ErasedRouteStaleIff(s, prefix);
      } else {
        RemovalKeepsRanked(x.faces, f);
        ChangedRouteKeepsInv(s, prefix, x.(faces := AfterRemove(x.faces, f)));
      }
    }
  }

  lemma ErasedRouteStaleIff(s: State, prefix: Name)
    requires Inv(s) && prefix in s.fib
    ensures NoStale(s.(fib := s.fib - {prefix})) <==>
      !exists n :: n in s.pit && s.pit[n].fib == Some(FibRef(prefix, s.fib[prefix].id))
  {
    var s' := s.(fib := s.fib - {prefix});
    forall n | n in s.pit
      ensures EntryRefers(s', s'.pit[n]) <==> s.pit[n].fib != Some(FibRef(prefix, s.fib[prefix].id))
    {
      assert EntryRefers(s, s.pit[n]);
    }
    forall p | p in s'.fib
      ensures FibRefers(s', s'.fib[p])
    {
      assert FibRefers(s, s.fib[p]);
    }
  }

  /** Propagating changes one entry only, and that keeps its identity, route and nonces. */
  lemma PropagateKeepsRoute(s: State, cfg: Config, n: Name, p: InterestPacket, now: Time, limits: Limits)
    requires n in s.pit
    ensures var s' := PropagateOrGiveUp(s, cfg, n, p, now, limits);
      && n in s'.pit && s' == s.(pit := s.pit[n := s'.pit[n]], out := s'.out)
      && s'.pit[n].fib == s.pit[n].fib && s'.pit[n].id == s.pit[n].id && s'.pit[n].nonces == s.pit[n].nonces
  {
    var e := s.pit[n];
    var fs := if e.fib.Some? then Candidates(FibFaces(s, e)) else s.faces;
    FloodTouches(e, p.name, p.nonce, fs, 0, limits.flood, s.out);
  }

  /** The first interest for a name makes an entry that points to the route found for it. */
  lemma NewEntryUsesRoute(s: State, cfg: Config, f: Face, p: InterestPacket, now: Time, limits: Limits)
    requires s.pit == map[] && !Extended(s.cs, p.name)
    ensures var s' := OnInterest(s, cfg, f, p, now, None, limits);
      s'.fib == s.fib && p.name in s'.pit && s'.pit[p.name].fib == FindFib(s, p.name)
  {
    var s0 := s.(received := s.received + multiset{f});
    var (s1, n, isNew, isDuplicate) := PitLookup(s0, cfg, p, now);
    assert n == p.name && !isDuplicate && s1.pit[n].fib == FindFib(s, p.name);
    var s2 := Receive(s1, n, f, p, now);
    PropagateKeepsRoute(s2.(propagated := s2.propagated + [(s2.pit[n].id, p.nonce)]), cfg, n, p, now, limits);
  }

  lemma RunOneMore(cfg: Config, es: seq<Event>, s: State, e: Event)
    requires Run(cfg, es, s) && Enabled(s, e)
    ensures Run(cfg, es + [e], Step(s, cfg, e))
  {
    assert (es + [e])[..|es + [e]| - 1] == es;
  }

  /** A daemon with one face and one route through it. */
  lemma OneRoute(cfg: Config, name: Name, f: Face) returns (es: seq<Event>, s: State)
    ensures Run(cfg, es, s) && f in s.faces && s.pit == map[] && s.cs == []
    ensures name in s.fib && s.fib[name].faces == [FaceMetric(f, Yellow, 0)]
    ensures FindFib(s, name) == Some(FibRef(name, s.fib[name].id))
  {
    var s0 := State([], map[], map[], [], 0, multiset{}, multiset{}, multiset{}, [], {});
    var s1 := s0.(faces := [] + [f]);
    RunOneMore(cfg, [], s0, AddFace(f));
    RunOneMore(cfg, [] + [AddFace(f)], s1, AddRoute(name, f, 0));
    es, s := [] + [AddFace(f)] + [AddRoute(name, f, 0)], Register(s1, name, f, 0);
    assert name[..|name|] == name;
  }

  /** For any name and face there is a run after which removing the route through that
      face leaves a stale pointer. */
  lemma UnregisterCanGoStale(cfg: Config, name: Name, f: Face, nonce: Nonce) returns (es: seq<Event>, s: State)
    ensures Run(cfg, es, s) && !NoStale(Unregister(s, name, f))
  {
    var p, limits := InterestPacket(name, nonce, 4, 0), Limits(_ => true, _ => true);
    var before, s2 := OneRoute(cfg, name, f);
    RunOneMore(cfg, before, s2, GotInterest(f, p, 0, None, limits));
    NewEntryUsesRoute(s2, cfg, f, p, 0, limits);
    es, s := before + [GotInterest(f, p, 0, None, limits)], OnInterest(s2, cfg, f, p, 0, None, limits);
    RunsKeepInv(cfg, es, s);
    UnregisterStaleIff(s, name, f);
  }

  /** Trimming after the FIB removal instead of before it would leave a stale pointer for
      every entry whose only route goes through the face. */
  lemma TrimmingMustComeFirst(s: State, f: Face)
    requires Inv(s)
    ensures var r := RemoveFromFib(s, f);
      var t := TrimPit(r, f);
      (forall n :: n in t.pit && t.pit[n].fib.Some? ==> Present(r.fib, t.pit[n].fib.value))
      <==> (forall n :: n in s.pit ==> !OnlyVia(s, s.pit[n], f))
  {
    var r := RemoveFromFib(s, f);
    var t := TrimPit(r, f);
    forall n | n in s.pit
      ensures n in t.pit && t.pit[n].fib == s.pit[n].fib
      ensures OnlyVia(s, s.pit[n], f) <==> s.pit[n].fib.Some? && !Present(r.fib, s.pit[n].fib.value)
    {
      assert EntryRefers(s, s.pit[n]);
      if s.pit[n].fib.Some? {
        var q := s.pit[n].fib.value.prefix;
        assert FibRefers(s, s.fib[q]);
        SurvivesRemoval(s.fib[q].faces, f);
        RemovalKeepsRanked(s.fib[q].faces, f);
        if q in r.fib {
          assert r.fib[q].faces[0] in AfterRemove(s.fib[q].faces, f);
        }
      }
    }
  }

  lemma OnlyFaceAnswersItself(s: State, cfg: Config, f: Face, p: InterestPacket, now: Time, limits: Limits)
    requires s.faces == [f] && s.fib == map[] && s.pit == map[] && s.cs == [] && limits.flood(0)
    ensures SentInterest(f, p.name, p.nonce) in OnInterest(s, cfg, f, p, now, None, limits).out
  {
    var s0 := s.(received := s.received + multiset{f});
    var (s1, n, isNew, isDuplicate) := PitLookup(s0, cfg, p, now);
    var received := Receive(s1, n, f, p, now);
    var e := received.pit[n];
    assert n == p.name && e.fib == None && !isDuplicate;
    var s2 := received.(propagated := s1.propagated + [(e.id, p.nonce)]);
    FloodSendsToAllowed(e, p.name, p.nonce, [f], 0, limits.flood, s2.out);
    assert Allowed([f], 0, limits.flood) == [f];
    SentExactlyTo([f], p.name, p.nonce, f);
    assert Propagate(s2, n, p, limits).0.out[SentInterest(f, p.name, p.nonce)] > 0;
    assert Propagate(s2, n, p, limits).1;
  }

  /** For any face there is a run in which an interest goes back to the only face, on which
      it came. */
  lemma CanSendBack(cfg: Config, f: Face, name: Name, nonce: Nonce) returns (es: seq<Event>, s: State)
    ensures Run(cfg, es, s) && s.faces == [f] && s.received == multiset{f} && SentInterest(f, name, nonce) in s.out
  {
    var p, limits := InterestPacket(name, nonce, 4, 0), Limits(_ => true, _ => true);
    var s0 := State([], map[], map[], [], 0, multiset{}, multiset{}, multiset{}, [], {});
    var s1 := s0.(faces := [] + [f]);
    RunOneMore(cfg, [], s0, AddFace(f));
    RunOneMore(cfg, [] + [AddFace(f)], s1, GotInterest(f, p, 0, None, limits));
    es, s := [] + [AddFace(f)] + [GotInterest(f, p, 0, None, limits)], OnInterest(s1, cfg, f, p, 0, None, limits);
    OnlyFaceAnswersItself(s1, cfg, f, p, 0, limits);
  }
}
