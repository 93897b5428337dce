/** What becomes of every interest, over whole runs: how a face that waits on a PIT entry can
    stop waiting, what it has got by then, and how long it waits otherwise. */
module EngineAccounts {
  import opened Names
  import opened LruCache
  import opened FaceRanking
  import opened Engine
  import opened EngineInvariants
  import opened EngineOutcomes
  import opened EngineForwarding

  /** The faces waiting on the entry of `n`. */
  ghost function WaitingAt(s: State, n: Name): set<Face> {
    if n in s.pit then s.pit[n].incoming else {}
  }

  //////////////////// why a face stops waiting ////////////////////

  /** The entry's interest has nowhere to go. */
  ghost predicate NoWay(s: State, e: PitEntry, limits: Limits) {
    (forall x :: x in RouteOf(s, e) ==> !Usable(x, e, limits)) && !CanFlood(s, e, limits)
  }

  /** An interest arrives with a nonce its entry has not seen, the store does not answer it,
      and with the face it came from waiting there is nowhere to send it. */
  ghost predicate Declined(s: State, cfg: Config, ev: Event) {
    ev.GotInterest? && ev.hit.None? && !SeenNonce(s, ev.p)
    && exists e :: Found(s, cfg, ev.p, ev.now, e) && NoWay(s, e.(incoming := e.incoming + {ev.f}), ev.limits)
  }

  /** The faces waiting on the entry that a nack concerns, without the one that gives up. */
  ghost function StillWaiting(e: PitEntry, ev: Event): PitEntry
    requires ev.GotNack?
  {
    e.(incoming := if ev.p.nack == 12 then e.incoming - {ev.f} else e.incoming)
  }

  /** A nack makes the daemon try again and there is nowhere to send the interest, as the
      routes are after the nack. */
  ghost predicate Abandoned(s: State, s': State, ev: Event, n: Name) {
    && ev.GotNack? && Concerns(s, ev.f, ev.p) && Taker(s, ev.p.name) == Some(n) && n in s.pit
    && MustRetry(s.pit[n], ev.f, ev.p.nack)
    && NoWay(s.(fib := s'.fib), StillWaiting(s.pit[n], ev), ev.limits)
  }

  /** The entry is answered: by the store, or by data from a face that was asked. */
  ghost predicate Answered(s: State, ev: Event, n: Name) {
    match ev
    case GotInterest(_, p, _, hit, _) => hit.Some? && Taker(s, p.name) == Some(n)
    case GotData(g, name, _) => name == n && n in s.pit && g in s.pit[n].outgoing
    case _ => false
  }

  ghost predicate GivenUpOn(s: State, s': State, cfg: Config, ev: Event, n: Name) {
    (Declined(s, cfg, ev) && Taker(s, ev.p.name) == Some(n)) || Abandoned(s, s', ev, n)
  }

  /** The face has sent a give-up nack for the entry. */
  ghost predicate Withdrew(s: State, ev: Event, n: Name, f: Face) {
    && ev.GotNack? && Concerns(s, ev.f, ev.p) && Taker(s, ev.p.name) == Some(n)
    && ev.p.nack == 12 && ev.f == f
  }

  /** The face has gone, or the only face of the entry's route. */
  ghost predicate FaceGone(s: State, ev: Event, n: Name, f: Face) {
    ev.DropFace? && (ev.f == f || (n in s.pit && SoleRoute(s, s.pit[n], ev.f)))
  }

  ghost predicate Expired(s: State, ev: Event, n: Name) {
    ev.ReapTimer? && n in s.pit && s.pit[n].expire <= ev.now
  }

  ghost predicate Leaves(s: State, s': State, cfg: Config, ev: Event, n: Name, f: Face) {
    || Answered(s, ev, n) || GivenUpOn(s, s', cfg, ev, n) || Withdrew(s, ev, n, f)
    || FaceGone(s, ev, n, f) || Expired(s, ev, n)
  }

  /** An interest from the face itself that is listed. */
  ghost predicate Joins(s: State, cfg: Config, ev: Event, n: Name, f: Face) {
    && ev.GotInterest? && ev.f == f && ev.hit.None? && n == TakerName(s, ev.p.name)
    && !Declined(s, cfg, ev)
  }

  //////////////////// the steps ////////////////////

  /** An entry that stays is the same one, and while anybody waits on it its end is not
      brought forward. */
  ghost predicate Carried(s: State, s': State, n: Name) {
    n in s.pit && n in s'.pit ==>
      s'.pit[n].id == s.pit[n].id && (s'.pit[n].incoming != {} ==> s'.pit[n].expire >= s.pit[n].expire)
  }

  lemma FoundIsUnique(s: State, cfg: Config, p: InterestPacket, now: Time, e: PitEntry, e': PitEntry)
    requires Found(s, cfg, p, now, e) && Found(s, cfg, p, now, e')
    ensures e == e'
  {
    if Taker(s, p.name) == None {
      if e.fib.Some? && e'.fib.Some? {
        var a, b := e.fib.value.prefix, e'.fib.value.prefix;
        assert |a| == |b| && a == p.name[..|a|] && b == p.name[..|b|];
      }
    }
  }

  /** Whether there is a way does not depend on nonces, expiry or which faces are in vain. */
  lemma SameWay(s: State, e: PitEntry, e': PitEntry, limits: Limits)
    requires e'.fib == e.fib && e'.incoming == e.incoming && e'.maxRetx == e.maxRetx
    requires e'.outgoing.Keys == e.outgoing.Keys
    requires forall g :: g in e.outgoing ==> e'.outgoing[g].retx == e.outgoing[g].retx
    ensures NoWay(s, e', limits) <==> NoWay(s, e, limits)
  {
    assert forall x :: Usable(x, e', limits) <==> Usable(x, e, limits);
    assert RouteOf(s, e') == RouteOf(s, e) && FloodList(s, e') == FloodList(s, e);
    assert CanFlood(s, e', limits) <==> CanFlood(s, e, limits);
  }

  lemma PassedOnWaits(s: State, s': State, e: PitEntry, e': PitEntry, cfg: Config, p: InterestPacket, now: Time,
                      limits: Limits)
    requires PassedOn(s, s', e, e', cfg, p, now, limits)
    ensures e'.incoming == (if NoWay(s, e, limits) then {} else e.incoming) && e'.id == e.id
    ensures e'.incoming != {} ==> e'.expire == e.expire
  {
    var r := RouteOf(s, e);
    if exists i: nat :: BestUsable(r, e, limits, i) {
      var i: nat :| BestUsable(r, e, limits, i);
      assert r[i] in r;
    }
  }

  lemma HitAccount(s: State, cfg: Config, ev: Event, n: Name)
    requires Inv(s) && Enabled(s, ev) && ev.GotInterest? && ev.hit.Some?
    ensures var s' := Step(s, cfg, ev);
      && WaitingAt(s', n) == (if Taker(s, ev.p.name) == Some(n) then {} else WaitingAt(s, n)) && Carried(s, s', n)
  {
    HitDelivers(s, cfg, ev.f, ev.p, ev.now, ev.hit.value, ev.limits);
  }

  lemma MissAccount(s: State, cfg: Config, ev: Event, n: Name)
    requires Inv(s) && Enabled(s, ev) && ev.GotInterest? && ev.hit.None?
    ensures var s' := Step(s, cfg, ev);
      && WaitingAt(s', n) ==
           (if n != TakerName(s, ev.p.name) then WaitingAt(s, n)
            else if Declined(s, cfg, ev) then {} else WaitingAt(s, n) + {ev.f})
      && Carried(s, s', n)
  {
    var s', m := Step(s, cfg, ev), TakerName(s, ev.p.name);
    var e, e1 := MissOutcome(s, cfg, ev.f, ev.p, ev.now, ev.limits);
    if n == m {
      assert e.incoming == WaitingAt(s, n);
      if !SeenNonce(s, ev.p) {
        PassedOnWaits(s, s', e1, s'.pit[n], cfg, ev.p, ev.now, ev.limits);
        DeclinedIff(s, cfg, ev, e, e1);
      }
    }
  }

  lemma DeclinedIff(s: State, cfg: Config, ev: Event, e: PitEntry, e1: PitEntry)
    requires ev.GotInterest? && ev.hit.None? && !SeenNonce(s, ev.p)
    requires Found(s, cfg, ev.p, ev.now, e) && Took(e, e1, ev.f, ev.p, ev.now)
    ensures Declined(s, cfg, ev) <==> NoWay(s, e1, ev.limits)
  {
    SameWay(s, e.(incoming := e.incoming + {ev.f}), e1, ev.limits);
    if Declined(s, cfg, ev) {
      var x :| Found(s, cfg, ev.p, ev.now, x) && NoWay(s, x.(incoming := x.incoming + {ev.f}), ev.limits);
      FoundIsUnique(s, cfg, ev.p, ev.now, e, x);
    }
  }

  lemma NackAccount(s: State, cfg: Config, ev: Event, n: Name, f: Face)
    requires Inv(s) && Enabled(s, ev) && ev.GotNack?
    ensures var s' := Step(s, cfg, ev);
      && (f in WaitingAt(s', n) <==> f in WaitingAt(s, n) && !Abandoned(s, s', ev, n) && !Withdrew(s, ev, n, f))
      && Carried(s, s', n)
  {
    var s' := Step(s, cfg, ev);
    if Concerns(s, ev.f, ev.p) {
      var e1 := NackOutcome(s, cfg, ev.f, ev.p, ev.now, ev.limits);
      if Taker(s, ev.p.name) == Some(n) {
        ConcernedAccount(s, s', cfg, ev, n, f, e1);
      }
    } else {
      var e := StrayNackOutcome(s, cfg, ev.f, ev.p, ev.now, ev.limits);
    }
  }

  lemma ConcernedAccount(s: State, s': State, cfg: Config, ev: Event, n: Name, f: Face, e1: PitEntry)
    requires ev.GotNack? && Concerns(s, ev.f, ev.p) && Taker(s, ev.p.name) == Some(n)
    requires n in s'.pit && Refused(s.pit[n], e1, ev.f, ev.p.nack)
    requires if MustRetry(s.pit[n], ev.f, ev.p.nack) then
               PassedOn(s.(fib := s'.fib), s', e1, s'.pit[n], cfg, ev.p, ev.now, ev.limits)
             else s'.pit[n] == e1
    ensures f in WaitingAt(s', n) <==> f in WaitingAt(s, n) && !Abandoned(s, s', ev, n) && !Withdrew(s, ev, n, f)
    ensures Carried(s, s', n)
  {
    SameWay(s.(fib := s'.fib), StillWaiting(s.pit[n], ev), e1, ev.limits);
    if MustRetry(s.pit[n], ev.f, ev.p.nack) {
      PassedOnWaits(s.(fib := s'.fib), s', e1, s'.pit[n], cfg, ev.p, ev.now, ev.limits);
    }
  }

  lemma DataAccount(s: State, cfg: Config, ev: Event, n: Name)
    requires Inv(s) && Enabled(s, ev) && ev.GotData?
    ensures var s' := Step(s, cfg, ev);
      WaitingAt(s', n) == (if Answered(s, ev, n) then {} else WaitingAt(s, n)) && Carried(s, s', n)
  {
    if ev.name !in s.pit {
      UnsolicitedDataIsCached(s, cfg, ev.f, ev.name, ev.packet);
    } else if ev.f !in s.pit[ev.name].outgoing {
      UnaskedDataIsDropped(s, cfg, ev.f, ev.name, ev.packet);
    } else {
      AskedDataIsDelivered(s, cfg, ev.f, ev.name, ev.packet);
    }
  }

  lemma TableAccount(s: State, cfg: Config, ev: Event, n: Name, f: Face)
    requires Inv(s) && Enabled(s, ev) && !ev.GotInterest? && !ev.GotNack? && !ev.GotData?
    ensures var s' := Step(s, cfg, ev);
      && (f in WaitingAt(s', n) <==> f in WaitingAt(s, n) && !FaceGone(s, ev, n, f) && !Expired(s, ev, n))
      && Carried(s, s', n)
  {
    match ev
    case DropFace(g) => DropFaceOutcome(s, cfg, g);
    case AddRoute(prefix, g, cost) => RegisterOutcome(s, cfg, prefix, g, cost);
    case ReapTimer(now) => ReapOutcome(s, cfg, now);
    case AddFace(g) => assert Step(s, cfg, ev).pit == s.pit;
  }

  lemma CausesOfInterest(s: State, s': State, cfg: Config, ev: Event, n: Name, f: Face)
    requires ev.GotInterest?
    ensures ev.hit.Some? ==>
      !Joins(s, cfg, ev, n, f) && (Leaves(s, s', cfg, ev, n, f) <==> Taker(s, ev.p.name) == Some(n))
    ensures ev.hit.None? ==>
      && (Leaves(s, s', cfg, ev, n, f) <==> Declined(s, cfg, ev) && Taker(s, ev.p.name) == Some(n))
      && (Joins(s, cfg, ev, n, f) <==> ev.f == f && n == TakerName(s, ev.p.name) && !Declined(s, cfg, ev))
  {
  }

  lemma CausesOfOthers(s: State, s': State, cfg: Config, ev: Event, n: Name, f: Face)
    requires !ev.GotInterest?
    ensures !Joins(s, cfg, ev, n, f)
    ensures Leaves(s, s', cfg, ev, n, f) <==>
      || Answered(s, ev, n) || Abandoned(s, s', ev, n) || Withdrew(s, ev, n, f)
      || FaceGone(s, ev, n, f) || Expired(s, ev, n)
    ensures !ev.GotNack? ==> !Abandoned(s, s', ev, n) && !Withdrew(s, ev, n, f)
    ensures !ev.GotData? ==> !Answered(s, ev, n)
    ensures ev.GotNack? || ev.GotData? ==> !FaceGone(s, ev, n, f) && !Expired(s, ev, n)
  {
  }

  ghost predicate WaitsAfter(s: State, s': State, cfg: Config, ev: Event, n: Name, f: Face) {
    f in WaitingAt(s', n) <==>
      (f in WaitingAt(s, n) && !Leaves(s, s', cfg, ev, n, f)) || Joins(s, cfg, ev, n, f)
  }

  lemma WaitsAfterInterest(s: State, cfg: Config, ev: Event, n: Name, f: Face)
    requires Inv(s) && Enabled(s, ev) && ev.GotInterest?
    ensures var s' := Step(s, cfg, ev); WaitsAfter(s, s', cfg, ev, n, f) && Carried(s, s', n)
  {
    var s' := Step(s, cfg, ev);
    CausesOfInterest(s, s', cfg, ev, n, f);
    if ev.hit.Some? {
      HitAccount(s, cfg, ev, n);
    } else {
      MissAccount(s, cfg, ev, n);
      if n == TakerName(s, ev.p.name) && Taker(s, ev.p.name) != Some(n) {
        NobodyWaits(s, n, ev.p.name);
      }
    }
  }

  lemma NobodyWaits(s: State, n: Name, name: Name)
    requires n == TakerName(s, name) && Taker(s, name) != Some(n)
    ensures WaitingAt(s, n) == {}
  {
  }

  /** A step ends a face's wait on an entry exactly by one of the causes, begins it exactly by
      listing an interest from the face, and otherwise leaves it. */
  lemma WaitsAfterIff(s: State, cfg: Config, ev: Event, n: Name, f: Face)
    requires Inv(s) && Enabled(s, ev)
    ensures var s' := Step(s, cfg, ev);
      && (f in WaitingAt(s', n) <==>
            (f in WaitingAt(s, n) && !Leaves(s, s', cfg, ev, n, f)) || Joins(s, cfg, ev, n, f))
      && Carried(s, s', n)
  {
    var s' := Step(s, cfg, ev);
    if ev.GotInterest? {
      WaitsAfterInterest(s, cfg, ev, n, f);
    } else {
      CausesOfOthers(s, s', cfg, ev, n, f);
      match ev
      case GotNack(_, _, _, _) => NackAccount(s, cfg, ev, n, f);
      case GotData(_, _, _) => DataAccount(s, cfg, ev, n);
      case _ => TableAccount(s, cfg, ev, n, f);
    }
  }

  //////////////////// the data a step sends ////////////////////

  ghost function PacketOf(s: State, ev: Event): Packet
    requires ev.GotData? || (ev.GotInterest? && ev.hit.Some? && ev.hit.value < |s.cs|)
  {
    if ev.GotData? then ev.packet else s.cs[ev.hit.value].packet
  }

  /** A face to which data is due: it waits on the entry that is answered, or its own interest
      is answered by the store. */
  ghost predicate Due(s: State, ev: Event, f: Face) {
    (exists n :: Answered(s, ev, n) && f in WaitingAt(s, n)) || (ev.GotInterest? && ev.hit.Some? && ev.f == f)
  }

  /** Data goes out only in answer, and then once on every face to which it is due. */
  lemma DataGoesOutWhenDue(s: State, cfg: Config, ev: Event, f: Face)
    requires Inv(s) && Enabled(s, ev)
    ensures var s' := Step(s, cfg, ev);
      && s'.dataTo[f] == s.dataTo[f] + (if Due(s, ev, f) then 1 else 0)
      && (Due(s, ev, f) ==>
            && (ev.GotData? || (ev.GotInterest? && ev.hit.Some? && ev.hit.value < |s.cs|))
            && s'.out[SentData(f, PacketOf(s, ev))] == s.out[SentData(f, PacketOf(s, ev))] + 1)
  {
    match ev
    case GotInterest(_, _, _, hit, _) =>
      if hit.Some? { HitData(s, cfg, ev, f); } else {
        var e, e1 := MissOutcome(s, cfg, ev.f, ev.p, ev.now, ev.limits);
      }
    case GotNack(_, _, _, _) =>
      if Concerns(s, ev.f, ev.p) {
        var e1 := NackOutcome(s, cfg, ev.f, ev.p, ev.now, ev.limits);
      } else {
        var e := StrayNackOutcome(s, cfg, ev.f, ev.p, ev.now, ev.limits);
      }
    case GotData(_, _, _) => DataData(s, cfg, ev, f);
    case _ =>
  }

  lemma HitData(s: State, cfg: Config, ev: Event, f: Face)
    requires Inv(s) && Enabled(s, ev) && ev.GotInterest? && ev.hit.Some?
    ensures var s', a := Step(s, cfg, ev), SentData(f, s.cs[ev.hit.value].packet);
      && s'.dataTo[f] == s.dataTo[f] + (if Due(s, ev, f) then 1 else 0)
      && (Due(s, ev, f) ==> s'.out[a] == s.out[a] + 1)
  {
    DueAfterHit(s, ev, f);
    HitDelivers(s, cfg, ev.f, ev.p, ev.now, ev.hit.value, ev.limits);
    DeliveredTo(s, Step(s, cfg, ev), IncomingOf(s, Taker(s, ev.p.name)) + {ev.f}, s.cs[ev.hit.value].packet, f);
  }

  lemma DeliveredTo(s: State, s': State, fs: set<Face>, packet: Packet, f: Face)
    requires Delivers(s, s', fs, packet)
    ensures s'.dataTo[f] == s.dataTo[f] + (if f in fs then 1 else 0)
    ensures f in fs ==> s'.out[SentData(f, packet)] == s.out[SentData(f, packet)] + 1
  {
  }

  lemma DueAfterHit(s: State, ev: Event, f: Face)
    requires ev.GotInterest? && ev.hit.Some?
    ensures Due(s, ev, f) <==> f in IncomingOf(s, Taker(s, ev.p.name)) + {ev.f}
  {
    var m := Taker(s, ev.p.name);
    assert m.Some? ==> Answered(s, ev, m.value);
    assert forall n :: Answered(s, ev, n) ==> m == Some(n);
  }

  lemma DataData(s: State, cfg: Config, ev: Event, f: Face)
    requires Inv(s) && Enabled(s, ev) && ev.GotData?
    ensures var s', a := Step(s, cfg, ev), SentData(f, ev.packet);
      && s'.dataTo[f] == s.dataTo[f] + (if Due(s, ev, f) then 1 else 0)
      && (Due(s, ev, f) ==> s'.out[a] == s.out[a] + 1)
  {
    DueAfterData(s, ev, f);
    if ev.name !in s.pit {
      UnsolicitedDataIsCached(s, cfg, ev.f, ev.name, ev.packet);
    } else if ev.f !in s.pit[ev.name].outgoing {
      UnaskedDataIsDropped(s, cfg, ev.f, ev.name, ev.packet);
    } else {
      AskedDataIsDelivered(s, cfg, ev.f, ev.name, ev.packet);
    }
  }

  lemma DueAfterData(s: State, ev: Event, f: Face)
    requires ev.GotData?
    ensures Due(s, ev, f) <==> Answered(s, ev, ev.name) && f in WaitingAt(s, ev.name)
  {
  }

  //////////////////// runs with all their states ////////////////////

  ghost predicate StepsTo(cfg: Config, ss: seq<State>, es: seq<Event>, k: nat)
    requires |ss| == |es| + 1 && k < |es|
  {
    Enabled(ss[k], es[k]) && ss[k + 1] == Step(ss[k], cfg, es[k])
  }

  ghost predicate Trace(cfg: Config, ss: seq<State>, es: seq<Event>) {
    && |ss| == |es| + 1 && Run(cfg, [], ss[0])
    && forall k :: 0 <= k < |es| ==> StepsTo(cfg, ss, es, k)
  }

  lemma {:induction false} TraceKeepsInv(cfg: Config, ss: seq<State>, es: seq<Event>, k: nat)
    requires Trace(cfg, ss, es) && k < |ss|
    ensures Inv(ss[k])
  {
    if k == 0 {
      RunsKeepInv(cfg, [], ss[0]);
    } else {
      TraceKeepsInv(cfg, ss, es, k - 1);
      assert StepsTo(cfg, ss, es, k - 1);
      StepKeepsInv(ss[k - 1], cfg, es[k - 1]);
    }
  }

  ghost predicate LeavesAt(cfg: Config, ss: seq<State>, es: seq<Event>, k: nat, n: Name, f: Face)
    requires |ss| == |es| + 1 && k < |es|
  {
    f in WaitingAt(ss[k], n) && Leaves(ss[k], ss[k + 1], cfg, es[k], n, f)
  }

  /** In every run: a face that waits on an entry waits on the same entry ever after, unless at
      some step it leaves by one of the causes. */
  lemma {:induction false} WaitsOrLeaves(cfg: Config, ss: seq<State>, es: seq<Event>, i: nat, j: nat, n: Name, f: Face)
    requires Trace(cfg, ss, es) && i <= j < |ss| && f in WaitingAt(ss[i], n)
    ensures
      || (f in WaitingAt(ss[j], n) && ss[j].pit[n].id == ss[i].pit[n].id && ss[j].pit[n].expire >= ss[i].pit[n].expire)
      || (exists k: nat :: i <= k < j && LeavesAt(cfg, ss, es, k, n, f))
    decreases j
  {
    if i < j {
      WaitsOrLeaves(cfg, ss, es, i, j - 1, n, f);
      TraceKeepsInv(cfg, ss, es, j - 1);
      assert StepsTo(cfg, ss, es, j - 1);
      WaitsAfterIff(ss[j - 1], cfg, es[j - 1], n, f);
      if f in WaitingAt(ss[j - 1], n) && f !in WaitingAt(ss[j], n) {
        assert LeavesAt(cfg, ss, es, j - 1, n, f);
      }
    }
  }

  //////////////////// how long an interest is kept ////////////////////

  /** What an interest asks for: its lifetime, or the default one if it makes the entry and
      has none. */
  ghost function Lease(s: State, cfg: Config, p: InterestPacket): int {
    if p.lifetime == 0 && Taker(s, p.name).None? then cfg.defaultLifetime else p.lifetime
  }

  /** An interest that misses the store and is not given up at once is listed, at least until
      its lease ends. */
  lemma ListedForItsLease(s: State, cfg: Config, ev: Event)
    requires Inv(s) && Enabled(s, ev) && ev.GotInterest? && ev.hit.None? && !Declined(s, cfg, ev)
    ensures var s', n := Step(s, cfg, ev), TakerName(s, ev.p.name);
      ev.f in WaitingAt(s', n) && s'.pit[n].expire >= ev.now + Lease(s, cfg, ev.p)
  {
    var s', n := Step(s, cfg, ev), TakerName(s, ev.p.name);
    WaitsAfterIff(s, cfg, ev, n, ev.f);
    var e, e1 := MissOutcome(s, cfg, ev.f, ev.p, ev.now, ev.limits);
    if !SeenNonce(s, ev.p) {
      PassedOnWaits(s, s', e1, s'.pit[n], cfg, ev.p, ev.now, ev.limits);
    }
  }

  /** The face is taken off the entry by data, a give-up, its own give-up nack or the removal
      of a face: by anything but the timer. */
  ghost predicate TakenAt(cfg: Config, ss: seq<State>, es: seq<Event>, k: nat, n: Name, f: Face)
    requires |ss| == |es| + 1 && k < |es|
  {
    || Answered(ss[k], es[k], n) || GivenUpOn(ss[k], ss[k + 1], cfg, es[k], n) || Withdrew(ss[k], es[k], n, f)
    || FaceGone(ss[k], es[k], n, f)
  }

  /** In every run: an interest that was listed at time `t` stays listed until `t` plus its
      lease, unless something other than the timer takes it. */
  lemma InterestIsKept(cfg: Config, ss: seq<State>, es: seq<Event>, i: nat, j: nat)
    requires Trace(cfg, ss, es) && i < j < |ss|
    requires es[i].GotInterest? && es[i].hit.None? && !Declined(ss[i], cfg, es[i])
    requires var n, end := TakerName(ss[i], es[i].p.name), es[i].now + Lease(ss[i], cfg, es[i].p);
      forall k: nat :: i < k < j ==>
        !TakenAt(cfg, ss, es, k, n, es[i].f) && (es[k].ReapTimer? ==> es[k].now < end)
    ensures es[i].f in WaitingAt(ss[j], TakerName(ss[i], es[i].p.name))
  {
    var n, f, end := TakerName(ss[i], es[i].p.name), es[i].f, es[i].now + Lease(ss[i], cfg, es[i].p);
    TraceKeepsInv(cfg, ss, es, i);
    assert StepsTo(cfg, ss, es, i);
    ListedForItsLease(ss[i], cfg, es[i]);
    KeptUntil(cfg, ss, es, i + 1, j, n, f, end);
  }

  lemma {:induction false} KeptUntil(cfg: Config, ss: seq<State>, es: seq<Event>, i: nat, j: nat, n: Name, f: Face,
                                     end: Time)
    requires Trace(cfg, ss, es) && i <= j < |ss| && f in WaitingAt(ss[i], n) && ss[i].pit[n].expire >= end
    requires forall k: nat :: i <= k < j ==>
      !TakenAt(cfg, ss, es, k, n, f) && (es[k].ReapTimer? ==> es[k].now < end)
    ensures f in WaitingAt(ss[j], n) && ss[j].pit[n].expire >= end
    decreases j
  {
    if i < j {
      KeptUntil(cfg, ss, es, i, j - 1, n, f, end);
      TraceKeepsInv(cfg, ss, es, j - 1);
      assert StepsTo(cfg, ss, es, j - 1) && !TakenAt(cfg, ss, es, j - 1, n, f);
      WaitsAfterIff(ss[j - 1], cfg, es[j - 1], n, f);
    }
  }

  /** An interest without a lifetime gets the default one exactly if no shorter or equal name
      is pending, or what is pending lasts that long anyway. */
  lemma DefaultLifetimeIff(s: State, cfg: Config, ev: Event)
    requires Inv(s) && Enabled(s, ev) && ev.GotInterest? && ev.hit.None? && !Declined(s, cfg, ev)
    requires ev.p.lifetime == 0
    ensures var s', n, m := Step(s, cfg, ev), TakerName(s, ev.p.name), Taker(s, ev.p.name);
      && n in s'.pit
      && (s'.pit[n].expire >= ev.now + cfg.defaultLifetime <==>
            m.None? || cfg.defaultLifetime == 0 || s.pit[m.value].expire >= ev.now + cfg.defaultLifetime)
  {
    var s', n := Step(s, cfg, ev), TakerName(s, ev.p.name);
    ListedForItsLease(s, cfg, ev);
    var e, e1 := MissOutcome(s, cfg, ev.f, ev.p, ev.now, ev.limits);
    if !SeenNonce(s, ev.p) {
      PassedOnWaits(s, s', e1, s'.pit[n], cfg, ev.p, ev.now, ev.limits);
    }
  }

  //////////////////// the ledger of a face ////////////////////

  /** The entries on which `f` waits. */
  ghost function Pending(s: State, f: Face): set<Name> {
    set n | n in s.pit && f in s.pit[n].incoming
  }

  /** The entries it leaves at this step without data. */
  ghost function Lost(s: State, s': State, cfg: Config, ev: Event, f: Face): set<Name> {
    set n | n in Pending(s, f) && Leaves(s, s', cfg, ev, n, f) && !Answered(s, ev, n)
  }

  /** An interest from `f` that begins no wait and gets no data of its own: one for an entry
      on which `f` waits already, or one that is given up at once. */
  ghost predicate Unlisted(s: State, cfg: Config, ev: Event, f: Face) {
    && ev.GotInterest? && ev.f == f
    && (f in IncomingOf(s, Taker(s, ev.p.name)) || Declined(s, cfg, ev))
  }

  ghost predicate Asks(ev: Event, f: Face) {
    ev.GotInterest? && ev.f == f
  }

  ghost function One(b: bool): nat {
    if b then 1 else 0
  }

  lemma ReceivedOutcome(s: State, cfg: Config, ev: Event, f: Face)
    requires Inv(s) && Enabled(s, ev)
    ensures Step(s, cfg, ev).received[f] == s.received[f] + One(Asks(ev, f))
  {
    match ev
    case GotInterest(_, _, _, hit, _) =>
      if hit.Some? { HitDelivers(s, cfg, ev.f, ev.p, ev.now, ev.hit.value, ev.limits); } else {
        var e, e1 := MissOutcome(s, cfg, ev.f, ev.p, ev.now, ev.limits);
      }
    case GotNack(_, _, _, _) =>
      if Concerns(s, ev.f, ev.p) {
        var e1 := NackOutcome(s, cfg, ev.f, ev.p, ev.now, ev.limits);
      } else {
        var e := StrayNackOutcome(s, cfg, ev.f, ev.p, ev.now, ev.limits);
      }
    case GotData(_, name, _) =>
      if name in s.pit && ev.f in s.pit[name].outgoing {
        AskedDataIsDelivered(s, cfg, ev.f, name, ev.packet);
      }
    case _ =>
  }

  /** The name under which a step begins a wait for `f`, if it does. */
  ghost function Begun(s: State, cfg: Config, ev: Event, f: Face): set<Name> {
    if ev.GotInterest? && Joins(s, cfg, ev, TakerName(s, ev.p.name), f) then {TakerName(s, ev.p.name)} else {}
  }

  ghost function AnsweredTo(s: State, ev: Event, f: Face): set<Name> {
    set n | n in Pending(s, f) && Answered(s, ev, n)
  }

  lemma SetCounts(after: set<Name>, before: set<Name>, lost: set<Name>, answered: set<Name>, begun: set<Name>)
    requires lost <= before && answered <= before && lost !! answered && begun !! lost && begun !! answered
    requires forall n :: n in after <==> (n in before && n !in lost && n !in answered) || n in begun
    ensures |after| + |lost| + |answered| == |before| + |begun - before|
  {
    var stay := before - (lost + answered);
    assert after == stay + (begun - before);
    assert before == stay + (lost + answered);
  }

  lemma PendingAfterAt(s: State, s': State, cfg: Config, ev: Event, n: Name, f: Face)
    requires Inv(s) && Enabled(s, ev) && s' == Step(s, cfg, ev)
    ensures n in Pending(s', f) <==>
      || (n in Pending(s, f) && n !in Lost(s, s', cfg, ev, f) && n !in AnsweredTo(s, ev, f))
      || n in Begun(s, cfg, ev, f)
    ensures n in Begun(s, cfg, ev, f) ==> n !in Lost(s, s', cfg, ev, f) && n !in AnsweredTo(s, ev, f)
  {
    WaitsAfterIff(s, cfg, ev, n, f);
    LeavesOrBegins(s, s', cfg, ev, n, f);
  }

  lemma LeavesOrBegins(s: State, s': State, cfg: Config, ev: Event, n: Name, f: Face)
    ensures n in Begun(s, cfg, ev, f) <==> Joins(s, cfg, ev, n, f)
    ensures Joins(s, cfg, ev, n, f) ==> !Leaves(s, s', cfg, ev, n, f)
    ensures Answered(s, ev, n) ==> Leaves(s, s', cfg, ev, n, f)
  {
  }

  lemma PendingAfter(s: State, s': State, cfg: Config, ev: Event, f: Face)
    requires Inv(s) && Enabled(s, ev) && s' == Step(s, cfg, ev)
    ensures |Pending(s', f)| + |Lost(s, s', cfg, ev, f)| + |AnsweredTo(s, ev, f)| ==
      |Pending(s, f)| + |Begun(s, cfg, ev, f) - Pending(s, f)|
  {
    forall n
      ensures n in Pending(s', f) <==>
        || (n in Pending(s, f) && n !in Lost(s, s', cfg, ev, f) && n !in AnsweredTo(s, ev, f))
        || n in Begun(s, cfg, ev, f)
      ensures n in Begun(s, cfg, ev, f) ==> n !in Lost(s, s', cfg, ev, f) && n !in AnsweredTo(s, ev, f)
    {
      PendingAfterAt(s, s', cfg, ev, n, f);
    }
    SetCounts(Pending(s', f), Pending(s, f), Lost(s, s', cfg, ev, f), AnsweredTo(s, ev, f), Begun(s, cfg, ev, f));
  }

  lemma AnsweredCount(s: State, cfg: Config, ev: Event, f: Face)
    requires Inv(s)
    ensures |AnsweredTo(s, ev, f)| == One(exists n :: Answered(s, ev, n) && f in WaitingAt(s, n))
  {
    if n :| Answered(s, ev, n) && f in WaitingAt(s, n) {
      assert AnsweredTo(s, ev, f) == {n};
    } else {
      assert AnsweredTo(s, ev, f) == {};
    }
  }

  /** The interests received in a step are the data sent in it, the waits it adds less those
      it ends, and those unserved. */
  ghost predicate Accounted(s: State, s': State, f: Face, unserved: nat) {
    s'.received[f] + s.dataTo[f] + |Pending(s, f)| == s.received[f] + s'.dataTo[f] + |Pending(s', f)| + unserved
  }

  /** One step of the ledger: every interest received is accounted for. */
  lemma LedgerStep(s: State, s': State, cfg: Config, ev: Event, f: Face)
    requires Inv(s) && Enabled(s, ev) && s' == Step(s, cfg, ev)
    ensures Accounted(s, s', f, |Lost(s, s', cfg, ev, f)| + One(Unlisted(s, cfg, ev, f)))
  {
    ReceivedOutcome(s, cfg, ev, f);
    DataGoesOutWhenDue(s, cfg, ev, f);
    PendingAfter(s, s', cfg, ev, f);
    Heard(s, cfg, ev, f);
  }

  lemma BegunCount(s: State, cfg: Config, ev: Event, f: Face)
    requires ev.GotInterest?
    ensures var n := TakerName(s, ev.p.name);
      |Begun(s, cfg, ev, f) - Pending(s, f)| == One(Joins(s, cfg, ev, n, f) && n !in Pending(s, f))
  {
    var n := TakerName(s, ev.p.name);
    assert Begun(s, cfg, ev, f) - Pending(s, f) ==
      if Joins(s, cfg, ev, n, f) && n !in Pending(s, f) then {n} else {};
  }

  lemma Heard(s: State, cfg: Config, ev: Event, f: Face)
    requires Inv(s) && Enabled(s, ev)
    ensures One(Asks(ev, f)) + |AnsweredTo(s, ev, f)| ==
      One(Due(s, ev, f)) + |Begun(s, cfg, ev, f) - Pending(s, f)| + One(Unlisted(s, cfg, ev, f))
  {
    AnsweredCount(s, cfg, ev, f);
    if ev.GotInterest? {
      var n := TakerName(s, ev.p.name);
      assert f in IncomingOf(s, Taker(s, ev.p.name)) <==> n in Pending(s, f);
      BegunCount(s, cfg, ev, f);
      if ev.hit.Some? { DueAfterHit(s, ev, f); }
    }
  }

  /** What `f` has lost or not been listed for in the first `k` steps. */
  ghost function Unserved(cfg: Config, ss: seq<State>, es: seq<Event>, k: nat, f: Face): nat
    requires |ss| == |es| + 1 && k <= |es|
  {
    if k == 0 then 0
    else
      Unserved(cfg, ss, es, k - 1, f) + |Lost(ss[k - 1], ss[k], cfg, es[k - 1], f)|
        + One(Unlisted(ss[k - 1], cfg, es[k - 1], f))
  }

  /** In every state of every run, on every face: the interests received are the data sent, the
      waits that go on, the waits that ended without data, and the interests that began no
      wait. */
  lemma {:induction false} LedgerBalances(cfg: Config, ss: seq<State>, es: seq<Event>, k: nat, f: Face)
    requires Trace(cfg, ss, es) && k <= |es|
    ensures ss[k].received[f] == ss[k].dataTo[f] + |Pending(ss[k], f)| + Unserved(cfg, ss, es, k, f)
  {
    if k > 0 {
      LedgerBalances(cfg, ss, es, k - 1, f);
      TraceKeepsInv(cfg, ss, es, k - 1);
      assert StepsTo(cfg, ss, es, k - 1);
      LedgerStep(ss[k - 1], ss[k], cfg, es[k - 1], f);
    } else {
      assert Pending(ss[0], f) == {};
    }
  }
}
