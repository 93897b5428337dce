/** The forwarding engine as a state machine: faces, FIB, PIT and content store, and what
    each received packet, timer or management action does to them
    (daemon/ndn-l3-protocol.cc, daemon/pit, daemon/ndn-fib.cc, the forwarding strategies). */
module Engine {
  import opened Names
  import opened LruCache
  import opened FaceRanking

  type Time = int
  type Nonce = nat

  /** A pointer to a FIB entry: entries are told apart by `id`, not only by prefix. */
  datatype FibRef = FibRef(prefix: Name, id: nat)

  datatype FibEntry = FibEntry(id: nat, faces: Ranking)

  datatype OutFace = OutFace(retx: nat, inVain: bool)

  datatype PitEntry = PitEntry(
    id: nat, fib: Option<FibRef>, nonces: set<Nonce>, incoming: set<Face>,
    outgoing: map<Face, OutFace>, expire: Time, maxRetx: nat)

  datatype Action =
    | SentInterest(to: Face, name: Name, nonce: Nonce)
    | SentData(to: Face, packet: Packet)

  /** `received` counts the interests received on each face and `dataTo` the data packets
      sent on it; `out` is everything sent; `propagated` records, for each call of the
      forwarding strategy from an interest, the PIT entry and the nonce; `listed` records,
      for each interest received, the PIT entry that took it, the face and its name. */
  datatype State = State(
    faces: seq<Face>, fib: map<Name, FibEntry>, pit: map<Name, PitEntry>, cs: Cache<Component, Packet>,
    nextId: nat, received: multiset<Face>, dataTo: multiset<Face>, out: multiset<Action>,
    propagated: seq<(nat, Nonce)>, listed: set<(nat, Face, Name)>)

  /** An interest header as far as forwarding looks at it. The lifetime is what was decoded
      and can be negative. */
  datatype InterestPacket = InterestPacket(name: Name, nonce: Nonce, lifetime: int, nack: nat)

  /** Settings of the daemon. */
  datatype Config = Config(capacity: nat, defaultLifetime: nat, pruning: nat)

  const NACK_GIVEUP_PIT := 12

  /** What the faces' rate limits answer while one interest is propagated: per face in the
      green round, per position in the flooding round. */
  datatype Limits = Limits(green: Face -> bool, flood: nat -> bool)

  //////////////////// tables ////////////////////

  lemma ShorterPrefix(p: Name, name: Name, k: nat)
    requires 0 < k <= |name| && p <= name[..k] && p != name[..k]
    ensures p <= name[..k - 1]
  {
  }

  /** The longest prefix of `name` of at most `k` components among `keys`. */
  function LongestMatch(keys: set<Name>, name: Name, k: nat): (r: Option<Name>)
    requires k <= |name|
    ensures r.Some? ==> r.value in keys && r.value <= name[..k]
    ensures forall p :: p in keys && p <= name[..k] ==> r.Some? && |p| <= |r.value|
  {
    if name[..k] in keys then Some(name[..k])
    else if k == 0 then None
    else
      assert forall p :: p in keys && p <= name[..k] ==> p <= name[..k - 1] by {
        forall p | p in keys && p <= name[..k]
          ensures p <= name[..k - 1]
        {
          ShorterPrefix(p, name, k);
        }
      }
      LongestMatch(keys, name, k - 1)
  }

  function FindFib(s: State, name: Name): (r: Option<FibRef>)
  {
    match LongestMatch(s.fib.Keys, name, |name|)
    case None => None
    case Some(p) => Some(FibRef(p, s.fib[p].id))
  }

  ghost predicate Present(fib: map<Name, FibEntry>, r: FibRef) {
    r.prefix in fib && fib[r.prefix].id == r.id
  }

  /** The PIT entry for an interest, made if there is none; its name, and whether the nonce
      had been seen on it. */
  function PitLookup(s: State, cfg: Config, p: InterestPacket, now: Time): (State, Name, bool, bool) {
    match LongestMatch(s.pit.Keys, p.name, |p.name|)
    case None =>
      var lifetime := if p.lifetime == 0 then cfg.defaultLifetime else p.lifetime;
      var e := PitEntry(s.nextId, FindFib(s, p.name), {p.nonce}, {}, map[], now + lifetime, 0);
      (s.(pit := s.pit[p.name := e], nextId := s.nextId + 1), p.name, true, false)
    case Some(n) =>
      var e := s.pit[n];
      if p.nonce in e.nonces then (s, n, false, true)
      else (s.(pit := s.pit[n := e.(nonces := e.nonces + {p.nonce})]), n, false, false)
  }

  function AddOutgoing(e: PitEntry, f: Face): PitEntry {
    if f in e.outgoing then e.(outgoing := e.outgoing[f := OutFace(e.outgoing[f].retx + 1, false)])
    else e.(outgoing := e.outgoing[f := OutFace(0, false)])
  }

  function ReceiveOn(e: PitEntry, f: Face, lifetime: int, now: Time): PitEntry {
    e.(incoming := e.incoming + {f}, expire := if now + lifetime > e.expire then now + lifetime else e.expire)
  }

  ghost function FibFaces(s: State, e: PitEntry): Ranking {
    if e.fib.Some? && e.fib.value.prefix in s.fib then s.fib[e.fib.value.prefix].faces else []
  }

  //////////////////// forwarding strategy ////////////////////

  /** A green face the strategy may use for this entry. */
  predicate Eligible(x: FaceMetric, e: PitEntry, green: Face -> bool) {
    && x.status == Green && x.face !in e.incoming
    && !(x.face in e.outgoing && e.outgoing[x.face].retx >= e.maxRetx)
    && green(x.face)
  }

  /** The loop over the metric index: it stops at the first face that is not green. */
  function FirstGreen(r: Ranking, e: PitEntry, green: Face -> bool): (f: Option<Face>) {
    if r == [] || r[0].status != Green then None
    else if Eligible(r[0], e, green) then Some(r[0].face)
    else FirstGreen(r[1..], e, green)
  }

  function Candidates(r: Ranking): (fs: seq<Face>)
    ensures forall f :: f in fs ==> f in FacesOf(r)
  {
    if r == [] then [] else
      assert forall f :: f in FacesOf(r[1..]) ==> f in FacesOf(r) by {
        assert forall i :: 0 <= i < |r| - 1 ==> r[1..][i] == r[i + 1];
      }
      (if r[0].status != Red then [r[0].face] else []) + Candidates(r[1..])
  }

  /** Sends on every candidate from position `k` on that its limit allows. */
  function Flood(e: PitEntry, name: Name, nonce: Nonce, fs: seq<Face>, k: nat, flood: nat -> bool,
                 out: multiset<Action>): (PitEntry, multiset<Action>, nat)
    requires k <= |fs|
    decreases |fs| - k
  {
    if k == |fs| then (e, out, 0)
    else if !flood(k) then Flood(e, name, nonce, fs, k + 1, flood, out)
    else
      var (e', out', n) := Flood(AddOutgoing(e, fs[k]), name, nonce, fs, k + 1, flood,
                                 out + multiset{SentInterest(fs[k], name, nonce)});
      (e', out', n + 1)
  }

  /** The flooding strategy: one eligible green face, else every face that is not red, or
      every registered face when the entry has no route. */
  ghost function Propagate(s: State, n: Name, p: InterestPacket, limits: Limits): (State, bool)
    requires n in s.pit
  {
    var e := s.pit[n];
    match FirstGreen(FibFaces(s, e), e, limits.green)
    case Some(f) =>
      (s.(pit := s.pit[n := AddOutgoing(e, f)], out := s.out + multiset{SentInterest(f, p.name, p.nonce)}), true)
    case None =>
      var fs := if e.fib.Some? then Candidates(FibFaces(s, e)) else s.faces;
      var (e', out', count) := Flood(e, p.name, p.nonce, fs, 0, limits.flood, s.out);
      (s.(pit := s.pit[n := e'], out := out'), count > 0)
  }

  function GiveUp(s: State, cfg: Config, n: Name, now: Time): State
    requires n in s.pit
  {
    s.(pit := s.pit[n := s.pit[n].(incoming := {}, outgoing := map[], expire := now + cfg.pruning)])
  }

  ghost function PropagateOrGiveUp(s: State, cfg: Config, n: Name, p: InterestPacket, now: Time, limits: Limits): State
    requires n in s.pit
  {
    var (s', propagated) := Propagate(s, n, p, limits);
    if propagated then s' else GiveUp(s', cfg, n, now)
  }

  //////////////////// handlers ////////////////////

  ghost function DataTo(fs: set<Face>, packet: Packet): multiset<Action> {
    multiset(set f | f in fs :: SentData(f, packet))
  }

  /** The packet has gone out once on each of the faces, and nothing else has been sent. */
  ghost predicate Delivers(s: State, s': State, fs: set<Face>, packet: Packet) {
    && (forall g :: s'.dataTo[g] == s.dataTo[g] + if g in fs then 1 else 0)
    && (forall a :: s'.out[a] == s.out[a] + if a.SentData? && a.to in fs && a.packet == packet then 1 else 0)
  }

  /** Sends the packet to every incoming face and drops the entry. */
  ghost function Satisfy(s: State, n: Name, packet: Packet): State
    requires n in s.pit
  {
    var fs := s.pit[n].incoming;
    s.(pit := s.pit - {n}, dataTo := s.dataTo + multiset(fs), out := s.out + DataTo(fs, packet))
  }

  /** The content store's answer to an interest; `None` is a miss. */
  ghost predicate LegalAnswer(c: Cache<Component, Packet>, name: Name, hit: Option<nat>) {
    match hit
    case None => !Extended(c, name)
    case Some(i) => MayAnswer(c, name, i)
  }

  /** Lists the face as incoming. */
  function Receive(s: State, n: Name, f: Face, p: InterestPacket, now: Time): State
    requires n in s.pit
  {
    s.(pit := s.pit[n := ReceiveOn(s.pit[n], f, p.lifetime, now)],
       listed := s.listed + {(s.pit[n].id, f, p.name)})
  }

  ghost function OnInterest(s: State, cfg: Config, f: Face, p: InterestPacket, now: Time,
                            hit: Option<nat>, limits: Limits): State
    requires LegalAnswer(s.cs, p.name, hit)
  {
    var (s1, n, isNew, isDuplicate) := PitLookup(s.(received := s.received + multiset{f}), cfg, p, now);
    var s2 := Receive(s1, n, f, p, now);
    match hit
    case Some(i) => Satisfy(s2.(cs := AfterUse(s2.cs, i)), n, s2.cs[i].packet)
    case None =>
      if isDuplicate then s2
      else
        PropagateOrGiveUp(s2.(propagated := s2.propagated + [(s2.pit[n].id, p.nonce)]), cfg, n, p, now, limits)
  }

  ghost function UpdateFib(s: State, r: Option<FibRef>, f: Face, status: Status): State {
    if r.Some? && r.value.prefix in s.fib then
      var x := s.fib[r.value.prefix];
      s.(fib := s.fib[r.value.prefix := x.(faces := AfterStatus(x.faces, f, status))])
    else s
  }

  ghost predicate AllInVain(e: PitEntry) {
    forall f :: f in e.outgoing ==> e.outgoing[f].inVain
  }

  /** What a nack changes in the entry it belongs to. */
  function NackEntry(e: PitEntry, f: Face, nack: nat): PitEntry
    requires f in e.outgoing
  {
    var e1 := e.(outgoing := e.outgoing[f := e.outgoing[f].(inVain := true)]);
    if nack == NACK_GIVEUP_PIT then e1.(incoming := e1.incoming - {f}) else e1
  }

  ghost function OnNack(s: State, cfg: Config, f: Face, p: InterestPacket, now: Time, limits: Limits): State {
    var (s1, n, isNew, isDuplicate) := PitLookup(s, cfg, p, now);
    if isNew || !isDuplicate || f !in s1.pit[n].outgoing then s1
    else
      var e := NackEntry(s1.pit[n], f, p.nack);
      var s2 := UpdateFib(s1.(pit := s1.pit[n := e]), e.fib, f, Yellow);
      if e.incoming == {} || !AllInVain(e) then s2
      else PropagateOrGiveUp(s2, cfg, n, p, now, limits)
  }

  ghost function AddToStore(s: State, cfg: Config, name: Name, packet: Packet): State {
    s.(cs := AfterAdd(s.cs, cfg.capacity, Entry(name, packet)))
  }

  ghost function OnData(s: State, cfg: Config, f: Face, name: Name, packet: Packet): State {
    if name !in s.pit then AddToStore(s, cfg, name, packet)
    else
      var e := s.pit[name];
      if f !in e.outgoing then s
      else Satisfy(AddToStore(UpdateFib(s, e.fib, f, Green), cfg, name, packet), name, packet)
  }

  //////////////////// faces, routes and timers ////////////////////

  function WithoutFace(e: PitEntry, f: Face): PitEntry {
    e.(incoming := e.incoming - {f}, outgoing := e.outgoing - {f})
  }

  /** `f` is the only face of the FIB entry `e` points to. */
  predicate OnlyVia(s: State, e: PitEntry, f: Face) {
    && e.fib.Some? && e.fib.value.prefix in s.fib
    && |s.fib[e.fib.value.prefix].faces| == 1 && s.fib[e.fib.value.prefix].faces[0].face == f
  }

  function TrimPit(s: State, f: Face): State {
    s.(pit := map n | n in s.pit && !OnlyVia(s, s.pit[n], f) :: WithoutFace(s.pit[n], f))
  }

  function RemoveFromFib(s: State, f: Face): State {
    s.(fib := map p | p in s.fib && AfterRemove(s.fib[p].faces, f) != []
              :: s.fib[p].(faces := AfterRemove(s.fib[p].faces, f)))
  }

  function RemoveFirst(fs: seq<Face>, f: Face): seq<Face> {
    if fs == [] then [] else if fs[0] == f then fs[1..] else [fs[0]] + RemoveFirst(fs[1..], f)
  }

  function RemoveFace(s: State, f: Face): State {
    var s' := RemoveFromFib(TrimPit(s, f), f);
    s'.(faces := RemoveFirst(s'.faces, f))
  }

  function Register(s: State, prefix: Name, f: Face, cost: int): State {
    var x := if prefix in s.fib then s.fib[prefix] else FibEntry(s.nextId, []);
    s.(fib := s.fib[prefix := x.(faces := AfterCost(x.faces, f, cost))],
       nextId := if prefix in s.fib then s.nextId else s.nextId + 1)
  }

  /** Removal of a route on request of the management interface; the PIT is not trimmed. */
  function Unregister(s: State, prefix: Name, f: Face): State {
    if prefix !in s.fib then s
    else
      var faces := AfterRemove(s.fib[prefix].faces, f);
      if faces == [] then s.(fib := s.fib - {prefix})
      else s.(fib := s.fib[prefix := s.fib[prefix].(faces := faces)])
  }

  function Reap(s: State, now: Time): State {
    s.(pit := map n | n in s.pit && now < s.pit[n].expire :: s.pit[n])
  }
}
