/** The NOM link layer policy: which packets wait for retransmission, and when each is sent
    (network/mac/ll-nom-policy.h, network/mac/ll-nom-policy.cc). */
module NomPolicy {
  import opened Names
  import opened PacketStorage

  const MAX_RETRANSMISSION: nat := 8
  const RETRANSMISSION_USEC: nat := 500000
  const MAX_TCA: nat := 2000
  const TDIST: nat := 5000
  const DMAX: nat := 150
  /** The nonce of a content: -1 as a 32-bit number. */
  const NO_NONCE: nat := 0xFFFF_FFFF

  const ERROR := -1
  const DISCARD := 3

  /** A packet handed down by the daemon, as far as its header could be parsed. */
  datatype Outgoing = Interest(name: Name, nonce: nat) | Content(name: Name) | Unknown

  /** `nextId` numbers the insertions; `clock` is the last reading of the system clock. */
  datatype State = State(table: Table, nextId: nat, clock: nat)

  //////////////////// keys ////////////////////

  const SLASH: byte := 47

  /** "INTEREST" */
  function InterestPrefix(): Key {
    [73, 78, 84, 69, 82, 69, 83, 84]
  }

  /** "DATAOBJECT" */
  function DataPrefix(): Key {
    [68, 65, 84, 65, 79, 66, 74, 69, 67, 84]
  }

  function Joined(name: Name): Key {
    if name == [] then [] else Joined(name[..|name| - 1]) + name[|name| - 1] + [SLASH]
  }

  function InterestKey(name: Name): Key {
    InterestPrefix() + Joined(name)
  }

  function DataKey(name: Name): Key {
    DataPrefix() + Joined(name)
  }

  method AppendComponents(prefix: Key, name: Name) returns (key: Key)
    ensures key == prefix + Joined(name)
  {
    key := prefix;
    for i := 0 to |name|
      invariant key == prefix + Joined(name[..i])
    {
      assert name[..i + 1][..i] == name[..i];
      key := key + name[i] + [SLASH];
    }
    assert name[..|name|] == name;
  }

  //////////////////// timers ////////////////////

  /** Seconds are kept in 32 bits. */
  function Seconds32(n: nat): nat {
    n % 0x1_0000_0000
  }

  /** `now` plus `delay` microseconds. */
  function Later(now: Timer, delay: nat): Timer {
    Timer(Seconds32(now.sec + (now.usec + delay) / 1000000), (now.usec + delay) % 1000000)
  }

  function NextTimer(now: Timer): Timer {
    Later(now, RETRANSMISSION_USEC)
  }

  /** The delay that favours far nodes; nothing for packets generated here. */
  function Gap(distance: Option<real>): nat
    requires distance != None ==> distance.value >= 0.0
  {
    if distance == None then 0
    else
      var d := if distance.value < DMAX as real then distance.value else DMAX as real;
      (TDIST as real * (DMAX as real - d) / DMAX as real).Floor
  }

  function FirstTimer(now: Timer, tca: nat, distance: Option<real>): Timer
    requires distance != None ==> distance.value >= 0.0
  {
    Later(now, tca + Gap(distance))
  }

  lemma GapBound(distance: Option<real>)
    requires distance != None ==> distance.value >= 0.0
    ensures Gap(distance) <= 5000
    ensures distance == None || distance.value >= 150.0 ==> Gap(distance) == 0
    ensures distance == Some(0.0) ==> Gap(distance) == 5000
  {
  }

  /** A farther node waits no longer; up to the distance that matters the delay falls in
      proportion, by 100 us for every three metres. */
  lemma FartherWaitsLess(near: real, far: real)
    requires 0.0 <= near <= far
    ensures Gap(Some(far)) <= Gap(Some(near))
    ensures near <= 150.0 ==> Gap(Some(near)) as real <= 5000.0 - near * 100.0 / 3.0 < Gap(Some(near)) as real + 1.0
  {
    var d := if near < 150.0 then near else 150.0;
    var e := if far < 150.0 then far else 150.0;
    assert 5000.0 * (150.0 - d) / 150.0 == 5000.0 - d * 100.0 / 3.0;
    assert 5000.0 * (150.0 - e) / 150.0 == 5000.0 - e * 100.0 / 3.0;
  }

  /** The clock before the 32-bit second counter runs over. */
  predicate BeforeWrap(now: Timer) {
    Normal(now) && now.sec + 1 < 0x1_0000_0000
  }

  /** Splitting into seconds and the rest loses nothing. */
  lemma Carry(x: nat, m: nat)
    requires x < 2 * m
    ensures x / m == (if x < m then 0 else 1) && m * (x / m) + x % m == x && 0 <= x % m < m
  {
    if x >= m {
      assert x == m * 1 + (x - m);
    }
  }

  lemma LaterIsExact(now: Timer, delay: nat)
    requires BeforeWrap(now) && delay < 1000000
    ensures Normal(Later(now, delay)) && Micros(Later(now, delay)) == Micros(now) + delay
  {
    Carry(now.usec + delay, 1000000);
    var sec := now.sec + (now.usec + delay) / 1000000;
    assert Seconds32(sec) == sec;
  }

  //////////////////// what the policy does to the pending packets ////////////////////

  function Store(s: State, data: Packet, name: Key, components: Name, nonce: nat, timer: Timer, now: Timer): State {
    s.(table := Inserted(s.table, Element(s.nextId, name, components, nonce, data, 1, MAX_RETRANSMISSION, timer)),
       nextId := s.nextId + 1, clock := Micros(now))
  }

  /** An interest is stored unless a packet with its key or its name is pending; a content
      first purges every pending packet whose name is a prefix of its own. */
  ghost function AfterOutgoing(s: State, p: Outgoing, data: Packet, timer: Timer, now: Timer): State {
    match p
    case Unknown => s
    case Interest(name, nonce) =>
      if Stored(s.table, InterestKey(name), name) then s.(clock := Micros(now))
      else Store(s, data, InterestKey(name), name, nonce, timer, now)
    case Content(name) =>
      var t := Purged(s.table, name);
      if Stored(t, DataKey(name), name) then s.(table := t, clock := Micros(now))
      else Store(s.(table := t), data, DataKey(name), name, NO_NONCE, timer, now)
  }

  /** The packet with the first deadline is sent: for the last time, or it gets a new one;
      only then is the clock read. */
  function AfterTransmit(s: State, now: Timer): State {
    if s.table == [] then s
    else
      var x := s.table[0];
      if x.retransmission >= x.limit then s.(table := RemoveAt(s.table, 0))
      else
        s.(table := Replaced(s.table, 0, x.(retransmission := x.retransmission + 1, timer := NextTimer(now))),
           clock := Micros(now))
  }

  /** An interest heard from a neighbour; `acks` tells whether its sender is far enough. */
  function AfterInterestHeard(s: State, name: Name, nonce: nat, acks: bool): State {
    var i := FindKey(s.table, InterestKey(name));
    if i < |s.table| && s.table[i].nonce == nonce && acks then s.(table := WithoutKey(s.table, InterestKey(name)))
    else s
  }

  function AckedByContent(t: Table, name: Name, acks: bool): Table {
    if acks then WithoutKey(t, DataKey(name)) else t
  }

  /** A content heard from a neighbour. */
  function AfterContentHeard(s: State, name: Name, acks: bool): State {
    s.(table := Purged(AckedByContent(s.table, name, acks), name))
  }

  /** Every pending packet has been counted from one up to the limit. */
  ghost predicate Counted(t: Table) {
    forall x :: x in t ==> 1 <= x.retransmission <= x.limit == MAX_RETRANSMISSION
  }

  lemma PurgedStaysCounted(t: Table, name: Name)
    requires Ordered(t) && Unique(t) && Counted(t)
    ensures Counted(Purged(t, name))
  {
    PurgedContents(t, name);
  }

  //////////////////// the policy ////////////////////

  class Policy {
    const storage: Storage
    ghost var clock: nat

    ghost function Abs(): State
      reads this, storage
    {
      State(storage.table, storage.nextId, clock)
    }

    ghost predicate Valid()
      reads this, storage
    {
      storage.Valid() && Counted(storage.table)
    }

    constructor ()
      ensures Valid() && fresh(storage) && Abs() == State([], 0, 0)
    {
      storage := new Storage();
      clock := 0;
    }

    method CalculateNextTimer(now: Timer) returns (timer: Timer)
      ensures timer == NextTimer(now)
      ensures BeforeWrap(now) ==> Normal(timer) && Micros(timer) == Micros(now) + 500000
    {
      if BeforeWrap(now) { LaterIsExact(now, RETRANSMISSION_USEC); }
      var usec := (RETRANSMISSION_USEC + now.usec) % 1000000;
      var sec := Seconds32(now.sec + (RETRANSMISSION_USEC + now.usec) / 1000000);
      timer := Timer(sec, usec);
    }

    method CalculateFirstTransmission(now: Timer, rand: nat, distance: Option<real>) returns (timer: Timer)
      requires distance != None ==> distance.value >= 0.0
      ensures timer == FirstTimer(now, rand % MAX_TCA, distance)
      ensures BeforeWrap(now) ==>
        && Normal(timer) && Micros(timer) == Micros(now) + rand % 2000 + Gap(distance)
        && Micros(now) <= Micros(timer) <= Micros(now) + 1999 + 5000
    {
      GapBound(distance);
      if BeforeWrap(now) { LaterIsExact(now, rand % MAX_TCA + Gap(distance)); }
      var tca := rand % MAX_TCA;
      var gap := 0;
      if distance != None {
        gap := Gap(distance);
      }
      timer := Timer(Seconds32(now.sec + (now.usec + tca + gap) / 1000000), (now.usec + tca + gap) % 1000000);
    }

    /** Takes over a packet from the daemon; nothing is sent yet. */
    method AddOutgoingPkt(p: Outgoing, data: Packet, now: Timer, rand: nat, distance: Option<real>) returns (ret: int)
      requires Valid() && (distance != None ==> distance.value >= 0.0)
      modifies this, storage
      ensures Valid()
      ensures Abs() == AfterOutgoing(old(Abs()), p, data, FirstTimer(now, rand % MAX_TCA, distance), now)
      ensures ret == DISCARD || ret == ERROR
      ensures ret == ERROR <==> p != Unknown && Abs().nextId == old(Abs()).nextId
    {
      var key, nonce;
      match p {
        case Unknown =>
          return DISCARD;
        case Interest(name, n) =>
          key := AppendComponents(InterestPrefix(), name);
          nonce := n;
        case Content(name) =>
          key := AppendComponents(DataPrefix(), name);
          nonce := NO_NONCE;
          PurgeMatching(name);
      }
      var timer := CalculateFirstTransmission(now, rand, distance);
      clock := Micros(now);
      var ok := storage.InsertPkt(data, MAX_RETRANSMISSION, key, p.name, nonce, timer);
      if !ok {
        return ERROR;
      }
      return DISCARD;
    }

    /** Deletes every pending packet whose name is a prefix of `name`. */
    method PurgeMatching(name: Name)
      requires Valid()
      modifies storage`table
      ensures Valid() && storage.table == Purged(old(storage.table), name)
    {
      PurgedStaysCounted(storage.table, name);
      var found := storage.SearchByPrefixMatch(name);
      DeleteAll(found);
    }

    method DeleteAll(found: seq<Element>)
      requires storage.Valid()
      modifies storage`table
      ensures storage.Valid() && storage.table == WithoutAll(old(storage.table), found)
    {
      assert found[..0] == [];
      for i := 0 to |found|
        invariant storage.Valid() && storage.table == WithoutAll(old(storage.table), found[..i])
      {
        assert found[..i + 1][..i] == found[..i];
        var deleted := storage.DeletePktByKey(found[i].name);
      }
      assert found[..|found|] == found;
    }

    /** The key to delete is read once, before the loop over the found packets. */
    method DeleteFirstFound(found: seq<Element>)
      requires storage.Valid() && |found| <= 1
      modifies storage`table
      ensures storage.Valid() && storage.table == WithoutAll(old(storage.table), found)
    {
      if |found| > 0 {
        var key := found[0].name;
        assert found == [found[0]] && found[..0] == [];
        for i := 0 to |found|
          invariant storage.Valid() && storage.table == WithoutAll(old(storage.table), found[..i])
        {
          assert found[..1] == found;
          var deleted := storage.DeletePktByKey(key);
        }
      }
    }

    /** An interest heard from a neighbour: a full acknowledgement deletes the pending one, any
        other is handed up to the daemon. */
    method InterestFromNetwork(name: Name, nonce: nat, acks: bool) returns (up: bool)
      requires Valid()
      modifies storage`table
      ensures Valid() && Abs() == AfterInterestHeard(old(Abs()), name, nonce, acks)
      ensures !up <==>
        acks && exists x :: x in old(storage.table) && x.name == InterestKey(name) && x.nonce == nonce
      ensures forall x :: x in storage.table <==>
        x in old(storage.table) && !(acks && x.name == InterestKey(name) && x.nonce == nonce)
    {
      var key := AppendComponents(InterestPrefix(), name);
      var el := storage.GetPktByKey(key);
      if el == None || el.value.nonce != nonce || !acks {
        return true;
      }
      WithoutKeyContents(storage.table, key);
      var deleted := storage.DeletePktByKey(key);
      return false;
    }

    /** A content heard from a neighbour that satisfies at most one further pending packet. */
    method ContentFromNetwork(name: Name, acks: bool) returns (up: bool)
      requires Valid()
      requires |Matches(AckedByContent(storage.table, name, acks), name, |name| + 1)| <= 1
      modifies storage`table
      ensures Valid() && Abs() == AfterContentHeard(old(Abs()), name, acks)
      ensures !up <==> acks && exists x :: x in old(storage.table) && x.name == DataKey(name)
      ensures forall x :: x in storage.table <==>
        x in old(storage.table) && !(x.components <= name) && !(acks && x.name == DataKey(name))
    {
      WithoutKeyContents(storage.table, DataKey(name));
      PurgedContents(AckedByContent(storage.table, name, acks), name);
      up := AckContent(name, acks);
      PurgedStaysCounted(storage.table, name);
      var found := storage.SearchByPrefixMatch(name);
      DeleteFirstFound(found);
    }

    method AckContent(name: Name, acks: bool) returns (up: bool)
      requires Valid()
      modifies storage`table
      ensures Valid() && storage.table == AckedByContent(old(storage.table), name, acks)
      ensures !up <==> acks && exists x :: x in old(storage.table) && x.name == DataKey(name)
    {
      var key := AppendComponents(DataPrefix(), name);
      WithoutKeyContents(storage.table, key);
      var el := storage.GetPktByKey(key);
      if el == None || !acks {
        return true;
      }
      var deleted := storage.DeletePktByKey(key);
      return false;
    }

    method GetNextDeadline() returns (timer: Option<Timer>)
      requires Valid()
      ensures timer == None <==> storage.table == []
      ensures timer != None ==>
        && (exists x :: x in storage.table && x.timer == timer.value)
        && forall x :: x in storage.table ==> !Before(x.timer, timer.value)
    {
      var el := storage.GetFirstDeadline();
      if el == None {
        return None;
      }
      return Some(el.value.timer);
    }

    /** Hands out the packet with the first deadline; the error branch after a failed
        counter update is never taken. */
    method GetPktForRetransmission(now: Timer) returns (sent: Option<Packet>)
      requires Valid()
      modifies this, storage`table
      ensures Valid() && Abs() == AfterTransmit(old(Abs()), now)
      ensures sent == if old(storage.table) == [] then None else Some(old(storage.table)[0].data)
    {
      var el := storage.GetFirstDeadline();
      if el == None {
        return None;
      }
      var x := el.value;
      if x.retransmission >= x.limit {
        RemoveKeepsIndices(storage.table, 0);
        var deleted := storage.DeleteFirstPkt(x.name);
      } else {
        clock := Micros(now);
        var timer := CalculateNextTimer(now);
        var next := x.(retransmission := x.retransmission + 1, timer := timer);
        ReplaceKeepsIndices(storage.table, 0, next);
        var ok := storage.IncreaseRetransmissionCounterAndSetNewTimer(x.name, timer);
        if !ok {
          assert false;
        }
      }
      return Some(x.data);
    }
  }

  //////////////////// waiting for the first deadline ////////////////////

  lemma WrapDifference(x: int, m: int)
    requires 0 < m && -m <= x < m
    ensures (x + m) % m == if x < 0 then x + m else x
  {
    if x >= 0 {
      assert (x + m) % m == x by {
        assert x + m == 1 * m + x;
      }
    }
  }

  /** The time to wait from `now` until `deadline`, as the event loop computes it in place:
      nothing when it has passed, otherwise exactly the difference, normalised. */
  method SelectTimeout(deadline: Timer, now: Timer) returns (sec: int, usec: int)
    requires Normal(deadline) && Normal(now)
    ensures 0 <= usec < 1000000 && 0 <= sec
    ensures sec * 1000000 + usec == if Micros(deadline) < Micros(now) then 0 else Micros(deadline) - Micros(now)
  {
    sec, usec := deadline.sec, deadline.usec;
    if sec < now.sec || (sec == now.sec && usec < now.usec) {
      sec, usec := 0, 0;
    } else {
      if usec < now.usec {
        sec := sec - 1;
      }
      WrapDifference(usec - now.usec, 1000000);
      usec := (usec - now.usec + 1000000) % 1000000;
      sec := sec - now.sec;
    }
  }
}
