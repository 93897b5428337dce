/** The table of packets waiting for retransmission, in the order of its deadline index
    (network/mac/packet-storage.h, network/mac/packet-storage.cc). */
module PacketStorage {
  import opened Names

  type Key = seq<byte>

  /** A point in time as seconds and microseconds. */
  datatype Timer = Timer(sec: nat, usec: nat)

  predicate Normal(t: Timer) {
    t.usec < 1000000
  }

  function Micros(t: Timer): nat {
    t.sec * 1000000 + t.usec
  }

  /** The order of the deadline index. */
  predicate Before(a: Timer, b: Timer) {
    a.sec < b.sec || (a.sec == b.sec && a.usec < b.usec)
  }

  /** Normalised pairs are ordered as points in time. */
  lemma OrderIsTotalMicros(a: Timer, b: Timer)
    requires Normal(a) && Normal(b)
    ensures Before(a, b) <==> Micros(a) < Micros(b)
    ensures a == b <==> Micros(a) == Micros(b)
  {
  }

  /** `id` tells apart packets stored one after the other under one key. */
  datatype Element = Element(
    id: nat, name: Key, components: Name, nonce: nat, data: Packet, retransmission: nat, limit: nat, timer: Timer)

  type Table = seq<Element>

  ghost predicate Ordered(t: Table) {
    forall i, j :: 0 <= i < j < |t| ==> !Before(t[j].timer, t[i].timer)
  }

  ghost predicate Unique(t: Table) {
    forall i, j :: 0 <= i < j < |t| ==>
      t[i].name != t[j].name && t[i].components != t[j].components && t[i].id != t[j].id
  }

  ghost predicate Stored(t: Table, name: Key, components: Name) {
    exists x :: x in t && (x.name == name || x.components == components)
  }

  //////////////////// the three indices ////////////////////

  /** Position of the element with the key, or |t|. */
  function FindKey(t: Table, name: Key): (i: nat)
    ensures i <= |t| && (i < |t| ==> t[i].name == name)
    ensures forall j :: 0 <= j < i ==> t[j].name != name
  {
    if t == [] || t[0].name == name then 0 else 1 + FindKey(t[1..], name)
  }

  /** Position of the element with the components, or |t|. */
  function FindComponents(t: Table, components: Name): (i: nat)
    ensures i <= |t| && (i < |t| ==> t[i].components == components)
    ensures forall j :: 0 <= j < i ==> t[j].components != components
  {
    if t == [] || t[0].components == components then 0 else 1 + FindComponents(t[1..], components)
  }

  /** The first position whose deadline is later. */
  function UpperBound(t: Table, w: Timer): (i: nat)
    ensures i <= |t| && (i < |t| ==> Before(w, t[i].timer))
    ensures forall j :: 0 <= j < i ==> !Before(w, t[j].timer)
  {
    if t == [] || Before(w, t[0].timer) then 0 else 1 + UpperBound(t[1..], w)
  }

  function Inserted(t: Table, x: Element): Table {
    InsertAt(t, UpperBound(t, x.timer), x)
  }

  /** Replacing an element: it stays if its neighbours still allow it. */
  function Replaced(t: Table, i: nat, x: Element): Table
    requires i < |t|
  {
    if (i > 0 && Before(x.timer, t[i - 1].timer)) || (i + 1 < |t| && Before(t[i + 1].timer, x.timer)) then
      Inserted(RemoveAt(t, i), x)
    else t[i := x]
  }

  lemma InsertedContents(t: Table, x: Element)
    ensures forall y :: y in Inserted(t, x) <==> y == x || y in t
  {
    var i := UpperBound(t, x.timer);
    var s := Inserted(t, x);
    assert s[i] == x;
    forall j | 0 <= j < |t|
      ensures t[j] in s
    {
      assert s[if j < i then j else j + 1] == t[j];
    }
  }

  lemma InsertKeepsOrdered(t: Table, x: Element)
    requires Ordered(t)
    ensures Ordered(Inserted(t, x))
  {
  }

  lemma InsertKeepsUnique(t: Table, x: Element)
    requires Unique(t) && !Stored(t, x.name, x.components) && forall y :: y in t ==> y.id != x.id
    ensures Unique(Inserted(t, x))
  {
    forall j | 0 <= j < |t|
      ensures t[j].name != x.name && t[j].components != x.components && t[j].id != x.id
    {
      assert t[j] in t;
    }
  }

  lemma InsertKeepsIndices(t: Table, x: Element)
    requires Ordered(t) && Unique(t) && !Stored(t, x.name, x.components) && forall y :: y in t ==> y.id != x.id
    ensures Ordered(Inserted(t, x)) && Unique(Inserted(t, x))
    ensures forall y :: y in Inserted(t, x) <==> y == x || y in t
  {
    InsertKeepsOrdered(t, x);
    InsertKeepsUnique(t, x);
    InsertedContents(t, x);
  }

  lemma RemoveKeepsIndices(t: Table, i: nat)
    requires Ordered(t) && Unique(t) && i < |t|
    ensures Ordered(RemoveAt(t, i)) && Unique(RemoveAt(t, i))
    ensures forall y :: y in RemoveAt(t, i) <==> y in t && y.id != t[i].id
    ensures !Stored(RemoveAt(t, i), t[i].name, t[i].components)
  {
    var s := RemoveAt(t, i);
    forall j | 0 <= j < |t| && j != i
      ensures t[j] in s
    {
      assert s[if j < i then j else j - 1] == t[j];
    }
  }

  lemma ReplaceKeepsIndices(t: Table, i: nat, x: Element)
    requires Ordered(t) && Unique(t) && i < |t|
    requires x.id == t[i].id && x.name == t[i].name && x.components == t[i].components
    ensures Ordered(Replaced(t, i, x)) && Unique(Replaced(t, i, x))
    ensures forall y :: y in Replaced(t, i, x) <==> y == x || (y in t && y.id != x.id)
  {
    if (i > 0 && Before(x.timer, t[i - 1].timer)) || (i + 1 < |t| && Before(t[i + 1].timer, x.timer)) {
      RemoveKeepsIndices(t, i);
      InsertKeepsIndices(RemoveAt(t, i), x);
    } else {
      var s := Replaced(t, i, x);
      assert s[i] == x;
      assert forall j :: 0 <= j < |t| && j != i ==> s[j] == t[j];
    }
  }

  //////////////////// deleting by key and by prefix ////////////////////

  function WithoutKey(t: Table, key: Key): Table {
    var i := FindKey(t, key);
    if i < |t| then RemoveAt(t, i) else t
  }

  lemma WithoutKeyContents(t: Table, key: Key)
    requires Ordered(t) && Unique(t)
    ensures Ordered(WithoutKey(t, key)) && Unique(WithoutKey(t, key))
    ensures forall x :: x in WithoutKey(t, key) <==> x in t && x.name != key
  {
    var i := FindKey(t, key);
    if i < |t| {
      RemoveKeepsIndices(t, i);
    }
  }

  /** What looking up every prefix of `name` of fewer than `count` components finds, longest
      first. */
  function Matches(t: Table, name: Name, count: nat): seq<Element>
    requires count <= |name| + 1
  {
    if count == 0 then []
    else
      var i := FindComponents(t, name[..count - 1]);
      (if i < |t| then [t[i]] else []) + Matches(t, name, count - 1)
  }

  /** The search finds exactly the packets whose name is a prefix. */
  lemma {:induction false} MatchesArePrefixes(t: Table, name: Name, count: nat)
    requires count <= |name| + 1
    requires Unique(t)
    ensures forall x :: x in Matches(t, name, count) <==> x in t && x.components <= name && |x.components| < count
  {
    if count > 0 {
      MatchesArePrefixes(t, name, count - 1);
      var p := name[..count - 1];
      var i := FindComponents(t, p);
      forall x | x in t && x.components == p
        ensures i < |t| && x == t[i]
      {
      }
      assert forall x: Element :: x.components <= name && |x.components| == count - 1 ==> x.components == p;
    }
  }

  /** Deletes the found packets one after the other, by key. */
  function WithoutAll(t: Table, found: seq<Element>): Table {
    if found == [] then t else WithoutKey(WithoutAll(t, found[..|found| - 1]), found[|found| - 1].name)
  }

  lemma {:induction false} WithoutAllContents(t: Table, found: seq<Element>)
    requires Ordered(t) && Unique(t) && forall x :: x in found ==> x in t
    ensures Ordered(WithoutAll(t, found)) && Unique(WithoutAll(t, found))
    ensures forall x :: x in WithoutAll(t, found) <==> x in t && x !in found
  {
    if found != [] {
      var before, last := found[..|found| - 1], found[|found| - 1];
      WithoutAllContents(t, before);
      WithoutKeyContents(WithoutAll(t, before), last.name);
      assert forall x :: x in t && x.name == last.name ==> x == last;
    }
  }

  function Purged(t: Table, name: Name): Table {
    WithoutAll(t, Matches(t, name, |name| + 1))
  }

  /** Purging drops exactly the packets whose name is a prefix of, or equal to, `name`. */
  lemma PurgedContents(t: Table, name: Name)
    requires Ordered(t) && Unique(t)
    ensures Ordered(Purged(t, name)) && Unique(Purged(t, name))
    ensures forall x :: x in Purged(t, name) <==> x in t && !(x.components <= name)
  {
    MatchesArePrefixes(t, name, |name| + 1);
    WithoutAllContents(t, Matches(t, name, |name| + 1));
  }

  //////////////////// the storage ////////////////////

  class Storage {
    var table: Table
    var nextId: nat

    ghost predicate Valid()
      reads this
    {
      && Ordered(table) && Unique(table)
      && forall x :: x in table ==> x.id < nextId
    }

    constructor ()
      ensures Valid() && table == [] && nextId == 0
    {
      table, nextId := [], 0;
    }

    /** Stores a packet unless its key or its components are already in the table. */
    method InsertPkt(data: Packet, limit: nat, name: Key, components: Name, nonce: nat, timer: Timer) returns (ok: bool)
      requires Valid()
      modifies this
      ensures Valid() && ok == !Stored(old(table), name, components)
      ensures if ok then
          && nextId == old(nextId) + 1
          && table == Inserted(old(table), Element(old(nextId), name, components, nonce, data, 1, limit, timer))
        else table == old(table) && nextId == old(nextId)
    {
      var i, j := FindKey(table, name), FindComponents(table, components);
      if i < |table| || j < |table| {
        assert i < |table| ==> table[i] in table;
        assert j < |table| ==> table[j] in table;
        return false;
      }
      var x := Element(nextId, name, components, nonce, data, 1, limit, timer);
      InsertKeepsIndices(table, x);
      table := Inserted(table, x);
      nextId := nextId + 1;
      return true;
    }

    method GetFirstDeadline() returns (el: Option<Element>)
      requires Valid()
      ensures el == None <==> table == []
      ensures el != None ==>
        el.value == table[0] && forall x :: x in table ==> !Before(x.timer, el.value.timer)
    {
      if |table| == 0 {
        return None;
      }
      return Some(table[0]);
    }

    method GetPktByKey(key: Key) returns (el: Option<Element>)
      requires Valid()
      ensures el == None <==> forall x :: x in table ==> x.name != key
      ensures el != None ==> el.value in table && el.value.name == key && el.value == table[FindKey(table, key)]
    {
      var i := FindKey(table, key);
      if i == |table| {
        return None;
      }
      return Some(table[i]);
    }

    method DeletePktByKey(key: Key) returns (ok: bool)
      requires Valid()
      modifies this`table
      ensures Valid() && ok == (exists x :: x in old(table) && x.name == key)
      ensures table == WithoutKey(old(table), key)
    {
      WithoutKeyContents(table, key);
      var i := FindKey(table, key);
      if i == |table| {
        return false;
      }
      assert table[i] in table;
      table := RemoveAt(table, i);
      return true;
    }

    /** Deletes the packet with the closest deadline, if it has the key. */
    method DeleteFirstPkt(key: Key) returns (ok: bool)
      requires Valid()
      modifies this`table
      ensures Valid() && ok == (old(table) != [] && old(table)[0].name == key)
      ensures table == if ok then RemoveAt(old(table), 0) else old(table)
    {
      if |table| == 0 || table[0].name != key {
        return false;
      }
      RemoveKeepsIndices(table, 0);
      table := RemoveAt(table, 0);
      return true;
    }

    method IncreaseRetransmissionCounterAndSetNewTimer(key: Key, timer: Timer) returns (ok: bool)
      requires Valid()
      modifies this`table
      ensures Valid() && ok == (FindKey(old(table), key) < |old(table)|)
      ensures ok ==>
        var i := FindKey(old(table), key);
        var x := old(table)[i];
        table == Replaced(old(table), i, x.(retransmission := x.retransmission + 1, timer := timer))
      ensures !ok ==> table == old(table)
    {
      var i := FindKey(table, key);
      if i == |table| {
        return false;
      }
      var x := table[i].(retransmission := table[i].retransmission + 1, timer := timer);
      ReplaceKeepsIndices(table, i, x);
      table := Replaced(table, i, x);
      return true;
    }

    /** Looks every prefix of the name up in the component index, longest first. */
    method SearchByPrefixMatch(name: Name) returns (found: seq<Element>)
      ensures found == Matches(table, name, |name| + 1)
    {
      found := [];
      ghost var all := Matches(table, name, |name| + 1);
      var count := |name| + 1;
      while count > 0
        invariant 0 <= count <= |name| + 1
        invariant all == found + Matches(table, name, count)
      {
        ghost var before, rest := found, Matches(table, name, count - 1);
        var i := FindComponents(table, name[..count - 1]);
        if i < |table| {
          found := found + [table[i]];
          assert all == before + ([table[i]] + rest) == found + rest;
        }
        count := count - 1;
      }
    }
  }
}
