/** The abstract cache that the content store implements: the stored entries, least
    recently used first. Names are sequences of components of type `K`. */
module LruCache {
  import opened Names

  datatype Entry<K, V> = Entry(name: seq<K>, packet: V)

  type Cache<K, V> = seq<Entry<K, V>>

  ghost predicate Distinct<K, V>(c: Cache<K, V>) {
    forall i, j :: 0 <= i < j < |c| ==> c[i].name != c[j].name
  }

  ghost predicate Stored<K, V>(c: Cache<K, V>, n: seq<K>) {
    exists i :: 0 <= i < |c| && c[i].name == n
  }

  /** A capacity of 0 means unlimited. */
  ghost predicate Full<K, V>(c: Cache<K, V>, capacity: nat) {
    capacity != 0 && |c| >= capacity
  }

  ghost function AfterAdd<K, V>(c: Cache<K, V>, capacity: nat, e: Entry<K, V>): Cache<K, V> {
    if Stored(c, e.name) then c
    else if Full(c, capacity) then c[1..] + [e]
    else c + [e]
  }

  ghost function AfterUse<K, V>(c: Cache<K, V>, i: nat): Cache<K, V>
    requires i < |c|
  {
    MoveToEnd(c, i)
  }

  ghost predicate Extended<K, V>(c: Cache<K, V>, key: seq<K>) {
    exists i :: 0 <= i < |c| && key <= c[i].name
  }

  ghost predicate HasPrefixOf<K, V>(c: Cache<K, V>, key: seq<K>) {
    exists i :: 0 <= i < |c| && c[i].name <= key
  }

  /** Entry `i` has the longest stored name that is a prefix of `key`. */
  ghost predicate LongestPrefixOf<K, V>(c: Cache<K, V>, key: seq<K>, i: nat) {
    && i < |c| && c[i].name <= key
    && forall j :: 0 <= j < |c| && c[j].name <= key ==> |c[j].name| <= |c[i].name|
  }

  /** Entry `i` may answer a lookup of `key`. */
  ghost predicate MayAnswer<K, V>(c: Cache<K, V>, key: seq<K>, i: nat) {
    && i < |c|
    && Extended(c, key)
    && if HasPrefixOf(c, key) then LongestPrefixOf(c, key, i) else key < c[i].name
  }

  /** The answer extends the key exactly when the key itself is stored or no shorter stored
      name is a prefix of it; otherwise it is shorter than what was asked for. */
  lemma AnswerExtendsIff<K, V>(c: Cache<K, V>, key: seq<K>, i: nat)
    requires MayAnswer(c, key, i)
    ensures key <= c[i].name <==> Stored(c, key) || !HasPrefixOf(c, key)
  {
    if Stored(c, key) {
      var j :| 0 <= j < |c| && c[j].name == key;
      assert key <= c[j].name;
    } else if HasPrefixOf(c, key) {
      assert c[i].name <= key;
    }
  }
}
