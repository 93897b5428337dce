/** Whole runs of the cache: what a sequence of adds and lookups leaves stored is decided
    by the history of uses alone. */
module LruRuns {
  import opened LruCache

  /** One public call together with its outcome; `Hit` names the entry that answered. */
  datatype Step<K, V> =
    | Added(e: Entry<K, V>)
    | Hit(key: seq<K>, i: nat)
    | Missed(key: seq<K>)

  ghost predicate Possible<K, V>(c: Cache<K, V>, s: Step<K, V>) {
    match s
    case Added(_) => true
    case Hit(key, i) => MayAnswer(c, key, i)
    case Missed(key) => !Extended(c, key)
  }

  ghost function After<K, V>(c: Cache<K, V>, capacity: nat, s: Step<K, V>): Cache<K, V>
    requires Possible(c, s)
  {
    match s
    case Added(e) => AfterAdd(c, capacity, e)
    case Hit(_, i) => AfterUse(c, i)
    case Missed(_) => c
  }

  /** The entries a step uses: a new entry when it is stored, a stored entry when it is hit. */
  ghost function Uses<K, V>(c: Cache<K, V>, s: Step<K, V>): seq<Entry<K, V>>
    requires Possible(c, s)
  {
    match s
    case Added(e) => if Stored(c, e.name) then [] else [e]
    case Hit(_, i) => [c[i]]
    case Missed(_) => []
  }

  /** A run from the empty cache that ends in `c` after the uses in `h`. */
  ghost predicate Run<K(!new), V(!new)>(steps: seq<Step<K, V>>, capacity: nat, c: Cache<K, V>, h: seq<Entry<K, V>>) {
    if steps == [] then c == [] && h == []
    else
      var last := steps[|steps| - 1];
      exists c0, h0 ::
        && Run(steps[..|steps| - 1], capacity, c0, h0)
        && Possible(c0, last)
        && c == After(c0, capacity, last) && h == h0 + Uses(c0, last)
  }

  /** The position in `h` of the last use of `n`, or -1. */
  ghost function LastUse<K, V>(h: seq<Entry<K, V>>, n: seq<K>): (t: int)
    ensures -1 <= t < |h|
    ensures t >= 0 ==> h[t].name == n
    ensures forall u :: t < u < |h| ==> h[u].name != n
  {
    if h == [] then -1
    else if h[|h| - 1].name == n then |h| - 1
    else LastUse(h[..|h| - 1], n)
  }

  /** Each stored entry is the one of its last use, and the order is that of last use. */
  ghost predicate InUseOrder<K, V>(h: seq<Entry<K, V>>, c: Cache<K, V>) {
    && (forall i :: 0 <= i < |c| ==> LastUse(h, c[i].name) >= 0 && h[LastUse(h, c[i].name)] == c[i])
    && (forall i, j :: 0 <= i < j < |c| ==> LastUse(h, c[i].name) < LastUse(h, c[j].name))
  }

  /** A used name that is no longer stored was last used before every stored one. */
  ghost predicate ForgetsOldest<K, V>(h: seq<Entry<K, V>>, c: Cache<K, V>, capacity: nat) {
    forall t :: 0 <= t < |h| && !Stored(c, h[t].name) ==>
      Full(c, capacity) && forall i :: 0 <= i < |c| ==> LastUse(h, h[t].name) < LastUse(h, c[i].name)
  }

  /** The cache is the most recently used entries of `h`, in order of last use. */
  ghost predicate MostRecentlyUsed<K, V>(h: seq<Entry<K, V>>, c: Cache<K, V>, capacity: nat) {
    && (capacity != 0 ==> |c| <= capacity)
    && InUseOrder(h, c)
    && ForgetsOldest(h, c, capacity)
  }

  ghost function Drop<K, V>(c: Cache<K, V>, gone: nat): (r: Cache<K, V>)
    requires gone <= |c|
    ensures |r| == if gone < |c| then |c| - 1 else |c|
    ensures forall k :: 0 <= k < |r| ==> r[k] == c[if k < gone then k else k + 1]
  {
    if gone < |c| then c[..gone] + c[gone + 1..] else c
  }

  lemma LastUseOfAppend<K, V>(h: seq<Entry<K, V>>, e: Entry<K, V>, n: seq<K>)
    ensures LastUse(h + [e], n) == if n == e.name then |h| else LastUse(h, n)
  {
    assert (h + [e])[..|h|] == h;
  }

  /** What a use of `e` does: entry `gone`, if any, leaves and `e` joins the recent end. */
  ghost predicate UseOf<K, V>(c: Cache<K, V>, capacity: nat, e: Entry<K, V>, gone: nat) {
    && gone <= |c|
    && (forall k :: 0 <= k < |c| && k != gone ==> c[k].name != e.name)
    && (if gone < |c| then c[gone] == e || (gone == 0 && Full(c, capacity)) else !Full(c, capacity))
  }

  /** An entry kept by a use has the same last use as before; the new one is the latest. */
  lemma LastUseAfter<K, V>(c: Cache<K, V>, h: seq<Entry<K, V>>, capacity: nat, e: Entry<K, V>, gone: nat, i: nat)
    requires InUseOrder(h, c) && UseOf(c, capacity, e, gone) && i <= |Drop(c, gone)|
    ensures var c', h' := Drop(c, gone) + [e], h + [e];
      LastUse(h', c'[i].name) >= 0 && h'[LastUse(h', c'[i].name)] == c'[i]
    ensures var c', h' := Drop(c, gone) + [e], h + [e];
      if i == |Drop(c, gone)| then c'[i] == e && LastUse(h', e.name) == |h|
      else
        var k := if i < gone then i else i + 1;
        c'[i] == c[k] && LastUse(h', c'[i].name) == LastUse(h, c[k].name) && LastUse(h, c[k].name) >= 0
  {
    var c' := Drop(c, gone) + [e];
    LastUseOfAppend(h, e, c'[i].name);
  }

  lemma UseKeepsOrder<K, V>(c: Cache<K, V>, h: seq<Entry<K, V>>, capacity: nat, e: Entry<K, V>, gone: nat)
    requires InUseOrder(h, c) && UseOf(c, capacity, e, gone)
    ensures InUseOrder(h + [e], Drop(c, gone) + [e])
  {
    var c', h' := Drop(c, gone) + [e], h + [e];
    forall i | 0 <= i < |c'|
      ensures LastUse(h', c'[i].name) >= 0 && h'[LastUse(h', c'[i].name)] == c'[i]
    {
      LastUseAfter(c, h, capacity, e, gone, i);
    }
    forall i, j | 0 <= i < j < |c'|
      ensures LastUse(h', c'[i].name) < LastUse(h', c'[j].name)
    {
      LastUseAfter(c, h, capacity, e, gone, i);
      LastUseAfter(c, h, capacity, e, gone, j);
    }
  }

  /** A name not stored after a use was not stored before it either, or was just evicted. */
  lemma WhyForgotten<K, V>(c: Cache<K, V>, capacity: nat, e: Entry<K, V>, gone: nat, n: seq<K>)
    requires UseOf(c, capacity, e, gone) && !Stored(Drop(c, gone) + [e], n)
    ensures n != e.name
    ensures Stored(c, n) ==> gone == 0 && Full(c, capacity) && c[0].name == n
  {
    var c' := Drop(c, gone) + [e];
    assert c'[|c'| - 1].name == e.name;
    forall k | 0 <= k < |c| && k != gone
      ensures Stored(c', c[k].name)
    {
      assert c'[if k < gone then k else k - 1].name == c[k].name;
    }
  }

  lemma UseForgetsOldest<K, V>(c: Cache<K, V>, h: seq<Entry<K, V>>, capacity: nat, e: Entry<K, V>, gone: nat)
    requires InUseOrder(h, c) && ForgetsOldest(h, c, capacity) && UseOf(c, capacity, e, gone)
    ensures ForgetsOldest(h + [e], Drop(c, gone) + [e], capacity)
  {
    var c', h' := Drop(c, gone) + [e], h + [e];
    forall t | 0 <= t < |h'| && !Stored(c', h'[t].name)
      ensures Full(c', capacity)
      ensures forall i :: 0 <= i < |c'| ==> LastUse(h', h'[t].name) < LastUse(h', c'[i].name)
    {
      WhyForgotten(c, capacity, e, gone, h'[t].name);
      assert h'[t] == h[t];
      LastUseOfAppend(h, e, h[t].name);
      forall i | 0 <= i < |c'|
        ensures LastUse(h', h[t].name) < LastUse(h', c'[i].name)
      {
        LastUseOfAppend(h, e, c'[i].name);
        if i < |c'| - 1 {
          var k := if i < gone then i else i + 1;
          assert c'[i] == c[k];
        }
      }
    }
  }

  lemma UseKeepsMostRecent<K, V>(c: Cache<K, V>, h: seq<Entry<K, V>>, capacity: nat, e: Entry<K, V>, gone: nat)
    requires MostRecentlyUsed(h, c, capacity) && UseOf(c, capacity, e, gone)
    ensures MostRecentlyUsed(h + [e], Drop(c, gone) + [e], capacity)
  {
    UseKeepsOrder(c, h, capacity, e, gone);
    UseForgetsOldest(c, h, capacity, e, gone);
  }

  lemma StepKeepsMostRecent<K(!new), V>(c: Cache<K, V>, h: seq<Entry<K, V>>, capacity: nat, s: Step<K, V>)
    requires MostRecentlyUsed(h, c, capacity) && Possible(c, s)
    ensures MostRecentlyUsed(h + Uses(c, s), After(c, capacity, s), capacity)
  {
    match s
    case Added(e) =>
      if Stored(c, e.name) {
        assert h + [] == h;
      } else {
        UseKeepsMostRecent(c, h, capacity, e, if Full(c, capacity) then 0 else |c|);
        assert Full(c, capacity) ==> c[..0] + c[1..] == c[1..];
      }
    case Hit(_, i) =>
      UseKeepsMostRecent(c, h, capacity, c[i], i);
    case Missed(_) =>
      assert h + [] == h;
  }

  /** Every run: the stored entries are the most recently used ones, in that order. */
  lemma {:induction false} RunsAreLru<K(!new), V(!new)>(steps: seq<Step<K, V>>, capacity: nat,
                                                       c: Cache<K, V>, h: seq<Entry<K, V>>)
    requires Run(steps, capacity, c, h)
    ensures MostRecentlyUsed(h, c, capacity) && Distinct(c)
  {
    if steps != [] {
      var last := steps[|steps| - 1];
      var c0, h0 :|
        && Run(steps[..|steps| - 1], capacity, c0, h0)
        && Possible(c0, last)
        && c == After(c0, capacity, last) && h == h0 + Uses(c0, last);
      RunsAreLru(steps[..|steps| - 1], capacity, c0, h0);
      StepKeepsMostRecent(c0, h0, capacity, last);
    }
  }
}
