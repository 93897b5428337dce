/** The content store: a trie of name components whose payload nodes are also threaded
    on a recency list (utils/trie.h, utils/trie-with-policy.h, utils/lru-policy.h,
    daemon/cs/content-store-impl.h). */
module ContentStore {
  import opened Names
  import opened LruCache

  class TrieNode<K(==), V> {
    const key: Option<K>
    var payload: Option<Entry<K, V>>
    var children: map<K, TrieNode<K, V>>
    var parent: TrieNode?<K, V>
    ghost const name: seq<K>

    constructor (key: Option<K>, parent: TrieNode?<K, V>, ghost name: seq<K>)
      ensures this.key == key && this.parent == parent && this.name == name
      ensures payload == None && children == map[]
    {
      this.key := key;
      this.parent := parent;
      this.name := name;
      payload := None;
      children := map[];
    }

    /** `this` hangs under `p` by its own key, and links back to it. */
    ghost predicate ChildOf(p: TrieNode<K, V>)
      reads this, p
    {
      && parent == p
      && key.Some? && key.value in p.children && p.children[key.value] == this
      && name == p.name + [key.value]
    }
  }

  class Store<K(==), V(==)> {
    const root: TrieNode<K, V>
    const maxSize: nat
    var recency: seq<TrieNode<K, V>>
    ghost var nodes: set<TrieNode<K, V>>

    /** Parent and child links agree. */
    ghost predicate Linked()
      reads this, nodes
    {
      && root in nodes && root.parent == null && root.name == []
      && (forall x :: x in nodes && x != root ==> x.name != [])
      && (forall x {:trigger x.parent} :: x in nodes && x != root ==>
            x.parent != null && x.parent in nodes && x.ChildOf(x.parent))
      && (forall x, k {:trigger x.children[k]} :: x in nodes && k in x.children ==>
            x.children[k] in nodes && x.children[k].ChildOf(x) && x.children[k].key == Some(k))
    }

    /** No dead branch, except possibly at `spare`. */
    ghost predicate PrunedBut(spare: TrieNode<K, V>)
      reads this, nodes
    {
      forall x :: x in nodes && x != root && x != spare ==> x.payload != None || x.children != map[]
    }

    /** The recency list holds each payload node exactly once, except possibly `spare`. */
    ghost predicate ListedBut(spare: TrieNode?<K, V>)
      reads this, nodes
    {
      && NoDup(recency)
      && (forall x :: x in recency ==> x in nodes && x.payload != None && x != spare)
      && (forall x :: x in nodes && x.payload != None && x != spare ==> x in recency)
      && (forall x :: x in nodes && x.payload != None ==> x.payload.value.name == x.name)
    }

    ghost predicate Valid()
      reads this, nodes
    {
      Linked() && PrunedBut(root) && ListedBut(null)
    }

    constructor (maxSize: nat)
      ensures Valid() && recency == [] && this.maxSize == maxSize
      ensures fresh(nodes)
    {
      var r := new TrieNode<K, V>(None, null, []);
      root := r;
      this.maxSize := maxSize;
      recency := [];
      nodes := {r};
    }

    /** Hangs a new, empty node under `node`. */
    method AddChild(node: TrieNode<K, V>, subkey: K) returns (child: TrieNode<K, V>)
      requires Linked() && PrunedBut(node) && node in nodes && subkey !in node.children
      modifies this`nodes, node`children
      ensures Linked() && PrunedBut(child)
      ensures nodes == old(nodes) + {child} && fresh(child) && child.payload == None
      ensures child.name == node.name + [subkey]
    {
      child := new TrieNode(Some(subkey), node, node.name + [subkey]);
      node.children := node.children[subkey := child];
      nodes := nodes + {child};
      forall x {:trigger x.parent} | x in nodes && x != root
        ensures x.parent != null && x.parent in nodes && x.ChildOf(x.parent)
      {
        assert x != child ==> old(x.ChildOf(x.parent));
      }
      forall x, j {:trigger x.children[j]} | x in nodes && j in x.children
        ensures x.children[j] in nodes && x.children[j].ChildOf(x) && x.children[j].key == Some(j)
      {
        assert x.children[j] != child ==> old(x.children[j].ChildOf(x));
      }
    }

    method TrieInsert(key: seq<K>, entry: Entry<K, V>) returns (node: TrieNode<K, V>, inserted: bool)
      requires Linked() && PrunedBut(root)
      modifies this`nodes, nodes
      ensures Linked() && PrunedBut(root)
      ensures node in nodes && node.name == key && node.payload != None
      ensures inserted <==> !(node in old(nodes) && old(node.payload) != None)
      ensures if inserted then node.payload == Some(entry) else node.payload == old(node.payload)
      ensures old(nodes) <= nodes && fresh(nodes - old(nodes))
      ensures forall x :: x in old(nodes) && x != node ==> x.payload == old(x.payload)
      ensures forall x :: x in nodes - old(nodes) && x != node ==> x.payload == None
    {
      node := root;
      var i := 0;
      while i < |key|
        invariant 0 <= i <= |key|
        invariant Linked() && PrunedBut(node)
        invariant node in nodes && node.name == key[..i]
        invariant old(nodes) <= nodes && fresh(nodes - old(nodes))
        invariant forall x :: x in old(nodes) ==> x.payload == old(x.payload)
        invariant forall x :: x in nodes - old(nodes) ==> x.payload == None
      {
        var subkey := key[i];
        assert key[..i + 1] == key[..i] + [subkey];
        if subkey in node.children {
          assert node.children[subkey].name == node.name + [subkey];
          node := node.children[subkey];
        } else {
          node := AddChild(node, subkey);
        }
        i := i + 1;
      }
      assert key[..|key|] == key;
      inserted := node.payload == None;
      if inserted {
        node.payload := Some(entry);
      }
    }

    /** Two nodes never share a name. */
    lemma {:induction false} UniqueNames(x: TrieNode<K, V>, y: TrieNode<K, V>)
      requires Linked() && x in nodes && y in nodes && x.name == y.name
      ensures x == y
      decreases |x.name|
    {
      if x.name != [] {
        assert x.ChildOf(x.parent) && y.ChildOf(y.parent);
        assert x.parent.name == x.name[..|x.name| - 1] == y.parent.name;
        UniqueNames(x.parent, y.parent);
        assert x.key.value == x.name[|x.name| - 1] == y.key.value;
      }
    }

    ghost function Abs(): (c: Cache<K, V>)
      requires ListedBut(null)
      reads this, nodes
      ensures |c| == |recency|
      ensures forall i :: 0 <= i < |c| ==> c[i] == recency[i].payload.value && c[i].name == recency[i].name
    {
      var s := recency;
      seq(|s|, i requires 0 <= i < |s| && s[i].payload != None reads if 0 <= i < |s| then {s[i]} else {} =>
        s[i].payload.value)
    }

    /** Removes `node` and its dead ancestors while they hold nothing. */
    method Prune(node: TrieNode<K, V>)
      requires Linked() && PrunedBut(node) && node in nodes
      modifies this`nodes, nodes`children
      ensures Linked() && PrunedBut(root)
      ensures nodes <= old(nodes)
      ensures forall x :: x in old(nodes) && x.payload != None ==> x in nodes
      decreases |node.name|
    {
      if node.payload == None && node.children == map[] {
        if node.parent == null {
          return;
        }
        var parent := node.parent;
        assert node.ChildOf(parent);
        Detach(node, parent);
        Prune(parent);
      }
    }

    /** Deletes a node that has no children. */
    method Detach(node: TrieNode<K, V>, parent: TrieNode<K, V>)
      requires Linked() && PrunedBut(node) && node in nodes && node != root
      requires node.parent == parent && node.children == map[]
      modifies this`nodes, parent`children
      ensures Linked() && PrunedBut(parent)
      ensures nodes == old(nodes) - {node} && parent in nodes
    {
      assert node.ChildOf(parent);
      var k := node.key.value;
      parent.children := parent.children - {k};
      nodes := nodes - {node};
      forall x {:trigger x.parent} | x in nodes && x != root
        ensures x.parent != null && x.parent in nodes && x.ChildOf(x.parent)
      {
        assert old(x.ChildOf(x.parent));
      }
      forall x, j {:trigger x.children[j]} | x in nodes && j in x.children
        ensures x.children[j] in nodes && x.children[j].ChildOf(x) && x.children[j].key == Some(j)
      {
        assert old(x.children[j].ChildOf(x));
      }
    }

    /** Takes a node off the list and empties it; it may be left as a dead branch. */
    method Unlist(victim: TrieNode<K, V>, ghost spare: TrieNode?<K, V>)
      requires Linked() && PrunedBut(root) && ListedBut(spare) && victim in recency
      modifies this`recency, victim`payload
      ensures Linked() && PrunedBut(victim) && ListedBut(spare)
      ensures victim in nodes && victim.payload == None
      ensures exists i :: 0 <= i < |old(recency)| && old(recency)[i] == victim && recency == RemoveAt(old(recency), i)
    {
      var i :| 0 <= i < |recency| && recency[i] == victim;
      ghost var before := recency;
      recency := RemoveAt(recency, i);
      RemovedAt(before, i);
      victim.payload := None;
    }

    method EraseNode(victim: TrieNode<K, V>, ghost spare: TrieNode?<K, V>)
      requires Linked() && PrunedBut(root) && ListedBut(spare) && victim in recency
      modifies this`nodes, this`recency, nodes
      ensures Linked() && PrunedBut(root) && ListedBut(spare)
      ensures nodes <= old(nodes)
      ensures forall x :: x in old(nodes) && old(x.payload) != None && x != victim ==> x in nodes
      ensures forall x :: x in nodes && x != victim ==> x.payload == old(x.payload)
      ensures exists i :: 0 <= i < |old(recency)| && old(recency)[i] == victim && recency == RemoveAt(old(recency), i)
    {
      Unlist(victim, spare);
      Prune(victim);
    }

    /** Erases the least recently used node. */
    method Evict(ghost spare: TrieNode?<K, V>)
      requires Linked() && PrunedBut(root) && ListedBut(spare) && recency != []
      modifies this`nodes, this`recency, nodes
      ensures Linked() && PrunedBut(root) && ListedBut(spare)
      ensures nodes <= old(nodes) && recency == old(recency)[1..]
      ensures forall x :: x in old(nodes) && old(x.payload) != None && x != old(recency)[0] ==> x in nodes
      ensures forall x :: x in nodes && x != old(recency)[0] ==> x.payload == old(x.payload)
    {
      ghost var before := recency;
      EraseNode(recency[0], spare);
      assert recency == RemoveAt(before, 0) == before[1..];
    }

    /** Evicts the least recently used node when the list is full, then lists `node`. */
    method PolicyInsert(node: TrieNode<K, V>)
      requires Linked() && PrunedBut(root) && ListedBut(node)
      requires node in nodes && node.payload != None
      modifies this`nodes, this`recency, nodes
      ensures Valid() && nodes <= old(nodes) && node in nodes
      ensures forall x :: x in nodes && x != node && x.payload != None ==> x.payload == old(x.payload)
      ensures node.payload == old(node.payload)
      ensures recency ==
        (if maxSize != 0 && |old(recency)| >= maxSize then old(recency)[1..] else old(recency)) + [node]
      ensures forall x :: x in recency ==> x in old(nodes) && x.payload == old(x.payload)
    {
      if maxSize != 0 && |recency| >= maxSize {
        Evict(node);
      }
      recency := recency + [node];
    }

    method Add(name: seq<K>, packet: V) returns (added: bool)
      requires Valid()
      modifies this`nodes, this`recency, nodes
      ensures Valid() && fresh(nodes - old(nodes))
      ensures added <==> !Stored(old(Abs()), name)
      ensures Abs() == AfterAdd(old(Abs()), maxSize, Entry(name, packet))
    {
      ghost var before, listed := Abs(), recency;
      var node, inserted := TrieInsert(name, Entry(name, packet));
      assert inserted <==> !Stored(before, name) by {
        forall i | 0 <= i < |listed| && listed[i].name == name
          ensures listed[i] == node
        {
          UniqueNames(listed[i], node);
        }
        if !inserted {
          var i :| 0 <= i < |listed| && listed[i] == node;
          assert before[i].name == name;
        }
      }
      added := inserted;
      if inserted {
        PolicyInsert(node);
        assert |Abs()| == |AfterAdd(before, maxSize, Entry(name, packet))|;
      }
    }

    /** Walks down along `key`: the deepest payload node met, whether the whole key was
        matched, and the node where the walk stopped. */
    method Find(key: seq<K>) returns (found: TrieNode?<K, V>, reachLast: bool, last: TrieNode<K, V>)
      requires Linked()
      ensures last in nodes && last.name <= key && (reachLast <==> last.name == key)
      ensures !reachLast ==> key[|last.name|] !in last.children
      ensures found != null ==> found in nodes && found.payload != None && found.name <= key
      ensures forall x :: x in nodes && x.payload != None && x.name <= key ==>
        found != null && |x.name| <= |found.name|
    {
      last := root;
      found := if root.payload != None then root else null;
      reachLast := true;
      var i := 0;
      while i < |key|
        invariant 0 <= i <= |key| && last in nodes && last.name == key[..i]
        invariant found != null ==> found in nodes && found.payload != None && found.name <= last.name
        invariant forall x :: x in nodes && x.payload != None && x.name <= last.name ==>
          found != null && |x.name| <= |found.name|
      {
        if key[i] in last.children {
          assert last.children[key[i]].name == key[..i] + [key[i]] == key[..i + 1];
          ghost var before := last;
          last := last.children[key[i]];
          forall x | x in nodes && x.payload != None && x.name <= last.name
            ensures x == last || x.name <= before.name
          {
            if x.name == last.name { UniqueNames(x, last); }
          }
          if last.payload != None {
            found := last;
          }
        } else {
          reachLast := false;
          forall x | x in nodes && x.name <= key
            ensures x.name <= last.name
          {
            if |x.name| > |last.name| { OnPath(x, last); }
          }
          break;
        }
        i := i + 1;
      }
    }

    /** The way down from `top` to a node below it goes through a child of `top`. */
    lemma {:induction false} OnPath(x: TrieNode<K, V>, top: TrieNode<K, V>)
      requires Linked() && x in nodes && top in nodes && top.name < x.name
      ensures x.name[|top.name|] in top.children
      decreases |x.name|
    {
      assert x.ChildOf(x.parent);
      if |x.parent.name| == |top.name| {
        UniqueNames(x.parent, top);
      } else {
        OnPath(x.parent, top);
      }
    }

    ghost predicate Deep(bound: nat)
      reads this, nodes
    {
      forall x :: x in nodes ==> |x.name| <= bound
    }

    /** Some payload node at or below `node`, in the order the children are enumerated. */
    method FindAny(node: TrieNode<K, V>, ghost bound: nat) returns (r: TrieNode?<K, V>)
      requires Linked() && node in nodes && Deep(bound)
      ensures r != null ==> r in nodes && r.payload != None && node.name <= r.name
      ensures r == null ==> forall x :: x in nodes && node.name <= x.name ==> x.payload == None
      decreases bound - |node.name|
    {
      if node.payload != None {
        return node;
      }
      var left := node.children.Keys;
      forall x | x in nodes && node.name < x.name
        ensures x.name[|node.name|] in left
      {
        OnPath(x, node);
      }
      while left != {}
        invariant left <= node.children.Keys
        invariant forall x :: x in nodes && node.name < x.name && x.name[|node.name|] !in left ==> x.payload == None
      {
        var k :| k in left;
        assert node.children[k].name == node.name + [k];
        r := FindAny(node.children[k], bound);
        if r != null {
          return;
        }
        left := left - {k};
      }
      forall x | x in nodes && node.name == x.name
        ensures x == node
      {
        UniqueNames(x, node);
      }
      return null;
    }

    lemma {:induction false} DepthBound(s: set<TrieNode<K, V>>) returns (bound: nat)
      ensures forall x :: x in s ==> |x.name| <= bound
    {
      if s == {} {
        bound := 0;
      } else {
        var x :| x in s;
        var rest := DepthBound(s - {x});
        bound := if |x.name| <= rest then rest else |x.name|;
      }
    }

    /** Below every node but an empty root there is a payload: there are no dead branches. */
    lemma {:induction false} StoredBelow(x: TrieNode<K, V>, bound: nat) returns (y: TrieNode<K, V>)
      requires Linked() && PrunedBut(root) && Deep(bound)
      requires x in nodes && (x == root ==> x.payload != None || x.children != map[])
      ensures y in nodes && y.payload != None && x.name <= y.name
      decreases bound - |x.name|
    {
      if x.payload != None {
        y := x;
      } else {
        var k :| k in x.children;
        assert x.children[k].name == x.name + [k];
        y := StoredBelow(x.children[k], bound);
      }
    }

    lemma {:induction false} NodeAt(y: TrieNode<K, V>, n: seq<K>) returns (x: TrieNode<K, V>)
      requires Linked() && y in nodes && n <= y.name
      ensures x in nodes && x.name == n
      decreases |y.name|
    {
      if y.name == n {
        x := y;
      } else {
        assert y.ChildOf(y.parent);
        x := NodeAt(y.parent, n);
      }
    }

    /** The trie holds exactly the root and the prefixes of the stored names. */
    lemma NodesAreStoredPrefixes(n: seq<K>)
      requires Valid()
      ensures (exists x :: x in nodes && x.name == n) <==> n == [] || Extended(Abs(), n)
    {
      if n != [] && exists x :: x in nodes && x.name == n {
        var x :| x in nodes && x.name == n;
        var bound := DepthBound(nodes);
        var y := StoredBelow(x, bound);
        var i :| 0 <= i < |recency| && recency[i] == y;
        assert n <= Abs()[i].name;
      }
      if Extended(Abs(), n) {
        var i :| 0 <= i < |recency| && n <= Abs()[i].name;
        var x := NodeAt(recency[i], n);
      }
    }

    /** Reordering the list keeps the store valid. */
    twostate lemma Reordered()
      requires old(Valid()) && nodes == old(nodes) && unchanged(nodes)
      requires NoDup(recency) && forall x :: x in recency <==> x in old(recency)
      ensures Valid()
    {
      assert Linked() && PrunedBut(root);
    }

    twostate lemma MovedUp(j: nat)
      requires old(Valid()) && nodes == old(nodes) && unchanged(nodes) && ListedBut(null)
      requires j < |old(recency)| && recency == MoveToEnd(old(recency), j)
      ensures Abs() == AfterUse(old(Abs()), j)
    {
      var c, d := old(Abs()), Abs();
      forall k | 0 <= k < |c|
        ensures d[k] == AfterUse(c, j)[k]
      {
        assert recency[k] == old(recency)[if k < j then k else if k < |c| - 1 then k + 1 else j];
      }
    }

    /** Moves `node` to the most recent end. */
    method PolicyLookup(node: TrieNode<K, V>) returns (ghost i: nat)
      requires Valid() && node in recency
      modifies this`recency
      ensures Valid() && i < |old(recency)| && old(recency)[i] == node
      ensures Abs() == AfterUse(old(Abs()), i)
    {
      var j :| 0 <= j < |recency| && recency[j] == node;
      MovedToEnd(recency, j);
      recency := MoveToEnd(recency, j);
      Reordered();
      MovedUp(j);
      i := j;
    }

    lemma Missed(key: seq<K>, last: TrieNode<K, V>)
      requires Valid() && last in nodes && last.name < key && key[|last.name|] !in last.children
      ensures !Extended(Abs(), key)
    {
      forall j | 0 <= j < |recency|
        ensures !(key <= recency[j].name)
      {
        if key <= recency[j].name { OnPath(recency[j], last); }
      }
    }

    /** A node whose name is the whole key proves that the key has an extension in store. */
    lemma Reached(key: seq<K>, last: TrieNode<K, V>)
      requires Valid() && last in nodes && last.name == key && (key != [] || recency != [])
      ensures Extended(Abs(), key)
      ensures exists x :: x in nodes && x.payload != None && key <= x.name
    {
      if key == [] {
        assert key <= recency[0].name && key <= Abs()[0].name;
      } else {
        NodesAreStoredPrefixes(key);
        var i :| 0 <= i < |recency| && key <= Abs()[i].name;
        assert recency[i].payload != None;
      }
    }

    lemma Answered(key: seq<K>, found: TrieNode<K, V>, i: nat)
      requires Valid() && Extended(Abs(), key) && i < |recency| && recency[i] == found
      requires found.name <= key || key <= found.name
      requires forall x :: x in nodes && x.payload != None && x.name <= key ==>
        found.name <= key && |x.name| <= |found.name|
      ensures MayAnswer(Abs(), key, i)
    {
      assert forall j :: 0 <= j < |recency| ==> recency[j] in nodes && recency[j].payload != None;
      if found.name <= key {
        assert Abs()[i].name <= key;
      }
    }

    /** The node that answers `key`, once the walk down has matched all of it. */
    method ChooseHit(key: seq<K>, found: TrieNode?<K, V>, last: TrieNode<K, V>) returns (hit: TrieNode<K, V>)
      requires Valid() && last in nodes && last.name == key && (key != [] || recency != [])
      requires found != null ==> found in nodes && found.payload != None && found.name <= key
      requires forall x :: x in nodes && x.payload != None && x.name <= key ==>
        found != null && |x.name| <= |found.name|
      ensures hit in recency
      ensures forall i :: 0 <= i < |recency| && recency[i] == hit ==> MayAnswer(Abs(), key, i)
    {
      Reached(key, last);
      if found != null {
        hit := found;
      } else {
        ghost var bound := DepthBound(nodes);
        hit := FindAny(last, bound);
      }
      forall i | 0 <= i < |recency| && recency[i] == hit
        ensures MayAnswer(Abs(), key, i)
      {
        Answered(key, hit, i);
      }
    }

    method DeepestPrefixMatch(key: seq<K>) returns (r: TrieNode?<K, V>, ghost i: nat)
      requires Valid() && (key != [] || recency != [])
      modifies this`recency
      ensures Valid()
      ensures r == null ==> !Extended(old(Abs()), key) && recency == old(recency)
      ensures r != null ==>
        && MayAnswer(old(Abs()), key, i) && r == old(recency)[i]
        && Abs() == AfterUse(old(Abs()), i)
    {
      ghost var before := Abs();
      var found, reachLast, last := Find(key);
      i := 0;
      if !reachLast {
        Missed(key, last);
        return null, i;
      }
      r := ChooseHit(key, found, last);
      assert Abs() == before;
      i := PolicyLookup(r);
    }

    /** The public cache lookup. */
    method Lookup(key: seq<K>) returns (r: Option<Entry<K, V>>, ghost i: nat)
      requires Valid() && (key != [] || recency != [])
      modifies this`recency
      ensures Valid()
      ensures r == None ==> !Extended(old(Abs()), key) && Abs() == old(Abs())
      ensures r != None ==>
        && MayAnswer(old(Abs()), key, i) && r.value == old(Abs())[i]
        && Abs() == AfterUse(old(Abs()), i)
    {
      var node;
      node, i := DeepestPrefixMatch(key);
      if node != null {
        r := node.payload;
      } else {
        r := None;
      }
    }

    method LongestPrefixMatch(key: seq<K>) returns (r: TrieNode?<K, V>, ghost i: nat)
      requires Valid()
      modifies this`recency
      ensures Valid()
      ensures r == null ==> !HasPrefixOf(old(Abs()), key) && Abs() == old(Abs())
      ensures r != null ==>
        && LongestPrefixOf(old(Abs()), key, i) && r == old(recency)[i]
        && Abs() == AfterUse(old(Abs()), i)
    {
      ghost var before := Abs();
      var found, reachLast, last := Find(key);
      i := 0;
      assert Abs() == before;
      if found != null {
        i := PolicyLookup(found);
        assert before[i].name == found.name;
      }
      r := found;
    }

    method Erase(key: seq<K>)
      requires Valid()
      modifies this`nodes, this`recency, nodes
      ensures Valid() && nodes <= old(nodes)
      ensures !Stored(Abs(), key)
      ensures forall e :: e in Abs() <==> e in old(Abs()) && e.name != key
      ensures !Stored(old(Abs()), key) ==> Abs() == old(Abs())
    {
      ghost var before, listed := Abs(), recency;
      var found, reachLast, last := Find(key);
      forall i | 0 <= i < |listed| && listed[i].name == key
        ensures reachLast && listed[i] == last
      {
        if reachLast { UniqueNames(listed[i], last); } else { OnPath(listed[i], last); }
      }
      if !reachLast || last.payload == None {
        return;
      }
      EraseNode(last, null);
    }
  }
}
