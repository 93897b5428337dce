/** Names of the V-NDN daemon: a name is a list of components and a component is a
    string of bytes (network/ndn-name-components.h). */
module Names {
  type byte = x: int | 0 <= x < 256
  type Component = seq<byte>
  type Name = seq<Component>
  type Packet = seq<byte>

  datatype Option<+T> = None | Some(value: T)

  ghost predicate NoDup<T>(s: seq<T>) {
    forall i, j :: 0 <= i < j < |s| ==> s[i] != s[j]
  }

  function RemoveAt<T>(s: seq<T>, j: nat): (r: seq<T>)
    requires j < |s|
    ensures |r| == |s| - 1
    ensures forall k :: 0 <= k < |r| ==> r[k] == s[if k < j then k else k + 1]
  {
    s[..j] + s[j + 1..]
  }

  function InsertAt<T>(s: seq<T>, j: nat, x: T): (r: seq<T>)
    requires j <= |s|
    ensures |r| == |s| + 1
    ensures forall k :: 0 <= k < |r| ==> r[k] == if k < j then s[k] else if k == j then x else s[k - 1]
  {
    s[..j] + [x] + s[j..]
  }

  /** `s` with its element `j` moved to the end. */
  function MoveToEnd<T>(s: seq<T>, j: nat): (r: seq<T>)
    requires j < |s|
    ensures |r| == |s|
    ensures forall k :: 0 <= k < |s| ==> r[k] == s[if k < j then k else if k < |s| - 1 then k + 1 else j]
  {
    s[..j] + s[j + 1..] + [s[j]]
  }

  lemma MovedToEnd<T>(s: seq<T>, j: nat)
    requires j < |s|
    ensures forall x :: x in MoveToEnd(s, j) <==> x in s
    ensures NoDup(s) ==> NoDup(MoveToEnd(s, j))
  {
    var r := MoveToEnd(s, j);
    forall x | x in s
      ensures x in r
    {
      var k :| 0 <= k < |s| && s[k] == x;
      assert r[if k < j then k else if k == j then |s| - 1 else k - 1] == x;
    }
  }

  lemma RemovedAt<T>(s: seq<T>, j: nat)
    requires j < |s| && NoDup(s)
    ensures NoDup(RemoveAt(s, j))
    ensures forall x :: x in RemoveAt(s, j) <==> x in s && x != s[j]
  {
    var r := RemoveAt(s, j);
    forall x | x in s && x != s[j]
      ensures x in r
    {
      var k :| 0 <= k < |s| && s[k] == x;
      assert r[if k < j then k else k - 1] == x;
    }
  }
}
