/** The faces of a FIB entry, indexed by face, by (status, cost) and by position
    (daemon/ndn-fib.h, daemon/ndn-fib.cc). */
module FaceRanking {
  import opened Names

  /** A face is identified by its address, which also orders the containers of faces. */
  type Face = nat

  datatype Status = Green | Yellow | Red {
    function Code(): nat {
      match this case Green => 1 case Yellow => 2 case Red => 3
    }
  }

  datatype FaceMetric = FaceMetric(face: Face, status: Status, cost: int)

  /** The order of the metric index: status first, then cost. */
  predicate Less(x: FaceMetric, y: FaceMetric) {
    x.status.Code() < y.status.Code() || (x.status == y.status && x.cost < y.cost)
  }

  type Ranking = seq<FaceMetric>

  ghost predicate Ranked(r: Ranking) {
    forall i, j :: 0 <= i < j < |r| ==> !Less(r[j], r[i])
  }

  ghost predicate DistinctFaces(r: Ranking) {
    forall i, j :: 0 <= i < j < |r| ==> r[i].face != r[j].face
  }

  function FacesOf(r: Ranking): (s: set<Face>) {
    set i | 0 <= i < |r| :: r[i].face
  }

  /** Position of the record of `face`, or |r|. */
  function FindFace(r: Ranking, face: Face): (i: nat)
    ensures i <= |r| && (i < |r| ==> r[i].face == face)
    ensures forall j :: 0 <= j < i ==> r[j].face != face
  {
    if r == [] || r[0].face == face then 0 else 1 + FindFace(r[1..], face)
  }

  /** Insertion behind all records that are not worse. */
  function InsertRanked(r: Ranking, x: FaceMetric): (s: Ranking) {
    if r == [] || Less(x, r[0]) then [x] + r else [r[0]] + InsertRanked(r[1..], x)
  }

  /** Modifying a record in the ordered index: it stays if its neighbours still allow it. */
  function ModifyAt(r: Ranking, i: nat, x: FaceMetric): (s: Ranking)
    requires i < |r|
  {
    if (i > 0 && Less(x, r[i - 1])) || (i + 1 < |r| && Less(r[i + 1], x)) then InsertRanked(RemoveAt(r, i), x)
    else r[i := x]
  }

  function AfterStatus(r: Ranking, face: Face, status: Status): (s: Ranking) {
    var i := FindFace(r, face);
    if i == |r| then r else ModifyAt(r, i, r[i].(status := status))
  }

  function AfterCost(r: Ranking, face: Face, cost: int): (s: Ranking) {
    var i := FindFace(r, face);
    if i == |r| then InsertRanked(r, FaceMetric(face, Yellow, cost)) else ModifyAt(r, i, r[i].(cost := cost))
  }

  function AfterRemove(r: Ranking, face: Face): (s: Ranking) {
    var i := FindFace(r, face);
    if i == |r| then r else RemoveAt(r, i)
  }

  lemma {:induction false} InsertKeepsRanked(r: Ranking, x: FaceMetric)
    requires Ranked(r)
    ensures Ranked(InsertRanked(r, x))
    ensures forall y :: y in InsertRanked(r, x) <==> y == x || y in r
  {
    if r != [] && !Less(x, r[0]) {
      assert r == [r[0]] + r[1..];
      InsertKeepsRanked(r[1..], x);
      var s := InsertRanked(r[1..], x);
      forall j | 0 <= j < |s|
        ensures !Less(s[j], r[0])
      {
        assert s[j] in s;
      }
    }
  }

  lemma {:induction false} InsertKeepsDistinct(r: Ranking, x: FaceMetric)
    requires Ranked(r) && DistinctFaces(r) && forall i :: 0 <= i < |r| ==> r[i].face != x.face
    ensures DistinctFaces(InsertRanked(r, x))
  {
    if r != [] && !Less(x, r[0]) {
      InsertKeepsDistinct(r[1..], x);
      InsertKeepsRanked(r[1..], x);
      var s := InsertRanked(r[1..], x);
      forall j | 0 <= j < |s|
        ensures s[j].face != r[0].face
      {
        assert s[j] in s;
      }
    }
  }

  lemma RemoveKeeps(r: Ranking, i: nat)
    requires i < |r| && Ranked(r) && DistinctFaces(r)
    ensures Ranked(RemoveAt(r, i)) && DistinctFaces(RemoveAt(r, i))
    ensures forall y :: y in RemoveAt(r, i) <==> y in r && y.face != r[i].face
  {
    var s := RemoveAt(r, i);
    forall y | y in r && y.face != r[i].face
      ensures y in s
    {
      var k :| 0 <= k < |r| && r[k] == y;
      assert s[if k < i then k else k - 1] == y;
    }
  }

  lemma MoveKeeps(r: Ranking, i: nat, x: FaceMetric)
    requires i < |r| && Ranked(r) && DistinctFaces(r) && x.face == r[i].face
    ensures var s := InsertRanked(RemoveAt(r, i), x);
      && Ranked(s) && DistinctFaces(s)
      && forall y :: y in s <==> y == x || (y in r && y.face != x.face)
  {
    RemoveKeeps(r, i);
    assert forall k :: 0 <= k < |r| - 1 ==> RemoveAt(r, i)[k] in RemoveAt(r, i);
    InsertKeepsRanked(RemoveAt(r, i), x);
    InsertKeepsDistinct(RemoveAt(r, i), x);
  }

  lemma ReplaceKeeps(r: Ranking, i: nat, x: FaceMetric)
    requires i < |r| && Ranked(r) && DistinctFaces(r) && x.face == r[i].face
    requires (i > 0 ==> !Less(x, r[i - 1])) && (i + 1 < |r| ==> !Less(r[i + 1], x))
    ensures var s := r[i := x];
      && Ranked(s) && DistinctFaces(s)
      && forall y :: y in s <==> y == x || (y in r && y.face != x.face)
  {
    var s := r[i := x];
    assert s[i] == x;
    forall y | y in r && y.face != x.face
      ensures y in s
    {
      var k :| 0 <= k < |r| && r[k] == y;
      assert s[k] == y;
    }
  }

  lemma ModifyKeeps(r: Ranking, i: nat, x: FaceMetric)
    requires i < |r| && Ranked(r) && DistinctFaces(r) && x.face == r[i].face
    ensures Ranked(ModifyAt(r, i, x)) && DistinctFaces(ModifyAt(r, i, x))
    ensures forall y :: y in ModifyAt(r, i, x) <==> y == x || (y in r && y.face != x.face)
  {
    if (i > 0 && Less(x, r[i - 1])) || (i + 1 < |r| && Less(r[i + 1], x)) {
      MoveKeeps(r, i, x);
    } else {
      ReplaceKeeps(r, i, x);
    }
  }

  /** The record found is the only one of its face. */
  lemma FoundIsOnly(r: Ranking, face: Face)
    requires DistinctFaces(r)
    ensures var i := FindFace(r, face);
      if i < |r| then r[i] in r && forall x :: x in r && x.face == face ==> x == r[i]
      else forall x :: x in r ==> x.face != face
  {
    var i := FindFace(r, face);
    forall x | x in r && x.face == face
      ensures i < |r| && x == r[i]
    {
      var k :| 0 <= k < |r| && r[k] == x;
    }
  }

  /** After a status update the index is still ranked, and only that record has changed. */
  lemma StatusKeepsRanked(r: Ranking, face: Face, status: Status)
    requires Ranked(r) && DistinctFaces(r)
    ensures Ranked(AfterStatus(r, face, status)) && DistinctFaces(AfterStatus(r, face, status))
    ensures forall y :: y in AfterStatus(r, face, status) <==>
      (y in r && y.face != face) || (exists x :: x in r && x.face == face && y == x.(status := status))
  {
    FoundIsOnly(r, face);
    var i := FindFace(r, face);
    if i < |r| {
      ModifyKeeps(r, i, r[i].(status := status));
    }
  }

  /** A new face starts yellow; a known face keeps its status and takes the new cost. */
  lemma CostKeepsRanked(r: Ranking, face: Face, cost: int)
    requires Ranked(r) && DistinctFaces(r)
    ensures Ranked(AfterCost(r, face, cost)) && DistinctFaces(AfterCost(r, face, cost))
    ensures forall y :: y in AfterCost(r, face, cost) <==>
      (y in r && y.face != face)
      || (exists x :: x in r && x.face == face && y == x.(cost := cost))
      || (y == FaceMetric(face, Yellow, cost) && forall x :: x in r ==> x.face != face)
  {
    FoundIsOnly(r, face);
    var i := FindFace(r, face);
    if i < |r| {
      ModifyKeeps(r, i, r[i].(cost := cost));
    } else {
      InsertKeepsRanked(r, FaceMetric(face, Yellow, cost));
      InsertKeepsDistinct(r, FaceMetric(face, Yellow, cost));
    }
  }

  lemma RemovalKeepsRanked(r: Ranking, face: Face)
    requires Ranked(r) && DistinctFaces(r)
    ensures Ranked(AfterRemove(r, face)) && DistinctFaces(AfterRemove(r, face))
    ensures forall y :: y in AfterRemove(r, face) <==> y in r && y.face != face
  {
    var i := FindFace(r, face);
    if i < |r| {
      RemoveKeeps(r, i);
    }
  }

  /** Better status comes first, and of faces of one status the cheaper one. */
  lemma StatusThenCost(r: Ranking, i: nat, j: nat)
    requires Ranked(r) && i < j < |r|
    ensures r[i].status == r[j].status ==> r[i].cost <= r[j].cost
    ensures (r[j].status == Green ==> r[i].status == Green) && (r[i].status == Red ==> r[j].status == Red)
  {
    assert !Less(r[j], r[i]);
  }

  /** Green faces come first. */
  lemma GreenPrefix(r: Ranking, i: nat, j: nat)
    requires Ranked(r) && i < j < |r| && r[j].status == Green
    ensures r[i].status == Green
  {
    assert !Less(r[j], r[i]);
  }

  /** `x` is a record of `r`; at most `k` records are better and more than `k` are no worse. */
  ghost predicate NthBest(r: Ranking, k: nat, x: FaceMetric) {
    && x in r
    && |set i | 0 <= i < |r| && Less(r[i], x)| <= k
    && |set i | 0 <= i < |r| && !Less(x, r[i])| > k
  }

  ghost function Below(k: nat): (s: set<int>)
    ensures |s| == k && forall i :: i in s <==> 0 <= i < k
  {
    if k == 0 then {} else Below(k - 1) + {k - 1}
  }

  lemma SubsetSize<T>(x: set<T>, y: set<T>)
    requires x <= y
    ensures |x| <= |y|
  {
    assert y == x + (y - x);
  }

  lemma RankIsNthBest(r: Ranking, k: nat)
    requires Ranked(r) && k < |r|
    ensures NthBest(r, k, r[k])
  {
    SubsetSize((set i | 0 <= i < |r| && Less(r[i], r[k])), Below(k));
    SubsetSize(Below(k + 1), (set i | 0 <= i < |r| && !Less(r[k], r[i])));
  }

  /** The face records of one FIB entry; the position index is kept by hand in the order of
      the metric index. */
  class FaceIndex {
    var byMetric: Ranking
    var nth: Ranking

    ghost predicate Valid()
      reads this
    {
      Ranked(byMetric) && DistinctFaces(byMetric) && nth == byMetric
    }

    constructor ()
      ensures Valid() && byMetric == []
    {
      byMetric, nth := [], [];
    }

    method UpdateStatus(face: Face, status: Status)
      requires Valid()
      modifies this
      ensures Valid() && byMetric == AfterStatus(old(byMetric), face, status)
    {
      var i := FindFace(byMetric, face);
      if i == |byMetric| {
        return;
      }
      StatusKeepsRanked(byMetric, face, status);
      byMetric := ModifyAt(byMetric, i, byMetric[i].(status := status));
      nth := byMetric;
    }

    method AddOrUpdateRoutingMetric(face: Face, cost: int)
      requires Valid()
      modifies this
      ensures Valid() && byMetric == AfterCost(old(byMetric), face, cost)
    {
      CostKeepsRanked(byMetric, face, cost);
      var i := FindFace(byMetric, face);
      if i == |byMetric| {
        byMetric := InsertRanked(byMetric, FaceMetric(face, Yellow, cost));
      } else {
        byMetric := ModifyAt(byMetric, i, byMetric[i].(cost := cost));
      }
      nth := byMetric;
    }

    /** Erasing a record does not rearrange the position index. */
    method RemoveFace(face: Face)
      requires Valid()
      modifies this
      ensures Valid() && byMetric == AfterRemove(old(byMetric), face)
    {
      RemovalKeepsRanked(byMetric, face);
      var i := FindFace(byMetric, face);
      if i < |byMetric| {
        byMetric := RemoveAt(byMetric, i);
        nth := RemoveAt(nth, i);
      }
    }

    /** The (skip mod n)th best face; None stands for the no-faces exception. */
    method FindBestCandidate(skip: nat) returns (r: Option<FaceMetric>)
      requires Valid()
      ensures r == None <==> byMetric == []
      ensures r != None ==> NthBest(byMetric, skip % |byMetric|, r.value)
    {
      if |nth| == 0 {
        return None;
      }
      var k := skip % |nth|;
      r := Some(nth[k]);
      RankIsNthBest(byMetric, k);
    }
  }
}
