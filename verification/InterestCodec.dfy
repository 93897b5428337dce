/** Writing an interest into a buffer and predicting its size (helper/ndn-encoding-helper.cc). */
module InterestCodec {
  import opened Names
  import opened PacketBuffer
  import opened BlockHeader
  import opened CcnbTree
  import opened Decimal
  import opened Timestamp
  import opened Interest

  lemma PrintSingle(t: Block)
    ensures PrintAll([t]) == Print(t)
  {
    assert [t][1..] == [];
  }

  method AppendCloser(start: Buffer) returns (written: nat)
    requires start.Valid() && start.size + 1 <= BUFLEN
    modifies start, start.data
    ensures start.Valid() && start.Contents() == old(start.Contents()) + [CCN_CLOSE] && written == 1
  {
    start.WriteU8(CCN_CLOSE);
    written := 1;
  }

  /** What a blob under its tag prints; an empty one prints the tag alone. */
  lemma PrintTaggedBlob(dtag: u32, data: seq<byte>)
    ensures Print(TaggedBlob(dtag, data)) ==
      HeaderBytes(dtag, CCN_DTAG) + (if |data| > 0 then HeaderBytes(|data|, CCN_BLOB) + data else []) + [CCN_CLOSE]
  {
    PrintSingle(Blob(data));
  }

  method AppendBlob(start: Buffer, data: seq<byte>) returns (written: nat)
    requires start.Valid() && 0 < |data|
    requires start.size + |HeaderBytes(|data|, CCN_BLOB) + data| <= BUFLEN
    modifies start, start.data
    ensures start.Valid() && start.Contents() == old(start.Contents()) + (HeaderBytes(|data|, CCN_BLOB) + data)
    ensures written == |HeaderBytes(|data|, CCN_BLOB) + data|
  {
    written := AppendBlockHeader(start, |data|, CCN_BLOB);
    start.Write(data);
    written := written + |data|;
  }

  method AppendTaggedBlob(start: Buffer, dtag: u32, data: seq<byte>) returns (written: nat)
    requires start.Valid() && start.size + |Print(TaggedBlob(dtag, data))| <= BUFLEN
    modifies start, start.data
    ensures start.Valid() && start.Contents() == old(start.Contents()) + Print(TaggedBlob(dtag, data))
    ensures written == |Print(TaggedBlob(dtag, data))|
  {
    PrintTaggedBlob(dtag, data);
    written := AppendBlockHeader(start, dtag, CCN_DTAG);
    if |data| > 0 {
      var n := AppendBlob(start, data);
      written := written + n;
    }
    var n := AppendCloser(start);
    written := written + n;
  }

  method EstimateTaggedBlob(dtag: u32, size: nat) returns (n: nat)
    ensures forall data: seq<byte> :: |data| == size ==> n == |Print(TaggedBlob(dtag, data))|
  {
    n := EstimateBlockHeader(dtag);
    if size > 0 {
      var m := EstimateBlockHeader(size);
      n := n + m + size + 1;
    } else {
      n := n + 1;
    }
    forall data: seq<byte> | |data| == size
      ensures n == |Print(TaggedBlob(dtag, data))|
    {
      PrintSingle(Blob(data));
    }
  }

  lemma NextComponent(name: Name, k: nat)
    requires k < |name|
    ensures PrintAll(ComponentTrees(name[k..])) ==
      Print(TaggedBlob(DTAG_COMPONENT, name[k])) + PrintAll(ComponentTrees(name[k + 1..]))
  {
    var ts := ComponentTrees(name[k..]);
    assert name[k..][1..] == name[k + 1..];
    assert ts[0] == TaggedBlob(DTAG_COMPONENT, name[k]) && ts[1..] == ComponentTrees(name[k + 1..]);
  }

  lemma AdvanceComponent(goal: seq<byte>, before: seq<byte>, name: Name, k: nat)
    requires k < |name| && goal == before + PrintAll(ComponentTrees(name[k..]))
    ensures |before + Print(TaggedBlob(DTAG_COMPONENT, name[k]))| <= |goal|
    ensures goal == before + Print(TaggedBlob(DTAG_COMPONENT, name[k])) + PrintAll(ComponentTrees(name[k + 1..]))
  {
    NextComponent(name, k);
  }

  method AppendNameComponents(start: Buffer, name: Name) returns (written: nat)
    requires start.Valid() && start.size + |PrintAll(ComponentTrees(name))| <= BUFLEN
    modifies start, start.data
    ensures start.Valid() && start.Contents() == old(start.Contents()) + PrintAll(ComponentTrees(name))
    ensures written == |PrintAll(ComponentTrees(name))|
  {
    ghost var goal := start.Contents() + PrintAll(ComponentTrees(name));
    written := 0;
    assert name[0..] == name;
    for k := 0 to |name|
      invariant start.Valid() && goal == start.Contents() + PrintAll(ComponentTrees(name[k..]))
      invariant start.size == old(start.size) + written
    {
      AdvanceComponent(goal, start.Contents(), name, k);
      var n := AppendTaggedBlob(start, DTAG_COMPONENT, name[k]);
      written := written + n;
    }
    assert name[|name|..] == [];
  }

  method EstimateNameComponents(name: Name) returns (n: nat)
    ensures n == |PrintAll(ComponentTrees(name))|
  {
    n := 0;
    assert name[0..] == name;
    for k := 0 to |name|
      invariant n + |PrintAll(ComponentTrees(name[k..]))| == |PrintAll(ComponentTrees(name))|
    {
      NextComponent(name, k);
      var m := EstimateTaggedBlob(DTAG_COMPONENT, |name[k]|);
      n := n + m;
    }
  }

  //////////////////// interest ////////////////////

  /** What is still to be written once the first `k` fields are. */
  ghost function Rest(i: Interest, k: nat): (s: seq<byte>)
    requires i.name.Some? && i.lifetime >= 0 && k <= 10
  {
    PrintAll(FieldsFrom(i, k)) + [CCN_CLOSE]
  }

  lemma RestStep(i: Interest, k: nat)
    requires i.name.Some? && i.lifetime >= 0 && k < 10
    ensures Rest(i, k) == PrintAll(Field(i, k)) + Rest(i, k + 1)
    ensures |Field(i, k)| == 1 ==> PrintAll(Field(i, k)) == Print(Field(i, k)[0])
  {
    PrintAllConcat(Field(i, k), FieldsFrom(i, k + 1));
    if |Field(i, k)| == 1 {
      PrintSingle(Field(i, k)[0]);
      assert Field(i, k) == [Field(i, k)[0]];
    }
  }

  ghost predicate Pending(start: Buffer, goal: seq<byte>, i: Interest, k: nat)
    reads start, start.data
  {
    && i.name.Some? && i.lifetime >= 0 && k <= 10
    && start.Valid() && |goal| <= BUFLEN && goal == start.Contents() + Rest(i, k)
  }

  lemma Advance(goal: seq<byte>, before: seq<byte>, after: seq<byte>, i: Interest, k: nat)
    requires i.name.Some? && i.lifetime >= 0 && k < 10
    requires goal == before + Rest(i, k) && after == before + PrintAll(Field(i, k))
    ensures goal == after + Rest(i, k + 1)
  {
    RestStep(i, k);
  }

  lemma PrintDtag(dtag: u32, nested: seq<Block>, before: seq<byte>, body: seq<byte>)
    requires PrintAll(nested) == body
    ensures before + HeaderBytes(dtag, CCN_DTAG) + body + [CCN_CLOSE] == before + Print(Dtag(dtag, [], nested))
  {
  }

  method AppendNumberField(start: Buffer, dtag: u32, number: u32) returns (written: nat)
    requires start.Valid() && start.size + |Print(NumberField(dtag, number))| <= BUFLEN
    modifies start, start.data
    ensures start.Valid() && start.Contents() == old(start.Contents()) + Print(NumberField(dtag, number))
    ensures written == |Print(NumberField(dtag, number))|
  {
    ghost var before, body := start.Contents(), Udata(Digits(number));
    PrintSingle(body);
    PrintDtag(dtag, [body], before, Print(body));
    written := AppendBlockHeader(start, dtag, CCN_DTAG);
    var n := AppendNumber(start, number);
    var c := AppendCloser(start);
    written := written + n + c;
  }

  method AppendNameField(start: Buffer, dtag: u32, name: Name) returns (written: nat)
    requires start.Valid() && start.size + |Print(Dtag(dtag, [], ComponentTrees(name)))| <= BUFLEN
    modifies start, start.data
    ensures start.Valid() && start.Contents() == old(start.Contents()) + Print(Dtag(dtag, [], ComponentTrees(name)))
    ensures written == |Print(Dtag(dtag, [], ComponentTrees(name)))|
  {
    ghost var before, nested := start.Contents(), ComponentTrees(name);
    PrintDtag(dtag, nested, before, PrintAll(nested));
    written := AppendBlockHeader(start, dtag, CCN_DTAG);
    var n := AppendNameComponents(start, name);
    var c := AppendCloser(start);
    written := written + n + c;
  }

  method AppendLifetimeField(start: Buffer, lifetime: nat) returns (written: nat)
    requires start.Valid()
    requires start.size + |Print(Dtag(DTAG_INTEREST_LIFETIME, [], [Blob(TimestampBytes(lifetime))]))| <= BUFLEN
    modifies start, start.data
    ensures start.Valid()
    ensures start.Contents() ==
      old(start.Contents()) + Print(Dtag(DTAG_INTEREST_LIFETIME, [], [Blob(TimestampBytes(lifetime))]))
    ensures written == |Print(Dtag(DTAG_INTEREST_LIFETIME, [], [Blob(TimestampBytes(lifetime))]))|
  {
    ghost var before, body := start.Contents(), Blob(TimestampBytes(lifetime));
    PrintSingle(body);
    PrintDtag(DTAG_INTEREST_LIFETIME, [body], before, Print(body));
    written := AppendBlockHeader(start, DTAG_INTEREST_LIFETIME, CCN_DTAG);
    var n := AppendTimestampBlob(start, lifetime);
    var c := AppendCloser(start);
    written := written + n + c;
  }

  /** Field `k` when it is a number under its own tag, if present. */
  method AppendIf(start: Buffer, dtag: u32, present: bool, number: u32,
                  ghost goal: seq<byte>, ghost i: Interest, ghost k: nat) returns (written: nat)
    requires Pending(start, goal, i, k) && k < 10
    requires Field(i, k) == if present then [NumberField(dtag, number)] else []
    modifies start, start.data
    ensures Pending(start, goal, i, k + 1) && start.size == old(start.size) + written
  {
    ghost var before := start.Contents();
    RestStep(i, k);
    written := 0;
    if present {
      written := AppendNumberField(start, dtag, number);
    }
    Advance(goal, before, start.Contents(), i, k);
  }

  /** Field `k` when it is a list of components, if present. */
  method AppendNameIf(start: Buffer, dtag: u32, present: bool, name: Name,
                      ghost goal: seq<byte>, ghost i: Interest, ghost k: nat) returns (written: nat)
    requires Pending(start, goal, i, k) && k < 10
    requires Field(i, k) == if present then [Dtag(dtag, [], ComponentTrees(name))] else []
    modifies start, start.data
    ensures Pending(start, goal, i, k + 1) && start.size == old(start.size) + written
  {
    ghost var before := start.Contents();
    RestStep(i, k);
    written := 0;
    if present {
      written := AppendNameField(start, dtag, name);
    }
    Advance(goal, before, start.Contents(), i, k);
  }

  method AppendLifetime(start: Buffer, ghost goal: seq<byte>, i: Interest) returns (written: nat)
    requires Pending(start, goal, i, 7)
    modifies start, start.data
    ensures Pending(start, goal, i, 8) && start.size == old(start.size) + written
  {
    ghost var before := start.Contents();
    RestStep(i, 7);
    written := 0;
    if i.lifetime != 0 {
      written := AppendLifetimeField(start, i.lifetime);
    }
    Advance(goal, before, start.Contents(), i, 7);
  }

  /** Field `k` when it is a blob under its own tag, if present. */
  method AppendBlobIf(start: Buffer, dtag: u32, present: bool, data: seq<byte>,
                      ghost goal: seq<byte>, ghost i: Interest, ghost k: nat) returns (written: nat)
    requires Pending(start, goal, i, k) && k < 10
    requires Field(i, k) == if present then [TaggedBlob(dtag, data)] else []
    modifies start, start.data
    ensures Pending(start, goal, i, k + 1) && start.size == old(start.size) + written
  {
    ghost var before := start.Contents();
    RestStep(i, k);
    written := 0;
    if present {
      written := AppendTaggedBlob(start, dtag, data);
    }
    Advance(goal, before, start.Contents(), i, k);
  }

  method AppendNonce(start: Buffer, ghost goal: seq<byte>, i: Interest) returns (written: nat)
    requires Pending(start, goal, i, 8)
    modifies start, start.data
    ensures Pending(start, goal, i, 9) && start.size == old(start.size) + written
  {
    written := AppendBlobIf(start, DTAG_NONCE, i.nonce > 0, LittleEndian(i.nonce), goal, i, 8);
  }

  /** Fields 1 and 2: the suffix counts. */
  method AppendCounts(start: Buffer, i: Interest, ghost goal: seq<byte>) returns (written: nat)
    requires Pending(start, goal, i, 1)
    modifies start, start.data
    ensures Pending(start, goal, i, 3) && start.size == old(start.size) + written
  {
    var min := if i.minSuffix >= 0 then i.minSuffix else 0;
    var max := if i.maxSuffix >= 0 then i.maxSuffix else 0;
    var n1 := AppendIf(start, DTAG_MIN_SUFFIX_COMPONENTS, i.minSuffix >= 0, min, goal, i, 1);
    var n2 := AppendIf(start, DTAG_MAX_SUFFIX_COMPONENTS, i.maxSuffix >= 0, max, goal, i, 2);
    written := n1 + n2;
  }

  /** Fields 1 to 3: the suffix counts and the exclude filter. */
  method AppendSelectors(start: Buffer, i: Interest, ghost goal: seq<byte>) returns (written: nat)
    requires Pending(start, goal, i, 1)
    modifies start, start.data
    ensures Pending(start, goal, i, 4) && start.size == old(start.size) + written
  {
    written := AppendCounts(start, i, goal);
    var exclude := if HasExclude(i) then i.exclude.value else [];
    var n3 := AppendNameIf(start, DTAG_EXCLUDE, HasExclude(i), exclude, goal, i, 3);
    written := written + n3;
  }

  /** Fields 4 and 5: the two flags. */
  method AppendFlags(start: Buffer, i: Interest, ghost goal: seq<byte>) returns (written: nat)
    requires Pending(start, goal, i, 4)
    modifies start, start.data
    ensures Pending(start, goal, i, 6) && start.size == old(start.size) + written
  {
    var n4 := AppendIf(start, DTAG_CHILD_SELECTOR, i.childSelector, 1, goal, i, 4);
    var n5 := AppendIf(start, DTAG_ANSWER_ORIGIN_KIND, i.answerOriginKind, 1, goal, i, 5);
    written := n4 + n5;
  }

  method AppendScope(start: Buffer, i: Interest, ghost goal: seq<byte>) returns (written: nat)
    requires Pending(start, goal, i, 6)
    modifies start, start.data
    ensures Pending(start, goal, i, 7) && start.size == old(start.size) + written
  {
    written := AppendIf(start, DTAG_SCOPE, i.scope >= 0, if i.scope >= 0 then i.scope else 0, goal, i, 6);
  }

  /** Fields 7 to 9: the lifetime, the nonce and the nack code. */
  method AppendTail(start: Buffer, i: Interest, ghost goal: seq<byte>) returns (written: nat)
    requires Pending(start, goal, i, 7)
    modifies start, start.data
    ensures Pending(start, goal, i, 10) && start.size == old(start.size) + written
  {
    var n7 := AppendLifetime(start, goal, i);
    var n8 := AppendNonce(start, goal, i);
    var n9 := AppendIf(start, DTAG_NACK, i.nack > 0, i.nack, goal, i, 9);
    written := n7 + n8 + n9;
  }

  /** Appends the interest to the buffer, in which it must fit. */
  method Serialize(start: Buffer, i: Interest) returns (written: nat)
    requires start.Valid() && i.name.Some? && i.lifetime >= 0
    requires start.size + |InterestBytes(i)| <= BUFLEN
    modifies start, start.data
    ensures start.Valid() && start.Contents() == old(start.Contents()) + InterestBytes(i)
    ensures written == |InterestBytes(i)|
  {
    ghost var before, head := start.Contents(), HeaderBytes(DTAG_INTEREST, CCN_DTAG);
    ghost var goal := before + InterestBytes(i);
    assert InterestBytes(i) == head + Rest(i, 0);
    assert goal == before + head + Rest(i, 0);
    written := AppendBlockHeader(start, DTAG_INTEREST, CCN_DTAG);
    RestStep(i, 0);
    var n := AppendNameField(start, DTAG_NAME, i.name.value);
    written := written + n;
    Advance(goal, before + head, start.Contents(), i, 0);
    n := AppendSelectors(start, i, goal);
    written := written + n;
    n := AppendFlags(start, i, goal);
    written := written + n;
    n := AppendScope(start, i, goal);
    written := written + n;
    n := AppendTail(start, i, goal);
    written := written + n;
    assert Rest(i, 10) == [CCN_CLOSE];
    n := AppendCloser(start);
    written := written + n;
  }

  //////////////////// size prediction ////////////////////

  /** How far the predicted size of the lifetime field is off. */
  ghost function LifetimeGap(i: Interest): int
    requires i.lifetime >= 0
    ensures LifetimeGap(i) == 0 <==> i.lifetime == 0 || Fits(TotalSeconds(i.lifetime))
  {
    SizePredicted(i.lifetime);
    if i.lifetime == 0 then 0
    else RequiredBytes(TotalSeconds(i.lifetime) / 16, 2) - RequiredBytes(SecondsField(i.lifetime) / 16, 2)
  }

  method EstimateNumberField(dtag: u32, present: bool, number: u32, ghost i: Interest, ghost k: nat) returns (n: nat)
    requires i.name.Some? && i.lifetime >= 0 && k < 10
    requires Field(i, k) == if present then [NumberField(dtag, number)] else []
    ensures n + |Rest(i, k + 1)| == |Rest(i, k)|
  {
    RestStep(i, k);
    PrintSingle(Udata(Digits(number)));
    n := 0;
    if present {
      n := EstimateBlockHeader(dtag);
      var m := EstimateNumber(number);
      n := n + m + 1;
    }
  }

  method EstimateNameField(dtag: u32, present: bool, name: Name, ghost i: Interest, ghost k: nat) returns (n: nat)
    requires i.name.Some? && i.lifetime >= 0 && k < 10
    requires Field(i, k) == if present then [Dtag(dtag, [], ComponentTrees(name))] else []
    ensures n + |Rest(i, k + 1)| == |Rest(i, k)|
  {
    RestStep(i, k);
    n := 0;
    if present {
      n := EstimateBlockHeader(dtag);
      var m := EstimateNameComponents(name);
      n := n + m + 1;
    }
  }

  method EstimateLifetimeField(lifetime: nat, ghost i: Interest) returns (n: nat)
    requires i.name.Some? && i.lifetime == lifetime
    ensures n + |Rest(i, 8)| == |Rest(i, 7)| + LifetimeGap(i)
  {
    RestStep(i, 7);
    PrintSingle(Blob(TimestampBytes(lifetime)));
    n := 0;
    if lifetime != 0 {
      n := EstimateBlockHeader(DTAG_INTEREST_LIFETIME);
      var m := EstimateTimestampBlob(lifetime);
      n := n + m + 1;
      assert Continuation(0) == [];
    }
  }

  method EstimateSelectors(i: Interest) returns (n: nat)
    requires i.name.Some? && i.lifetime >= 0
    ensures n + |Rest(i, 4)| == |Rest(i, 1)|
  {
    var min := if i.minSuffix >= 0 then i.minSuffix else 0;
    var max := if i.maxSuffix >= 0 then i.maxSuffix else 0;
    var n1 := EstimateNumberField(DTAG_MIN_SUFFIX_COMPONENTS, i.minSuffix >= 0, min, i, 1);
    var n2 := EstimateNumberField(DTAG_MAX_SUFFIX_COMPONENTS, i.maxSuffix >= 0, max, i, 2);
    var n3 := EstimateNameField(DTAG_EXCLUDE, HasExclude(i), if HasExclude(i) then i.exclude.value else [], i, 3);
    n := n1 + n2 + n3;
  }

  method EstimateFlags(i: Interest) returns (n: nat)
    requires i.name.Some? && i.lifetime >= 0
    ensures n + |Rest(i, 6)| == |Rest(i, 4)|
  {
    var n4 := EstimateNumberField(DTAG_CHILD_SELECTOR, i.childSelector, 1, i, 4);
    var n5 := EstimateNumberField(DTAG_ANSWER_ORIGIN_KIND, i.answerOriginKind, 1, i, 5);
    n := n4 + n5;
  }

  method EstimateNonce(i: Interest) returns (n: nat)
    requires i.name.Some? && i.lifetime >= 0
    ensures n + |Rest(i, 9)| == |Rest(i, 8)|
  {
    RestStep(i, 8);
    n := 0;
    if i.nonce > 0 {
      n := EstimateTaggedBlob(DTAG_NONCE, 4);
      assert |LittleEndian(i.nonce)| == 4;
    }
  }

  method EstimateTail(i: Interest) returns (n: nat)
    requires i.name.Some? && i.lifetime >= 0
    ensures n + |Rest(i, 10)| == |Rest(i, 6)| + LifetimeGap(i)
  {
    var n6 := EstimateNumberField(DTAG_SCOPE, i.scope >= 0, if i.scope >= 0 then i.scope else 0, i, 6);
    var n7 := EstimateLifetimeField(i.lifetime, i);
    var n8 := EstimateNonce(i);
    var n9 := EstimateNumberField(DTAG_NACK, i.nack > 0, i.nack, i, 9);
    n := n6 + n7 + n8 + n9;
  }

  lemma RestOfAll(i: Interest)
    requires i.name.Some? && i.lifetime >= 0
    ensures InterestBytes(i) == HeaderBytes(DTAG_INTEREST, CCN_DTAG) + Rest(i, 0) && Rest(i, 10) == [CCN_CLOSE]
  {
  }

  /** The predicted size is the size written exactly when the lifetime is unset or fits. */
  method GetSize(i: Interest) returns (n: nat)
    requires i.name.Some? && i.lifetime >= 0
    ensures n == |InterestBytes(i)| + LifetimeGap(i)
    ensures n == |InterestBytes(i)| <==> i.lifetime == 0 || Fits(TotalSeconds(i.lifetime))
  {
    RestOfAll(i);
    var n0 := EstimateBlockHeader(DTAG_INTEREST);
    var n1 := EstimateNameField(DTAG_NAME, true, i.name.value, i, 0);
    var n2 := EstimateSelectors(i);
    var n3 := EstimateFlags(i);
    var n4 := EstimateTail(i);
    n := n0 + n1 + n2 + n3 + n4 + 1;
  }
}
