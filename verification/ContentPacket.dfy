/** Content packets: a header without closing tags followed by the payload
    (network/ndn-content-packet.cc, network/packet.cc, helper/ndn-encoding-helper.cc,
    helper/ccnb-parser/visitors/ccnb-parser-content-object-visitor.cc). */
module ContentPacket {
  import opened Names
  import opened PacketBuffer
  import opened BlockHeader
  import opened CcnbTree
  import opened CcnbParser
  import opened Interest
  import opened InterestCodec
  import opened InterestVisitor

  const CONTENT := Dtag(DTAG_CONTENT, [], [])

  /** `<outer><inner/></outer>`: the empty signature and signed-info blocks. */
  function EmptyInside(outer: u32, inner: u32): Block {
    Dtag(outer, [], [TaggedBlob(inner, [])])
  }

  function Signature(): Block { EmptyInside(DTAG_SIGNATURE, DTAG_SIGNATURE_BITS) }
  function SignedInfo(): Block { EmptyInside(DTAG_SIGNED_INFO, DTAG_PUBLISHER_PUBLIC_KEY_DIGEST) }

  function NameTree(name: Name): Block {
    Dtag(DTAG_NAME, [], ComponentTrees(name))
  }

  function Opening(): seq<byte> { HeaderBytes(DTAG_CONTENT_OBJECT, CCN_DTAG) }
  function ContentOpening(): seq<byte> { HeaderBytes(DTAG_CONTENT, CCN_DTAG) }

  function Children(name: Name): seq<Block> {
    [Signature(), NameTree(name), SignedInfo()]
  }

  function ObjectBytes(ts: seq<Block>): (s: seq<byte>) {
    Opening() + PrintAll(ts) + ContentOpening()
  }

  /** Everything before the payload; neither the object nor its content is closed. */
  function ContentHeaderBytes(name: Name): (s: seq<byte>) {
    ObjectBytes(Children(name))
  }

  lemma ChildrenPrintable(name: Name)
    ensures forall i :: 0 <= i < |Children(name)| ==> Printable(Children(name)[i])
  {
    assert forall t :: t in ComponentTrees(name) ==> Printable(t);
  }

  /** The unclosed `<Content>` ends the object, whatever byte follows. */
  lemma ContentLast(b: seq<byte>, pos: nat, done: seq<Block>)
    requires |b| < U32 && At(b, pos, ContentOpening())
    requires !EndsWithContent(Some(DTAG_CONTENT_OBJECT), done)
    ensures ParseNested(b, pos, Some(DTAG_CONTENT_OBJECT), done) == Parsed(done + [CONTENT], pos + |ContentOpening()|)
  {
    HeaderRoundTrip(b, pos, DTAG_CONTENT, CCN_DTAG);
    HeaderIsNotCloser(DTAG_CONTENT, CCN_DTAG);
    var end := pos + |ContentOpening()|;
    assert b[pos] == b[pos..end][0];
    assert ParseBlock(b, pos) == Parsed(CONTENT, end);
    var all := done + [CONTENT];
    assert all[..|done|] == done && all[..|all|] == all;
    NestedStep(b, pos, Some(DTAG_CONTENT_OBJECT), all, |done|, end);
    assert EndsWithContent(Some(DTAG_CONTENT_OBJECT), all);
  }

  lemma ContentEnd(b: seq<byte>, pos: nat, ts: seq<Block>, payload: seq<byte>)
    requires |b| < U32 && forall i :: 0 <= i < |ts| ==> Printable(ts[i])
    requires ChildrenAt(b, pos, ts, |ts|, ContentOpening() + payload)
    ensures PrintAll(ts[|ts|..]) == []
    ensures ParseNested(b, pos, Some(DTAG_CONTENT_OBJECT), ts[..|ts|]) ==
      Parsed(ts + [CONTENT], pos + |ContentOpening()|)
  {
    LastChild(b, pos, ts, ContentOpening() + payload);
    AtConcat(b, pos, ContentOpening(), payload);
    assert ts[..|ts|] == ts;
    ContentLast(b, pos, ts);
  }

  lemma NoContentYet(ts: seq<Block>, k: nat)
    requires k <= |ts| && forall i :: 0 <= i < |ts| ==> Printable(ts[i])
    ensures !EndsWithContent(Some(DTAG_CONTENT_OBJECT), ts[..k])
  {
    if k > 0 {
      assert ts[..k][k - 1] == ts[k - 1] && Printable(ts[k - 1]);
    }
  }

  lemma {:induction false} ContentNested(b: seq<byte>, pos: nat, ts: seq<Block>, k: nat, payload: seq<byte>)
    requires |b| < U32 && k <= |ts| && forall i :: 0 <= i < |ts| ==> Printable(ts[i])
    requires ChildrenAt(b, pos, ts, k, ContentOpening() + payload)
    ensures ParseNested(b, pos, Some(DTAG_CONTENT_OBJECT), ts[..k]) ==
      Parsed(ts + [CONTENT], pos + |PrintAll(ts[k..])| + |ContentOpening()|)
    decreases |ts| - k
  {
    if k == |ts| {
      ContentEnd(b, pos, ts, payload);
    } else {
      assert Printable(ts[k]);
      NextChild(b, pos, ts, k, ContentOpening() + payload);
      ParsePrint(b, pos, ts[k]);
      NoContentYet(ts, k);
      var p := pos + |Print(ts[k])|;
      NestedStep(b, pos, Some(DTAG_CONTENT_OBJECT), ts, k, p);
      ContentNested(b, p, ts, k + 1, payload);
    }
  }

  lemma FirstChild(b: seq<byte>, pos: nat, ts: seq<Block>, end: seq<byte>)
    requires ts != [] && Printable(ts[0]) && ChildrenAt(b, pos, ts, 0, end)
    ensures pos < |b| && b[pos] != CCN_CLOSE && At(b, pos, Print(ts[0]))
    ensures ChildrenAt(b, pos + |Print(ts[0])|, ts, 1, end)
    ensures |PrintAll(ts)| == |Print(ts[0])| + |PrintAll(ts[1..])|
  {
    NextChild(b, pos, ts, 0, end);
  }

  /** The contents of an object whose first child has been parsed and whose others nest. */
  lemma ObjectContents(b: seq<byte>, pos: nat, ts: seq<Block>, p: nat, q: nat)
    requires ts != [] && pos < p <= |b| && b[pos] != CCN_CLOSE && !ts[0].IsAttribute()
    requires ParseBlock(b, pos) == Parsed(ts[0], p)
    requires ParseNested(b, p, Some(DTAG_CONTENT_OBJECT), ts[..1]) == Parsed(ts + [CONTENT], q)
    ensures ParseContents(b, pos, Some(DTAG_CONTENT_OBJECT)) == Parsed(([], ts + [CONTENT]), q)
  {
    AttrsStop(b, pos, ts[0], p);
    assert ts[..1] == [ts[0]];
    assert EndsWithContent(Some(DTAG_CONTENT_OBJECT), ts + [CONTENT]);
  }

  lemma ContentContents(b: seq<byte>, pos: nat, ts: seq<Block>, payload: seq<byte>)
    requires |b| < U32 && ts != [] && forall i :: 0 <= i < |ts| ==> Printable(ts[i])
    requires ChildrenAt(b, pos, ts, 0, ContentOpening() + payload)
    ensures ParseContents(b, pos, Some(DTAG_CONTENT_OBJECT)) ==
      Parsed(([], ts + [CONTENT]), pos + |PrintAll(ts)| + |ContentOpening()|)
  {
    var p := pos + |Print(ts[0])|;
    FirstChild(b, pos, ts, ContentOpening() + payload);
    ParsePrint(b, pos, ts[0]);
    ContentNested(b, p, ts, 1, payload);
    ObjectContents(b, pos, ts, p, p + |PrintAll(ts[1..])| + |ContentOpening()|);
  }

  lemma Regroup(w: seq<byte>, x: seq<byte>, y: seq<byte>, z: seq<byte>)
    ensures w + x + y + z == w + (x + (y + z))
  {
  }

  lemma ObjectAt(ts: seq<Block>, payload: seq<byte>)
    ensures At(ObjectBytes(ts) + payload, 0, Opening() + (PrintAll(ts) + (ContentOpening() + payload)))
    ensures ChildrenAt(ObjectBytes(ts) + payload, |Opening()|, ts, 0, ContentOpening() + payload)
  {
    var b := ObjectBytes(ts) + payload;
    Regroup(Opening(), PrintAll(ts), ContentOpening(), payload);
    assert b[0..|b|] == b && ts[0..] == ts;
    AtConcat(b, 0, Opening(), PrintAll(ts) + (ContentOpening() + payload));
  }

  /** An unclosed content object with any printable children and any payload. */
  lemma ParseObject(ts: seq<Block>, payload: seq<byte>)
    requires ts != [] && forall i :: 0 <= i < |ts| ==> Printable(ts[i])
    requires |ObjectBytes(ts) + payload| < U32
    ensures ParseBlock(ObjectBytes(ts) + payload, 0) ==
      Parsed(Dtag(DTAG_CONTENT_OBJECT, [], ts + [CONTENT]), |ObjectBytes(ts)|)
  {
    var b := ObjectBytes(ts) + payload;
    var rest := PrintAll(ts) + (ContentOpening() + payload);
    ObjectAt(ts, payload);
    ParsePrintedDtag(b, 0, DTAG_CONTENT_OBJECT, rest);
    ContentContents(b, |Opening()|, ts, payload);
  }

  class ContentObjectHeader {
    var name: Option<Name>

    constructor ()
      ensures name == None
    {
      name := None;
    }
  }

  /** The visitor reads the name and nothing else. */
  function VisitContent(t: Block, name: Option<Name>): Option<Option<Name>>
    decreases t
  {
    match t
    case Dtag(dtag, _, nested) =>
      if dtag == DTAG_CONTENT_OBJECT then VisitAllContent(nested, name)
      else if dtag == DTAG_NAME then
        (match AddAllComponents(nested, []) case None => None case Some(n) => Some(Some(n)))
      else Some(name)
    case Tag(_, attrs, nested) =>
      (match VisitAllContent(attrs, name)
       case None => None
       case Some(n) => VisitAllContent(nested, n))
    case _ => Some(name)
  }

  function VisitAllContent(ts: seq<Block>, name: Option<Name>): Option<Option<Name>>
    decreases ts
  {
    if ts == [] then Some(name)
    else match VisitContent(ts[0], name) case None => None case Some(n) => VisitAllContent(ts[1..], n)
  }

  function DeserializeContent(b: seq<byte>): Option<Option<Name>> {
    match ParseBlock(b, 0)
    case Failed => None
    case Parsed(t, _) => VisitContent(t, None)
  }

  lemma VisitFirst(t: Block, ts: seq<Block>, name: Option<Name>)
    ensures VisitAllContent([t] + ts, name) ==
      match VisitContent(t, name) case None => None case Some(n) => VisitAllContent(ts, n)
  {
    assert ([t] + ts)[1..] == ts;
  }

  /** The visitor keeps what the name block says and passes over the rest. */
  lemma VisitObject(sig: Block, nm: Block, info: Block, got: Option<Option<Name>>)
    requires sig.Dtag? && sig.dtag == DTAG_SIGNATURE && info.Dtag? && info.dtag == DTAG_SIGNED_INFO
    requires VisitContent(nm, None) == got
    ensures VisitAllContent([sig, nm, info] + [CONTENT], None) == got
  {
    assert [sig, nm, info] + [CONTENT] == [sig] + ([nm] + ([info] + ([CONTENT] + [])));
    VisitFirst(sig, [nm] + ([info] + ([CONTENT] + [])), None);
    VisitFirst(nm, [info] + ([CONTENT] + []), None);
    if got.Some? {
      VisitFirst(info, [CONTENT] + [], got.value);
      VisitFirst(CONTENT, [], got.value);
    }
  }

  lemma VisitHeader(name: Name)
    ensures VisitContent(Dtag(DTAG_CONTENT_OBJECT, [], Children(name) + [CONTENT]), None) ==
      if NonEmpty(name) then Some(Some(name)) else None
  {
    ComponentsRoundTrip(name, []);
    assert [] + name == name;
    VisitObject(Signature(), NameTree(name), SignedInfo(), if NonEmpty(name) then Some(Some(name)) else None);
  }

  /** Whatever the payload, the name comes back, and parsing stops where the payload
      starts; the packet is rejected exactly when a component of the name is empty. */
  lemma ContentRoundTrip(name: Name, payload: seq<byte>)
    requires |ContentHeaderBytes(name) + payload| <= BUFLEN
    ensures DeserializeContent(ContentHeaderBytes(name) + payload) == if NonEmpty(name) then Some(Some(name)) else None
    ensures var r := ParseBlock(ContentHeaderBytes(name) + payload, 0);
      r.Parsed? && r.pos == |ContentHeaderBytes(name)|
  {
    ChildrenPrintable(name);
    ParseObject(Children(name), payload);
    VisitHeader(name);
  }

  /** Every content packet starts with the two bytes that mark a content object. */
  lemma ContentMarker(name: Name)
    ensures ContentHeaderBytes(name)[..2] == [0x04, 0x82]
  {
    assert Continuation(4) == Continuation(0) + [4];
    assert Opening() == [0x04, 0x82];
  }

  lemma PrintTaggedNothing(outer: u32, inner: u32)
    ensures Print(EmptyInside(outer, inner)) ==
      HeaderBytes(outer, CCN_DTAG) + Print(TaggedBlob(inner, [])) + [CCN_CLOSE]
  {
    PrintSingle(TaggedBlob(inner, []));
  }

  method AppendEmptyInside(start: Buffer, outer: u32, inner: u32) returns (written: nat)
    requires start.Valid() && start.size + |Print(EmptyInside(outer, inner))| <= BUFLEN
    modifies start, start.data
    ensures start.Valid()
    ensures start.Contents() == old(start.Contents()) + Print(EmptyInside(outer, inner))
    ensures written == |Print(EmptyInside(outer, inner))|
  {
    PrintTaggedNothing(outer, inner);
    written := AppendBlockHeader(start, outer, CCN_DTAG);
    var n := AppendTaggedBlob(start, inner, []);
    var c := AppendCloser(start);
    written := written + n + c;
  }

  lemma PrintThree(x: Block, y: Block, z: Block)
    ensures PrintAll([x, y, z]) == Print(x) + Print(y) + Print(z)
  {
    assert [x, y, z] == [x] + ([y] + [z]);
    PrintAllConcat([x], [y] + [z]);
    PrintAllConcat([y], [z]);
    PrintSingle(x);
    PrintSingle(y);
    PrintSingle(z);
  }

  /** What three closed blocks around a name print: the shape of the header. */
  function ThreeBlocks(sig: u32, bits: u32, tag: u32, name: Name, info: u32, digest: u32): (s: seq<byte>) {
    Print(EmptyInside(sig, bits)) + Print(Dtag(tag, [], ComponentTrees(name))) + Print(EmptyInside(info, digest))
  }

  method AppendThreeBlocks(start: Buffer, sig: u32, bits: u32, tag: u32, name: Name, info: u32, digest: u32)
    returns (written: nat)
    requires start.Valid() && start.size + |ThreeBlocks(sig, bits, tag, name, info, digest)| <= BUFLEN
    modifies start, start.data
    ensures start.Valid() && start.Contents() == old(start.Contents()) + ThreeBlocks(sig, bits, tag, name, info, digest)
    ensures written == |ThreeBlocks(sig, bits, tag, name, info, digest)|
  {
    written := AppendEmptyInside(start, sig, bits);
    var n2 := AppendNameField(start, tag, name);
    var n3 := AppendEmptyInside(start, info, digest);
    written := written + n2 + n3;
  }

  /** The three closed blocks of the header. */
  method AppendChildren(start: Buffer, name: Name) returns (written: nat)
    requires start.Valid() && start.size + |PrintAll(Children(name))| <= BUFLEN
    modifies start, start.data
    ensures start.Valid() && start.Contents() == old(start.Contents()) + PrintAll(Children(name))
    ensures written == |PrintAll(Children(name))|
  {
    PrintThree(Signature(), NameTree(name), SignedInfo());
    written := AppendThreeBlocks(start, DTAG_SIGNATURE, DTAG_SIGNATURE_BITS, DTAG_NAME, name,
                                 DTAG_SIGNED_INFO, DTAG_PUBLISHER_PUBLIC_KEY_DIGEST);
  }

  method SerializeContent(start: Buffer, name: Name) returns (written: nat)
    requires start.Valid() && start.size + |ContentHeaderBytes(name)| <= BUFLEN
    modifies start, start.data
    ensures start.Valid() && start.Contents() == old(start.Contents()) + ContentHeaderBytes(name)
    ensures written == |ContentHeaderBytes(name)|
  {
    ghost var before, body := start.Contents(), PrintAll(Children(name));
    assert before + Opening() + body + ContentOpening() == before + ContentHeaderBytes(name);
    var n0 := AppendBlockHeader(start, DTAG_CONTENT_OBJECT, CCN_DTAG);
    var n1 := AppendChildren(start, name);
    var n2 := AppendBlockHeader(start, DTAG_CONTENT, CCN_DTAG);
    written := n0 + n1 + n2;
  }

  method GetContentSize(name: Name) returns (n: nat)
    ensures n == |ContentHeaderBytes(name)|
  {
    PrintThree(Signature(), NameTree(name), SignedInfo());
    n := EstimateBlockHeader(DTAG_CONTENT_OBJECT);
    var h := EstimateBlockHeader(DTAG_SIGNATURE);
    var m := EstimateTaggedBlob(DTAG_SIGNATURE_BITS, 0);
    PrintTaggedNothing(DTAG_SIGNATURE, DTAG_SIGNATURE_BITS);
    n := n + h + m + 1;
    h := EstimateBlockHeader(DTAG_NAME);
    m := EstimateNameComponents(name);
    n := n + h + m + 1;
    h := EstimateBlockHeader(DTAG_SIGNED_INFO);
    m := EstimateTaggedBlob(DTAG_PUBLISHER_PUBLIC_KEY_DIGEST, 0);
    PrintTaggedNothing(DTAG_SIGNED_INFO, DTAG_PUBLISHER_PUBLIC_KEY_DIGEST);
    n := n + h + m + 1;
    h := EstimateBlockHeader(DTAG_CONTENT);
    n := n + h;
  }

  /** A content packet: the header, then the payload; both must fit. */
  method MakeContentPacket(name: Name, payload: seq<byte>) returns (packet: Buffer)
    requires |ContentHeaderBytes(name) + payload| <= BUFLEN
    ensures fresh(packet) && packet.Valid()
    ensures packet.Contents() == ContentHeaderBytes(name) + payload
  {
    ghost var header := ContentHeaderBytes(name);
    packet := new Buffer();
    var n := SerializeContent(packet, name);
    assert packet.Contents() == [] + header == header;
    packet.Write(payload);
  }

  method VisitContentBlock(t: Block, header: ContentObjectHeader) returns (ok: bool)
    modifies header`name
    ensures ok <==> VisitContent(t, old(header.name)).Some?
    ensures ok ==> VisitContent(t, old(header.name)) == Some(header.name)
    decreases t
  {
    ok := true;
    match t
    case Dtag(dtag, _, nested) =>
      if dtag == DTAG_CONTENT_OBJECT {
        ok := VisitContentBlocks(nested, header);
      } else if dtag == DTAG_NAME {
        var name := new NameComponents();
        ok := VisitAllComponents(nested, name);
        if ok {
          header.name := Some(name.prefix);
        }
      }
    case Tag(_, attrs, nested) =>
      ok := VisitContentBlocks(attrs, header);
      if ok {
        ok := VisitContentBlocks(nested, header);
      }
    case _ =>
  }

  method VisitContentBlocks(ts: seq<Block>, header: ContentObjectHeader) returns (ok: bool)
    modifies header`name
    ensures ok <==> VisitAllContent(ts, old(header.name)).Some?
    ensures ok ==> VisitAllContent(ts, old(header.name)) == Some(header.name)
    decreases ts
  {
    ghost var goal := VisitAllContent(ts, header.name);
    assert ts[0..] == ts;
    for k := 0 to |ts|
      invariant VisitAllContent(ts[k..], header.name) == goal
    {
      assert ts[k..][0] == ts[k] && ts[k..][1..] == ts[k + 1..];
      var one := VisitContentBlock(ts[k], header);
      if !one {
        return false;
      }
    }
    return true;
  }

  /** Decodes a packet into a fresh header; returns the number of bytes parsed, cut to eight
      bits. */
  method DeserializeContentObject(packet: Buffer) returns (header: ContentObjectHeader, ok: bool, count: byte)
    requires packet.Valid()
    ensures fresh(header)
    ensures ok <==> DeserializeContent(packet.Contents()).Some?
    ensures ok ==> DeserializeContent(packet.Contents()) == Some(header.name)
    ensures ok ==>
      var r := ParseBlock(packet.Contents(), 0);
      r.Parsed? && count == r.pos % 256
  {
    header := new ContentObjectHeader();
    var i := new Cursor(packet);
    var root := ParseBlockAt(i);
    if root == None {
      return header, false, 0;
    }
    ok := VisitContentBlock(root.value, header);
    count := i.GetDistance();
  }

  /** The packet is marked as a content, has a name, and is at least as long as the header
      predicted for that name. */
  ghost predicate Readable(b: seq<byte>) {
    && |b| >= 2 && b[0] == 0x04 && b[1] == 0x82
    && match DeserializeContent(b)
       case Some(Some(name)) => |ContentHeaderBytes(name)| <= |b|
       case _ => false
  }

  lemma SuffixesDiffer(b: seq<byte>, x: nat, y: nat)
    requires x <= |b| && y <= |b|
    ensures b[x..] == b[y..] <==> x == y
  {
    if x != y {
      assert |b[x..]| != |b[y..]|;
    }
  }

  /** What a consumer does with a packet: it looks at the marker, decodes the header, skips
      the size predicted for the decoded name and takes the rest. Of a content packet made
      for any name and payload it gets both back; of any other packet the rest is what
      follows the header exactly when parsing stops at the predicted size. */
  method ReceiveContent(packet: Buffer) returns (r: Option<(Name, seq<byte>)>)
    requires packet.Valid()
    ensures forall name, payload :: packet.Contents() == ContentHeaderBytes(name) + payload ==>
      r == if NonEmpty(name) then Some((name, payload)) else None
    ensures r.Some? <==> Readable(packet.Contents())
    ensures r.Some? ==>
      var b, (name, payload) := packet.Contents(), r.value;
      var parsed := ParseBlock(b, 0);
      && DeserializeContent(b) == Some(Some(name)) && payload == b[|ContentHeaderBytes(name)|..] && parsed.Parsed?
      && (payload == b[parsed.pos..] <==> parsed.pos == |ContentHeaderBytes(name)|)
  {
    ghost var b := packet.Contents();
    ConsumerRoundTrip(b);
    if packet.size < 2 || packet.data[0] != 0x04 || packet.data[1] != 0x82 {
      return None;
    }
    var header, ok, count := DeserializeContentObject(packet);
    if !ok || header.name == None {
      return None;
    }
    var offset := GetContentSize(header.name.value);
    if offset > packet.size {
      return None;
    }
    r := Some((header.name.value, packet.data[offset..packet.size]));
    assert packet.data[offset..packet.size] == b[offset..];
    SuffixesDiffer(b, offset, ParseBlock(b, 0).pos);
  }

  lemma ConsumerRoundTrip(b: seq<byte>)
    requires |b| <= BUFLEN
    ensures forall name, payload :: b == ContentHeaderBytes(name) + payload ==>
      && |b| >= 2 && b[0] == 0x04 && b[1] == 0x82
      && DeserializeContent(b) == (if NonEmpty(name) then Some(Some(name)) else None)
      && |ContentHeaderBytes(name)| <= |b| && b[|ContentHeaderBytes(name)|..] == payload
  {
    forall name, payload | b == ContentHeaderBytes(name) + payload
      ensures |b| >= 2 && b[0] == 0x04 && b[1] == 0x82
      ensures DeserializeContent(b) == if NonEmpty(name) then Some(Some(name)) else None
      ensures |ContentHeaderBytes(name)| <= |b| && b[|ContentHeaderBytes(name)|..] == payload
    {
      ContentMarker(name);
      ContentRoundTrip(name, payload);
      assert b[..2] == ContentHeaderBytes(name)[..2];
      assert b[0] == b[..2][0] && b[1] == b[..2][1];
    }
  }
}
