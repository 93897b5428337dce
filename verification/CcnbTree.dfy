/** The ccnb syntax tree, what the recursive-descent parser makes of a string of bytes
    (helper/ccnb-parser/syntax-tree), and how a tree is printed. */
module CcnbTree {
  import opened Names
  import opened BlockHeader

  const DTAG_NAME := 14
  const DTAG_COMPONENT := 15
  const DTAG_CONTENT := 19
  const DTAG_SIGNED_INFO := 20
  const DTAG_INTEREST := 26
  const DTAG_SIGNATURE := 37
  const DTAG_NONCE := 41
  const DTAG_SCOPE := 42
  const DTAG_EXCLUDE := 43
  const DTAG_ANSWER_ORIGIN_KIND := 47
  const DTAG_INTEREST_LIFETIME := 48
  const DTAG_SIGNATURE_BITS := 54
  const DTAG_PUBLISHER_PUBLIC_KEY_DIGEST := 60
  const DTAG_CONTENT_OBJECT := 64
  const DTAG_MIN_SUFFIX_COMPONENTS := 83
  const DTAG_MAX_SUFFIX_COMPONENTS := 84
  const DTAG_CHILD_SELECTOR := 85
  const DTAG_NACK := 200

  datatype Block =
    | Blob(data: seq<byte>)
    | Udata(data: seq<byte>)
    | Tag(name: seq<byte>, attrs: seq<Block>, nested: seq<Block>)
    | Dtag(dtag: u32, attrs: seq<Block>, nested: seq<Block>)
    | Attr(name: seq<byte>, value: Block)
    | Dattr(dattr: u32, value: Block)
    | Ext(subtype: u32)
  {
    predicate IsAttribute() {
      Attr? || Dattr?
    }
  }

  /** `Failed` is the decoding exception. */
  datatype Parsed<+T> = Failed | Parsed(value: T, pos: nat)

  function ReadBytes(b: seq<byte>, pos: nat, n: nat): (r: Parsed<seq<byte>>)
    requires pos <= |b|
  {
    if pos + n <= |b| then Parsed(b[pos..pos + n], pos + n) else Failed
  }

  /** `<ContentObject>` ends right after a nested `<Content>`. */
  predicate EndsWithContent(dtag: Option<u32>, nested: seq<Block>) {
    && dtag == Some(DTAG_CONTENT_OBJECT)
    && nested != [] && nested[|nested| - 1].Dtag? && nested[|nested| - 1].dtag == DTAG_CONTENT
  }

  function ParseBlock(b: seq<byte>, pos: nat): (r: Parsed<Block>)
    requires pos <= |b|
    ensures r.Parsed? ==> pos <= r.pos <= |b| && (pos < |b| ==> pos < r.pos)
    decreases |b| - pos, 0
  {
    var h := ReadHeader(b, pos);
    if h.tt == CCN_BLOB then ParseData(b, h)
    else if h.tt == CCN_UDATA then ParseData(b, h)
    else if h.tt == CCN_TAG then ParseTag(b, h)
    else if h.tt == CCN_DTAG then ParseDtag(b, h)
    else if h.tt == CCN_ATTR then ParseAttr(b, h)
    else if h.tt == CCN_DATTR then ParseDattr(b, h)
    else if h.tt == CCN_EXT then Parsed(Ext(h.value), h.pos)
    else Failed
  }

  function ParseData(b: seq<byte>, h: Header): (r: Parsed<Block>)
    requires h.pos <= |b|
    ensures r.Parsed? ==> h.pos <= r.pos <= |b|
  {
    match ReadBytes(b, h.pos, h.value)
    case Failed => Failed
    case Parsed(d, p) => Parsed(if h.tt == CCN_BLOB then Blob(d) else Udata(d), p)
  }

  function ParseTag(b: seq<byte>, h: Header): (r: Parsed<Block>)
    requires h.pos <= |b|
    ensures r.Parsed? ==> h.pos <= r.pos <= |b|
    decreases |b| - h.pos, 3
  {
    match ReadBytes(b, h.pos, (h.value + 1) % U32)
    case Failed => Failed
    case Parsed(name, p) =>
      match ParseContents(b, p, None)
      case Failed => Failed
      case Parsed((attrs, nested), q) => Parsed(Tag(name, attrs, nested), q)
  }

  function ParseDtag(b: seq<byte>, h: Header): (r: Parsed<Block>)
    requires h.pos <= |b|
    ensures r.Parsed? ==> h.pos <= r.pos <= |b|
    decreases |b| - h.pos, 3
  {
    if h.value == DTAG_CONTENT then Parsed(Dtag(h.value, [], []), h.pos)
    else
      match ParseContents(b, h.pos, Some(h.value))
      case Failed => Failed
      case Parsed((attrs, nested), q) => Parsed(Dtag(h.value, attrs, nested), q)
  }

  function ParseAttr(b: seq<byte>, h: Header): (r: Parsed<Block>)
    requires h.pos <= |b|
    ensures r.Parsed? ==> h.pos <= r.pos <= |b|
    decreases |b| - h.pos, 3
  {
    match ReadBytes(b, h.pos, (h.value + 1) % U32)
    case Failed => Failed
    case Parsed(name, p) =>
      match ParseBlock(b, p)
      case Failed => Failed
      case Parsed(value, q) => if value.Udata? then Parsed(Attr(name, value), q) else Failed
  }

  function ParseDattr(b: seq<byte>, h: Header): (r: Parsed<Block>)
    requires h.pos <= |b|
    ensures r.Parsed? ==> h.pos <= r.pos <= |b|
    decreases |b| - h.pos, 3
  {
    match ParseBlock(b, h.pos)
    case Failed => Failed
    case Parsed(value, q) => if value.Udata? then Parsed(Dattr(h.value, value), q) else Failed
  }

  /** Attributes, nested blocks and the closer of a tag. `dtag` is None for a named tag. */
  function ParseContents(b: seq<byte>, pos: nat, dtag: Option<u32>): (r: Parsed<(seq<Block>, seq<Block>)>)
    requires pos <= |b|
    ensures r.Parsed? ==> pos <= r.pos <= |b|
    decreases |b| - pos, 2
  {
    match ParseAttrs(b, pos, [])
    case Failed => Failed
    case Parsed((attrs, first), p) =>
      match ParseNested(b, p, dtag, first)
      case Failed => Failed
      case Parsed(nested, q) =>
        if dtag == Some(DTAG_CONTENT_OBJECT) && nested == [] then Failed
        else if EndsWithContent(dtag, nested) then Parsed((attrs, nested), q)
        else if q == |b| then Failed
        else Parsed((attrs, nested), q + 1)
  }

  /** Attributes up to and including the first block that is not one. */
  function ParseAttrs(b: seq<byte>, pos: nat, attrs: seq<Block>): (r: Parsed<(seq<Block>, seq<Block>)>)
    requires pos <= |b|
    ensures r.Parsed? ==> pos <= r.pos <= |b|
    decreases |b| - pos, 1
  {
    if pos < |b| && b[pos] != CCN_CLOSE then
      match ParseBlock(b, pos)
      case Failed => Failed
      case Parsed(x, p) =>
        if x.IsAttribute() then ParseAttrs(b, p, attrs + [x])
        else Parsed((attrs, [x]), p)
    else Parsed((attrs, []), pos)
  }

  function ParseNested(b: seq<byte>, pos: nat, dtag: Option<u32>, nested: seq<Block>): (r: Parsed<seq<Block>>)
    requires pos <= |b|
    ensures r.Parsed? ==> pos <= r.pos <= |b|
    decreases |b| - pos, 1
  {
    if pos < |b| && b[pos] != CCN_CLOSE && !EndsWithContent(dtag, nested) then
      match ParseBlock(b, pos)
      case Failed => Failed
      case Parsed(x, p) => ParseNested(b, p, dtag, nested + [x])
    else Parsed(nested, pos)
  }

  /** The trees the daemon prints: dictionary tags without attributes over blobs and text. */
  predicate Printable(t: Block) {
    match t
    case Blob(_) => true
    case Udata(_) => true
    case Dtag(dtag, attrs, nested) =>
      && dtag != DTAG_CONTENT && dtag != DTAG_CONTENT_OBJECT && attrs == []
      && forall i :: 0 <= i < |nested| ==> Printable(nested[i])
    case _ => false
  }

  function Print(t: Block): (s: seq<byte>) {
    match t
    case Blob(data) => HeaderBytes(|data|, CCN_BLOB) + data
    case Udata(data) => HeaderBytes(|data|, CCN_UDATA) + data
    case Dtag(dtag, _, nested) => HeaderBytes(dtag, CCN_DTAG) + PrintAll(nested) + [CCN_CLOSE]
    case _ => []
  }

  function PrintAll(ts: seq<Block>): (s: seq<byte>) {
    if ts == [] then [] else Print(ts[0]) + PrintAll(ts[1..])
  }

  lemma Assoc(x: seq<byte>, y: seq<byte>, z: seq<byte>)
    ensures x + (y + z) == x + y + z
  {
  }

  lemma PrintCons(t: Block, ts: seq<Block>)
    ensures PrintAll([t] + ts) == Print(t) + PrintAll(ts)
  {
    assert ([t] + ts)[1..] == ts;
  }

  lemma {:induction false} PrintAllConcat(ts: seq<Block>, us: seq<Block>)
    ensures PrintAll(ts + us) == PrintAll(ts) + PrintAll(us)
  {
    if ts == [] {
      assert ts + us == us;
    } else {
      PrintAllConcat(ts[1..], us);
      assert ts + us == [ts[0]] + (ts[1..] + us);
      PrintCons(ts[0], ts[1..] + us);
      Assoc(Print(ts[0]), PrintAll(ts[1..]), PrintAll(us));
    }
  }

  lemma PrintStartsWithHeader(t: Block)
    requires Printable(t)
    ensures |Print(t)| > 0 && Print(t)[0] != CCN_CLOSE
  {
    match t
    case Blob(data) => HeaderIsNotCloser(|data|, CCN_BLOB);
    case Udata(data) => HeaderIsNotCloser(|data|, CCN_UDATA);
    case Dtag(dtag, _, _) => HeaderIsNotCloser(dtag, CCN_DTAG);
  }

  /** `b` at `pos` holds the children of `t` from the `k`th on, and the bytes `end`. */
  ghost predicate ChildrenAt(b: seq<byte>, pos: nat, ts: seq<Block>, k: nat, end: seq<byte>)
    requires k <= |ts|
  {
    At(b, pos, PrintAll(ts[k..]) + end)
  }

  lemma NextChild(b: seq<byte>, pos: nat, ts: seq<Block>, k: nat, end: seq<byte>)
    requires k < |ts| && Printable(ts[k]) && ChildrenAt(b, pos, ts, k, end)
    ensures At(b, pos, Print(ts[k])) && ChildrenAt(b, pos + |Print(ts[k])|, ts, k + 1, end)
    ensures pos < |b| && b[pos] != CCN_CLOSE
    ensures |PrintAll(ts[k..])| == |Print(ts[k])| + |PrintAll(ts[k + 1..])|
  {
    var rest := ts[k..];
    assert rest[0] == ts[k] && rest[1..] == ts[k + 1..];
    assert PrintAll(rest) + end == Print(ts[k]) + (PrintAll(ts[k + 1..]) + end);
    AtConcat(b, pos, Print(ts[k]), PrintAll(ts[k + 1..]) + end);
    PrintStartsWithHeader(ts[k]);
    assert b[pos] == b[pos..pos + |Print(ts[k])|][0];
  }

  lemma LastChild(b: seq<byte>, pos: nat, ts: seq<Block>, end: seq<byte>)
    requires ChildrenAt(b, pos, ts, |ts|, end)
    ensures At(b, pos, end) && PrintAll(ts[|ts|..]) == []
  {
    assert ts[|ts|..] == [];
    assert PrintAll([]) + end == end;
  }

  lemma ParsePrintedData(b: seq<byte>, pos: nat, tt: nat, data: seq<byte>)
    requires (tt == CCN_BLOB || tt == CCN_UDATA) && |b| < U32
    requires At(b, pos, HeaderBytes(|data|, tt) + data)
    ensures ParseBlock(b, pos) ==
      Parsed(if tt == CCN_BLOB then Blob(data) else Udata(data), pos + |HeaderBytes(|data|, tt)| + |data|)
  {
    AtConcat(b, pos, HeaderBytes(|data|, tt), data);
    HeaderRoundTrip(b, pos, |data|, tt);
  }

  lemma ParsePrintedDtag(b: seq<byte>, pos: nat, dtag: u32, rest: seq<byte>)
    requires dtag != DTAG_CONTENT && At(b, pos, HeaderBytes(dtag, CCN_DTAG) + rest)
    ensures At(b, pos + |HeaderBytes(dtag, CCN_DTAG)|, rest)
    ensures ParseBlock(b, pos) == match ParseContents(b, pos + |HeaderBytes(dtag, CCN_DTAG)|, Some(dtag))
      case Failed => Failed
      case Parsed((attrs, nested), q) => Parsed(Dtag(dtag, attrs, nested), q)
  {
    AtConcat(b, pos, HeaderBytes(dtag, CCN_DTAG), rest);
    HeaderRoundTrip(b, pos, dtag, CCN_DTAG);
  }

  lemma DtagPrint(t: Block)
    requires t.Dtag?
    ensures Print(t) == HeaderBytes(t.dtag, CCN_DTAG) + (PrintAll(t.nested) + [CCN_CLOSE])
    ensures |Print(t)| == |HeaderBytes(t.dtag, CCN_DTAG)| + |PrintAll(t.nested)| + 1
  {
  }

  lemma DtagChildren(b: seq<byte>, pos: nat, dtag: u32, nested: seq<Block>)
    requires At(b, pos, HeaderBytes(dtag, CCN_DTAG) + (PrintAll(nested) + [CCN_CLOSE]))
    ensures ChildrenAt(b, pos + |HeaderBytes(dtag, CCN_DTAG)|, nested, 0, [CCN_CLOSE])
  {
    AtConcat(b, pos, HeaderBytes(dtag, CCN_DTAG), PrintAll(nested) + [CCN_CLOSE]);
    assert nested[0..] == nested;
  }

  lemma DtagParsed(b: seq<byte>, pos: nat, dtag: u32, nested: seq<Block>, end: nat)
    requires dtag != DTAG_CONTENT && At(b, pos, HeaderBytes(dtag, CCN_DTAG) + (PrintAll(nested) + [CCN_CLOSE]))
    requires ParseContents(b, pos + |HeaderBytes(dtag, CCN_DTAG)|, Some(dtag)) == Parsed(([], nested), end)
    ensures ParseBlock(b, pos) == Parsed(Dtag(dtag, [], nested), end)
  {
    ParsePrintedDtag(b, pos, dtag, PrintAll(nested) + [CCN_CLOSE]);
  }

  /** Parsing a printed tree gives the tree back, wherever it stands and whatever follows. */
  lemma {:induction false} ParsePrint(b: seq<byte>, pos: nat, t: Block)
    requires |b| < U32 && Printable(t) && At(b, pos, Print(t))
    ensures ParseBlock(b, pos) == Parsed(t, pos + |Print(t)|)
    decreases t, 0
  {
    match t
    case Blob(data) => ParsePrintedData(b, pos, CCN_BLOB, data);
    case Udata(data) => ParsePrintedData(b, pos, CCN_UDATA, data);
    case Dtag(_, _, _) => ParseDtagPrint(b, pos, t);
  }

  lemma {:induction false} ParseDtagPrint(b: seq<byte>, pos: nat, t: Block)
    requires |b| < U32 && t.Dtag? && Printable(t) && At(b, pos, Print(t))
    ensures ParseBlock(b, pos) == Parsed(t, pos + |Print(t)|)
    decreases t, 0, |t.nested| + 2
  {
    DtagPrint(t);
    DtagChildren(b, pos, t.dtag, t.nested);
    ParseContentsPrint(b, pos + |HeaderBytes(t.dtag, CCN_DTAG)|, Some(t.dtag), t);
    DtagParsed(b, pos, t.dtag, t.nested, pos + |Print(t)|);
  }

  lemma NestedStep(b: seq<byte>, pos: nat, dtag: Option<u32>, ts: seq<Block>, k: nat, p: nat)
    requires k < |ts| && pos < |b| && b[pos] != CCN_CLOSE && !EndsWithContent(dtag, ts[..k])
    requires ParseBlock(b, pos) == Parsed(ts[k], p)
    ensures p <= |b| && ParseNested(b, pos, dtag, ts[..k]) == ParseNested(b, p, dtag, ts[..k + 1])
  {
    assert ts[..k] + [ts[k]] == ts[..k + 1];
  }

  lemma NestedStop(b: seq<byte>, pos: nat, dtag: Option<u32>, done: seq<Block>)
    requires pos < |b| && b[pos] == CCN_CLOSE
    ensures ParseNested(b, pos, dtag, done) == Parsed(done, pos)
  {
  }

  lemma NestedEnd(b: seq<byte>, pos: nat, dtag: Option<u32>, ts: seq<Block>)
    requires ChildrenAt(b, pos, ts, |ts|, [CCN_CLOSE])
    ensures pos < |b| && b[pos] == CCN_CLOSE && PrintAll(ts[|ts|..]) == []
    ensures ParseNested(b, pos, dtag, ts[..|ts|]) == Parsed(ts, pos)
  {
    LastChild(b, pos, ts, [CCN_CLOSE]);
    assert b[pos] == b[pos..pos + 1][0];
    assert ts[..|ts|] == ts;
    NestedStop(b, pos, dtag, ts);
  }

  lemma AttrsStop(b: seq<byte>, pos: nat, x: Block, p: nat)
    requires pos < |b| && b[pos] != CCN_CLOSE && !x.IsAttribute() && ParseBlock(b, pos) == Parsed(x, p)
    ensures ParseAttrs(b, pos, []) == Parsed(([], [x]), p)
  {
  }

  lemma CloserAt(b: seq<byte>, pos: nat, ts: seq<Block>, k: nat)
    requires k <= |ts| && ChildrenAt(b, pos, ts, k, [CCN_CLOSE])
    ensures var q := pos + |PrintAll(ts[k..])|; q < |b| && b[q] == CCN_CLOSE
  {
    var n := |PrintAll(ts[k..])|;
    assert b[pos + n] == b[pos..pos + n + 1][n];
  }

  lemma EmptyContents(b: seq<byte>, pos: nat, dtag: Option<u32>)
    requires dtag != Some(DTAG_CONTENT_OBJECT) && ChildrenAt(b, pos, [], 0, [CCN_CLOSE])
    ensures ParseContents(b, pos, dtag) == Parsed(([], []), pos + 1)
  {
    LastChild(b, pos, [], [CCN_CLOSE]);
    assert b[pos] == b[pos..pos + 1][0];
  }

  lemma NestedContents(b: seq<byte>, pos: nat, dtag: Option<u32>, ts: seq<Block>, p: nat, q: nat)
    requires dtag != Some(DTAG_CONTENT_OBJECT) && ts != [] && pos < p <= |b| && q < |b| && b[q] == CCN_CLOSE
    requires b[pos] != CCN_CLOSE && !ts[0].IsAttribute() && ParseBlock(b, pos) == Parsed(ts[0], p)
    requires ParseNested(b, p, dtag, ts[..1]) == Parsed(ts, q)
    ensures ParseContents(b, pos, dtag) == Parsed(([], ts), q + 1)
  {
    AttrsStop(b, pos, ts[0], p);
    assert ts[..1] == [ts[0]];
  }

  lemma ChildrenBytes(b: seq<byte>, pos: nat, ts: seq<Block>)
    requires ts != [] && Printable(ts[0]) && ChildrenAt(b, pos, ts, 0, [CCN_CLOSE])
    ensures !ts[0].IsAttribute()
    ensures At(b, pos, Print(ts[0])) && ChildrenAt(b, pos + |Print(ts[0])|, ts, 1, [CCN_CLOSE])
    ensures var q := pos + |Print(ts[0])| + |PrintAll(ts[1..])|;
      pos <= q < |b| && b[pos] != CCN_CLOSE && b[q] == CCN_CLOSE && q == pos + |PrintAll(ts)|
  {
    NextChild(b, pos, ts, 0, [CCN_CLOSE]);
    CloserAt(b, pos + |Print(ts[0])|, ts, 1);
  }

  lemma {:induction false} ParseContentsPrint(b: seq<byte>, pos: nat, dtag: Option<u32>, t: Block)
    requires |b| < U32 && t.Dtag? && Printable(t) && dtag != Some(DTAG_CONTENT_OBJECT)
    requires ChildrenAt(b, pos, t.nested, 0, [CCN_CLOSE])
    ensures ParseContents(b, pos, dtag) == Parsed(([], t.nested), pos + |PrintAll(t.nested)| + 1)
    decreases t, 0, |t.nested| + 1
  {
    var ts := t.nested;
    if ts == [] {
      EmptyContents(b, pos, dtag);
    } else {
      var p := pos + |Print(ts[0])|;
      assert Printable(ts[0]);
      ChildrenBytes(b, pos, ts);
      ParseNestedPrint(b, p, dtag, t, 1);
      ParsePrint(b, pos, ts[0]);
      NestedContents(b, pos, dtag, ts, p, p + |PrintAll(ts[1..])|);
    }
  }

  lemma {:induction false} ParseNestedPrint(b: seq<byte>, pos: nat, dtag: Option<u32>, t: Block, k: nat)
    requires |b| < U32 && t.Dtag? && Printable(t) && k <= |t.nested| && dtag != Some(DTAG_CONTENT_OBJECT)
    requires ChildrenAt(b, pos, t.nested, k, [CCN_CLOSE])
    ensures ParseNested(b, pos, dtag, t.nested[..k]) == Parsed(t.nested, pos + |PrintAll(t.nested[k..])|)
    decreases t, 0, |t.nested| - k
  {
    if k == |t.nested| {
      NestedEnd(b, pos, dtag, t.nested);
    } else {
      var p := pos + |Print(t.nested[k])|;
      NextChild(b, pos, t.nested, k, [CCN_CLOSE]);
      ParsePrint(b, pos, t.nested[k]);
      NestedStep(b, pos, dtag, t.nested, k, p);
      ParseNestedPrint(b, p, dtag, t, k + 1);
    }
  }

  //////////////////// on the wire ////////////////////

  lemma LongHeader(high: nat, low: nat, tt: nat)
    requires 0 < high < 128 && low < 16 && tt < 8
    ensures HeaderBytes(high * 16 + low, tt) == [high, 128 + low * 8 + tt]
  {
    var v := high * 16 + low;
    assert v / 16 == high && v % 16 == low;
    assert Continuation(high) == Continuation(0) + [high];
  }

  /** The bytes with which each numbered tag is printed, and text and blobs of up to fifteen
      bytes. */
  lemma TagBytes()
    ensures HeaderBytes(DTAG_NAME, CCN_DTAG) == [0xF2] && HeaderBytes(DTAG_COMPONENT, CCN_DTAG) == [0xFA]
    ensures HeaderBytes(DTAG_CONTENT, CCN_DTAG) == [0x01, 0x9A]
    ensures HeaderBytes(DTAG_SIGNED_INFO, CCN_DTAG) == [0x01, 0xA2]
    ensures HeaderBytes(DTAG_INTEREST, CCN_DTAG) == [0x01, 0xD2]
    ensures HeaderBytes(DTAG_SIGNATURE, CCN_DTAG) == [0x02, 0xAA]
    ensures HeaderBytes(DTAG_NONCE, CCN_DTAG) == [0x02, 0xCA]
    ensures HeaderBytes(DTAG_SCOPE, CCN_DTAG) == [0x02, 0xD2]
    ensures HeaderBytes(DTAG_EXCLUDE, CCN_DTAG) == [0x02, 0xDA]
    ensures HeaderBytes(DTAG_ANSWER_ORIGIN_KIND, CCN_DTAG) == [0x02, 0xFA]
    ensures HeaderBytes(DTAG_INTEREST_LIFETIME, CCN_DTAG) == [0x03, 0x82]
    ensures HeaderBytes(DTAG_SIGNATURE_BITS, CCN_DTAG) == [0x03, 0xB2]
    ensures HeaderBytes(DTAG_PUBLISHER_PUBLIC_KEY_DIGEST, CCN_DTAG) == [0x03, 0xE2]
    ensures HeaderBytes(DTAG_CONTENT_OBJECT, CCN_DTAG) == [0x04, 0x82]
    ensures HeaderBytes(DTAG_MIN_SUFFIX_COMPONENTS, CCN_DTAG) == [0x05, 0x9A]
    ensures HeaderBytes(DTAG_MAX_SUFFIX_COMPONENTS, CCN_DTAG) == [0x05, 0xA2]
    ensures HeaderBytes(DTAG_CHILD_SELECTOR, CCN_DTAG) == [0x05, 0xAA]
    ensures HeaderBytes(DTAG_NACK, CCN_DTAG) == [0x0C, 0xC2]
    ensures forall n: nat :: n < 16 ==> HeaderBytes(n, CCN_BLOB) == [133 + n * 8]
    ensures forall n: nat :: n < 16 ==> HeaderBytes(n, CCN_UDATA) == [134 + n * 8]
  {
    LongHeader(1, 3, CCN_DTAG);
    LongHeader(1, 4, CCN_DTAG);
    LongHeader(1, 10, CCN_DTAG);
    LongHeader(2, 5, CCN_DTAG);
    LongHeader(2, 9, CCN_DTAG);
    LongHeader(2, 10, CCN_DTAG);
    LongHeader(2, 11, CCN_DTAG);
    LongHeader(2, 15, CCN_DTAG);
    LongHeader(3, 0, CCN_DTAG);
    LongHeader(3, 6, CCN_DTAG);
    LongHeader(3, 12, CCN_DTAG);
    LongHeader(4, 0, CCN_DTAG);
    LongHeader(5, 3, CCN_DTAG);
    LongHeader(5, 4, CCN_DTAG);
    LongHeader(5, 5, CCN_DTAG);
    LongHeader(12, 8, CCN_DTAG);
  }
}
