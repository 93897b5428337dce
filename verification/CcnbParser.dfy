/** The recursive-descent parser over a read cursor, one method per constructor of the
    source. A decoding exception is the result None. */
module CcnbParser {
  import opened Names
  import opened PacketBuffer
  import opened BlockHeader
  import opened CcnbTree

  /** `r` and the cursor position `pos` are what `spec` says. */
  ghost predicate Agrees<T>(spec: Parsed<T>, r: Option<T>, pos: nat) {
    match spec
    case Failed => r == None
    case Parsed(value, p) => r == Some(value) && pos == p
  }

  method ReadHeaderAt(start: Cursor) returns (value: u32, tt: nat)
    requires start.Valid()
    modifies start`pos
    ensures start.Valid() && ReadHeader(start.Bytes(), old(start.pos)) == Header(value, tt, start.pos)
  {
    value := 0;
    var last: byte := 0;
    while !start.IsEnd() && last < 128
      invariant start.Valid()
      invariant ScanFrom(start.Bytes(), start.pos, value, last) == ScanFrom(start.Bytes(), old(start.pos), 0, 0)
      decreases start.size - start.pos
    {
      value := value * 128 % U32;
      value := (value + last) % U32;
      last := start.ReadU8();
    }
    value := value * 16 % U32;
    value := (value + last % 128 / 8) % U32;
    tt := last % 8;
  }

  /** Fills an array, as for a blob. */
  method ReadBlob(start: Cursor, length: u32) returns (r: Option<seq<byte>>)
    requires start.Valid()
    modifies start`pos
    ensures start.Valid() && Agrees(ReadBytes(start.Bytes(), old(start.pos), length), r, start.pos)
  {
    var blob := new byte[length](_ => 0);
    var i := 0;
    while !start.IsEnd() && i < length
      invariant start.Valid() && i <= length && start.pos == old(start.pos) + i
      invariant blob[..i] == start.Bytes()[old(start.pos)..start.pos]
    {
      blob[i] := start.ReadU8();
      i := i + 1;
    }
    if i < length && start.IsEnd() {
      return None;
    }
    r := Some(blob[..]);
    assert blob[..] == blob[..i];
  }

  /** Appends to a string, as for text and for the names of tags and attributes. */
  method ReadText(start: Cursor, length: u32) returns (r: Option<seq<byte>>)
    requires start.Valid()
    modifies start`pos
    ensures start.Valid() && Agrees(ReadBytes(start.Bytes(), old(start.pos), length), r, start.pos)
  {
    var text: seq<byte> := [];
    var i := 0;
    while !start.IsEnd() && i < length
      invariant start.Valid() && i <= length && start.pos == old(start.pos) + i
      invariant text == start.Bytes()[old(start.pos)..start.pos]
    {
      var c := start.ReadU8();
      text := text + [c];
      i := i + 1;
    }
    if i < length && start.IsEnd() {
      return None;
    }
    r := Some(text);
  }

  method ParseBlockAt(start: Cursor) returns (r: Option<Block>)
    requires start.Valid()
    modifies start`pos
    ensures start.Valid() && Agrees(ParseBlock(start.Bytes(), old(start.pos)), r, start.pos)
    decreases start.size - start.pos, 0
  {
    var value, tt := ReadHeaderAt(start);
    if tt == CCN_BLOB {
      var data := ReadBlob(start, value);
      r := if data == None then None else Some(Blob(data.value));
    } else if tt == CCN_UDATA {
      var data := ReadText(start, value);
      r := if data == None then None else Some(Udata(data.value));
    } else if tt == CCN_TAG {
      r := ParseTagAt(start, value);
    } else if tt == CCN_ATTR {
      r := ParseAttrAt(start, value);
    } else if tt == CCN_DTAG {
      r := ParseDtagAt(start, value);
    } else if tt == CCN_DATTR {
      r := ParseDattrAt(start, value);
    } else if tt == CCN_EXT {
      r := Some(Ext(value));
    } else {
      r := None;
    }
  }

  method ParseTagAt(start: Cursor, value: u32) returns (r: Option<Block>)
    requires start.Valid()
    modifies start`pos
    ensures start.Valid()
    ensures Agrees(ParseTag(start.Bytes(), Header(value, CCN_TAG, old(start.pos))), r, start.pos)
    decreases start.size - start.pos, 3
  {
    var name := ReadText(start, (value + 1) % U32);
    if name == None {
      return None;
    }
    var contents := ParseContentsAt(start, None);
    return if contents == None then None else Some(Tag(name.value, contents.value.0, contents.value.1));
  }

  method ParseDtagAt(start: Cursor, value: u32) returns (r: Option<Block>)
    requires start.Valid()
    modifies start`pos
    ensures start.Valid()
    ensures Agrees(ParseDtag(start.Bytes(), Header(value, CCN_DTAG, old(start.pos))), r, start.pos)
    decreases start.size - start.pos, 3
  {
    if value == DTAG_CONTENT {
      return Some(Dtag(value, [], []));
    }
    var contents := ParseContentsAt(start, Some(value));
    return if contents == None then None else Some(Dtag(value, contents.value.0, contents.value.1));
  }

  method ParseAttrAt(start: Cursor, value: u32) returns (r: Option<Block>)
    requires start.Valid()
    modifies start`pos
    ensures start.Valid()
    ensures Agrees(ParseAttr(start.Bytes(), Header(value, CCN_ATTR, old(start.pos))), r, start.pos)
    decreases start.size - start.pos, 3
  {
    var name := ReadText(start, (value + 1) % U32);
    if name == None {
      return None;
    }
    var block := ParseBlockAt(start);
    return if block == None || !block.value.Udata? then None else Some(Attr(name.value, block.value));
  }

  method ParseDattrAt(start: Cursor, value: u32) returns (r: Option<Block>)
    requires start.Valid()
    modifies start`pos
    ensures start.Valid()
    ensures Agrees(ParseDattr(start.Bytes(), Header(value, CCN_DATTR, old(start.pos))), r, start.pos)
    decreases start.size - start.pos, 3
  {
    var block := ParseBlockAt(start);
    return if block == None || !block.value.Udata? then None else Some(Dattr(value, block.value));
  }

  /** The first loop: attributes, up to and including the first block that is not one. */
  method ParseAttrsAt(start: Cursor) returns (r: Option<(seq<Block>, seq<Block>)>)
    requires start.Valid()
    modifies start`pos
    ensures start.Valid() && Agrees(ParseAttrs(start.Bytes(), old(start.pos), []), r, start.pos)
    decreases start.size - start.pos, 1
  {
    ghost var b, from := start.Bytes(), start.pos;
    var attrs: seq<Block> := [];
    while !start.IsEnd() && start.PeekU8() != CCN_CLOSE
      invariant start.Valid() && from <= start.pos
      invariant ParseAttrs(b, start.pos, attrs) == ParseAttrs(b, from, [])
      decreases start.size - start.pos
    {
      var block := ParseBlockAt(start);
      if block == None {
        return None;
      }
      if !block.value.IsAttribute() {
        return Some((attrs, [block.value]));
      }
      attrs := attrs + [block.value];
    }
    return Some((attrs, []));
  }

  /** The second loop: nested blocks; a content object ends behind its content. */
  method ParseNestedAt(start: Cursor, dtag: Option<u32>, first: seq<Block>) returns (r: Option<seq<Block>>)
    requires start.Valid()
    modifies start`pos
    ensures start.Valid() && Agrees(ParseNested(start.Bytes(), old(start.pos), dtag, first), r, start.pos)
    decreases start.size - start.pos, 1
  {
    ghost var b, from := start.Bytes(), start.pos;
    var nested := first;
    while !start.IsEnd() && start.PeekU8() != CCN_CLOSE
      invariant start.Valid() && from <= start.pos
      invariant ParseNested(b, start.pos, dtag, nested) == ParseNested(b, from, dtag, first)
      decreases start.size - start.pos
    {
      if EndsWithContent(dtag, nested) {
        return Some(nested);
      }
      var block := ParseBlockAt(start);
      if block == None {
        return None;
      }
      nested := nested + [block.value];
    }
    return Some(nested);
  }

  method ParseContentsAt(start: Cursor, dtag: Option<u32>) returns (r: Option<(seq<Block>, seq<Block>)>)
    requires start.Valid()
    modifies start`pos
    ensures start.Valid() && Agrees(ParseContents(start.Bytes(), old(start.pos), dtag), r, start.pos)
    decreases start.size - start.pos, 2
  {
    var head := ParseAttrsAt(start);
    if head == None {
      return None;
    }
    var (attrs, first) := head.value;
    var nested := ParseNestedAt(start, dtag, first);
    if nested == None || (dtag == Some(DTAG_CONTENT_OBJECT) && nested.value == []) {
      return None;
    }
    if EndsWithContent(dtag, nested.value) {
      return Some((attrs, nested.value));
    }
    if start.IsEnd() {
      return None;
    }
    var closer := start.ReadU8();
    return Some((attrs, nested.value));
  }
}
