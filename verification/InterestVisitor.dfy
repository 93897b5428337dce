/** The visitor that fills an interest header from a syntax tree
    (helper/ccnb-parser/visitors/ccnb-parser-interest-visitor.cc,
    helper/ccnb-parser/visitors/ccnb-parser-name-components-visitor.cc,
    helper/ndn-decoding-helper.cc). A decoding exception is the result false. */
module InterestVisitor {
  import opened Names
  import opened PacketBuffer
  import opened BlockHeader
  import opened CcnbTree
  import opened CcnbParser
  import opened Interest

  class NameComponents {
    var prefix: Name

    constructor ()
      ensures prefix == []
    {
      prefix := [];
    }
  }

  class InterestHeader {
    var name: Option<Name>
    var minSuffix: int32
    var maxSuffix: int32
    var exclude: Option<Name>
    var childSelector: bool
    var answerOriginKind: bool
    var scope: int8
    var lifetime: int
    var nonce: u32
    var nack: u32

    constructor ()
      ensures Value() == DEFAULT
    {
      name, exclude := None, None;
      minSuffix, maxSuffix := -1, -1;
      childSelector, answerOriginKind := false, false;
      scope, lifetime, nonce, nack := -1, 0, 0, 0;
    }

    ghost function Value(): Interest
      reads this
    {
      Interest(name, minSuffix, maxSuffix, exclude, childSelector, answerOriginKind, scope, lifetime, nonce, nack)
    }
  }

  method VisitComponents(t: Block, name: NameComponents) returns (ok: bool)
    modifies name
    ensures ok <==> AddComponents(t, old(name.prefix)).Some?
    ensures ok ==> AddComponents(t, old(name.prefix)) == Some(name.prefix)
    decreases t
  {
    match t
    case Dtag(dtag, _, nested) =>
      if dtag != DTAG_COMPONENT {
        return true;
      }
      if |nested| != 1 || TextOf(nested[0]) == None {
        return false;
      }
      name.prefix := name.prefix + [TextOf(nested[0]).value];
      return true;
    case Tag(_, attrs, nested) =>
      ok := VisitAllComponents(attrs, name);
      if ok {
        ok := VisitAllComponents(nested, name);
      }
    case _ => return true;
  }

  method VisitAllComponents(ts: seq<Block>, name: NameComponents) returns (ok: bool)
    modifies name
    ensures ok <==> AddAllComponents(ts, old(name.prefix)).Some?
    ensures ok ==> AddAllComponents(ts, old(name.prefix)) == Some(name.prefix)
    decreases ts
  {
    ghost var goal := AddAllComponents(ts, name.prefix);
    assert ts[0..] == ts;
    for k := 0 to |ts|
      invariant AddAllComponents(ts[k..], name.prefix) == goal
    {
      assert ts[k..][0] == ts[k] && ts[k..][1..] == ts[k + 1..];
      var one := VisitComponents(ts[k], name);
      if !one {
        return false;
      }
    }
    return true;
  }

  method VisitFieldInto(dtag: u32, nested: seq<Block>, header: InterestHeader, signedChar: bool) returns (ok: bool)
    modifies header
    ensures ok <==> VisitField(dtag, nested, old(header.Value()), signedChar).Some?
    ensures ok ==> VisitField(dtag, nested, old(header.Value()), signedChar) == Some(header.Value())
  {
    ok := true;
    if dtag == DTAG_NAME || dtag == DTAG_EXCLUDE {
      var name := new NameComponents();
      ok := VisitAllComponents(nested, name);
      if ok {
        if dtag == DTAG_NAME {
          header.name := Some(name.prefix);
        } else {
          header.exclude := Some(name.prefix);
        }
      }
    } else if dtag == DTAG_INTEREST_LIFETIME {
      ok := |nested| == 1 && LifetimeOf(nested[0], signedChar).Some?;
      if ok {
        header.lifetime := LifetimeOf(nested[0], signedChar).value;
      }
    } else if dtag == DTAG_NONCE {
      ok := |nested| == 1 && NonceOf(nested[0]).Some?;
      if ok {
        header.nonce := NonceOf(nested[0]).value;
      }
    } else if dtag in {DTAG_MIN_SUFFIX_COMPONENTS, DTAG_MAX_SUFFIX_COMPONENTS, DTAG_CHILD_SELECTOR,
                       DTAG_ANSWER_ORIGIN_KIND, DTAG_SCOPE, DTAG_NACK} {
      var n := FieldNumber(nested);
      if n == None {
        return false;
      }
      var v := n.value;
      if dtag == DTAG_MIN_SUFFIX_COMPONENTS {
        header.minSuffix := v;
      } else if dtag == DTAG_MAX_SUFFIX_COMPONENTS {
        header.maxSuffix := v;
      } else if dtag == DTAG_CHILD_SELECTOR {
        header.childSelector := v == 1;
      } else if dtag == DTAG_ANSWER_ORIGIN_KIND {
        header.answerOriginKind := v == 1;
      } else if dtag == DTAG_SCOPE {
        header.scope := ToInt8(v);
      } else {
        header.nack := v;
      }
    }
  }

  method VisitBlock(t: Block, header: InterestHeader, signedChar: bool) returns (ok: bool)
    modifies header
    ensures ok <==> Visit(t, old(header.Value()), signedChar).Some?
    ensures ok ==> Visit(t, old(header.Value()), signedChar) == Some(header.Value())
    decreases t
  {
    match t
    case Dtag(dtag, _, nested) =>
      if dtag == DTAG_INTEREST {
        ok := VisitBlocks(nested, header, signedChar);
      } else {
        ok := VisitFieldInto(dtag, nested, header, signedChar);
      }
    case Tag(_, attrs, nested) =>
      ok := VisitBlocks(attrs, header, signedChar);
      if ok {
        ok := VisitBlocks(nested, header, signedChar);
      }
    case _ => return true;
  }

  method VisitBlocks(ts: seq<Block>, header: InterestHeader, signedChar: bool) returns (ok: bool)
    modifies header
    ensures ok <==> VisitAll(ts, old(header.Value()), signedChar).Some?
    ensures ok ==> VisitAll(ts, old(header.Value()), signedChar) == Some(header.Value())
    decreases ts
  {
    ghost var goal := VisitAll(ts, header.Value(), signedChar);
    assert ts[0..] == ts;
    for k := 0 to |ts|
      invariant VisitAll(ts[k..], header.Value(), signedChar) == goal
    {
      assert ts[k..][0] == ts[k] && ts[k..][1..] == ts[k + 1..];
      var one := VisitBlock(ts[k], header, signedChar);
      if !one {
        return false;
      }
    }
    return true;
  }

  /** Decodes a packet into a fresh header; returns the number of bytes parsed, cut to eight
      bits. */
  method DeserializeInterest(packet: Buffer, signedChar: bool)
    returns (header: InterestHeader, ok: bool, count: byte)
    requires packet.Valid()
    ensures fresh(header)
    ensures ok <==> Deserialize(packet.Contents(), signedChar).Some?
    ensures ok ==> Deserialize(packet.Contents(), signedChar) == Some(header.Value())
    ensures ok ==>
      var r := ParseBlock(packet.Contents(), 0);
      r.Parsed? && count == r.pos % 256
  {
    header := new InterestHeader();
    var i := new Cursor(packet);
    var root := ParseBlockAt(i);
    if root == None {
      return header, false, 0;
    }
    ok := VisitBlock(root.value, header, signedChar);
    count := i.GetDistance();
  }
}
