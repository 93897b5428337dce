/** Interest packets: the header's fields, the tree they are printed as, and the visitor
    that fills a header from a tree (network/ndn-interest-header.cc,
    helper/ndn-encoding-helper.cc, helper/ccnb-parser/visitors). */
module Interest {
  import opened Names
  import opened PacketBuffer
  import opened BlockHeader
  import opened CcnbTree
  import opened Decimal
  import opened Timestamp

  type int32 = x: int | -0x8000_0000 <= x < 0x8000_0000
  type int8 = x: int | -128 <= x < 128

  /** `name` and `exclude` are None while unset; `lifetime` is in microseconds. */
  datatype Interest = Interest(
    name: Option<Name>, minSuffix: int32, maxSuffix: int32, exclude: Option<Name>,
    childSelector: bool, answerOriginKind: bool, scope: int8, lifetime: int, nonce: u32, nack: u32)

  const DEFAULT := Interest(None, -1, -1, None, false, false, -1, 0, 0, 0)

  //////////////////// printing ////////////////////

  function TaggedBlob(dtag: u32, data: seq<byte>): Block {
    Dtag(dtag, [], if |data| > 0 then [Blob(data)] else [])
  }

  function NumberField(dtag: u32, n: u32): Block {
    Dtag(dtag, [], [Udata(Digits(n))])
  }

  function ComponentTrees(name: Name): (ts: seq<Block>)
    ensures |ts| == |name|
    ensures forall i :: 0 <= i < |ts| ==> ts[i] == TaggedBlob(DTAG_COMPONENT, name[i])
  {
    if name == [] then [] else [TaggedBlob(DTAG_COMPONENT, name[0])] + ComponentTrees(name[1..])
  }

  function LittleEndian(n: u32): (s: seq<byte>)
    ensures |s| == 4
  {
    [n % 256, n / 0x100 % 256, n / 0x1_0000 % 256, n / 0x100_0000 % 256]
  }

  predicate HasExclude(i: Interest) {
    i.exclude.Some? && |i.exclude.value| > 0
  }

  /** The fields in the order they are written; each is absent or a single block. */
  function Field(i: Interest, k: nat): (ts: seq<Block>)
    requires i.name.Some? && i.lifetime >= 0
  {
    if k == 0 then [Dtag(DTAG_NAME, [], ComponentTrees(i.name.value))]
    else if k == 1 then (if i.minSuffix >= 0 then [NumberField(DTAG_MIN_SUFFIX_COMPONENTS, i.minSuffix)] else [])
    else if k == 2 then (if i.maxSuffix >= 0 then [NumberField(DTAG_MAX_SUFFIX_COMPONENTS, i.maxSuffix)] else [])
    else if k == 3 then (if HasExclude(i) then [Dtag(DTAG_EXCLUDE, [], ComponentTrees(i.exclude.value))] else [])
    else if k == 4 then (if i.childSelector then [NumberField(DTAG_CHILD_SELECTOR, 1)] else [])
    else if k == 5 then (if i.answerOriginKind then [NumberField(DTAG_ANSWER_ORIGIN_KIND, 1)] else [])
    else if k == 6 then (if i.scope >= 0 then [NumberField(DTAG_SCOPE, i.scope)] else [])
    else if k == 7 then
      (if i.lifetime != 0 then [Dtag(DTAG_INTEREST_LIFETIME, [], [Blob(TimestampBytes(i.lifetime))])] else [])
    else if k == 8 then (if i.nonce > 0 then [TaggedBlob(DTAG_NONCE, LittleEndian(i.nonce))] else [])
    else if k == 9 then (if i.nack > 0 then [NumberField(DTAG_NACK, i.nack)] else [])
    else []
  }

  function FieldsFrom(i: Interest, k: nat): (ts: seq<Block>)
    requires i.name.Some? && i.lifetime >= 0 && k <= 10
    decreases 10 - k, i
  {
    if k == 10 then [] else Field(i, k) + FieldsFrom(i, k + 1)
  }

  function InterestTree(i: Interest): (t: Block)
    requires i.name.Some? && i.lifetime >= 0
  {
    Dtag(DTAG_INTEREST, [], FieldsFrom(i, 0))
  }

  lemma FieldPrintable(i: Interest, k: nat)
    requires i.name.Some? && i.lifetime >= 0
    ensures forall j :: 0 <= j < |Field(i, k)| ==> Printable(Field(i, k)[j])
  {
    if k == 0 {
      assert forall t :: t in ComponentTrees(i.name.value) ==> Printable(t);
    } else if k == 3 && HasExclude(i) {
      assert forall t :: t in ComponentTrees(i.exclude.value) ==> Printable(t);
    }
  }

  lemma {:induction false} FieldsPrintable(i: Interest, k: nat)
    requires i.name.Some? && i.lifetime >= 0 && k <= 10
    ensures forall j :: 0 <= j < |FieldsFrom(i, k)| ==> Printable(FieldsFrom(i, k)[j])
    decreases 10 - k
  {
    if k < 10 {
      FieldsPrintable(i, k + 1);
      FieldPrintable(i, k);
    }
  }

  //////////////////// visiting ////////////////////

  function NumberOf(t: Block): (n: Option<u32>)
    ensures n.Some? ==> n.value <= INT32_MAX
  {
    if t.Udata? && StreamInt32(t.data) >= 0 then Some(StreamInt32(t.data)) else None
  }

  function TextOf(t: Block): Option<seq<byte>> {
    if t.Blob? || t.Udata? then Some(t.data) else None
  }

  function NonceOf(t: Block): Option<u32> {
    if t.Blob? && |t.data| >= 4 then
      var d: seq<int> := t.data;
      Some(d[0] + d[1] * 0x100 + d[2] * 0x1_0000 + d[3] * 0x100_0000)
    else None
  }

  function LifetimeOf(t: Block, signedChar: bool): Option<int> {
    if t.Blob? && |t.data| >= 2 then Some(DecodeTimestamp(t.data, signedChar)) else None
  }

  /** Appends the components found in `t`. */
  function AddComponents(t: Block, name: Name): Option<Name>
    decreases t
  {
    match t
    case Dtag(dtag, _, nested) =>
      if dtag != DTAG_COMPONENT then Some(name)
      else if |nested| != 1 then None
      else (match TextOf(nested[0]) case None => None case Some(c) => Some(name + [c]))
    case Tag(_, attrs, nested) =>
      (match AddAllComponents(attrs, name)
       case None => None
       case Some(n) => AddAllComponents(nested, n))
    case _ => Some(name)
  }

  function AddAllComponents(ts: seq<Block>, name: Name): Option<Name>
    decreases ts
  {
    if ts == [] then Some(name)
    else match AddComponents(ts[0], name) case None => None case Some(n) => AddAllComponents(ts[1..], n)
  }

  /** Conversion to a signed 8-bit field keeps the low byte. */
  function ToInt8(n: u32): (r: int8)
    ensures n < 128 ==> r == n
  {
    var low := n % 256;
    if low < 128 then low else low - 256
  }

  /** Reads the single number nested in a field. */
  function FieldNumber(nested: seq<Block>): (n: Option<u32>)
    ensures n.Some? ==> n.value <= INT32_MAX
  {
    if |nested| != 1 then None else NumberOf(nested[0])
  }

  function VisitField(dtag: u32, nested: seq<Block>, i: Interest, signedChar: bool): Option<Interest> {
    if dtag == DTAG_NAME then
      match AddAllComponents(nested, []) case None => None case Some(n) => Some(i.(name := Some(n)))
    else if dtag == DTAG_MIN_SUFFIX_COMPONENTS then
      match FieldNumber(nested) case None => None case Some(v) => Some(i.(minSuffix := v))
    else if dtag == DTAG_MAX_SUFFIX_COMPONENTS then
      match FieldNumber(nested) case None => None case Some(v) => Some(i.(maxSuffix := v))
    else if dtag == DTAG_EXCLUDE then
      match AddAllComponents(nested, []) case None => None case Some(n) => Some(i.(exclude := Some(n)))
    else if dtag == DTAG_CHILD_SELECTOR then
      match FieldNumber(nested) case None => None case Some(v) => Some(i.(childSelector := v == 1))
    else if dtag == DTAG_ANSWER_ORIGIN_KIND then
      match FieldNumber(nested) case None => None case Some(v) => Some(i.(answerOriginKind := v == 1))
    else if dtag == DTAG_SCOPE then
      match FieldNumber(nested) case None => None case Some(v) => Some(i.(scope := ToInt8(v)))
    else if dtag == DTAG_INTEREST_LIFETIME then
      if |nested| != 1 then None
      else match LifetimeOf(nested[0], signedChar) case None => None case Some(v) => Some(i.(lifetime := v))
    else if dtag == DTAG_NONCE then
      if |nested| != 1 then None
      else match NonceOf(nested[0]) case None => None case Some(v) => Some(i.(nonce := v))
    else if dtag == DTAG_NACK then
      match FieldNumber(nested) case None => None case Some(v) => Some(i.(nack := v))
    else Some(i)
  }

  function Visit(t: Block, i: Interest, signedChar: bool): Option<Interest>
    decreases t
  {
    match t
    case Dtag(dtag, _, nested) =>
      if dtag == DTAG_INTEREST then VisitAll(nested, i, signedChar) else VisitField(dtag, nested, i, signedChar)
    case Tag(_, attrs, nested) =>
      (match VisitAll(attrs, i, signedChar)
       case None => None
       case Some(j) => VisitAll(nested, j, signedChar))
    case _ => Some(i)
  }

  function VisitAll(ts: seq<Block>, i: Interest, signedChar: bool): Option<Interest>
    decreases ts
  {
    if ts == [] then Some(i)
    else match Visit(ts[0], i, signedChar) case None => None case Some(j) => VisitAll(ts[1..], j, signedChar)
  }

  /** A decoded packet: parse, then visit into a fresh header. */
  function Deserialize(b: seq<byte>, signedChar: bool): Option<Interest> {
    match ParseBlock(b, 0)
    case Failed => None
    case Parsed(t, _) => Visit(t, DEFAULT, signedChar)
  }

  //////////////////// round trip ////////////////////

  ghost predicate NonEmpty(name: Name) {
    forall k :: 0 <= k < |name| ==> name[k] != []
  }

  /** The visitor accepts the first `k` fields: no name component among them is empty. */
  ghost predicate FieldsAccepted(i: Interest, k: nat) {
    && (k > 0 && i.name.Some? ==> NonEmpty(i.name.value))
    && (k > 3 && i.exclude.Some? ==> NonEmpty(i.exclude.value))
  }

  /** Unset fields in the form a fresh header has them. */
  function Normalize(i: Interest): Interest {
    i.(minSuffix := if i.minSuffix >= 0 then i.minSuffix else -1,
       maxSuffix := if i.maxSuffix >= 0 then i.maxSuffix else -1,
       exclude := if HasExclude(i) then i.exclude else None,
       scope := if i.scope >= 0 then i.scope else -1)
  }

  /** What arrives: numbers are cut at the largest int32 and the lifetime goes through
      its 12-bit fraction. */
  function Received(i: Interest, signedChar: bool): Interest
    requires i.lifetime >= 0
  {
    Normalize(i).(lifetime := if i.lifetime == 0 then 0 else RoundTrip(i.lifetime, signedChar),
                  nack := if i.nack <= INT32_MAX then i.nack else INT32_MAX)
  }

  lemma {:induction false} ComponentsRoundTrip(name: Name, done: Name)
    ensures AddAllComponents(ComponentTrees(name), done) == if NonEmpty(name) then Some(done + name) else None
  {
    var ts := ComponentTrees(name);
    if name == [] {
      assert done + name == done;
    } else {
      assert ts[0] == TaggedBlob(DTAG_COMPONENT, name[0]) && ts[1..] == ComponentTrees(name[1..]);
      if name[0] != [] {
        ComponentsRoundTrip(name[1..], done + [name[0]]);
        assert done + [name[0]] + name[1..] == done + name;
        assert NonEmpty(name) <==> NonEmpty(name[1..]);
      }
    }
  }

  lemma NonceRoundTrip(n: u32)
    ensures NonceOf(Blob(LittleEndian(n))) == Some(n)
  {
    assert n == n / 256 * 256 + n % 256;
    assert n / 256 == n / 0x1_0000 * 256 + n / 256 % 256;
    assert n / 0x1_0000 == n / 0x100_0000 * 256 + n / 0x1_0000 % 256;
  }

  /** A fresh header with the first `k` fields of `r`. */
  function Partial(r: Interest, k: nat): Interest {
    Interest(
      if k > 0 then r.name else None, if k > 1 then r.minSuffix else -1, if k > 2 then r.maxSuffix else -1,
      if k > 3 then r.exclude else None, k > 4 && r.childSelector, k > 5 && r.answerOriginKind,
      if k > 6 then r.scope else -1, if k > 7 then r.lifetime else 0, if k > 8 then r.nonce else 0,
      if k > 9 then r.nack else 0)
  }

  /** `r` is what arrives of `i`, apart from the value of a lifetime that is set. */
  ghost predicate Arrives(i: Interest, r: Interest) {
    && r == Normalize(i).(lifetime := r.lifetime, nack := if i.nack <= INT32_MAX then i.nack else INT32_MAX)
    && (i.lifetime == 0 ==> r.lifetime == 0)
  }

  ghost predicate LifetimeArrives(i: Interest, r: Interest, signedChar: bool)
    requires i.lifetime >= 0
  {
    i.lifetime != 0 ==> r.lifetime == RoundTrip(i.lifetime, signedChar)
  }

  lemma VisitNumberField(dtag: u32, n: u32)
    ensures FieldNumber(NumberField(dtag, n).nested) == Some(if n <= INT32_MAX then n else INT32_MAX)
  {
    NumberRoundTrip(n);
  }

  lemma VisitOne(t: Block, i: Interest, signedChar: bool)
    ensures VisitAll([t], i, signedChar) == Visit(t, i, signedChar)
  {
    assert [t][1..] == [];
  }

  lemma NameFieldRoundTrip(i: Interest, r: Interest, k: nat, signedChar: bool)
    requires i.name.Some? && i.lifetime >= 0 && Arrives(i, r) && (k == 0 || k == 3) && FieldsAccepted(i, k)
    ensures VisitAll(Field(i, k), Partial(r, k), signedChar) ==
      if FieldsAccepted(i, k + 1) then Some(Partial(r, k + 1)) else None
  {
    if Field(i, k) != [] {
      var name := if k == 0 then i.name.value else i.exclude.value;
      VisitOne(Field(i, k)[0], Partial(r, k), signedChar);
      ComponentsRoundTrip(name, []);
      assert [] + name == name;
    }
  }

  lemma CountFieldRoundTrip(i: Interest, r: Interest, k: nat, signedChar: bool)
    requires i.name.Some? && i.lifetime >= 0 && Arrives(i, r) && (k == 1 || k == 2)
    ensures VisitAll(Field(i, k), Partial(r, k), signedChar) == Some(Partial(r, k + 1))
  {
    if Field(i, k) != [] {
      VisitOne(Field(i, k)[0], Partial(r, k), signedChar);
      VisitNumberField(Field(i, k)[0].dtag, if k == 1 then i.minSuffix else i.maxSuffix);
    }
  }

  lemma FlagFieldRoundTrip(i: Interest, r: Interest, k: nat, signedChar: bool)
    requires i.name.Some? && i.lifetime >= 0 && Arrives(i, r) && (k == 4 || k == 5)
    ensures VisitAll(Field(i, k), Partial(r, k), signedChar) == Some(Partial(r, k + 1))
  {
    if Field(i, k) != [] {
      VisitOne(Field(i, k)[0], Partial(r, k), signedChar);
      VisitNumberField(Field(i, k)[0].dtag, 1);
    }
  }

  lemma ScopeFieldRoundTrip(i: Interest, r: Interest, signedChar: bool)
    requires i.name.Some? && i.lifetime >= 0 && Arrives(i, r)
    ensures VisitAll(Field(i, 6), Partial(r, 6), signedChar) == Some(Partial(r, 7))
  {
    if i.scope >= 0 {
      VisitOne(NumberField(DTAG_SCOPE, i.scope), Partial(r, 6), signedChar);
      VisitNumberField(DTAG_SCOPE, i.scope);
    }
  }

  lemma NackFieldRoundTrip(i: Interest, r: Interest, signedChar: bool)
    requires i.name.Some? && i.lifetime >= 0 && Arrives(i, r)
    ensures VisitAll(Field(i, 9), Partial(r, 9), signedChar) == Some(Partial(r, 10))
  {
    if i.nack > 0 {
      VisitOne(NumberField(DTAG_NACK, i.nack), Partial(r, 9), signedChar);
      VisitNumberField(DTAG_NACK, i.nack);
    }
  }

  lemma VisitLifetime(blob: seq<byte>, r: Interest, signedChar: bool)
    requires |blob| >= 2 && r.lifetime == DecodeTimestamp(blob, signedChar)
    ensures VisitAll([Dtag(DTAG_INTEREST_LIFETIME, [], [Blob(blob)])], Partial(r, 7), signedChar) == Some(Partial(r, 8))
  {
    VisitOne(Dtag(DTAG_INTEREST_LIFETIME, [], [Blob(blob)]), Partial(r, 7), signedChar);
  }

  lemma VisitNonce(data: seq<byte>, n: u32, j: Interest, signedChar: bool)
    requires |data| > 0 && NonceOf(Blob(data)) == Some(n)
    ensures Visit(TaggedBlob(DTAG_NONCE, data), j, signedChar) == Some(j.(nonce := n))
  {
  }

  lemma LifetimeFieldRoundTrip(i: Interest, r: Interest, signedChar: bool)
    requires i.name.Some? && i.lifetime >= 0 && Arrives(i, r) && LifetimeArrives(i, r, signedChar)
    ensures VisitAll(Field(i, 7), Partial(r, 7), signedChar) == Some(Partial(r, 8))
  {
    if i.lifetime != 0 {
      VisitLifetime(TimestampBytes(i.lifetime), r, signedChar);
    }
  }

  lemma NonceFieldRoundTrip(i: Interest, r: Interest, signedChar: bool)
    requires i.name.Some? && i.lifetime >= 0 && Arrives(i, r)
    ensures VisitAll(Field(i, 8), Partial(r, 8), signedChar) == Some(Partial(r, 9))
  {
    if i.nonce > 0 {
      var data := LittleEndian(i.nonce);
      NonceRoundTrip(i.nonce);
      VisitOne(TaggedBlob(DTAG_NONCE, data), Partial(r, 8), signedChar);
      VisitNonce(data, i.nonce, Partial(r, 8), signedChar);
    }
  }

  lemma FieldRoundTrip(i: Interest, r: Interest, k: nat, signedChar: bool)
    requires i.name.Some? && i.lifetime >= 0 && Arrives(i, r) && LifetimeArrives(i, r, signedChar)
    requires k < 10 && FieldsAccepted(i, k)
    ensures VisitAll(Field(i, k), Partial(r, k), signedChar) ==
      if FieldsAccepted(i, k + 1) then Some(Partial(r, k + 1)) else None
  {
    if k == 0 || k == 3 {
      NameFieldRoundTrip(i, r, k, signedChar);
    } else if k <= 2 {
      CountFieldRoundTrip(i, r, k, signedChar);
    } else if k <= 5 {
      FlagFieldRoundTrip(i, r, k, signedChar);
    } else if k == 6 {
      ScopeFieldRoundTrip(i, r, signedChar);
    } else if k == 7 {
      LifetimeFieldRoundTrip(i, r, signedChar);
    } else if k == 8 {
      NonceFieldRoundTrip(i, r, signedChar);
    } else {
      NackFieldRoundTrip(i, r, signedChar);
    }
  }

  lemma {:induction false} VisitAllConcat(ts: seq<Block>, us: seq<Block>, i: Interest, signedChar: bool)
    ensures VisitAll(ts + us, i, signedChar) ==
      match VisitAll(ts, i, signedChar) case None => None case Some(j) => VisitAll(us, j, signedChar)
  {
    if ts == [] {
      assert ts + us == us;
    } else {
      assert (ts + us)[1..] == ts[1..] + us;
      match Visit(ts[0], i, signedChar)
      case None =>
      case Some(j) => VisitAllConcat(ts[1..], us, j, signedChar);
    }
  }

  lemma {:induction false} FieldsRoundTrip(i: Interest, r: Interest, k: nat, signedChar: bool)
    requires i.name.Some? && i.lifetime >= 0 && Arrives(i, r) && LifetimeArrives(i, r, signedChar)
    requires k <= 10 && FieldsAccepted(i, k)
    ensures VisitAll(FieldsFrom(i, k), Partial(r, k), signedChar) ==
      if FieldsAccepted(i, 10) then Some(Partial(r, 10)) else None
    decreases 10 - k
  {
    if k < 10 {
      FieldRoundTrip(i, r, k, signedChar);
      VisitAllConcat(Field(i, k), FieldsFrom(i, k + 1), Partial(r, k), signedChar);
      if FieldsAccepted(i, k + 1) {
        FieldsRoundTrip(i, r, k + 1, signedChar);
      }
    }
  }

  function InterestBytes(i: Interest): (s: seq<byte>)
    requires i.name.Some? && i.lifetime >= 0
  {
    Print(InterestTree(i))
  }

  /** Parsing a serialised interest, whatever follows it in the buffer: it is rejected
      exactly when a name component is empty, and otherwise arrives as `Received` says;
      parsing stops right behind it. */
  lemma InterestRoundTrip(i: Interest, rest: seq<byte>, signedChar: bool)
    requires i.name.Some? && i.lifetime >= 0 && |InterestBytes(i) + rest| <= BUFLEN
    ensures Deserialize(InterestBytes(i) + rest, signedChar) ==
      if FieldsAccepted(i, 10) then Some(Received(i, signedChar)) else None
    ensures ParseBlock(InterestBytes(i) + rest, 0) == Parsed(InterestTree(i), |InterestBytes(i)|)
  {
    var b := InterestBytes(i) + rest;
    FieldsPrintable(i, 0);
    assert b[0..|InterestBytes(i)|] == InterestBytes(i);
    ParsePrint(b, 0, InterestTree(i));
    var r := Received(i, signedChar);
    FieldsRoundTrip(i, r, 0, signedChar);
    assert Partial(r, 0) == DEFAULT && Partial(r, 10) == r;
  }

  /** For lifetimes of whole seconds: the exact interests that survive the trip unchanged,
      up to the form of unset fields. */
  lemma WholeSecondInterestRoundTrip(i: Interest, seconds: nat, rest: seq<byte>, signedChar: bool)
    requires i.name.Some? && i.lifetime == seconds * MICROS && |InterestBytes(i) + rest| <= BUFLEN
    ensures Deserialize(InterestBytes(i) + rest, signedChar) == Some(Normalize(i)) <==>
      FieldsAccepted(i, 10) && i.nack <= INT32_MAX && Fits(seconds)
  {
    InterestRoundTrip(i, rest, signedChar);
    WholeSecondsExact(seconds, signedChar);
  }

  /** Every serialised interest starts with the two bytes that mark an interest. */
  lemma InterestMarker(i: Interest)
    requires i.name.Some? && i.lifetime >= 0
    ensures InterestBytes(i)[..2] == [0x01, 0xD2]
  {
    assert Continuation(1) == Continuation(0) + [1];
    assert HeaderBytes(DTAG_INTEREST, CCN_DTAG) == [0x01, 0xD2];
  }
}
