/**
 * Operational certificates in their TLV form (section 6.5 of the Matter Core Specification): encoder, decoder
 * for every input, and exactly which certificates the two give back. Strings are their bytes.
 */
module Certificate {
  import opened Bytes
  import opened TlvFormat
  import opened TlvTree
  import opened TlvReader
  import opened TlvWriter
  import opened TlvLoop
  import opened TlvWalk

  /** An attribute of a name; which of text and value counts depends on the kind. */
  datatype Attr = Attr(tag: byte, isString: bool, printable: bool, text: seq<byte>, value: uint64)

  datatype Basic = Basic(isCA: bool, pathLen: Option<byte>)

  datatype Extensions = Extensions(basic: Option<Basic>, keyUsage: Option<uint16>, extKeyUsage: Option<seq<byte>>,
                                   subjectKey: Option<seq<byte>>, authorityKey: Option<seq<byte>>)

  datatype Cert = Cert(serial: seq<byte>, sigAlgo: uint64, issuer: seq<Attr>, notBefore: uint32, notAfter: uint32,
                       subject: seq<Attr>, keyAlgo: uint64, curve: uint64, publicKey: seq<byte>, ext: Extensions,
                       signature: seq<byte>)

  datatype CertError =
    | NotAStructure | NotAList | NotAnArray | NotContext | UnknownTag | BadAttribute | WrongType | TooLarge | NotEntered
    | BadTlv(e: Error)

  // ---------------------------------------------------------------------- names

  const NODE_ID: byte := 17
  const FABRIC_ID: byte := 21

  /** The number of the first attribute with the tag that is no string. */
  function NumberUnder(attrs: seq<Attr>, tag: byte): (r: Option<uint64>)
    ensures r == None <==> forall a :: a in attrs ==> a.tag != tag || a.isString
  {
    if attrs == [] then None
    else if attrs[0].tag == tag && !attrs[0].isString then Some(attrs[0].value)
    else NumberUnder(attrs[1..], tag)
  }

  method FindNumber(attrs: seq<Attr>, tag: byte) returns (r: Option<uint64>)
    ensures r == NumberUnder(attrs, tag)
  {
    for i := 0 to |attrs|
      invariant NumberUnder(attrs, tag) == NumberUnder(attrs[i..], tag)
    {
      if attrs[i].tag == tag && !attrs[i].isString { return Some(attrs[i].value); }
    }
    r := None;
  }

  // ---------------------------------------------------------------------- the tree

  const PRINTABLE: byte := 0x80

  /** The tag on the wire: a printable string has the flag set. */
  function AttrTag(a: Attr): byte {
    if a.isString && a.printable && a.tag < PRINTABLE then a.tag + PRINTABLE else a.tag
  }

  function AttrLeaf(a: Attr): Element { Leaf(Ctx(AttrTag(a)), if a.isString then Text(a.text) else Uint(a.value)) }

  function AttrLeaves(attrs: seq<Attr>): (es: seq<Element>)
    ensures |es| == |attrs| && forall i :: 0 <= i < |es| ==> es[i] == AttrLeaf(attrs[i])
  {
    seq(|attrs|, i requires 0 <= i < |attrs| => AttrLeaf(attrs[i]))
  }

  function BasicMembers(b: Basic): seq<Element> {
    [Leaf(Ctx(1), Bool(b.isCA))] + if b.pathLen.Some? then [Leaf(Ctx(2), Uint(b.pathLen.value))] else []
  }

  function UsageLeaves(us: seq<byte>): (es: seq<Element>)
    ensures |es| == |us| && forall i :: 0 <= i < |es| ==> es[i] == Leaf(ANONYMOUS, Uint(us[i]))
  {
    seq(|us|, i requires 0 <= i < |us| => Leaf(ANONYMOUS, Uint(us[i])))
  }

  function BasicNode(x: Extensions): seq<Element> {
    if x.basic.Some? then [Node(Ctx(1), Structure, BasicMembers(x.basic.value))] else []
  }

  function UsageLeaf(x: Extensions): seq<Element> {
    if x.keyUsage.Some? then [Leaf(Ctx(2), Uint(x.keyUsage.value))] else []
  }

  function UsageNode(x: Extensions): seq<Element> {
    if x.extKeyUsage.Some? then [Node(Ctx(3), Array, UsageLeaves(x.extKeyUsage.value))] else []
  }

  function SubjectLeaf(x: Extensions): seq<Element> {
    if x.subjectKey.Some? then [Leaf(Ctx(4), Octets(x.subjectKey.value))] else []
  }

  function AuthorityLeaf(x: Extensions): seq<Element> {
    if x.authorityKey.Some? then [Leaf(Ctx(5), Octets(x.authorityKey.value))] else []
  }

  function ExtMembers(x: Extensions): seq<Element> {
    BasicNode(x) + UsageLeaf(x) + UsageNode(x) + SubjectLeaf(x) + AuthorityLeaf(x)
  }

  function CertMembers(c: Cert): seq<Element> {
    [Leaf(Ctx(1), Octets(c.serial)), Leaf(Ctx(2), Uint(c.sigAlgo)), Node(Ctx(3), List, AttrLeaves(c.issuer)),
     Leaf(Ctx(4), Uint(c.notBefore)), Leaf(Ctx(5), Uint(c.notAfter)), Node(Ctx(6), List, AttrLeaves(c.subject)),
     Leaf(Ctx(7), Uint(c.keyAlgo)), Leaf(Ctx(8), Uint(c.curve)), Leaf(Ctx(9), Octets(c.publicKey)),
     Node(Ctx(10), List, ExtMembers(c.ext)), Leaf(Ctx(11), Octets(c.signature))]
  }

  function CertBytes(c: Cert): seq<byte> { Enc(Node(ANONYMOUS, Structure, CertMembers(c))) }

  predicate Fits(b: seq<byte>) { |b| < 0x1_0000_0000_0000_0000 }

  predicate NamesFit(attrs: seq<Attr>) { forall a :: a in attrs ==> Fits(a.text) }

  /** Strings and octet strings as long as a Go slice can be. */
  predicate Storable(c: Cert) {
    && Fits(c.serial) && Fits(c.publicKey) && Fits(c.signature) && NamesFit(c.issuer) && NamesFit(c.subject)
    && (c.ext.subjectKey.Some? ==> Fits(c.ext.subjectKey.value)) && (c.ext.authorityKey.Some? ==> Fits(c.ext.authorityKey.value))
  }

  // ---------------------------------------------------------------------- encoding

  method PutScalars(w: Writer, t: Tag, v: Scalar)
    requires w.err == None && t.Writable() && v.Fits()
    modifies w
    ensures w.err == None && w.depth == old(w.depth) && w.buf == old(w.buf) + Enc(Leaf(t, v))
  {
    hide EncHead;
    PutScalar(w, t, v);
  }

  method EncodeName(w: Writer, listTag: byte, attrs: seq<Attr>)
    requires w.err == None && NamesFit(attrs)
    modifies w
    ensures w.err == None && w.depth == old(w.depth)
    ensures w.buf == old(w.buf) + Enc(Node(Ctx(listTag), List, AttrLeaves(attrs)))
  {
    hide EncHead, EncAll, Enc;
    w.Start(Ctx(listTag), List);
    ghost var start, es := w.buf, AttrLeaves(attrs);
    NothingYet(start, es);
    var i := 0;
    while i < |attrs|
      invariant 0 <= i <= |attrs| && w.err == None && w.depth == old(w.depth) + 1
      invariant w.buf == start + EncAll(es[..i])
    {
      var a := attrs[i];
      assert a in attrs;
      var t := a.tag;
      if a.isString {
        if a.printable && t < PRINTABLE { t := t + PRINTABLE; }
        PutScalars(w, Ctx(t), Text(a.text));
      } else {
        PutScalars(w, Ctx(t), Uint(a.value));
      }
      Appended(start, es, i);
      i := i + 1;
    }
    w.EndContainer();
    Closed(old(w.buf), Ctx(listTag), List, es);
  }

  method EncodeBasic(w: Writer, b: Basic)
    requires w.err == None
    modifies w
    ensures w.err == None && w.depth == old(w.depth)
    ensures w.buf == old(w.buf) + Enc(Node(Ctx(1), Structure, BasicMembers(b)))
  {
    hide EncHead, EncAll, Enc;
    w.Start(Ctx(1), Structure);
    ghost var start, es := w.buf, BasicMembers(b);
    NothingYet(start, es);
    PutScalars(w, Ctx(1), Bool(b.isCA));
    Appended(start, es, 0);
    if b.pathLen.Some? {
      PutScalars(w, Ctx(2), Uint(b.pathLen.value));
      Appended(start, es, 1);
    }
    w.EndContainer();
    Closed(old(w.buf), Ctx(1), Structure, es);
  }

  method EncodeUsages(w: Writer, us: seq<byte>)
    requires w.err == None
    modifies w
    ensures w.err == None && w.depth == old(w.depth)
    ensures w.buf == old(w.buf) + Enc(Node(Ctx(3), Array, UsageLeaves(us)))
  {
    hide EncHead, EncAll, Enc;
    w.Start(Ctx(3), Array);
    ghost var start, es := w.buf, UsageLeaves(us);
    NothingYet(start, es);
    var i := 0;
    while i < |us|
      invariant 0 <= i <= |us| && w.err == None && w.depth == old(w.depth) + 1
      invariant w.buf == start + EncAll(es[..i])
    {
      PutScalars(w, ANONYMOUS, Uint(us[i]));
      Appended(start, es, i);
      i := i + 1;
    }
    w.EndContainer();
    Closed(old(w.buf), Ctx(3), Array, es);
  }

  method EncodeUses(w: Writer, x: Extensions)
    requires w.err == None
    modifies w
    ensures w.err == None && w.depth == old(w.depth)
    ensures w.buf == old(w.buf) + EncAll(BasicNode(x) + UsageLeaf(x) + UsageNode(x))
  {
    hide EncHead, EncAll, Enc, BasicMembers;
    ghost var start := w.buf;
    NoneYet(start);
    if x.basic.Some? { EncodeBasic(w, x.basic.value); }
    MaybeAppended(start, [], BasicNode(x), w.buf);
    assert [] + BasicNode(x) == BasicNode(x);
    if x.keyUsage.Some? { PutScalars(w, Ctx(2), Uint(x.keyUsage.value)); }
    MaybeAppended(start, BasicNode(x), UsageLeaf(x), w.buf);
    if x.extKeyUsage.Some? { EncodeUsages(w, x.extKeyUsage.value); }
    MaybeAppended(start, BasicNode(x) + UsageLeaf(x), UsageNode(x), w.buf);
  }

  method EncodeKeys(w: Writer, x: Extensions, ghost start: seq<byte>, ghost before: seq<Element>)
    requires w.err == None && w.buf == start + EncAll(before)
    requires (x.subjectKey.Some? ==> Fits(x.subjectKey.value)) && (x.authorityKey.Some? ==> Fits(x.authorityKey.value))
    modifies w
    ensures w.err == None && w.depth == old(w.depth)
    ensures w.buf == start + EncAll(before + SubjectLeaf(x) + AuthorityLeaf(x))
  {
    hide EncHead, EncAll, Enc;
    if x.subjectKey.Some? { PutScalars(w, Ctx(4), Octets(x.subjectKey.value)); }
    MaybeAppended(start, before, SubjectLeaf(x), w.buf);
    if x.authorityKey.Some? { PutScalars(w, Ctx(5), Octets(x.authorityKey.value)); }
    MaybeAppended(start, before + SubjectLeaf(x), AuthorityLeaf(x), w.buf);
  }

  lemma NoneYet(start: seq<byte>)
    ensures start + EncAll([]) == start
  {
  }

  /** Putting an element, if it is there, behind the others. */
  lemma MaybeAppended(start: seq<byte>, before: seq<Element>, more: seq<Element>, buf: seq<byte>)
    requires |more| <= 1 && buf == start + EncAll(before) + if more == [] then [] else Enc(more[0])
    ensures buf == start + EncAll(before + more)
  {
    hide Enc, EncAll;
    if more == [] {
      assert before + more == before;
    } else {
      assert before + more == before + [more[0]];
      EncAllSnoc(before, more[0]);
    }
  }

  method EncodeExtensions(w: Writer, x: Extensions)
    requires w.err == None
    requires (x.subjectKey.Some? ==> Fits(x.subjectKey.value)) && (x.authorityKey.Some? ==> Fits(x.authorityKey.value))
    modifies w
    ensures w.err == None && w.depth == old(w.depth)
    ensures w.buf == old(w.buf) + Enc(Node(Ctx(10), List, ExtMembers(x)))
  {
    hide EncHead, EncAll, Enc, BasicNode, UsageLeaf, UsageNode, SubjectLeaf, AuthorityLeaf;
    w.Start(Ctx(10), List);
    ghost var start, es := w.buf, ExtMembers(x);
    EncodeUses(w, x);
    EncodeKeys(w, x, start, BasicNode(x) + UsageLeaf(x) + UsageNode(x));
    w.EndContainer();
    Closed(old(w.buf), Ctx(10), List, es);
    assert es[..|es|] == es;
  }

  method Encode(c: Cert) returns (b: seq<byte>)
    requires Storable(c)
    ensures b == CertBytes(c)
  {
    hide EncHead, EncAll, Enc, ExtMembers, NamesFit;
    var w := new Writer();
    w.Start(ANONYMOUS, Structure);
    ghost var start, es := w.buf, CertMembers(c);
    NothingYet(start, es);
    PutScalars(w, Ctx(1), Octets(c.serial));
    Appended(start, es, 0);
    PutScalars(w, Ctx(2), Uint(c.sigAlgo));
    Appended(start, es, 1);
    EncodeName(w, 3, c.issuer);
    Appended(start, es, 2);
    PutScalars(w, Ctx(4), Uint(c.notBefore));
    Appended(start, es, 3);
    PutScalars(w, Ctx(5), Uint(c.notAfter));
    Appended(start, es, 4);
    EncodeName(w, 6, c.subject);
    Appended(start, es, 5);
    EncodeRest(w, c, start);
    w.EndContainer();
    Closed([], ANONYMOUS, Structure, es);
    var bytes := w.Finish();
    b := bytes.value;
  }

  method EncodeRest(w: Writer, c: Cert, ghost start: seq<byte>)
    requires w.err == None && Storable(c) && w.buf == start + EncAll(CertMembers(c)[..6])
    modifies w
    ensures w.err == None && w.depth == old(w.depth)
    ensures w.buf == start + EncAll(CertMembers(c)[..|CertMembers(c)|])
  {
    hide EncHead, EncAll, Enc, ExtMembers, NamesFit;
    ghost var es := CertMembers(c);
    PutScalars(w, Ctx(7), Uint(c.keyAlgo));
    Appended(start, es, 6);
    PutScalars(w, Ctx(8), Uint(c.curve));
    Appended(start, es, 7);
    PutScalars(w, Ctx(9), Octets(c.publicKey));
    Appended(start, es, 8);
    EncodeExtensions(w, c.ext);
    Appended(start, es, 9);
    PutScalars(w, Ctx(11), Octets(c.signature));
    Appended(start, es, 10);
  }

  // ---------------------------------------------------------------------- decoding

  predicate IsKind(v: View, k: Kind) { HasCurrent(v) && v.cur.value.item == Open(k) }

  function AttrField(attrs: seq<Attr>, v: View): Result<seq<Attr>, CertError> {
    if !HasCurrent(v) then Ok(attrs)
    else if v.cur.value.tag.kind != Context || NumHere(v) > 0xFF then Err(BadAttribute)
    else if v.cur.value.item.Value? && v.cur.value.item.scalar.Text? then
      Ok(attrs + [Attr(NumHere(v) % PRINTABLE, true, NumHere(v) >= PRINTABLE, v.cur.value.item.scalar.text, 0)])
    else if v.cur.value.item.Value? && v.cur.value.item.scalar.Uint? then
      Ok(attrs + [Attr(NumHere(v) % PRINTABLE, false, false, [], v.cur.value.item.scalar.u)])
    else Err(WrongType)
  }

  function AttrStep(): (seq<Attr>, View) -> Done<seq<Attr>, CertError> { (attrs, v) => Done(AttrField(attrs, v), v) }

  function NameDecoded(data: seq<byte>, v: View): (d: Done<seq<Attr>, CertError>)
    requires Within(data, v)
    ensures Within(data, d.v) && Onward(v, d.v)
  {
    if !IsKind(v, List) then Done(Err(NotAList), v) else Inside(data, v, [], NotEntered, AttrStep())
  }

  method DecodeAttr(r: Reader, attrs: seq<Attr>) returns (res: Result<seq<Attr>, CertError>)
    requires r.Valid() && HasCurrent(r.View())
    ensures res == AttrField(attrs, r.View())
  {
    var t := r.tag;
    if t.kind != Context || t.num > 0xFF { return Err(BadAttribute); }
    var base, flag := t.num % PRINTABLE, t.num >= PRINTABLE;
    if r.typ == TypeString { return Ok(attrs + [Attr(base, true, flag, r.b, 0)]); }
    if r.typ == TypeUint { return Ok(attrs + [Attr(base, false, false, [], r.u)]); }
    res := Err(WrongType);
  }

  method DecodeName(r: Reader) returns (res: Result<seq<Attr>, CertError>)
    requires r.Valid() && HasCurrent(r.View())
    modifies r
    ensures r.Valid() && Done(res, r.View()) == NameDecoded(r.data, old(r.View()))
  {
    hide NextView, ItemFields, AttrField;
    KindHere(r);
    if r.typ != TypeList { return Err(NotAList); }
    var ok := r.Enter();
    if !ok { return Err(NotEntered); }
    var attrs := [];
    var more := r.Next();
    while more
      invariant r.Valid() && more == HasCurrent(r.View())
      invariant Each(r.data, r.View(), attrs, AttrStep()) == NameDecoded(r.data, old(r.View()))
      decreases more, |r.data| - r.pos
    {
      var field := DecodeAttr(r, attrs);
      if field.Err? { return Err(field.error); }
      attrs := field.value;
      more := r.Next();
    }
    res := Ok(attrs);
  }

  function BasicField(b: Basic, v: View): Result<Basic, CertError> {
    if !HasCurrent(v) then Ok(b)
    else if NumHere(v) == 1 then if BoolHere(v).None? then Err(WrongType) else Ok(b.(isCA := BoolHere(v).value))
    else if NumHere(v) == 2 then
      if UintHere(v, 0x100).None? then Err(WrongType) else Ok(b.(pathLen := Some(UintHere(v, 0x100).value)))
    else Ok(b)
  }

  function BasicStep(): (Basic, View) -> Done<Basic, CertError> { (b, v) => Done(BasicField(b, v), v) }

  const NO_BASIC := Basic(false, None)

  function BasicDecoded(data: seq<byte>, v: View): (d: Done<Basic, CertError>)
    requires Within(data, v)
    ensures Within(data, d.v) && Onward(v, d.v)
  {
    if !IsKind(v, Structure) then Done(Err(NotAStructure), v) else Inside(data, v, NO_BASIC, NotEntered, BasicStep())
  }

  method DecodeBasic(r: Reader) returns (res: Result<Basic, CertError>)
    requires r.Valid() && HasCurrent(r.View())
    modifies r
    ensures r.Valid() && Done(res, r.View()) == BasicDecoded(r.data, old(r.View()))
  {
    hide NextView, ItemFields;
    KindHere(r);
    if r.typ != TypeStructure { return Err(NotAStructure); }
    var ok := r.Enter();
    if !ok { return Err(NotEntered); }
    var b := NO_BASIC;
    var more := r.Next();
    while more
      invariant r.Valid() && more == HasCurrent(r.View())
      invariant Each(r.data, r.View(), b, BasicStep()) == BasicDecoded(r.data, old(r.View()))
      decreases more, |r.data| - r.pos
    {
      if r.tag.num == 1 {
        var v := BoolField(r);
        if v.None? { return Err(WrongType); }
        b := b.(isCA := v.value);
      } else if r.tag.num == 2 {
        var v := UintField(r, 0x100);
        if v.None? { return Err(WrongType); }
        b := b.(pathLen := Some(v.value));
      }
      more := r.Next();
    }
    res := Ok(b);
  }

  function UsageField(us: seq<byte>, v: View): Result<seq<byte>, CertError> {
    if UintHere(v, 0x100).None? then Err(WrongType) else Ok(us + [UintHere(v, 0x100).value])
  }

  function UsageStep(): (seq<byte>, View) -> Done<seq<byte>, CertError> { (us, v) => Done(UsageField(us, v), v) }

  function UsagesDecoded(data: seq<byte>, v: View): (d: Done<seq<byte>, CertError>)
    requires Within(data, v)
    ensures Within(data, d.v) && Onward(v, d.v)
  {
    if !IsKind(v, Array) then Done(Err(NotAnArray), v) else Inside(data, v, [], NotEntered, UsageStep())
  }

  method DecodeUsages(r: Reader) returns (res: Result<seq<byte>, CertError>)
    requires r.Valid() && HasCurrent(r.View())
    modifies r
    ensures r.Valid() && Done(res, r.View()) == UsagesDecoded(r.data, old(r.View()))
  {
    hide NextView, ItemFields;
    KindHere(r);
    if r.typ != TypeArray { return Err(NotAnArray); }
    var ok := r.Enter();
    if !ok { return Err(NotEntered); }
    var us: seq<byte> := [];
    var more := r.Next();
    while more
      invariant r.Valid() && more == HasCurrent(r.View())
      invariant Each(r.data, r.View(), us, UsageStep()) == UsagesDecoded(r.data, old(r.View()))
      decreases more, |r.data| - r.pos
    {
      var v := UintField(r, 0x100);
      if v.None? { return Err(WrongType); }
      us := us + [v.value];
      more := r.Next();
    }
    res := Ok(us);
  }

  /** No usages at all and an empty list of them come out alike. */
  function Listed(us: seq<byte>): Option<seq<byte>> { if us == [] then None else Some(us) }

  function ExtField(data: seq<byte>, x: Extensions, v: View): (d: Done<Extensions, CertError>)
    requires Within(data, v)
    ensures Within(data, d.v) && Onward(v, d.v)
  {
    if !HasCurrent(v) then Done(Ok(x), v)
    else if NumHere(v) == 1 then
      var b := BasicDecoded(data, v);
      Done(if b.r.Err? then Err(b.r.error) else Ok(x.(basic := Some(b.r.value))), b.v)
    else if NumHere(v) == 2 then
      if UintHere(v, 0x1_0000).None? then Done(Err(WrongType), v)
      else Done(Ok(x.(keyUsage := Some(UintHere(v, 0x1_0000).value))), v)
    else if NumHere(v) == 3 then
      var us := UsagesDecoded(data, v);
      Done(if us.r.Err? then Err(us.r.error) else Ok(x.(extKeyUsage := Listed(us.r.value))), us.v)
    else if 4 <= NumHere(v) <= 6 then
      if BytesHere(v).None? then Done(Err(WrongType), v)
      else if NumHere(v) == 4 then Done(Ok(x.(subjectKey := Some(BytesHere(v).value))), v)
      else if NumHere(v) == 5 then Done(Ok(x.(authorityKey := Some(BytesHere(v).value))), v)
      else Done(Ok(x), v)
    else Done(Err(UnknownTag), v)
  }

  function ExtStep(data: seq<byte>): (Extensions, View) -> Done<Extensions, CertError> {
    (x, v) => if Within(data, v) then ExtField(data, x, v) else Done(Ok(x), v)
  }

  const NO_EXTENSIONS := Extensions(None, None, None, None, None)

  function ExtDecoded(data: seq<byte>, v: View): (d: Done<Extensions, CertError>)
    requires Within(data, v)
    ensures Within(data, d.v) && Onward(v, d.v)
  {
    if !IsKind(v, List) then Done(Err(NotAList), v) else Inside(data, v, NO_EXTENSIONS, NotEntered, ExtStep(data))
  }

  method DecodeExtension(r: Reader, x: Extensions) returns (res: Result<Extensions, CertError>)
    requires r.Valid() && HasCurrent(r.View())
    modifies r
    ensures r.Valid() && Done(res, r.View()) == ExtField(r.data, x, old(r.View()))
  {
    hide BasicDecoded, UsagesDecoded, ItemFields;
    var num := r.tag.num;
    if num == 1 {
      var b := DecodeBasic(r);
      return if b.Err? then Err(b.error) else Ok(x.(basic := Some(b.value)));
    }
    if num == 2 {
      var v := UintField(r, 0x1_0000);
      return if v.None? then Err(WrongType) else Ok(x.(keyUsage := Some(v.value)));
    }
    if num == 3 {
      var us := DecodeUsages(r);
      return if us.Err? then Err(us.error) else Ok(x.(extKeyUsage := Listed(us.value)));
    }
    if num == 0 || num > 6 { return Err(UnknownTag); }
    var b := BytesField(r);
    if b.None? { return Err(WrongType); }
    res := Ok(if num == 4 then x.(subjectKey := Some(b.value)) else if num == 5 then x.(authorityKey := Some(b.value)) else x);
  }

  method DecodeExtensions(r: Reader) returns (res: Result<Extensions, CertError>)
    requires r.Valid() && HasCurrent(r.View())
    modifies r
    ensures r.Valid() && Done(res, r.View()) == ExtDecoded(r.data, old(r.View()))
  {
    hide NextView, ItemFields, ExtField;
    KindHere(r);
    if r.typ != TypeList { return Err(NotAList); }
    var ok := r.Enter();
    if !ok { return Err(NotEntered); }
    var x := NO_EXTENSIONS;
    var more := r.Next();
    while more
      invariant r.Valid() && more == HasCurrent(r.View())
      invariant Each(r.data, r.View(), x, ExtStep(r.data)) == ExtDecoded(r.data, old(r.View()))
      decreases more, |r.data| - r.pos
    {
      var field := DecodeExtension(r, x);
      if field.Err? { return Err(field.error); }
      x := field.value;
      more := r.Next();
    }
    res := Ok(x);
  }

  /** A number of at most 32 bits; a larger one is refused, not cut. */
  function Time(v: View): Result<uint32, CertError> {
    var n := UintHere(v, 0x1_0000_0000_0000_0000);
    if n.None? then Err(WrongType) else if n.value > 0xFFFF_FFFF then Err(TooLarge) else Ok(n.value)
  }

  /** The fields of octets, by tag. */
  function WithOctets(c: Cert, num: nat, b: seq<byte>): Cert {
    if num == 1 then c.(serial := b) else if num == 9 then c.(publicKey := b) else c.(signature := b)
  }

  function WithNumber(c: Cert, num: nat, n: uint64): Cert {
    if num == 2 then c.(sigAlgo := n) else if num == 7 then c.(keyAlgo := n) else c.(curve := n)
  }

  function WithTime(c: Cert, num: nat, n: uint32): Cert {
    if num == 4 then c.(notBefore := n) else c.(notAfter := n)
  }

  function WithName(c: Cert, num: nat, attrs: seq<Attr>): Cert {
    if num == 3 then c.(issuer := attrs) else c.(subject := attrs)
  }

  function CertField(data: seq<byte>, c: Cert, v: View): (d: Done<Cert, CertError>)
    requires Within(data, v)
    ensures Within(data, d.v) && Onward(v, d.v)
  {
    if !HasCurrent(v) then Done(Ok(c), v)
    else if v.cur.value.tag.kind != Context then Done(Err(NotContext), v)
    else
      var num := NumHere(v);
      if num == 1 || num == 9 || num == 11 then
        Done(if BytesHere(v).None? then Err(WrongType) else Ok(WithOctets(c, num, BytesHere(v).value)), v)
      else if num == 2 || num == 7 || num == 8 then
        var n := UintHere(v, 0x1_0000_0000_0000_0000);
        Done(if n.None? then Err(WrongType) else Ok(WithNumber(c, num, n.value)), v)
      else if num == 4 || num == 5 then
        Done(if Time(v).Err? then Err(Time(v).error) else Ok(WithTime(c, num, Time(v).value)), v)
      else if num == 3 || num == 6 then
        var n := NameDecoded(data, v);
        Done(if n.r.Err? then Err(n.r.error) else Ok(WithName(c, num, n.r.value)), n.v)
      else if num == 10 then
        var x := ExtDecoded(data, v);
        Done(if x.r.Err? then Err(x.r.error) else Ok(c.(ext := x.r.value)), x.v)
      else Done(Err(UnknownTag), v)
  }

  function CertStep(data: seq<byte>): (Cert, View) -> Done<Cert, CertError> {
    (c, v) => if Within(data, v) then CertField(data, c, v) else Done(Ok(c), v)
  }

  const NO_CERT := Cert([], 0, [], 0, 0, [], 0, 0, [], NO_EXTENSIONS, [])

  function CertDecoded(b: seq<byte>): Result<Cert, CertError> {
    var d := Message(b, NO_CERT, NotAStructure, CertStep(b));
    if d.r.Ok? && d.v.Failed? then Err(BadTlv(d.v.error)) else d.r
  }

  method DecodeField(r: Reader, c: Cert) returns (res: Result<Cert, CertError>)
    requires r.Valid() && HasCurrent(r.View())
    modifies r
    ensures r.Valid() && Done(res, r.View()) == CertField(r.data, c, old(r.View()))
  {
    hide NameDecoded, ExtDecoded, ItemFields, WithOctets, WithNumber, WithTime, WithName;
    if r.tag.kind != Context { return Err(NotContext); }
    var num := r.tag.num;
    if num == 1 || num == 9 || num == 11 {
      var b := BytesField(r);
      return if b.None? then Err(WrongType) else Ok(WithOctets(c, num, b.value));
    }
    if num == 2 || num == 7 || num == 8 {
      var n := UintField(r, 0x1_0000_0000_0000_0000);
      return if n.None? then Err(WrongType) else Ok(WithNumber(c, num, n.value));
    }
    if num == 4 || num == 5 {
      var n := UintField(r, 0x1_0000_0000_0000_0000);
      if n.None? { return Err(WrongType); }
      return if n.value > 0xFFFF_FFFF then Err(TooLarge) else Ok(WithTime(c, num, n.value));
    }
    if num == 3 || num == 6 {
      var n := DecodeName(r);
      return if n.Err? then Err(n.error) else Ok(WithName(c, num, n.value));
    }
    if num == 10 {
      var x := DecodeExtensions(r);
      return if x.Err? then Err(x.error) else Ok(c.(ext := x.value));
    }
    res := Err(UnknownTag);
  }

  method Decode(b: seq<byte>) returns (res: Result<Cert, CertError>)
    ensures res == CertDecoded(b)
  {
    hide NextView, CertField, Opened, ItemFields;
    var r, ok := OpenStructure(b);
    if !ok { return Err(NotAStructure); }
    var c := NO_CERT;
    var more := r.Next();
    while more
      invariant r.Valid() && more == HasCurrent(r.View())
      invariant Each(b, r.View(), c, CertStep(b)) == Message(b, NO_CERT, NotAStructure, CertStep(b))
      decreases more, |b| - r.pos
    {
      var field := DecodeField(r, c);
      if field.Err? { return Err(field.error); }
      c := field.value;
      more := r.Next();
    }
    if r.err.Some? { return Err(BadTlv(r.err.value)); }
    res := Ok(c);
  }

  // ---------------------------------------------------------------------- round trip

  /** What an attribute is read as: the tag without the flag, and nothing in the field that does not count. */
  function AttrAsRead(a: Attr): Attr {
    if a.isString then Attr(AttrTag(a) % PRINTABLE, true, AttrTag(a) >= PRINTABLE, a.text, 0)
    else Attr(AttrTag(a) % PRINTABLE, false, false, [], a.value)
  }

  function NameAsRead(attrs: seq<Attr>): (r: seq<Attr>)
    ensures |r| == |attrs| && forall i :: 0 <= i < |r| ==> r[i] == AttrAsRead(attrs[i])
  {
    seq(|attrs|, i requires 0 <= i < |attrs| => AttrAsRead(attrs[i]))
  }

  function ExtAsRead(x: Extensions): Extensions {
    x.(extKeyUsage := if x.extKeyUsage.Some? then Listed(x.extKeyUsage.value) else None)
  }

  function AsRead(c: Cert): Cert {
    c.(issuer := NameAsRead(c.issuer), subject := NameAsRead(c.subject), ext := ExtAsRead(c.ext))
  }

  function Prefixes<T>(s: seq<T>): (ss: seq<seq<T>>)
    ensures |ss| == |s| + 1 && forall k :: 0 <= k <= |s| ==> ss[k] == s[..k]
  {
    seq(|s| + 1, k requires 0 <= k <= |s| => s[..k])
  }

  lemma NameReadBack(data: seq<byte>, v: View, t: Tag, attrs: seq<Attr>, depth: nat, rest: seq<byte>)
    requires On(data, v, Node(t, List, AttrLeaves(attrs)), depth, rest)
    ensures Within(data, v)
    ensures var d := NameDecoded(data, v); d.r == Ok(NameAsRead(attrs)) && Left(data, d.v, depth, rest)
  {
    hide Left, On, Inside, Facing;
    var es, read := AttrLeaves(attrs), NameAsRead(attrs);
    var ss := Prefixes(read);
    forall k | 0 <= k < |es| ensures TakesMember(data, AttrStep(), ss[k], ss[k + 1], es[k], es[k + 1..], depth + 1, rest) {
      TakeMore(read, k);
      LeafTaken(data, AttrStep(), ss[k], ss[k + 1], es[k], es[k + 1..], depth + 1, rest);
    }
    InsideMembers(data, v, Node(t, List, es), ss, depth, rest, NotEntered, AttrStep());
    OnIsCurrent(data, v, Node(t, List, es), depth, rest);
    assert read[..|read|] == read && read[..0] == [];
  }

  lemma BasicReadBack(data: seq<byte>, v: View, b: Basic, depth: nat, rest: seq<byte>)
    requires On(data, v, Node(Ctx(1), Structure, BasicMembers(b)), depth, rest)
    ensures Within(data, v)
    ensures var d := BasicDecoded(data, v); d.r == Ok(b) && Left(data, d.v, depth, rest)
  {
    hide Left, On, Inside, Facing;
    var es, mid := BasicMembers(b), NO_BASIC.(isCA := b.isCA);
    LeafTaken(data, BasicStep(), NO_BASIC, mid, es[0], es[1..], depth + 1, rest);
    OnIsCurrent(data, v, Node(Ctx(1), Structure, es), depth, rest);
    if b.pathLen.Some? {
      LeafTaken(data, BasicStep(), mid, b, es[1], es[2..], depth + 1, rest);
      InsideMembers(data, v, Node(Ctx(1), Structure, es), [NO_BASIC, mid, b], depth, rest, NotEntered, BasicStep());
    } else {
      InsideMembers(data, v, Node(Ctx(1), Structure, es), [NO_BASIC, b], depth, rest, NotEntered, BasicStep());
    }
  }

  lemma UsagesReadBack(data: seq<byte>, v: View, us: seq<byte>, depth: nat, rest: seq<byte>)
    requires On(data, v, Node(Ctx(3), Array, UsageLeaves(us)), depth, rest)
    ensures Within(data, v)
    ensures var d := UsagesDecoded(data, v); d.r == Ok(us) && Left(data, d.v, depth, rest)
  {
    hide Left, On, Inside, Facing;
    var es, ss := UsageLeaves(us), Prefixes(us);
    forall k | 0 <= k < |es| ensures TakesMember(data, UsageStep(), ss[k], ss[k + 1], es[k], es[k + 1..], depth + 1, rest) {
      TakeMore(us, k);
      LeafTaken(data, UsageStep(), ss[k], ss[k + 1], es[k], es[k + 1..], depth + 1, rest);
    }
    InsideMembers(data, v, Node(Ctx(3), Array, es), ss, depth, rest, NotEntered, UsageStep());
    OnIsCurrent(data, v, Node(Ctx(3), Array, es), depth, rest);
    assert us[..|us|] == us && us[..0] == [];
  }

  /** What one member of the extensions makes of those read so far. */
  function ExtTaken(x: Extensions, of: Extensions, e: Element): Extensions {
    if e.tag.num == 1 then x.(basic := of.basic)
    else if e.tag.num == 2 then x.(keyUsage := of.keyUsage)
    else if e.tag.num == 3 then x.(extKeyUsage := ExtAsRead(of).extKeyUsage)
    else if e.tag.num == 4 then x.(subjectKey := of.subjectKey)
    else x.(authorityKey := of.authorityKey)
  }

  function ExtStates(of: Extensions, es: seq<Element>): (ss: seq<Extensions>)
    ensures |ss| == |es| + 1 && ss[0] == NO_EXTENSIONS
    ensures forall k :: 0 <= k < |es| ==> ss[k + 1] == ExtTaken(ss[k], of, es[k])
  {
    if es == [] then [NO_EXTENSIONS]
    else
      var before := ExtStates(of, es[..|es| - 1]);
      before + [ExtTaken(before[|es| - 1], of, es[|es| - 1])]
  }

  lemma ExtKinds(x: Extensions, e: Element)
    requires e in ExtMembers(x)
    ensures || (x.basic.Some? && e == Node(Ctx(1), Structure, BasicMembers(x.basic.value)))
            || (x.keyUsage.Some? && e == Leaf(Ctx(2), Uint(x.keyUsage.value)))
            || (x.extKeyUsage.Some? && e == Node(Ctx(3), Array, UsageLeaves(x.extKeyUsage.value)))
            || (x.subjectKey.Some? && e == Leaf(Ctx(4), Octets(x.subjectKey.value)))
            || (x.authorityKey.Some? && e == Leaf(Ctx(5), Octets(x.authorityKey.value)))
  {
    hide BasicMembers, UsageLeaves;
  }

  lemma ExtMemberTaken(data: seq<byte>, x: Extensions, s: Extensions, e: Element, es: seq<Element>, depth: nat, rest: seq<byte>)
    requires e in ExtMembers(x)
    ensures TakesMember(data, ExtStep(data), s, ExtTaken(s, x, e), e, es, depth, rest)
  {
    hide ExtMembers, Left, On, Facing, BasicDecoded, UsagesDecoded, BasicMembers, UsageLeaves;
    ExtKinds(x, e);
    if e.Leaf? {
      LeafTaken(data, ExtStep(data), s, ExtTaken(s, x, e), e, es, depth, rest);
    } else {
      ExtNodeTaken(data, x, s, e, es, depth, rest);
    }
  }

  lemma ExtNodeTaken(data: seq<byte>, x: Extensions, s: Extensions, e: Element, es: seq<Element>, depth: nat, rest: seq<byte>)
    requires || (x.basic.Some? && e == Node(Ctx(1), Structure, BasicMembers(x.basic.value)))
             || (x.extKeyUsage.Some? && e == Node(Ctx(3), Array, UsageLeaves(x.extKeyUsage.value)))
    ensures TakesMember(data, ExtStep(data), s, ExtTaken(s, x, e), e, es, depth, rest)
  {
    hide Left, On, Facing, BasicDecoded, UsagesDecoded, BasicMembers, UsageLeaves;
    var step, t := ExtStep(data), ExtTaken(s, x, e);
    forall w | On(data, w, e, depth, Tail(es, rest))
      ensures var n := step(s, w); n.r == Ok(t) && Onward(w, n.v) && Left(data, n.v, depth, Tail(es, rest))
    {
      OnIsCurrent(data, w, e, depth, Tail(es, rest));
      if e.tag.num == 1 {
        BasicReadBack(data, w, x.basic.value, depth, Tail(es, rest));
      } else {
        UsagesReadBack(data, w, x.extKeyUsage.value, depth, Tail(es, rest));
      }
    }
    NodeTaken(data, step, s, t, e, es, depth, rest);
  }

  function Last(of: Extensions, es: seq<Element>): Extensions { ExtStates(of, es)[|es|] }

  lemma OneMoreTaken(of: Extensions, es: seq<Element>, more: seq<Element>)
    requires |more| <= 1
    ensures Last(of, es + more) == if more == [] then Last(of, es) else ExtTaken(Last(of, es), of, more[0])
  {
    hide ExtTaken;
    if more == [] {
      assert es + more == es;
    } else {
      assert es + more == es + [more[0]] && (es + more)[..|es|] == es;
    }
  }

  /** Taking all the members gives the extensions as they are read. */
  lemma AllTaken(x: Extensions)
    ensures Last(x, ExtMembers(x)) == ExtAsRead(x)
  {
    hide BasicMembers, Last;
    assert Last(x, []) == NO_EXTENSIONS by { NoneTaken(x); }
    OneMoreTaken(x, [], BasicNode(x));
    assert [] + BasicNode(x) == BasicNode(x);
    OneMoreTaken(x, BasicNode(x), UsageLeaf(x));
    OneMoreTaken(x, BasicNode(x) + UsageLeaf(x), UsageNode(x));
    OneMoreTaken(x, BasicNode(x) + UsageLeaf(x) + UsageNode(x), SubjectLeaf(x));
    OneMoreTaken(x, BasicNode(x) + UsageLeaf(x) + UsageNode(x) + SubjectLeaf(x), AuthorityLeaf(x));
  }

  lemma NoneTaken(x: Extensions)
    ensures Last(x, []) == NO_EXTENSIONS
  {
  }

  lemma ExtReadBack(data: seq<byte>, v: View, x: Extensions, depth: nat, rest: seq<byte>)
    requires On(data, v, Node(Ctx(10), List, ExtMembers(x)), depth, rest)
    ensures Within(data, v)
    ensures var d := ExtDecoded(data, v); d.r == Ok(ExtAsRead(x)) && Left(data, d.v, depth, rest)
  {
    hide Left, On, Inside, Facing, ExtMembers, ExtTaken, ExtStates, ExtField;
    var es := ExtMembers(x);
    var ss := ExtStates(x, es);
    forall k | 0 <= k < |es| ensures TakesMember(data, ExtStep(data), ss[k], ss[k + 1], es[k], es[k + 1..], depth + 1, rest) {
      ExtMemberTaken(data, x, ss[k], es[k], es[k + 1..], depth + 1, rest);
    }
    InsideMembers(data, v, Node(Ctx(10), List, es), ss, depth, rest, NotEntered, ExtStep(data));
    OnIsCurrent(data, v, Node(Ctx(10), List, es), depth, rest);
    AllTaken(x);
  }

  /** One scalar member of the certificate. */
  lemma ScalarTaken(data: seq<byte>, s: Cert, t: Cert, e: Element, es: seq<Element>, rest: seq<byte>)
    requires e.Leaf? && e.tag.kind == Context
    requires match e.scalar
             case Octets(b) => (e.tag.num == 1 || e.tag.num == 9 || e.tag.num == 11) && t == WithOctets(s, e.tag.num, b)
             case Uint(n) =>
               || ((e.tag.num == 2 || e.tag.num == 7 || e.tag.num == 8) && t == WithNumber(s, e.tag.num, n))
               || ((e.tag.num == 4 || e.tag.num == 5) && n <= 0xFFFF_FFFF && t == WithTime(s, e.tag.num, n))
             case _ => false
    ensures TakesMember(data, CertStep(data), s, t, e, es, 1, rest)
  {
    hide WithOctets, WithNumber, WithTime, NameDecoded, ExtDecoded;
    LeafTaken(data, CertStep(data), s, t, e, es, 1, rest);
  }

  lemma NameTaken(data: seq<byte>, s: Cert, num: byte, attrs: seq<Attr>, es: seq<Element>, rest: seq<byte>)
    requires num == 3 || num == 6
    ensures var e := Node(Ctx(num), List, AttrLeaves(attrs));
            TakesMember(data, CertStep(data), s, WithName(s, num, NameAsRead(attrs)), e, es, 1, rest)
  {
    hide Left, On, Facing, NameDecoded, ExtDecoded, WithName, AttrLeaves, NameAsRead;
    var step, e := CertStep(data), Node(Ctx(num), List, AttrLeaves(attrs));
    forall w | On(data, w, e, 1, Tail(es, rest))
      ensures var n := step(s, w);
              n.r == Ok(WithName(s, num, NameAsRead(attrs))) && Onward(w, n.v) && Left(data, n.v, 1, Tail(es, rest))
    {
      OnIsCurrent(data, w, e, 1, Tail(es, rest));
      NameReadBack(data, w, Ctx(num), attrs, 1, Tail(es, rest));
    }
    NodeTaken(data, step, s, WithName(s, num, NameAsRead(attrs)), e, es, 1, rest);
  }

  lemma ExtensionsTaken(data: seq<byte>, s: Cert, x: Extensions, es: seq<Element>, rest: seq<byte>)
    ensures TakesMember(data, CertStep(data), s, s.(ext := ExtAsRead(x)), Node(Ctx(10), List, ExtMembers(x)), es, 1, rest)
  {
    hide Left, On, Facing, NameDecoded, ExtDecoded, ExtMembers, ExtAsRead;
    var step, e := CertStep(data), Node(Ctx(10), List, ExtMembers(x));
    forall w | On(data, w, e, 1, Tail(es, rest))
      ensures var n := step(s, w); n.r == Ok(s.(ext := ExtAsRead(x))) && Onward(w, n.v) && Left(data, n.v, 1, Tail(es, rest))
    {
      OnIsCurrent(data, w, e, 1, Tail(es, rest));
      ExtReadBack(data, w, x, 1, Tail(es, rest));
    }
    NodeTaken(data, step, s, s.(ext := ExtAsRead(x)), e, es, 1, rest);
  }

  /** The certificate after its first k members. */
  function CertState(c: Cert, k: nat): (s: Cert)
    requires k <= 11
    ensures k == 11 ==> s == AsRead(c)
  {
    var r := AsRead(c);
    Cert(if k > 0 then c.serial else [], if k > 1 then c.sigAlgo else 0, if k > 2 then r.issuer else [],
         if k > 3 then c.notBefore else 0, if k > 4 then c.notAfter else 0, if k > 5 then r.subject else [],
         if k > 6 then c.keyAlgo else 0, if k > 7 then c.curve else 0, if k > 8 then c.publicKey else [],
         if k > 9 then r.ext else NO_EXTENSIONS, if k > 10 then c.signature else [])
  }

  function CertStates(c: Cert): (ss: seq<Cert>)
    ensures |ss| == 12 && forall k :: 0 <= k <= 11 ==> ss[k] == CertState(c, k)
  {
    seq(12, k requires 0 <= k < 12 => CertState(c, k))
  }

  lemma MemberTaken(data: seq<byte>, c: Cert, k: nat, es: seq<Element>, rest: seq<byte>)
    requires k < 11
    ensures TakesMember(data, CertStep(data), CertState(c, k), CertState(c, k + 1), CertMembers(c)[k], es, 1, rest)
  {
    hide NameAsRead, ExtAsRead, AttrLeaves, ExtMembers, TakesMember;
    var s := CertState(c, k);
    if k == 2 {
      NameTaken(data, s, 3, c.issuer, es, rest);
    } else if k == 5 {
      NameTaken(data, s, 6, c.subject, es, rest);
    } else if k == 9 {
      ExtensionsTaken(data, s, c.ext, es, rest);
    } else {
      ScalarTaken(data, s, CertState(c, k + 1), CertMembers(c)[k], es, rest);
    }
  }

  lemma {:induction false} NameWellFormed(attrs: seq<Attr>)
    requires NamesFit(attrs)
    ensures AllWellFormed(AttrLeaves(attrs)) && Height(AttrLeaves(attrs)) == 0
  {
    var es := AttrLeaves(attrs);
    forall e | e in es ensures e.Leaf? && e.tag.Canonical() && e.scalar.Fits() {
      var i :| 0 <= i < |es| && es[i] == e;
      assert attrs[i] in attrs;
    }
    FlatIsWellFormed(es);
  }

  lemma ExtWellFormed(x: Extensions)
    requires (x.subjectKey.Some? ==> Fits(x.subjectKey.value)) && (x.authorityKey.Some? ==> Fits(x.authorityKey.value))
    ensures AllWellFormed(ExtMembers(x)) && Height(ExtMembers(x)) <= 1
  {
    hide AllWellFormed, Height;
    FlatIsWellFormed([]);
    if x.basic.Some? {
      FlatIsWellFormed(BasicMembers(x.basic.value));
      OneNode(BasicNode(x)[0]);
    }
    if x.extKeyUsage.Some? {
      FlatIsWellFormed(UsageLeaves(x.extKeyUsage.value));
      OneNode(UsageNode(x)[0]);
    }
    FlatIsWellFormed(UsageLeaf(x));
    FlatIsWellFormed(SubjectLeaf(x));
    FlatIsWellFormed(AuthorityLeaf(x));
    hide BasicNode, UsageLeaf, UsageNode, SubjectLeaf, AuthorityLeaf;
    Joined(BasicNode(x), UsageLeaf(x));
    Joined(BasicNode(x) + UsageLeaf(x), UsageNode(x));
    Joined(BasicNode(x) + UsageLeaf(x) + UsageNode(x), SubjectLeaf(x));
    Joined(BasicNode(x) + UsageLeaf(x) + UsageNode(x) + SubjectLeaf(x), AuthorityLeaf(x));
  }

  lemma {:induction false} LowMembers(es: seq<Element>, h: nat)
    requires forall i :: 0 <= i < |es| ==> WellFormed(es[i]) && HeightOf(es[i]) <= h
    ensures AllWellFormed(es) && Height(es) <= h
  {
    if es != [] { LowMembers(es[1..], h); }
  }

  lemma CertMemberLow(c: Cert, k: nat)
    requires Storable(c) && k < 11
    ensures WellFormed(CertMembers(c)[k]) && HeightOf(CertMembers(c)[k]) <= 2
  {
    hide AllWellFormed, Height, AttrLeaves, ExtMembers, NamesFit;
    if k == 2 { NameWellFormed(c.issuer); }
    if k == 5 { NameWellFormed(c.subject); }
    if k == 9 { ExtWellFormed(c.ext); }
  }

  lemma CertWellFormed(c: Cert)
    requires Storable(c)
    ensures AllWellFormed(CertMembers(c)) && Height(CertMembers(c)) < MAX_DEPTH
  {
    hide AllWellFormed, Height, WellFormed, HeightOf, Storable;
    var es := CertMembers(c);
    assert |es| == 11;
    hide CertMembers;
    forall k | 0 <= k < |es| ensures WellFormed(es[k]) && HeightOf(es[k]) <= 2 { CertMemberLow(c, k); }
    LowMembers(es, 2);
  }

  /** A certificate is read back, whatever follows it, up to what the encoding does not tell apart. */
  lemma CertReadBack(c: Cert, rest: seq<byte>)
    requires Storable(c)
    ensures CertDecoded(CertBytes(c) + rest) == Ok(AsRead(c))
  {
    hide Left, Enc, Message, AllWellFormed, Height, Facing, On, CertState, Storable, CertField;
    CertWellFormed(c);
    var es, b, ss := CertMembers(c), CertBytes(c) + rest, CertStates(c);
    forall k | 0 <= k < 11 ensures TakesMember(b, CertStep(b), ss[k], ss[k + 1], es[k], es[k + 1..], 1, rest) {
      MemberTaken(b, c, k, es[k + 1..], rest);
    }
    MessageMembers(b, ANONYMOUS, es, rest, ss, NotAStructure, CertStep(b));
    StartState(c);
    LeftIsReady(b, Message(b, NO_CERT, NotAStructure, CertStep(b)).v, 0, rest);
  }

  lemma StartState(c: Cert)
    ensures CertState(c, 0) == NO_CERT
  {
  }

  /** The base tag has no flag, and the kind decides which field counts. */
  predicate PlainAttr(a: Attr) { a.tag < PRINTABLE && if a.isString then a.value == 0 else !a.printable && a.text == [] }

  /** Attributes are plain, and a list of usages is not empty. */
  ghost predicate Regular(c: Cert) {
    (forall a :: a in c.issuer + c.subject ==> PlainAttr(a)) && c.ext.extKeyUsage != Some([])
  }

  lemma RegularName(attrs: seq<Attr>)
    ensures NameAsRead(attrs) == attrs <==> forall a :: a in attrs ==> PlainAttr(a)
  {
    if NameAsRead(attrs) == attrs {
      forall a | a in attrs ensures AttrAsRead(a) == a {
        var i :| 0 <= i < |attrs| && attrs[i] == a;
        assert NameAsRead(attrs)[i] == AttrAsRead(a);
      }
    } else {
      var i :| 0 <= i < |attrs| && NameAsRead(attrs)[i] != attrs[i];
      assert attrs[i] in attrs;
    }
  }

  /** Exactly the regular certificates go through encoder and decoder unchanged. */
  lemma RoundTrip(c: Cert, rest: seq<byte>)
    requires Storable(c)
    ensures Regular(c) <==> CertDecoded(CertBytes(c) + rest) == Ok(c)
  {
    hide CertDecoded, CertBytes, Storable, AttrAsRead;
    CertReadBack(c, rest);
    RegularName(c.issuer);
    RegularName(c.subject);
  }

  /** A number under a flagged tag comes back under the tag without the flag. */
  lemma FlagIsLost(c: Cert, rest: seq<byte>)
    requires Storable(c) && c.issuer == [Attr(0x91, false, false, [], 7)]
    ensures var d := CertDecoded(CertBytes(c) + rest); d.Ok? && d.value.issuer == [Attr(0x11, false, false, [], 7)]
  {
    hide CertDecoded, CertBytes, Storable;
    CertReadBack(c, rest);
    assert NameAsRead(c.issuer) == [Attr(0x11, false, false, [], 7)];
  }
}
