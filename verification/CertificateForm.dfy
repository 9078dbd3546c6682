/**
 * Which bytes of certificates decoding and encoding again reproduce: those in which every element is written in
 * the least width, the fields stand in their order in one structure, and nothing is behind it.
 */
module CertificateForm {
  import opened Bytes
  import opened TlvFormat
  import opened TlvTree
  import opened TlvReader
  import opened TlvLoop
  import opened TlvWalk
  import opened Certificate

  // ---------------------------------------------------------------------- least widths

  /** From p on every head is what the writer makes of it, and every end marker is the plain one. */
  predicate Minimal(data: seq<byte>, p: nat)
    requires p <= |data|
    decreases |data| - p
  {
    p == |data| || match HeadAt(data, p)
                   case Bad(_) => false
                   case End => data[p] == END_OF_CONTAINER && Minimal(data, p + 1)
                   case Elem(t, x, n) => EncHead(t, x) == data[p..p + n] && Minimal(data, p + n)
  }

  lemma AtJoin(data: seq<byte>, p: nat, x: seq<byte>, y: seq<byte>)
    requires At(data, p, x) && At(data, p + |x|, y)
    ensures At(data, p, x + y)
  {
    assert data[p..p + |x + y|] == data[p..p + |x|] + data[p + |x|..p + |x| + |y|];
  }

  /** Bytes in front of others are where they should be exactly when both are. */
  lemma BothAt(data: seq<byte>, p: nat, x: seq<byte>, y: seq<byte>)
    ensures At(data, p, x + y) <==> At(data, p, x) && At(data, p + |x|, y)
  {
    hide At;
    if At(data, p, x + y) { AtSplit(data, p, x, y); }
    if At(data, p, x) && At(data, p + |x|, y) { AtJoin(data, p, x, y); }
  }

  /** A head stands there in its least width exactly when its encoding does. */
  lemma HeadIsLeast(data: seq<byte>, p: nat, t: Tag, x: Item, n: nat)
    requires p < |data| && HeadAt(data, p) == Elem(t, x, n)
    ensures EncHead(t, x) == data[p..p + n] <==> At(data, p, EncHead(t, x))
    ensures At(data, p, EncHead(t, x)) ==> |EncHead(t, x)| == n
  {
    if At(data, p, EncHead(t, x)) { HeadAtRoundTrip(data, p, t, x); }
  }

  /** Members that were read stand there in the writer's form exactly when all heads are least. */
  lemma {:induction false} MembersMinimal(data: seq<byte>, p: nat, room: nat)
    requires p <= |data| && Members(data, p, room).Ok?
    ensures var b := Members(data, p, room).value;
            Minimal(data, p) <==> At(data, p, EncAll(b.members) + [END_OF_CONTAINER]) && Minimal(data, b.end)
    decreases |data| - p
  {
    hide HeadAt, EncHead, At, EncAll, Enc;
    var b := Members(data, p, room).value;
    match HeadAt(data, p)
    case Bad(_) =>
    case End =>
      PlainEnd(data, p);
    case Elem(t, Value(v), n) =>
      var rest := Members(data, p + n, room).value;
      MembersMinimal(data, p + n, room);
      HeadIsLeast(data, p, t, Value(v), n);
      FirstAt(data, p, Leaf(t, v), rest.members);
    case Elem(t, Open(k), n) =>
      MembersMinimal(data, p + n, room - 1);
      MembersMinimal(data, Members(data, p + n, room - 1).value.end, room);
      NodeMinimal(data, p, room, t, k, n);
  }

  /** The case of a container, once it is known of its members and of those behind it. */
  lemma NodeMinimal(data: seq<byte>, p: nat, room: nat, t: Tag, k: Kind, n: nat)
    requires p < |data| && HeadAt(data, p) == Elem(t, Open(k), n) && room > 0 && Members(data, p, room).Ok?
    requires var inner := Members(data, p + n, room - 1).value;
             Minimal(data, p + n) <==> At(data, p + n, EncAll(inner.members) + [END_OF_CONTAINER]) && Minimal(data, inner.end)
    requires var inner := Members(data, p + n, room - 1).value;
             var rest := Members(data, inner.end, room).value;
             Minimal(data, inner.end) <==> At(data, inner.end, EncAll(rest.members) + [END_OF_CONTAINER]) && Minimal(data, rest.end)
    ensures var b := Members(data, p, room).value;
            Minimal(data, p) <==> At(data, p, EncAll(b.members) + [END_OF_CONTAINER]) && Minimal(data, b.end)
  {
    hide HeadAt, EncHead, At, EncAll, Enc;
    var inner := Members(data, p + n, room - 1).value;
    var rest := Members(data, inner.end, room).value;
    HeadIsLeast(data, p, t, Open(k), n);
    FirstAt(data, p, Node(t, k, inner.members), rest.members);
    InnerEnd(data, p + n, room - 1);
  }

  lemma PlainEnd(data: seq<byte>, p: nat)
    requires p < |data|
    ensures EncAll([]) + [END_OF_CONTAINER] == [END_OF_CONTAINER]
    ensures data[p] == END_OF_CONTAINER <==> At(data, p, [END_OF_CONTAINER])
  {
    assert data[p..p + 1] == [data[p]];
  }

  /** Where the encoding of members that were read stands, it ends where they do. */
  lemma InnerEnd(data: seq<byte>, p: nat, room: nat)
    requires p <= |data| && Members(data, p, room).Ok?
    ensures var b := Members(data, p, room).value;
            At(data, p, EncAll(b.members) + [END_OF_CONTAINER]) ==> b.end == p + |EncAll(b.members)| + 1
  {
    hide HeadAt, EncHead, At, Members;
    var b := Members(data, p, room).value;
    MembersWellFormed(data, p, room);
    if At(data, p, EncAll(b.members) + [END_OF_CONTAINER]) { MembersRoundTrip(data, p, b.members, room); }
  }

  /** One element in front of others, taken apart. */
  lemma FirstAt(data: seq<byte>, p: nat, e: Element, es: seq<Element>)
    ensures var rest := EncAll(es) + [END_OF_CONTAINER];
            At(data, p, EncAll([e] + es) + [END_OF_CONTAINER]) <==>
            match e
            case Leaf(t, v) => At(data, p, EncHead(t, Value(v))) && At(data, p + |EncHead(t, Value(v))|, rest)
            case Node(t, k, inner) =>
              var h, body := EncHead(t, Open(k)), EncAll(inner) + [END_OF_CONTAINER];
              At(data, p, h) && At(data, p + |h|, body) && At(data, p + |h| + |body|, rest)
  {
    hide EncHead, At;
    var rest := EncAll(es) + [END_OF_CONTAINER];
    assert ([e] + es)[1..] == es;
    assert EncAll([e] + es) + [END_OF_CONTAINER] == Enc(e) + rest;
    BothAt(data, p, Enc(e), rest);
    if e.Node? {
      var h, body := EncHead(e.tag, Open(e.kind)), EncAll(e.members) + [END_OF_CONTAINER];
      assert Enc(e) == h + body;
      BothAt(data, p, h, body);
    }
  }

  // ---------------------------------------------------------------------- the fields of a certificate

  /** A string under any tag of eight bits, or a number under one without the flag. */
  predicate AttrForm(e: Element) {
    e.Leaf? && e.tag.kind == Context && (e.scalar.Text? || (e.scalar.Uint? && e.tag.num < PRINTABLE))
  }

  predicate NameForm(es: seq<Element>) { forall i :: 0 <= i < |es| ==> AttrForm(es[i]) }

  predicate BasicForm(es: seq<Element>) {
    && 1 <= |es| <= 2
    && es[0].Leaf? && es[0].tag == Ctx(1) && es[0].scalar.Bool?
    && (|es| == 2 ==> es[1].Leaf? && es[1].tag == Ctx(2) && es[1].scalar.Uint? && es[1].scalar.u < 0x100)
  }

  predicate UsageForm(es: seq<Element>) {
    es != [] && forall i :: 0 <= i < |es| ==>
                  es[i].Leaf? && es[i].tag == ANONYMOUS && es[i].scalar.Uint? && es[i].scalar.u < 0x100
  }

  predicate ExtensionForm(e: Element) {
    || (e.Node? && e.tag == Ctx(1) && e.kind == Structure && BasicForm(e.members))
    || (e.Leaf? && e.tag == Ctx(2) && e.scalar.Uint? && e.scalar.u < 0x1_0000)
    || (e.Node? && e.tag == Ctx(3) && e.kind == Array && UsageForm(e.members))
    || (e.Leaf? && (e.tag == Ctx(4) || e.tag == Ctx(5)) && e.scalar.Octets?)
  }

  /** Extensions under increasing tags, none below k. */
  predicate Increasing(es: seq<Element>, k: nat) {
    es == [] || (ExtensionForm(es[0]) && es[0].tag.num >= k && Increasing(es[1..], es[0].tag.num + 1))
  }

  predicate OctetsForm(e: Element, num: byte) { e.Leaf? && e.tag == Ctx(num) && e.scalar.Octets? }

  predicate NumberForm(e: Element, num: byte, below: nat) { e.Leaf? && e.tag == Ctx(num) && e.scalar.Uint? && e.scalar.u < below }

  predicate ListForm(e: Element, num: byte) { e.Node? && e.tag == Ctx(num) && e.kind == List }

  /** The eleven fields in their order. */
  predicate CertForm(es: seq<Element>) {
    && |es| == 11
    && OctetsForm(es[0], 1) && NumberForm(es[1], 2, 0x1_0000_0000_0000_0000) && ListForm(es[2], 3) && NameForm(es[2].members)
    && NumberForm(es[3], 4, 0x1_0000_0000) && NumberForm(es[4], 5, 0x1_0000_0000)
    && ListForm(es[5], 6) && NameForm(es[5].members)
    && NumberForm(es[6], 7, 0x1_0000_0000_0000_0000) && NumberForm(es[7], 8, 0x1_0000_0000_0000_0000) && OctetsForm(es[8], 9)
    && ListForm(es[9], 10) && Increasing(es[9].members, 1) && OctetsForm(es[10], 11)
  }

  /** One anonymous structure of these fields and nothing behind it, all in the least width. */
  predicate Canonical(b: seq<byte>) {
    && b != [] && HeadAt(b, 0).Elem? && HeadAt(b, 0).tag == ANONYMOUS && HeadAt(b, 0).item == Open(Structure)
    && Minimal(b, 0)
    && match Members(b, HeadAt(b, 0).size, MAX_DEPTH - 1)
       case Err(_) => false
       case Ok(body) => body.end == |b| && CertForm(body.members)
  }

  // ---------------------------------------------------------------------- the certificate of a form

  function AttrOf(e: Element): Attr
    requires AttrForm(e) && e.tag.Canonical()
  {
    if e.scalar.Text? then Attr(e.tag.num % PRINTABLE, true, e.tag.num >= PRINTABLE, e.scalar.text, 0)
    else Attr(e.tag.num, false, false, [], e.scalar.u)
  }

  predicate Tagged(es: seq<Element>) { forall i :: 0 <= i < |es| ==> es[i].tag.Canonical() }

  function NameOf(es: seq<Element>): (attrs: seq<Attr>)
    requires NameForm(es) && Tagged(es)
    ensures |attrs| == |es| && forall i :: 0 <= i < |es| ==> attrs[i] == AttrOf(es[i])
  {
    seq(|es|, i requires 0 <= i < |es| => AttrOf(es[i]))
  }

  /** The attributes of a name are plain, and their encoding is the name. */
  lemma NameOfIs(es: seq<Element>)
    requires NameForm(es) && Tagged(es)
    ensures AttrLeaves(NameOf(es)) == es
    ensures forall a :: a in NameOf(es) ==> PlainAttr(a)
  {
    forall i | 0 <= i < |es| ensures AttrLeaf(AttrOf(es[i])) == es[i] && PlainAttr(AttrOf(es[i])) {
      FlagSplits(es[i].tag.num);
    }
  }

  lemma FlagSplits(n: nat)
    requires n <= 0xFF
    ensures n == n % PRINTABLE + if n >= PRINTABLE then PRINTABLE else 0
  {
  }

  /** The element under the tag k at the front, and what is behind it. */
  function Front(es: seq<Element>, k: nat): seq<Element> { if es != [] && es[0].tag.num == k then [es[0]] else [] }

  function Further(es: seq<Element>, k: nat): seq<Element> { if es != [] && es[0].tag.num == k then es[1..] else es }

  lemma Parted(es: seq<Element>, k: nat)
    requires Increasing(es, k)
    ensures es == Front(es, k) + Further(es, k) && Increasing(Further(es, k), k + 1)
    ensures Front(es, k) != [] ==> ExtensionForm(Front(es, k)[0]) && Front(es, k)[0].tag.num == k
  {
  }

  lemma NothingAbove(es: seq<Element>)
    requires Increasing(es, 6)
    ensures es == []
  {
  }

  function UsagesOf(es: seq<Element>): (us: seq<byte>)
    requires UsageForm(es)
    ensures |us| == |es| && forall i :: 0 <= i < |es| ==> us[i] == es[i].scalar.u
  {
    seq(|es|, i requires 0 <= i < |es| => es[i].scalar.u as byte)
  }

  function BasicOf(es: seq<Element>): Basic
    requires BasicForm(es)
  {
    Basic(es[0].scalar.b, if |es| == 2 then Some(es[1].scalar.u) else None)
  }

  /** The extensions from the tag k on, and the one under it. */
  function From(es: seq<Element>, k: nat): seq<Element> { if k <= 1 then es else Further(From(es, k - 1), k - 1) }

  function Part(es: seq<Element>, k: nat): (part: seq<Element>)
    ensures |part| <= 1
  {
    Front(From(es, k), k)
  }

  lemma {:induction false} PartForm(es: seq<Element>, k: nat)
    requires Increasing(es, 1) && k >= 1
    ensures Increasing(From(es, k), k)
    ensures Part(es, k) != [] ==> ExtensionForm(Part(es, k)[0]) && Part(es, k)[0].tag.num == k
    ensures From(es, k) == Part(es, k) + From(es, k + 1)
  {
    hide ExtensionForm, Increasing;
    if k > 1 { PartForm(es, k - 1); Parted(From(es, k - 1), k - 1); }
    Parted(From(es, k), k);
  }

  lemma AllParts(es: seq<Element>)
    requires Increasing(es, 1)
    ensures es == Part(es, 1) + Part(es, 2) + Part(es, 3) + Part(es, 4) + Part(es, 5)
  {
    hide Increasing, Part, From;
    assert From(es, 1) == es by { StartsHere(es); }
    PartForm(es, 1);
    PartForm(es, 2);
    PartForm(es, 3);
    PartForm(es, 4);
    PartForm(es, 5);
    PartForm(es, 6);
    NothingAbove(From(es, 6));
    Chained(es, Part(es, 1), From(es, 2), Part(es, 2), From(es, 3), Part(es, 3), From(es, 4), Part(es, 4), Part(es, 5));
  }

  lemma Chained(e: seq<Element>, p1: seq<Element>, e2: seq<Element>, p2: seq<Element>, e3: seq<Element>, p3: seq<Element>,
                e4: seq<Element>, p4: seq<Element>, p5: seq<Element>)
    requires e == p1 + e2 && e2 == p2 + e3 && e3 == p3 + e4 && e4 == p4 + p5
    ensures e == p1 + p2 + p3 + p4 + p5
  {
  }

  lemma StartsHere(es: seq<Element>)
    ensures From(es, 1) == es
  {
  }

  function BasicIn(part: seq<Element>): Option<Basic> {
    if part != [] && part[0].Node? && BasicForm(part[0].members) then Some(BasicOf(part[0].members)) else None
  }

  function UsagesIn(part: seq<Element>): Option<seq<byte>> {
    if part != [] && part[0].Node? && UsageForm(part[0].members) then Some(UsagesOf(part[0].members)) else None
  }

  function NumberIn(part: seq<Element>): Option<uint16> {
    if part != [] && part[0].Leaf? && part[0].scalar.Uint? && part[0].scalar.u < 0x1_0000 then Some(part[0].scalar.u) else None
  }

  function OctetsIn(part: seq<Element>): Option<seq<byte>> {
    if part != [] && part[0].Leaf? && part[0].scalar.Octets? then Some(part[0].scalar.octets) else None
  }

  function ExtOf(es: seq<Element>): Extensions {
    Extensions(BasicIn(Part(es, 1)), NumberIn(Part(es, 2)), UsagesIn(Part(es, 3)), OctetsIn(Part(es, 4)), OctetsIn(Part(es, 5)))
  }

  lemma BasicOfIs(es: seq<Element>)
    requires BasicForm(es)
    ensures BasicMembers(BasicOf(es)) == es
  {
  }

  lemma UsagesOfIs(es: seq<Element>)
    requires UsageForm(es)
    ensures UsageLeaves(UsagesOf(es)) == es && UsagesOf(es) != []
  {
  }

  lemma ExtNodesOf(es: seq<Element>)
    requires Increasing(es, 1)
    ensures BasicNode(ExtOf(es)) == Part(es, 1) && UsageNode(ExtOf(es)) == Part(es, 3) && ExtOf(es).extKeyUsage != Some([])
  {
    hide Increasing, Part, BasicForm, UsageForm, BasicOf, UsagesOf, BasicMembers, UsageLeaves;
    PartForm(es, 1);
    PartForm(es, 3);
    if Part(es, 1) != [] { BasicOfIs(Part(es, 1)[0].members); }
    if Part(es, 3) != [] { UsagesOfIs(Part(es, 3)[0].members); }
  }

  /** The tag tells which of the forms a scalar extension has. */
  lemma ScalarForm(e: Element)
    requires ExtensionForm(e)
    ensures e.tag.num == 2 ==> e.Leaf? && e.scalar.Uint? && e.scalar.u < 0x1_0000 && e == Leaf(Ctx(2), Uint(e.scalar.u))
    ensures 4 <= e.tag.num <= 5 ==> e.Leaf? && e.scalar.Octets? && e == Leaf(Ctx(e.tag.num), Octets(e.scalar.octets))
  {
    hide BasicForm, UsageForm;
  }

  lemma ExtLeavesOf(es: seq<Element>)
    requires Increasing(es, 1)
    ensures UsageLeaf(ExtOf(es)) == Part(es, 2) && SubjectLeaf(ExtOf(es)) == Part(es, 4) && AuthorityLeaf(ExtOf(es)) == Part(es, 5)
  {
    hide Increasing, Part, ExtensionForm, BasicIn, UsagesIn;
    PartForm(es, 2);
    PartForm(es, 4);
    PartForm(es, 5);
    if Part(es, 2) != [] { ScalarForm(Part(es, 2)[0]); }
    if Part(es, 4) != [] { ScalarForm(Part(es, 4)[0]); }
    if Part(es, 5) != [] { ScalarForm(Part(es, 5)[0]); }
  }

  lemma ExtOfIs(es: seq<Element>)
    requires Increasing(es, 1)
    ensures ExtMembers(ExtOf(es)) == es && ExtOf(es).extKeyUsage != Some([])
  {
    hide Increasing, Part, ExtOf, BasicNode, UsageLeaf, UsageNode, SubjectLeaf, AuthorityLeaf;
    ExtNodesOf(es);
    ExtLeavesOf(es);
    AllParts(es);
  }

  predicate Tags(es: seq<Element>) { |es| == 11 && es[2].Node? && es[5].Node? && Tagged(es[2].members) && Tagged(es[5].members) }

  function CertOf(es: seq<Element>): Cert
    requires CertForm(es) && Tags(es)
  {
    Cert(es[0].scalar.octets, es[1].scalar.u, NameOf(es[2].members), es[3].scalar.u, es[4].scalar.u, NameOf(es[5].members),
         es[6].scalar.u, es[7].scalar.u, es[8].scalar.octets, ExtOf(es[9].members), es[10].scalar.octets)
  }

  /** The fields are the encoding of a regular certificate. */
  lemma CertOfIs(es: seq<Element>)
    requires CertForm(es) && Tags(es)
    ensures CertMembers(CertOf(es)) == es && Regular(CertOf(es))
  {
    hide NameForm, Tagged, Increasing, ExtOf, ExtMembers, AttrLeaves, NameOf, PlainAttr;
    NameOfIs(es[2].members);
    NameOfIs(es[5].members);
    ExtOfIs(es[9].members);
  }

  lemma {:induction false} AllTagged(es: seq<Element>)
    requires AllWellFormed(es)
    ensures Tagged(es)
  {
    if es != [] { AllTagged(es[1..]); }
  }

  lemma {:induction false} EachWellFormed(es: seq<Element>, i: nat)
    requires AllWellFormed(es) && i < |es|
    ensures WellFormed(es[i])
  {
    if i > 0 { EachWellFormed(es[1..], i - 1); }
  }

  // ---------------------------------------------------------------------- the form of a certificate

  lemma NameFormOf(attrs: seq<Attr>)
    requires forall a :: a in attrs ==> PlainAttr(a)
    ensures NameForm(AttrLeaves(attrs))
  {
    forall i | 0 <= i < |attrs| ensures AttrForm(AttrLeaf(attrs[i])) { assert attrs[i] in attrs; }
  }

  /** At most one extension, under the tag k. */
  predicate Only(part: seq<Element>, k: nat) { |part| <= 1 && (part != [] ==> ExtensionForm(part[0]) && part[0].tag.num == k) }

  lemma OneMore(part: seq<Element>, es: seq<Element>, k: nat)
    requires Only(part, k) && Increasing(es, k + 1)
    ensures Increasing(part + es, k)
  {
    hide ExtensionForm;
    if part == [] {
      Lower(es, k);
      assert part + es == es;
    } else {
      assert (part + es)[0] == part[0] && (part + es)[1..] == es;
    }
  }

  lemma Ordered(p1: seq<Element>, p2: seq<Element>, p3: seq<Element>, p4: seq<Element>, p5: seq<Element>)
    requires Only(p1, 1) && Only(p2, 2) && Only(p3, 3) && Only(p4, 4) && Only(p5, 5)
    ensures Increasing(p1 + p2 + p3 + p4 + p5, 1)
  {
    hide Only;
    assert Increasing([], 6);
    hide Increasing;
    OneMore(p5, [], 5);
    assert p5 + [] == p5;
    OneMore(p4, p5, 4);
    OneMore(p3, p4 + p5, 3);
    OneMore(p2, p3 + (p4 + p5), 2);
    OneMore(p1, p2 + (p3 + (p4 + p5)), 1);
    Chained(p1 + (p2 + (p3 + (p4 + p5))), p1, p2 + (p3 + (p4 + p5)), p2, p3 + (p4 + p5), p3, p4 + p5, p4, p5);
  }

  lemma Lower(es: seq<Element>, k: nat)
    requires Increasing(es, k + 1)
    ensures Increasing(es, k)
  {
  }

  lemma PartsForm(x: Extensions)
    requires x.extKeyUsage != Some([])
    ensures Only(BasicNode(x), 1) && Only(UsageLeaf(x), 2) && Only(UsageNode(x), 3) && Only(SubjectLeaf(x), 4)
    ensures Only(AuthorityLeaf(x), 5)
  {
    if x.basic.Some? { assert BasicForm(BasicMembers(x.basic.value)); }
    if x.extKeyUsage.Some? { assert UsageForm(UsageLeaves(x.extKeyUsage.value)); }
  }

  lemma ExtFormOf(x: Extensions)
    requires x.extKeyUsage != Some([])
    ensures Increasing(ExtMembers(x), 1)
  {
    hide BasicNode, UsageLeaf, UsageNode, SubjectLeaf, AuthorityLeaf, Only, Increasing;
    PartsForm(x);
    Ordered(BasicNode(x), UsageLeaf(x), UsageNode(x), SubjectLeaf(x), AuthorityLeaf(x));
  }

  lemma FormOf(c: Cert)
    requires Regular(c)
    ensures CertForm(CertMembers(c))
  {
    hide NameForm, Increasing, ExtMembers, AttrLeaves, PlainAttr;
    NameFormOf(c.issuer);
    NameFormOf(c.subject);
    ExtFormOf(c.ext);
  }

  // ---------------------------------------------------------------------- what was decoded can be encoded

  lemma NameStorable(data: seq<byte>, v: View)
    requires Within(data, v)
    ensures var d := NameDecoded(data, v); d.r.Ok? ==> NamesFit(d.r.value)
  {
    hide Inside, NextView;
    InsideKeeps(data, v, [], NotEntered, AttrStep(), (attrs: seq<Attr>, w: View) => NamesFit(attrs));
  }

  predicate KeysFit(x: Extensions) {
    (x.subjectKey.Some? ==> Fits(x.subjectKey.value)) && (x.authorityKey.Some? ==> Fits(x.authorityKey.value))
  }

  lemma ExtStorable(data: seq<byte>, v: View)
    requires Within(data, v)
    ensures var d := ExtDecoded(data, v); d.r.Ok? ==> KeysFit(d.r.value)
  {
    hide Inside, NextView, BasicDecoded, UsagesDecoded;
    InsideKeeps(data, v, NO_EXTENSIONS, NotEntered, ExtStep(data), (x: Extensions, w: View) => KeysFit(x));
  }

  lemma FieldStorable(data: seq<byte>, c: Cert, v: View)
    requires Within(data, v) && Genuine(v) && Storable(c)
    ensures var d := CertField(data, c, v); d.r.Ok? ==> Storable(d.r.value)
  {
    hide NameDecoded, ExtDecoded, NamesFit, UintHere, Time, AsUint;
    NameStorable(data, v);
    ExtStorable(data, v);
  }

  lemma DecodedIsStorable(b: seq<byte>)
    ensures CertDecoded(b).Ok? ==> Storable(CertDecoded(b).value)
  {
    hide Message, NextView, CertField, Storable;
    var step, keeps := CertStep(b), (c: Cert, w: View) => Storable(c);
    forall c, v ensures StepKeeps(b, c, v, step, keeps) {
      if Within(b, v) && Genuine(v) && HasCurrent(v) && Storable(c) { FieldStorable(b, c, v); }
    }
    EmptyIsStorable();
    MessageKeeps(b, NO_CERT, NotAStructure, step, keeps);
  }

  lemma EmptyIsStorable()
    ensures Storable(NO_CERT)
  {
  }

  // ---------------------------------------------------------------------- the bytes that are reproduced

  /** The bytes of the form are the encoding of their members. */
  lemma FormIsWritten(b: seq<byte>)
    requires Canonical(b)
    ensures var es := Members(b, HeadAt(b, 0).size, MAX_DEPTH - 1).value.members;
            b == Enc(Node(ANONYMOUS, Structure, es)) && AllWellFormed(es)
  {
    hide HeadAt, EncHead, CertForm, Members;
    var n := HeadAt(b, 0).size;
    var body := Members(b, n, MAX_DEPTH - 1).value;
    MembersMinimal(b, n, MAX_DEPTH - 1);
    InnerEnd(b, n, MAX_DEPTH - 1);
    MembersWellFormed(b, n, MAX_DEPTH - 1);
    var inner := EncAll(body.members) + [END_OF_CONTAINER];
    assert b == b[..n] + b[n..n + |inner|];
    assert EncHead(ANONYMOUS, Open(Structure)) + inner == Enc(Node(ANONYMOUS, Structure, body.members));
  }

  lemma {:induction false} TextsFit(es: seq<Element>, attrs: seq<Attr>)
    requires AllWellFormed(es) && es == AttrLeaves(attrs) && forall a :: a in attrs ==> PlainAttr(a)
    ensures NamesFit(attrs)
  {
    forall a | a in attrs ensures Fits(a.text) {
      var i :| 0 <= i < |attrs| && attrs[i] == a;
      EachWellFormed(es, i);
    }
  }

  lemma ExtKeysFit(x: Extensions)
    requires AllWellFormed(ExtMembers(x))
    ensures KeysFit(x)
  {
    hide AllWellFormed, BasicNode, UsageLeaf, UsageNode, SubjectLeaf, AuthorityLeaf;
    var front := BasicNode(x) + UsageLeaf(x) + UsageNode(x);
    OneKey(x);
    if x.subjectKey.Some? { KeyFits(front, SubjectLeaf(x), AuthorityLeaf(x), Leaf(Ctx(4), Octets(x.subjectKey.value))); }
    if x.authorityKey.Some? {
      assert ExtMembers(x) == front + SubjectLeaf(x) + AuthorityLeaf(x) + [];
      KeyFits(front + SubjectLeaf(x), AuthorityLeaf(x), [], Leaf(Ctx(5), Octets(x.authorityKey.value)));
    }
  }

  lemma OneKey(x: Extensions)
    ensures x.subjectKey.Some? ==> SubjectLeaf(x) == [Leaf(Ctx(4), Octets(x.subjectKey.value))]
    ensures x.authorityKey.Some? ==> AuthorityLeaf(x) == [Leaf(Ctx(5), Octets(x.authorityKey.value))]
  {
  }

  lemma KeyFits(a: seq<Element>, part: seq<Element>, c: seq<Element>, e: Element)
    requires AllWellFormed(a + part + c) && part == [e] && e.Leaf?
    ensures e.scalar.Fits()
  {
    EachWellFormed(a + part + c, |a|);
    assert (a + part + c)[|a|] == e;
  }

  lemma MembersStorable(c: Cert)
    requires AllWellFormed(CertMembers(c)) && Regular(c)
    ensures Storable(c)
  {
    hide AllWellFormed, NamesFit, ExtMembers, AttrLeaves, PlainAttr;
    var es := CertMembers(c);
    EachWellFormed(es, 0);
    EachWellFormed(es, 2);
    EachWellFormed(es, 5);
    EachWellFormed(es, 8);
    EachWellFormed(es, 9);
    EachWellFormed(es, 10);
    TextsFit(es[2].members, c.issuer);
    TextsFit(es[5].members, c.subject);
    ExtKeysFit(c.ext);
  }

  lemma FormCert(b: seq<byte>) returns (c: Cert)
    requires Canonical(b)
    ensures Regular(c) && Storable(c) && CertBytes(c) == b
  {
    FormIsWritten(b);
    hide Minimal, HeadAt, Members, AllWellFormed, Enc, CertMembers, Regular, Storable, Tagged;
    var es := Members(b, HeadAt(b, 0).size, MAX_DEPTH - 1).value.members;
    EachWellFormed(es, 2);
    EachWellFormed(es, 5);
    AllTagged(es[2].members);
    AllTagged(es[5].members);
    c := CertOf(es);
    CertOfIs(es);
    MembersStorable(c);
  }

  lemma WrittenIsForm(b: seq<byte>, es: seq<Element>)
    requires b == Enc(Node(ANONYMOUS, Structure, es)) && AllWellFormed(es) && Height(es) < MAX_DEPTH && CertForm(es)
    ensures Canonical(b)
  {
    hide HeadAt, EncHead, CertForm, Members, AllWellFormed, Height;
    var h, inner := EncHead(ANONYMOUS, Open(Structure)), EncAll(es) + [END_OF_CONTAINER];
    assert b == h + inner && b[0..0 + |b|] == b;
    InnerAt(b, 0, ANONYMOUS, Structure, es);
    MembersRoundTrip(b, |h|, es, MAX_DEPTH - 1);
    MembersMinimal(b, |h|, MAX_DEPTH - 1);
    assert b[0..|h|] == h;
  }

  /**
   * Decoding and encoding again gives the bytes back if and only if they have the form of a certificate:
   * least widths, the fields in their order, nothing behind the structure.
   */
  lemma ReproducedExactly(b: seq<byte>)
    ensures Canonical(b) <==> CertDecoded(b).Ok? && CertBytes(CertDecoded(b).value) == b
  {
    hide Canonical, CertDecoded, CertMembers, Storable, Regular, AllWellFormed, Height, Enc;
    assert b + [] == b;
    if Canonical(b) {
      var c := FormCert(b);
      RoundTrip(c, []);
    }
    if CertDecoded(b).Ok? && CertBytes(CertDecoded(b).value) == b {
      var c := CertDecoded(b).value;
      DecodedIsStorable(b);
      RoundTrip(c, []);
      FormOf(c);
      CertWellFormed(c);
      WrittenIsForm(b, CertMembers(c));
    }
  }

  method Reencode(b: seq<byte>) returns (res: Result<seq<byte>, CertError>)
    ensures res == Ok(b) <==> Canonical(b)
  {
    hide Canonical, CertDecoded, CertBytes, Storable;
    DecodedIsStorable(b);
    ReproducedExactly(b);
    var c := Decode(b);
    if c.Err? { return Err(c.error); }
    var bytes := Encode(c.value);
    res := Ok(bytes);
  }

  /** Bytes behind a certificate are not noticed, and they are not reproduced. */
  lemma BehindIsLost(b: seq<byte>, rest: seq<byte>)
    requires Canonical(b) && rest != []
    ensures CertDecoded(b + rest).Ok? && CertBytes(CertDecoded(b + rest).value) == b && !Canonical(b + rest)
  {
    hide Canonical, CertDecoded, CertBytes, Storable, Regular;
    var c := FormCert(b);
    RoundTrip(c, rest);
    ReproducedExactly(b + rest);
  }
}
