/**
 * The wire formats byte by byte. Encoders and decoders elsewhere are proved against each other; here the bytes
 * themselves are written out, in the numbers of the Matter Core Specification, for every value of the fields.
 */
module WireForms {
  import opened Bytes
  import opened TlvFormat
  import opened TlvTree
  import opened TlvWalk
  import P = PaseMessages
  import S = SigmaMessages
  import I = Invoke
  import IR = InvokeResponse
  import R = Report
  import C = Certificate
  import MH = MessageHeader
  import PH = ProtoHeader
  import Case
  import Ccm
  import Pase
  import Spake2
  import Session
  import Transcode

  // ---------------------------------------------------------------------- numbers

  function Two(v: uint16): seq<byte> { [v % 0x100, v / 0x100] }

  function Four(v: nat): seq<byte> {
    [v % 0x100, v / 0x100 % 0x100, v / 0x1_0000 % 0x100, v / 0x100_0000 % 0x100]
  }

  function Eight(v: nat): seq<byte> { Four(v) + Four(v / 0x1_0000_0000) }

  lemma TwoBytes(v: uint16)
    ensures Le(v, 2) == Two(v)
  {
    LeStep(v, 2);
    LeStep(v / 0x100, 1);
    LeStep(v / 0x100 / 0x100, 0);
  }

  lemma LeStep(v: nat, width: nat)
    ensures Le(v, width) == if width == 0 then [] else [v % 0x100] + Le(v / 0x100, width - 1)
  {
  }

  lemma FourBytes(v: nat, width: nat)
    requires width >= 4
    ensures Le(v, width) == Four(v) + Le(v / 0x1_0000_0000, width - 4)
  {
    hide Le;
    LeStep(v, width);
    LeStep(v / 0x100, width - 1);
    LeStep(v / 0x1_0000, width - 2);
    LeStep(v / 0x100_0000, width - 3);
    assert v / 0x100 / 0x100 == v / 0x1_0000 && v / 0x1_0000 / 0x100 == v / 0x100_0000;
    assert v / 0x100_0000 / 0x100 == v / 0x1_0000_0000;
  }

  lemma FourLittleEndian(v: uint32)
    ensures Le(v, 4) == Four(v)
  {
    hide Le, Four;
    FourBytes(v, 4);
    LeStep(v / 0x1_0000_0000, 0);
  }

  lemma EightLittleEndian(v: uint64)
    ensures Le(v, 8) == Eight(v)
  {
    hide Le, Four;
    var high := v / 0x1_0000_0000;
    FourBytes(v, 8);
    FourBytes(high, 4);
    LeStep(high / 0x1_0000_0000, 0);
  }

  // ---------------------------------------------------------------------- element heads

  /** The high bits of the control byte and the bytes of the tag. */
  function TagForm(t: Tag): (byte, seq<byte>)
    requires t.Writable()
  {
    match t.kind
    case Anonymous => (0x00, [])
    case Context => (0x20, [t.num])
    case CommonProfile => if t.num <= 0xFFFF then (0x40, Two(t.num)) else (0x60, Four(t.num))
    case ImplicitProfile => if t.num <= 0xFFFF then (0x80, Two(t.num)) else (0xA0, Four(t.num))
    case FullyQualified =>
      if t.num <= 0xFFFF then (0xC0, Two(t.vendor) + Two(t.profile) + Two(t.num))
      else (0xE0, Two(t.vendor) + Two(t.profile) + Four(t.num))
  }

  /** The least of four widths, as an offset to the element type, and the number in that width. */
  function Least(v: uint64): (byte, seq<byte>) {
    if v <= 0xFF then (0, [v])
    else if v <= 0xFFFF then (1, Two(v))
    else if v <= 0xFFFF_FFFF then (2, Four(v))
    else (3, Eight(v))
  }

  function LeastSigned(i: int64): (byte, seq<byte>) {
    if -0x80 <= i <= 0x7F then (0, [i % 0x100])
    else if -0x8000 <= i <= 0x7FFF then (1, Two(i % 0x1_0000))
    else if -0x8000_0000 <= i <= 0x7FFF_FFFF then (2, Four(i % 0x1_0000_0000))
    else (3, Eight(i % 0x1_0000_0000_0000_0000))
  }

  /** The low bits of the control byte and what follows the tag. */
  function ItemForm(x: Item): (byte, seq<byte>)
    requires x.Fits()
  {
    match x
    case Open(Structure) => (0x15, [])
    case Open(Array) => (0x16, [])
    case Open(List) => (0x17, [])
    case Value(Int(i)) => LeastSigned(i)
    case Value(Uint(u)) => var n := Least(u); (0x04 + n.0, n.1)
    case Value(Bool(b)) => (if b then 0x09 else 0x08, [])
    case Value(Single(bits)) => (0x0A, Four(bits))
    case Value(Double(bits)) => (0x0B, Eight(bits))
    case Value(Text(s)) => var n := Least(|s|); (0x0C + n.0, n.1 + s)
    case Value(Octets(s)) => var n := Least(|s|); (0x10 + n.0, n.1 + s)
    case Value(Null) => (0x14, [])
  }

  lemma TagOnWire(t: Tag)
    requires t.Writable()
    ensures 0x20 * TagControl(t) == TagForm(t).0 && TagBytes(t) == TagForm(t).1
  {
    hide Le, Two, Four;
    TwoBytes(t.vendor);
    TwoBytes(t.profile);
    FourLittleEndian(t.num);
    if t.num <= 0xFFFF { TwoBytes(t.num); }
    if t.num <= 0xFF { OneByte(t.num); }
  }

  lemma OneByte(v: byte)
    ensures Le(v, 1) == [v]
  {
    LeStep(v, 1);
    LeStep(v / 0x100, 0);
  }

  lemma LeastOnWire(v: uint64)
    ensures UintCode(v) == Least(v).0 && Le(v, Width(UintCode(v))) == Least(v).1
  {
    hide Le, Two, Four, Eight;
    if v <= 0xFF { OneByte(v); }
    else if v <= 0xFFFF { TwoBytes(v); }
    else if v <= 0xFFFF_FFFF { FourLittleEndian(v); }
    else { EightLittleEndian(v); }
  }

  /** A number is cut down to its width. */
  lemma {:induction false} LeCut(v: nat, width: nat)
    ensures Le(v, width) == Le(v % Range(width), width)
  {
    FromLeLe(v, width);
    LeFromLe(Le(v, width));
  }

  lemma LeastSignedOnWire(i: int64)
    ensures IntCode(i) == LeastSigned(i).0 && Le(TwosComplement(i), Width(IntCode(i))) == LeastSigned(i).1
  {
    hide Le, Two, Four, Eight, Range;
    Ranges();
    var u := TwosComplement(i);
    LeCut(u, Width(IntCode(i)));
    SameLowBytes(i);
    if -0x80 <= i <= 0x7F { OneByte(i % 0x100); }
    else if -0x8000 <= i <= 0x7FFF { TwoBytes(i % 0x1_0000); }
    else if -0x8000_0000 <= i <= 0x7FFF_FFFF { FourLittleEndian(i % 0x1_0000_0000); }
    else { EightLittleEndian(u); }
  }

  lemma SameLowBytes(i: int64)
    ensures var u := TwosComplement(i);
            && u % 0x100 == i % 0x100 && u % 0x1_0000 == i % 0x1_0000 && u % 0x1_0000_0000 == i % 0x1_0000_0000
            && u == i % 0x1_0000_0000_0000_0000
  {
  }

  lemma ItemOnWire(x: Item)
    requires x.Fits()
    ensures ItemType(x) == ItemForm(x).0 && ItemBytes(x) == ItemForm(x).1
  {
    hide Le, Four, Eight, Least, LeastSigned, UintCode, IntCode, Width;
    match x
    case Open(Structure) =>
    case Open(Array) =>
    case Open(List) =>
    case Value(Int(i)) => LeastSignedOnWire(i);
    case Value(Uint(u)) => LeastOnWire(u);
    case Value(Bool(_)) =>
    case Value(Single(bits)) => FourLittleEndian(bits);
    case Value(Double(bits)) => EightLittleEndian(bits);
    case Value(Text(s)) => LeastOnWire(|s|);
    case Value(Octets(s)) => LeastOnWire(|s|);
    case Value(Null) =>
  }

  /** Every element head: control byte, tag and value. */
  lemma HeadOnWire(t: Tag, x: Item)
    requires t.Writable() && x.Fits()
    ensures EncHead(t, x) == [TagForm(t).0 + ItemForm(x).0] + TagForm(t).1 + ItemForm(x).1
  {
    hide TagForm, ItemForm, TagControl, TagBytes, ItemType, ItemBytes;
    TagOnWire(t);
    ItemOnWire(x);
  }

  /** A container is closed by the byte 18. */
  lemma NodeOnWire(t: Tag, k: Kind, es: seq<Element>)
    requires t.Writable()
    ensures Enc(Node(t, k, es)) == [TagForm(t).0 + ItemForm(Open(k)).0] + TagForm(t).1 + EncAll(es) + [0x18]
  {
    hide EncHead, EncAll, TagForm;
    HeadOnWire(t, Open(k));
  }

  // ---------------------------------------------------------------------- reading what no encoder here writes

  /** Numbers and lengths are read from each of the four widths, the least or not. */
  lemma WideItems(code: nat, u: uint64, b: seq<byte>, rest: seq<byte>)
    requires code < 4 && u < Range(Width(code)) && |b| < Range(Width(code))
    ensures var w := Width(code);
            && ReadItem(0x04 + code, Le(u, w) + rest) == Ok(Taken(Value(Uint(u)), w))
            && ReadItem(0x0C + code, Le(|b|, w) + b + rest) == Ok(Taken(Value(Text(b)), w + |b|))
            && ReadItem(0x10 + code, Le(|b|, w) + b + rest) == Ok(Taken(Value(Octets(b)), w + |b|))
  {
    hide Le, Range, ReadBlob;
    NumberLe(u, Width(code), rest);
    BlobRoundTrip(b, Width(code), rest);
  }

  lemma WideSigned(code: nat, i: int64, rest: seq<byte>)
    requires code < 4 && 0 <= 2 * i + Range(Width(code)) && 2 * i < Range(Width(code))
    ensures ReadItem(code, Le(TwosComplement(i), Width(code)) + rest) == Ok(Taken(Value(Int(i)), Width(code)))
  {
    hide Le, Range;
    Ranges();
    var w := Width(code);
    Truncated(i, w);
    FromLeLe(TwosComplement(i), w);
    assert (Le(TwosComplement(i), w) + rest)[..w] == Le(TwosComplement(i), w);
  }

  /** Profile tags are read from four bytes even if two would do. */
  lemma WideTags(vendor: uint16, profile: uint16, num: uint32, rest: seq<byte>)
    ensures ReadTag(3, Le(num, 4) + rest) == Ok(Taken(Tag(CommonProfile, 0, 0, num), 4))
    ensures ReadTag(5, Le(num, 4) + rest) == Ok(Taken(Tag(ImplicitProfile, 0, 0, num), 4))
    ensures ReadTag(7, Le(vendor, 2) + (Le(profile, 2) + (Le(num, 4) + rest))) == Ok(Taken(Tag(FullyQualified, vendor, profile, num), 8))
  {
    hide Le, Range, Number;
    Ranges();
    NumberLe(num, 4, rest);
    NumberLe(vendor, 2, Le(profile, 2) + (Le(num, 4) + rest));
    NumberLe(profile, 2, Le(num, 4) + rest);
    var s := Le(vendor, 2) + (Le(profile, 2) + (Le(num, 4) + rest));
    assert s[2..] == Le(profile, 2) + (Le(num, 4) + rest);
    assert s[4..] == Le(num, 4) + rest;
  }

  // ---------------------------------------------------------------------- members under context tags

  /** A scalar under a context tag. */
  function Field(n: byte, v: Scalar): seq<byte>
    requires v.Fits()
  {
    [0x20 + ItemForm(Value(v)).0, n] + ItemForm(Value(v)).1
  }

  function Fields(fs: seq<(byte, Scalar)>): seq<byte>
    requires AllFit(fs)
  {
    if fs == [] then [] else Field(fs[0].0, fs[0].1) + Fields(fs[1..])
  }

  predicate AllFit(fs: seq<(byte, Scalar)>) { forall i :: 0 <= i < |fs| ==> fs[i].1.Fits() }

  lemma FieldOnWire(n: byte, v: Scalar)
    requires v.Fits()
    ensures Enc(Leaf(Ctx(n), v)) == Field(n, v)
  {
    hide EncHead, ItemForm;
    HeadOnWire(Ctx(n), Value(v));
  }

  /** These elements are leaves under context tags. */
  predicate AreFields(es: seq<Element>, fs: seq<(byte, Scalar)>) {
    |es| == |fs| && AllFit(fs) && forall i :: 0 <= i < |es| ==> es[i] == Leaf(Ctx(fs[i].0), fs[i].1)
  }

  lemma {:induction false} FieldsOnWire(es: seq<Element>, fs: seq<(byte, Scalar)>)
    requires AreFields(es, fs)
    ensures EncAll(es) == Fields(fs)
  {
    hide Enc, Field;
    if es != [] {
      FieldOnWire(fs[0].0, fs[0].1);
      FieldsOnWire(es[1..], fs[1..]);
    }
  }

  lemma StructureOnWire(es: seq<Element>, fs: seq<(byte, Scalar)>)
    requires AreFields(es, fs)
    ensures Enc(Node(ANONYMOUS, Structure, es)) == [0x15] + Fields(fs) + [0x18]
  {
    hide EncAll, Fields;
    NodeOnWire(ANONYMOUS, Structure, es);
    FieldsOnWire(es, fs);
  }

  /** A container of scalars under a context tag. */
  lemma InnerOnWire(n: byte, k: Kind, es: seq<Element>, fs: seq<(byte, Scalar)>)
    requires AreFields(es, fs)
    ensures Enc(Node(Ctx(n), k, es)) == [match k { case Structure => 0x35 case Array => 0x36 case List => 0x37 }, n] + Fields(fs) + [0x18]
  {
    hide EncAll, Fields;
    NodeOnWire(Ctx(n), k, es);
    FieldsOnWire(es, fs);
  }

  lemma {:induction false} EncAllJoin(a: seq<Element>, b: seq<Element>)
    ensures EncAll(a + b) == EncAll(a) + EncAll(b)
  {
    hide Enc;
    if a == [] {
      assert a + b == b;
    } else {
      assert (a + b)[1..] == a[1..] + b;
      EncAllJoin(a[1..], b);
    }
  }

  lemma EncAllOne(e: Element)
    ensures EncAll([e]) == Enc(e)
  {
    hide Enc;
    var one: seq<Element>, none: seq<Element> := [e], [];
    assert one[1..] == none;
    assert EncAll(one) == Enc(e) + EncAll(none);
  }

  // ---------------------------------------------------------------------- pairing and session establishment

  lemma ParamRequestOnWire(q: P.ParamRequest)
    requires P.Storable(q.random)
    ensures P.RequestBytes(q) ==
            [0x15] + Fields([(1, Octets(q.random)), (2, Uint(q.session)), (3, Uint(q.passcodeId)), (4, Bool(q.hasParams))]) + [0x18]
  {
    hide Enc, Fields;
    StructureOnWire(P.RequestMembers(q),
                    [(1, Octets(q.random)), (2, Uint(q.session)), (3, Uint(q.passcodeId)), (4, Bool(q.hasParams))]);
  }

  lemma ParamResponseOnWire(q: P.ParamResponse)
    requires P.StorableResponse(q)
    ensures P.ResponseBytes(q) ==
            [0x15]
            + (Fields([(1, Octets(q.initiatorRandom)), (2, Octets(q.responderRandom)), (3, Uint(q.session))])
               + if q.params.None? then []
                 else [0x35, 4] + Fields([(1, Uint(q.params.value.iterations)), (2, Octets(q.params.value.salt))]) + [0x18])
            + [0x18]
  {
    hide Enc, Fields, EncAll;
    var es := P.ResponseMembers(q);
    var fs: seq<(byte, Scalar)> := [(1, Octets(q.initiatorRandom)), (2, Octets(q.responderRandom)), (3, Uint(q.session))];
    NodeOnWire(ANONYMOUS, Structure, es);
    FieldsOnWire(es[..3], fs);
    if q.params.None? {
      assert es == es[..3];
      assert Fields(fs) + [] == Fields(fs);
    } else {
      var p := q.params.value;
      InnerOnWire(4, Structure, P.ParamsMembers(p), [(1, Uint(p.iterations)), (2, Octets(p.salt))]);
      EncAllOne(es[3]);
      EncAllJoin(es[..3], [es[3]]);
      assert es == es[..3] + [es[3]];
    }
  }

  /** A share or a confirmation alone, or both. */
  lemma PakeOnWire(a: seq<byte>, b: seq<byte>)
    requires P.Storable(a) && P.Storable(b)
    ensures Enc(Node(ANONYMOUS, Structure, P.PakeMembers([a]))) == [0x15] + Fields([(1, Octets(a))]) + [0x18]
    ensures Enc(Node(ANONYMOUS, Structure, P.PakeMembers([a, b]))) == [0x15] + Fields([(1, Octets(a)), (2, Octets(b))]) + [0x18]
  {
    hide Enc, Fields;
    StructureOnWire(P.PakeMembers([a]), [(1, Octets(a))]);
    StructureOnWire(P.PakeMembers([a, b]), [(1, Octets(a)), (2, Octets(b))]);
  }

  lemma SigmaOnWire(s: S.Sigma)
    requires S.StorableSigma(s)
    ensures S.SigmaBytes(s) ==
            [0x15] + Fields([(1, Octets(s.random)), (2, Uint(s.session)), (3, Octets(s.third)), (4, Octets(s.fourth))]) + [0x18]
  {
    hide Enc, Fields;
    StructureOnWire(S.SigmaMembers(s), [(1, Octets(s.random)), (2, Uint(s.session)), (3, Octets(s.third)), (4, Octets(s.fourth))]);
  }

  lemma CredentialsOnWire(c: S.Credentials)
    requires S.StorableCredentials(c)
    ensures S.CredentialBytes(c) ==
            [0x15]
            + Fields([(1, Octets(c.noc))] + (if c.icac == [] then [] else [(2, Octets(c.icac))]) + [(3, Octets(c.signature))])
            + [0x18]
  {
    hide Enc, Fields;
    StructureOnWire(S.CredentialMembers(c),
                    [(1, Octets(c.noc))] + (if c.icac == [] then [] else [(2, Octets(c.icac))]) + [(3, Octets(c.signature))]);
  }

  /** What is signed: the signer's certificates under 1 and 2, its own key under 3 and the other's under 4. */
  lemma SignedOnWire(noc: seq<byte>, icac: seq<byte>, own: seq<byte>, other: seq<byte>)
    requires P.Storable(noc) && P.Storable(icac) && P.Storable(own) && P.Storable(other)
    ensures S.SignedBytes(noc, icac, own, other) ==
            [0x15]
            + Fields([(1, Octets(noc))] + (if icac == [] then [] else [(2, Octets(icac))]) + [(3, Octets(own)), (4, Octets(other))])
            + [0x18]
  {
    hide Enc, Fields;
    StructureOnWire(S.SignedMembers(noc, icac, own, other),
                    [(1, Octets(noc))] + (if icac == [] then [] else [(2, Octets(icac))]) + [(3, Octets(own)), (4, Octets(other))]);
  }

  // ---------------------------------------------------------------------- what keys are derived from

  /** One byte for each character of an ASCII text. */
  function Ascii(t: string): seq<byte> { seq(|t|, i requires 0 <= i < |t| => Code(t[i])) }

  function Code(c: char): byte { c as int % 0x100 }

  /** The labels of both handshakes. */
  lemma SigmaLabels()
    ensures Case.NONCE_2 == Ascii("NCASE_Sigma2N") && Case.NONCE_3 == Ascii("NCASE_Sigma3N")
    ensures Case.INFO_2 == Ascii("Sigma2") && Case.INFO_3 == Ascii("Sigma3")
  {
  }

  lemma PakeLabel()
    ensures Pase.CONTEXT_PREFIX == Ascii("CHIP PAKE V1 Commissioning")
  {
  }

  /** A field of the transcript behind its length. */
  function Behind(f: seq<byte>): seq<byte> { Eight(|f|) + f }

  lemma TranscriptMore(f: seq<byte>, rest: seq<seq<byte>>)
    requires |f| < 0x1_0000_0000_0000_0000
    ensures Spake2.Transcript([f] + rest) == Behind(f) + Spake2.Transcript(rest)
  {
    hide Le, Eight;
    EightLittleEndian(|f|);
    assert ([f] + rest)[1..] == rest;
  }

  /** Context, no identities, the two fixed points, the shares of prover and verifier, Z, V and w0 in 32 bytes. */
  lemma TranscriptOnWire<Q(!new)>(c: Spake2.Curve<Q>, s: Spake2.Seen)
    requires c.order > 0 && Spake2.Short(Spake2.Fields(c, s))
    ensures Spake2.Transcript(Spake2.Fields(c, s)) ==
            Behind(s.context)
            + (Behind([])
               + (Behind([])
                  + (Behind(c.bytes(c.m))
                     + (Behind(c.bytes(c.n))
                        + (Behind(s.shareP)
                           + (Behind(s.shareV)
                              + (Behind(s.shared.z) + (Behind(s.shared.v) + Behind(Ccm.Be(s.w0 % c.order, 32))))))))))
  {
    hide Behind, Spake2.Transcript, Ccm.Be;
    var fs := Spake2.Fields(c, s);
    TranscriptFrom(fs, 0);
    TranscriptFrom(fs, 1);
    TranscriptFrom(fs, 2);
    TranscriptFrom(fs, 3);
    TranscriptFrom(fs, 4);
    TranscriptFrom(fs, 5);
    TranscriptFrom(fs, 6);
    TranscriptFrom(fs, 7);
    TranscriptFrom(fs, 8);
    TranscriptFrom(fs, 9);
    NoTranscript(fs[10..]);
    assert fs[0..] == fs;
  }

  lemma TranscriptFrom(fs: seq<seq<byte>>, i: nat)
    requires i < |fs| && Spake2.Short(fs)
    ensures Spake2.Transcript(fs[i..]) == Behind(fs[i]) + Spake2.Transcript(fs[i + 1..])
  {
    hide Behind, Spake2.Transcript;
    TranscriptMore(fs[i], fs[i + 1..]);
    assert [fs[i]] + fs[i + 1..] == fs[i..];
  }

  lemma NoTranscript(fs: seq<seq<byte>>)
    requires fs == []
    ensures Spake2.Transcript(fs) == []
  {
  }

  /** Big-endian numbers are little-endian ones read backwards. */
  lemma {:induction false} BigEndian(v: nat, n: nat, k: nat)
    requires k < n
    ensures Ccm.Be(v, n)[n - 1 - k] == Le(v, n)[k]
    decreases n
  {
    if k > 0 { BigEndian(v / 0x100, n - 1, k - 1); }
  }

  // ---------------------------------------------------------------------- message headers

  /** Flags, session, security flags and counter; then the source, eight bytes, and the destination, eight or two. */
  lemma MessageHeaderOnWire(h: MH.Header)
    requires h.destKind <= 2
    ensures MH.Encode(h) == Ok(
              [(if h.sourcePresent then 4 else 0) + h.destKind] + Two(h.sessionID)
              + [h.sessionType % 4 + (if h.privacy then 0x80 else 0) + (if h.control then 0x40 else 0)] + Four(h.counter)
              + (if h.sourcePresent then Eight(h.sourceNodeID) else [])
              + (if h.destKind == 1 then Eight(h.destNodeID) else if h.destKind == 2 then Two(h.destGroupID) else []))
  {
    hide Le, Two, Four, Eight;
    TwoBytes(h.sessionID);
    FourLittleEndian(h.counter);
    EightLittleEndian(h.sourceNodeID);
    EightLittleEndian(h.destNodeID);
    TwoBytes(h.destGroupID);
  }

  lemma ProtoHeaderOnWire(p: PH.Header)
    ensures PH.Encoded(p) ==
            [(if p.initiator then 1 else 0) + (if p.ackPresent then 2 else 0) + (if p.reliable then 4 else 0)
             + (if p.vendorPresent then 16 else 0), p.opcode]
            + Two(p.exchange) + Two(p.protocol)
            + (if p.vendorPresent then Two(p.vendor) else []) + (if p.ackPresent then Four(p.ackCounter) else [])
  {
    hide Le, Two, Four;
    TwoBytes(p.exchange);
    TwoBytes(p.protocol);
    TwoBytes(p.vendor);
    FourLittleEndian(p.ackCounter);
  }

  lemma NonceOnWire(flags: byte, counter: uint32, node: uint64)
    ensures Session.Nonce(flags, counter, node) == [flags] + Four(counter) + Eight(node)
  {
    hide Le, Four, Eight;
    FourLittleEndian(counter);
    EightLittleEndian(node);
  }

  // ---------------------------------------------------------------------- interaction model

  function PathForm(endpoint: uint16, cluster: uint32, command: uint32): seq<byte> {
    Fields([(0, Uint(endpoint)), (1, Uint(cluster)), (2, Uint(command))])
  }

  lemma CommandOnWire(t: Tag, c: I.InvokeCommand)
    requires t.Writable()
    ensures I.CommandBytes(t, c) ==
            [TagForm(t).0 + 0x15] + TagForm(t).1
            + ([0x37, 0] + PathForm(c.path.endpoint, c.path.cluster, c.path.command) + [0x18])
            + (if c.fields.None? then [] else [0x35, 1] + c.fields.value + [0x18]) + [0x18]
  {
    hide EncHead, Enc, Fields, TagForm;
    HeadOnWire(t, Open(Structure));
    var p := c.path;
    InnerOnWire(0, List, I.PathMembers(p), [(0, Uint(p.endpoint)), (1, Uint(p.cluster)), (2, Uint(p.command))]);
    CtxStructure(1);
  }

  lemma CtxStructure(n: byte)
    ensures EncHead(Ctx(n), Open(Structure)) == [0x35, n] && EncHead(Ctx(n), Open(Array)) == [0x36, n]
    ensures EncHead(ANONYMOUS, Open(Structure)) == [0x15]
  {
    hide EncHead;
    HeadOnWire(Ctx(n), Open(Structure));
    HeadOnWire(Ctx(n), Open(Array));
    HeadOnWire(ANONYMOUS, Open(Structure));
  }

  lemma InvokeRequestOnWire(q: I.InvokeRequest)
    ensures I.RequestBytes(q) ==
            [0x15] + Fields([(0, Bool(q.suppress)), (1, Bool(q.timed))]) + ([0x36, 2] + I.CommandsBytes(q.commands) + [0x18])
            + Field(255, Uint(11)) + [0x18]
  {
    hide EncHead, Enc, Fields, Field, EncAll;
    CtxStructure(2);
    FieldsOnWire([Leaf(Ctx(0), Bool(q.suppress)), Leaf(Ctx(1), Bool(q.timed))], [(0, Bool(q.suppress)), (1, Bool(q.timed))]);
    FieldOnWire(255, Uint(11));
  }

  lemma InvokeResponseOnWire(rs: seq<IR.InvokeResult>, suppress: bool)
    ensures IR.ResponseBytes(rs, suppress) ==
            [0x15] + Field(0, Bool(suppress)) + ([0x36, 1] + IR.ResultsBytes(rs) + [0x18]) + Field(255, Uint(11)) + [0x18]
  {
    hide EncHead, Enc, Field;
    CtxStructure(1);
    FieldOnWire(0, Bool(suppress));
    FieldOnWire(255, Uint(11));
  }

  lemma InvokeStatusOnWire(s: IR.CommandStatus)
    ensures IR.StatusBytes(s) ==
            [0x35, 1]
            + (([0x37, 0] + PathForm(s.path.endpoint, s.path.cluster, s.path.command) + [0x18])
               + ([0x35, 1] + Fields([(0, Uint(s.status))]) + [0x18]))
            + [0x18]
  {
    hide Enc, Fields, EncAll;
    var es, p := IR.StatusMembers(s), s.path;
    NodeOnWire(Ctx(1), Structure, es);
    InnerOnWire(0, List, I.PathMembers(p), [(0, Uint(p.endpoint)), (1, Uint(p.cluster)), (2, Uint(p.command))]);
    InnerOnWire(1, Structure, IR.CodeMembers(s.status), [(0, Uint(s.status))]);
    TwoNodes(es[0], es[1]);
  }

  lemma TwoNodes(a: Element, b: Element)
    ensures EncAll([a, b]) == Enc(a) + Enc(b)
  {
    hide Enc, EncAll;
    assert [a, b] == [a] + [b];
    EncAllJoin([a], [b]);
    EncAllOne(a);
    EncAllOne(b);
  }

  // ---------------------------------------------------------------------- reports

  function AttrPathForm(n: byte, p: R.AttributePath): seq<byte> {
    [0x37, n] + Fields([(2, Uint(p.endpoint)), (3, Uint(p.cluster)), (4, Uint(p.attribute))]) + [0x18]
  }

  lemma AttrPathOnWire(n: byte, p: R.AttributePath)
    ensures Enc(Node(Ctx(n), List, R.AttrPathMembers(p))) == AttrPathForm(n, p)
  {
    hide Enc, Fields;
    InnerOnWire(n, List, R.AttrPathMembers(p), [(2, Uint(p.endpoint)), (3, Uint(p.cluster)), (4, Uint(p.attribute))]);
  }

  lemma ReportStatusOnWire(p: R.AttributePath, status: byte)
    ensures Enc(Node(Ctx(0), Structure, R.StatusMembers(p, status))) ==
            [0x35, 0] + (AttrPathForm(0, p) + ([0x35, 1] + Fields([(0, Uint(status))]) + [0x18])) + [0x18]
  {
    hide Enc, Fields, EncAll, AttrPathForm;
    var es := R.StatusMembers(p, status);
    NodeOnWire(Ctx(0), Structure, es);
    AttrPathOnWire(0, p);
    InnerOnWire(1, Structure, [Leaf(Ctx(0), Uint(status))], [(0, Uint(status))]);
    TwoNodes(es[0], es[1]);
  }

  lemma ReportDataOnWire(p: R.AttributePath, version: uint32, value: Option<Element>)
    ensures Enc(Node(Ctx(1), Structure, R.DataMembers(p, version, value))) ==
            [0x35, 1] + (Field(0, Uint(version)) + AttrPathForm(1, p) + if value.Some? then Enc(value.value) else []) + [0x18]
  {
    hide Enc, Field, EncAll, AttrPathForm;
    var es := R.DataMembers(p, version, value);
    NodeOnWire(Ctx(1), Structure, es);
    FieldOnWire(0, Uint(version));
    AttrPathOnWire(1, p);
    TwoNodes(es[0], es[1]);
    assert es[..2] == [es[0], es[1]];
    if value.Some? {
      EncAllOne(es[2]);
      EncAllJoin(es[..2], [es[2]]);
      assert es == es[..2] + [es[2]];
    } else {
      assert es == es[..2];
    }
  }

  /** The whole message, its reports in order. */
  lemma ReportOnWire(widen: Transcode.Widening, d: R.ReportData, suppress: bool)
    ensures R.ReportBytes(widen, d, suppress) ==
            [0x15]
            + ((if d.subscription != 0 then Field(0, Uint(d.subscription)) else [])
               + ([0x36, 1] + EncAll(R.ReportTrees(widen, d.reports)) + [0x18])
               + (if suppress then [0x29, 4] else []) + Field(255, Uint(11)))
            + [0x18]
  {
    hide Enc, Field, EncAll, R.ReportTrees, R.Optional, TagForm, ItemForm;
    var trees := R.ReportTrees(widen, d.reports);
    var a, b, c, e := R.Optional(d.subscription != 0, Leaf(Ctx(0), Uint(d.subscription))), Node(Ctx(1), Array, trees),
      R.Optional(suppress, Leaf(Ctx(4), Bool(true))), Leaf(Ctx(255), Uint(11));
    WholeOnWire(a + [b] + c + [e]);
    FourParts(a, b, c, e);
    MaybeField(d.subscription != 0, 0, Uint(d.subscription));
    MaybeField(suppress, 4, Bool(true));
    TrueForm(4);
    ArrayOnWire(1, trees);
    FieldOnWire(255, Uint(11));
  }

  lemma WholeOnWire(es: seq<Element>)
    ensures Enc(Node(ANONYMOUS, Structure, es)) == [0x15] + EncAll(es) + [0x18]
  {
    hide Enc, EncAll;
    NodeOnWire(ANONYMOUS, Structure, es);
  }

  lemma ArrayOnWire(n: byte, es: seq<Element>)
    ensures Enc(Node(Ctx(n), Array, es)) == [0x36, n] + EncAll(es) + [0x18]
  {
    hide Enc, EncAll;
    NodeOnWire(Ctx(n), Array, es);
  }

  lemma FourParts(a: seq<Element>, b: Element, c: seq<Element>, e: Element)
    ensures EncAll(a + [b] + c + [e]) == EncAll(a) + Enc(b) + EncAll(c) + Enc(e)
  {
    hide Enc, EncAll;
    EncAllJoin(a + [b] + c, [e]);
    EncAllJoin(a + [b], c);
    EncAllJoin(a, [b]);
    EncAllOne(b);
    EncAllOne(e);
  }

  lemma TrueForm(n: byte)
    ensures Field(n, Bool(true)) == [0x29, n]
  {
  }

  lemma MaybeField(present: bool, n: byte, v: Scalar)
    requires v.Fits()
    ensures EncAll(R.Optional(present, Leaf(Ctx(n), v))) == if present then Field(n, v) else []
  {
    hide Enc, Field;
    if present {
      EncAllOne(Leaf(Ctx(n), v));
      FieldOnWire(n, v);
    }
  }

  // ---------------------------------------------------------------------- certificates

  /** An attribute of a name: a string, if printable with the high bit of the tag set, or a number. */
  function AttrForm(a: C.Attr): (byte, Scalar) {
    (if a.isString && a.printable && a.tag < 0x80 then a.tag + 0x80 else a.tag,
     if a.isString then Text(a.text) else Uint(a.value))
  }

  function NameForm(attrs: seq<C.Attr>): (fs: seq<(byte, Scalar)>)
    ensures |fs| == |attrs| && forall i :: 0 <= i < |fs| ==> fs[i] == AttrForm(attrs[i])
  {
    if attrs == [] then [] else [AttrForm(attrs[0])] + NameForm(attrs[1..])
  }

  lemma NameFits(attrs: seq<C.Attr>)
    requires C.NamesFit(attrs)
    ensures AllFit(NameForm(attrs))
  {
  }

  lemma NameOnWire(n: byte, attrs: seq<C.Attr>)
    requires C.NamesFit(attrs)
    ensures AllFit(NameForm(attrs))
    ensures Enc(Node(Ctx(n), List, C.AttrLeaves(attrs))) == [0x37, n] + Fields(NameForm(attrs)) + [0x18]
  {
    hide Enc, Fields, NameForm;
    NameFits(attrs);
    InnerOnWire(n, List, C.AttrLeaves(attrs), NameForm(attrs));
  }

  /** Extended key usages, each a number of one byte. */
  function UsageForm(us: seq<byte>): seq<byte> {
    if us == [] then [] else [0x04, us[0]] + UsageForm(us[1..])
  }

  lemma {:induction false} UsagesOnWire(es: seq<Element>, us: seq<byte>)
    requires |es| == |us| && forall i :: 0 <= i < |es| ==> es[i] == Leaf(ANONYMOUS, Uint(us[i]))
    ensures EncAll(es) == UsageForm(us)
  {
    hide EncHead;
    if es != [] {
      HeadOnWire(ANONYMOUS, Value(Uint(us[0])));
      UsagesOnWire(es[1..], us[1..]);
    }
  }

  function BasicForm(b: C.Basic): seq<byte> {
    [0x35, 1] + Fields([(1, Bool(b.isCA))] + if b.pathLen.Some? then [(2, Uint(b.pathLen.value))] else []) + [0x18]
  }

  predicate KeysFit(x: C.Extensions) {
    (x.subjectKey.Some? ==> C.Fits(x.subjectKey.value)) && (x.authorityKey.Some? ==> C.Fits(x.authorityKey.value))
  }

  /** The extensions that are present, in the order of their tags. */
  function ExtensionsForm(x: C.Extensions): seq<byte>
    requires KeysFit(x)
  {
    (if x.basic.Some? then BasicForm(x.basic.value) else [])
    + (if x.keyUsage.Some? then Field(2, Uint(x.keyUsage.value)) else [])
    + (if x.extKeyUsage.Some? then [0x36, 3] + UsageForm(x.extKeyUsage.value) + [0x18] else [])
    + (if x.subjectKey.Some? then Field(4, Octets(x.subjectKey.value)) else [])
    + (if x.authorityKey.Some? then Field(5, Octets(x.authorityKey.value)) else [])
  }

  lemma BasicOnWire(x: C.Extensions)
    ensures EncAll(C.BasicNode(x)) == if x.basic.Some? then BasicForm(x.basic.value) else []
  {
    hide Enc, Fields;
    if x.basic.Some? {
      var b := x.basic.value;
      EncAllOne(C.BasicNode(x)[0]);
      InnerOnWire(1, Structure, C.BasicMembers(b), [(1, Bool(b.isCA))] + if b.pathLen.Some? then [(2, Uint(b.pathLen.value))] else []);
    }
  }

  lemma UsesOnWire(x: C.Extensions)
    ensures EncAll(C.UsageLeaf(x)) == if x.keyUsage.Some? then Field(2, Uint(x.keyUsage.value)) else []
    ensures EncAll(C.UsageNode(x)) == if x.extKeyUsage.Some? then [0x36, 3] + UsageForm(x.extKeyUsage.value) + [0x18] else []
  {
    hide Enc, Field, UsageForm;
    if x.keyUsage.Some? {
      EncAllOne(C.UsageLeaf(x)[0]);
      FieldOnWire(2, Uint(x.keyUsage.value));
    }
    if x.extKeyUsage.Some? {
      var us := x.extKeyUsage.value;
      EncAllOne(C.UsageNode(x)[0]);
      NodeOnWire(Ctx(3), Array, C.UsageLeaves(us));
      UsagesOnWire(C.UsageLeaves(us), us);
    }
  }

  lemma KeysOnWire(x: C.Extensions)
    requires KeysFit(x)
    ensures EncAll(C.SubjectLeaf(x)) == if x.subjectKey.Some? then Field(4, Octets(x.subjectKey.value)) else []
    ensures EncAll(C.AuthorityLeaf(x)) == if x.authorityKey.Some? then Field(5, Octets(x.authorityKey.value)) else []
  {
    hide Enc, Field;
    if x.subjectKey.Some? {
      EncAllOne(C.SubjectLeaf(x)[0]);
      FieldOnWire(4, Octets(x.subjectKey.value));
    }
    if x.authorityKey.Some? {
      EncAllOne(C.AuthorityLeaf(x)[0]);
      FieldOnWire(5, Octets(x.authorityKey.value));
    }
  }

  lemma ExtensionsOnWire(x: C.Extensions)
    requires KeysFit(x)
    ensures EncAll(C.ExtMembers(x)) == ExtensionsForm(x)
  {
    hide EncAll, Field, UsageForm, BasicForm, C.BasicNode, C.UsageLeaf, C.UsageNode, C.SubjectLeaf, C.AuthorityLeaf;
    var a, b, c, d, e := C.BasicNode(x), C.UsageLeaf(x), C.UsageNode(x), C.SubjectLeaf(x), C.AuthorityLeaf(x);
    EncAllJoin(a + b + c + d, e);
    EncAllJoin(a + b + c, d);
    EncAllJoin(a + b, c);
    EncAllJoin(a, b);
    BasicOnWire(x);
    UsesOnWire(x);
    KeysOnWire(x);
  }

  predicate AllFits(c: C.Cert) {
    && C.Fits(c.serial) && C.Fits(c.publicKey) && C.Fits(c.signature) && KeysFit(c.ext)
    && AllFit(NameForm(c.issuer)) && AllFit(NameForm(c.subject))
  }

  /** The eleven fields of a certificate. */
  function CertificateForm(c: C.Cert): seq<byte>
    requires AllFits(c)
  {
    Fields([(1, Octets(c.serial)), (2, Uint(c.sigAlgo))])
    + ([0x37, 3] + Fields(NameForm(c.issuer)) + [0x18])
    + Fields([(4, Uint(c.notBefore)), (5, Uint(c.notAfter))])
    + ([0x37, 6] + Fields(NameForm(c.subject)) + [0x18])
    + Fields([(7, Uint(c.keyAlgo)), (8, Uint(c.curve)), (9, Octets(c.publicKey))])
    + ([0x37, 10] + ExtensionsForm(c.ext) + [0x18])
    + Fields([(11, Octets(c.signature))])
  }

  lemma CertificateOnWire(c: C.Cert)
    requires C.Storable(c)
    ensures AllFits(c) && C.CertBytes(c) == [0x15] + CertificateForm(c) + [0x18]
  {
    hide Enc, EncAll, Fields, NameForm, ExtensionsForm, C.AttrLeaves, C.ExtMembers;
    var es := C.CertMembers(c);
    NameOnWire(3, c.issuer);
    NameOnWire(6, c.subject);
    ExtensionsOnWire(c.ext);
    NodeOnWire(Ctx(10), List, C.ExtMembers(c.ext));
    NodeOnWire(ANONYMOUS, Structure, es);
    FieldsOnWire(es[..2], [(1, Octets(c.serial)), (2, Uint(c.sigAlgo))]);
    FieldsOnWire(es[3..5], [(4, Uint(c.notBefore)), (5, Uint(c.notAfter))]);
    FieldsOnWire(es[6..9], [(7, Uint(c.keyAlgo)), (8, Uint(c.curve)), (9, Octets(c.publicKey))]);
    FieldsOnWire(es[10..], [(11, Octets(c.signature))]);
    Pieces(es);
  }

  /** Eleven elements, the third, sixth and tenth apart. */
  lemma Pieces(es: seq<Element>)
    requires |es| == 11
    ensures EncAll(es) == EncAll(es[..2]) + Enc(es[2]) + EncAll(es[3..5]) + Enc(es[5]) + EncAll(es[6..9]) + Enc(es[9]) + EncAll(es[10..])
  {
    hide Enc, EncAll;
    var a, b, c, d := es[..2], es[3..5], es[6..9], es[10..];
    assert es == a + [es[2]] + b + [es[5]] + c + [es[9]] + d;
    EncAllJoin(a + [es[2]] + b + [es[5]] + c + [es[9]], d);
    EncAllJoin(a + [es[2]] + b + [es[5]] + c, [es[9]]);
    EncAllJoin(a + [es[2]] + b + [es[5]], c);
    EncAllJoin(a + [es[2]] + b, [es[5]]);
    EncAllJoin(a + [es[2]], b);
    EncAllJoin(a, [es[2]]);
    EncAllOne(es[2]);
    EncAllOne(es[5]);
    EncAllOne(es[9]);
  }
}
