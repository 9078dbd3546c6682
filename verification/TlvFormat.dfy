/**
 * The byte format of one Matter TLV element head: control byte, tag, and either a scalar value
 * or the opening of a container (Appendix A of the Matter Core Specification).
 */
module TlvFormat {
  import opened Bytes

  datatype TagKind = Anonymous | Context | CommonProfile | ImplicitProfile | FullyQualified | OtherKind

  datatype Tag = Tag(kind: TagKind, vendor: uint16, profile: uint16, num: uint32) {
    /** The tags that the constructors of the source build: unused fields are zero. */
    predicate Canonical() {
      match kind
      case Anonymous => vendor == 0 && profile == 0 && num == 0
      case Context => vendor == 0 && profile == 0 && num <= 0xFF
      case CommonProfile => vendor == 0 && profile == 0
      case ImplicitProfile => vendor == 0 && profile == 0
      case FullyQualified => true
      case OtherKind => false
    }

    /** The tags that the writer does not refuse. */
    predicate Writable() {
      kind != OtherKind && (kind == Context ==> num <= 0xFF)
    }
  }

  const ANONYMOUS := Tag(Anonymous, 0, 0, 0)

  datatype Kind = Structure | Array | List

  /** A scalar value. Floats are kept as their bit patterns. */
  datatype Scalar =
    | Int(i: int64)
    | Uint(u: uint64)
    | Bool(b: bool)
    | Single(bits: uint32)
    | Double(dbits: uint64)
    | Text(text: seq<byte>)
    | Octets(octets: seq<byte>)
    | Null
  {
    /** Go slices are shorter than 2^64 bytes. */
    predicate Fits() {
      && (Text? ==> |text| < 0x1_0000_0000_0000_0000)
      && (Octets? ==> |octets| < 0x1_0000_0000_0000_0000)
    }
  }

  /** What follows a tag: a scalar, or the opening of a container. */
  datatype Item = Value(scalar: Scalar) | Open(kind: Kind) {
    predicate Fits() { Value? ==> scalar.Fits() }
  }

  datatype Error =
    | TruncatedTag
    | TruncatedValue
    | BlobTooLong
    | ReservedType
    | EndedInside
    | EndAtTop
    | TooDeep

  /** Element-type values, the low five bits of the control byte. */
  const INT8 := 0x00
  const UINT8 := 0x04
  const BOOL_FALSE := 0x08
  const BOOL_TRUE := 0x09
  const FLOAT32 := 0x0A
  const FLOAT64 := 0x0B
  const UTF8_LEN1 := 0x0C
  const BYTES_LEN1 := 0x10
  const NULL := 0x14
  const STRUCTURE := 0x15
  const ARRAY := 0x16
  const LIST := 0x17
  const END_OF_CONTAINER := 0x18

  // ---------------------------------------------------------------------- encoding

  /** The width in bytes that a width code 0..3 stands for. */
  function Width(code: nat): (w: nat)
    requires code < 4
    ensures w <= 8
  {
    if code == 0 then 1 else if code == 1 then 2 else if code == 2 then 4 else 8
  }

  /** The smallest width code that holds v. */
  function UintCode(v: nat): (code: nat)
    ensures code < 4
  {
    if v <= 0xFF then 0 else if v <= 0xFFFF then 1 else if v <= 0xFFFF_FFFF then 2 else 3
  }

  function IntCode(v: int64): (code: nat)
    ensures code < 4
  {
    if -0x80 <= v <= 0x7F then 0
    else if -0x8000 <= v <= 0x7FFF then 1
    else if -0x8000_0000 <= v <= 0x7FFF_FFFF then 2
    else 3
  }

  /** Conversion of an int64 to uint64. */
  function TwosComplement(v: int64): uint64 {
    if v < 0 then v + 0x1_0000_0000_0000_0000 else v
  }

  /** The int64 that a two's-complement number of `width` bytes denotes. */
  function SignExtend(u: nat, width: nat): (i: int64)
    requires 1 <= width <= 8 && u < Range(width)
  {
    SmallRange(width);
    if 2 * u < Range(width) then u else u - Range(width)
  }

  lemma SmallRange(width: nat)
    requires 1 <= width <= 8
    ensures Range(width) <= 0x1_0000_0000_0000_0000
  {
    Ranges();
    if width < 8 { RangeMonotone(width, 8); }
  }

  lemma {:induction false} RangeMonotone(a: nat, b: nat)
    requires a <= b
    ensures Range(a) <= Range(b)
  {
    if a < b { RangeMonotone(a, b - 1); }
  }

  /** The tag-control value, the top three bits of the control byte. */
  function TagControl(t: Tag): (tc: nat)
    ensures tc < 8
  {
    match t.kind
    case Anonymous => 0
    case Context => 1
    case CommonProfile => if t.num <= 0xFFFF then 2 else 3
    case ImplicitProfile => if t.num <= 0xFFFF then 4 else 5
    case FullyQualified => if t.num <= 0xFFFF then 6 else 7
    case OtherKind => 0
  }

  function TagBytes(t: Tag): seq<byte> {
    match t.kind
    case Anonymous => []
    case Context => Le(t.num, 1)
    case CommonProfile => if t.num <= 0xFFFF then Le(t.num, 2) else Le(t.num, 4)
    case ImplicitProfile => if t.num <= 0xFFFF then Le(t.num, 2) else Le(t.num, 4)
    case FullyQualified =>
      Le(t.vendor, 2) + Le(t.profile, 2) + (if t.num <= 0xFFFF then Le(t.num, 2) else Le(t.num, 4))
    case OtherKind => []
  }

  function ItemType(x: Item): (et: nat)
    ensures et < END_OF_CONTAINER
  {
    match x
    case Open(Structure) => STRUCTURE
    case Open(Array) => ARRAY
    case Open(List) => LIST
    case Value(v) =>
      match v
      case Int(i) => INT8 + IntCode(i)
      case Uint(u) => UINT8 + UintCode(u)
      case Bool(b) => if b then BOOL_TRUE else BOOL_FALSE
      case Single(_) => FLOAT32
      case Double(_) => FLOAT64
      case Text(s) => UTF8_LEN1 + UintCode(|s|)
      case Octets(s) => BYTES_LEN1 + UintCode(|s|)
      case Null => NULL
  }

  function ItemBytes(x: Item): seq<byte> {
    match x
    case Open(_) => []
    case Value(v) =>
      match v
      case Int(i) => Le(TwosComplement(i), Width(IntCode(i)))
      case Uint(u) => Le(u, Width(UintCode(u)))
      case Bool(_) => []
      case Single(bits) => Le(bits, 4)
      case Double(bits) => Le(bits, 8)
      case Text(s) => Le(|s|, Width(UintCode(|s|))) + s
      case Octets(s) => Le(|s|, Width(UintCode(|s|))) + s
      case Null => []
  }

  function ControlByte(tc: nat, et: nat): (c: byte)
    requires tc < 8 && et < 0x20
    ensures c / 0x20 == tc && c % 0x20 == et
  {
    0x20 * tc + et
  }

  /** Control byte, tag and value of one element; for a container, everything before its members. */
  function EncHead(t: Tag, x: Item): (s: seq<byte>)
    ensures |s| > 0
  {
    [ControlByte(TagControl(t), ItemType(x))] + TagBytes(t) + ItemBytes(x)
  }

  // ---------------------------------------------------------------------- decoding

  /** A tag, or a value, together with the number of bytes it took. */
  datatype Taken<+T> = Taken(value: T, size: nat)

  /** Little-endian number in the first `width` bytes. */
  function Number(s: seq<byte>, width: nat): nat
    requires width <= |s|
  {
    FromLe(s[..width])
  }

  function NumberOf(s: seq<byte>, width: nat): (v: uint64)
    requires 1 <= width <= |s| && width <= 8
    ensures v < Range(width)
  {
    SmallRange(width);
    FromLe(s[..width])
  }

  function ReadTag(tc: nat, s: seq<byte>): (r: Result<Taken<Tag>, Error>)
    requires tc < 8
    ensures r.Ok? ==> r.value.size <= |s| && r.value.value.Canonical()
  {
    Ranges();
    if tc == 0 then Ok(Taken(ANONYMOUS, 0))
    else if tc == 1 then
      if |s| < 1 then Err(TruncatedTag) else Ok(Taken(Tag(Context, 0, 0, Number(s, 1)), 1))
    else if tc == 2 || tc == 4 then
      if |s| < 2 then Err(TruncatedTag)
      else Ok(Taken(Tag(if tc == 2 then CommonProfile else ImplicitProfile, 0, 0, Number(s, 2)), 2))
    else if tc == 3 || tc == 5 then
      if |s| < 4 then Err(TruncatedTag)
      else Ok(Taken(Tag(if tc == 3 then CommonProfile else ImplicitProfile, 0, 0, Number(s, 4)), 4))
    else if tc == 6 then
      if |s| < 6 then Err(TruncatedTag)
      else Ok(Taken(Tag(FullyQualified, Number(s, 2), Number(s[2..], 2), Number(s[4..], 2)), 6))
    else
      if |s| < 8 then Err(TruncatedTag)
      else Ok(Taken(Tag(FullyQualified, Number(s, 2), Number(s[2..], 2), Number(s[4..], 4)), 8))
  }

  /** A length field of the given width followed by that many bytes. */
  function ReadBlob(s: seq<byte>, width: nat): (r: Result<Taken<seq<byte>>, Error>)
    requires 1 <= width <= 8
    ensures r.Ok? ==> r.value.size <= |s| && |r.value.value| < 0x1_0000_0000_0000_0000
  {
    if |s| < width then Err(TruncatedValue)
    else
      var n := NumberOf(s, width);
      if n > |s| - width then Err(BlobTooLong)
      else Ok(Taken(s[width..width + n], width + n))
  }

  function ReadItem(et: nat, s: seq<byte>): (r: Result<Taken<Item>, Error>)
    requires et < 0x20
    ensures r.Ok? ==> r.value.size <= |s| && r.value.value.Fits()
  {
    if et <= 0x03 then
      var w := Width(et);
      if |s| < w then Err(TruncatedValue) else Ok(Taken(Value(Int(SignExtend(NumberOf(s, w), w))), w))
    else if et <= 0x07 then
      var w := Width(et - UINT8);
      if |s| < w then Err(TruncatedValue) else Ok(Taken(Value(Uint(NumberOf(s, w))), w))
    else if et == BOOL_FALSE || et == BOOL_TRUE then Ok(Taken(Value(Bool(et == BOOL_TRUE)), 0))
    else if et == FLOAT32 then
      if |s| < 4 then Err(TruncatedValue) else Ranges(); Ok(Taken(Value(Single(Number(s, 4))), 4))
    else if et == FLOAT64 then
      if |s| < 8 then Err(TruncatedValue) else Ok(Taken(Value(Double(NumberOf(s, 8))), 8))
    else if et <= 0x0F then
      var b :- ReadBlob(s, Width(et - UTF8_LEN1));
      Ok(Taken(Value(Text(b.value)), b.size))
    else if et <= 0x13 then
      var b :- ReadBlob(s, Width(et - BYTES_LEN1));
      Ok(Taken(Value(Octets(b.value)), b.size))
    else if et == NULL then Ok(Taken(Value(Null), 0))
    else if et == STRUCTURE then Ok(Taken(Open(Structure), 0))
    else if et == ARRAY then Ok(Taken(Open(Array), 0))
    else if et == LIST then Ok(Taken(Open(List), 0))
    else Err(ReservedType)
  }

  /** One element head, an end-of-container marker, or an error. */
  datatype Head = Elem(tag: Tag, item: Item, size: nat) | End | Bad(error: Error)

  function ReadHead(s: seq<byte>): (h: Head)
    requires |s| > 0
    ensures h.Elem? ==> 0 < h.size <= |s| && h.tag.Canonical() && h.item.Fits()
  {
    var et := s[0] % 0x20;
    if et == END_OF_CONTAINER then End
    else match ReadTag(s[0] / 0x20, s[1..])
      case Err(e) => Bad(e)
      case Ok(t) =>
        match ReadItem(et, s[1 + t.size..])
        case Err(e) => Bad(e)
        case Ok(x) => Elem(t.value, x.value, 1 + t.size + x.size)
  }

  // ---------------------------------------------------------------------- round trip of a head

  lemma NumberLe(v: nat, width: nat, rest: seq<byte>)
    requires v < Range(width)
    ensures Number(Le(v, width) + rest, width) == v
  {
    assert (Le(v, width) + rest)[..width] == Le(v, width);
    FromLeLe(v, width);
  }

  lemma TagRoundTrip(t: Tag, rest: seq<byte>)
    requires t.Canonical()
    ensures ReadTag(TagControl(t), TagBytes(t) + rest) == Ok(Taken(t, |TagBytes(t)|))
  {
    Ranges();
    match t.kind
    case Anonymous =>
    case Context => NumberLe(t.num, 1, rest);
    case CommonProfile => NumberLe(t.num, |TagBytes(t)|, rest);
    case ImplicitProfile => NumberLe(t.num, |TagBytes(t)|, rest);
    case FullyQualified =>
      var w := if t.num <= 0xFFFF then 2 else 4;
      var v, p, n := Le(t.vendor, 2), Le(t.profile, 2), Le(t.num, w);
      var s := TagBytes(t) + rest;
      assert s == v + (p + (n + rest));
      assert s[2..] == p + (n + rest);
      assert s[4..] == n + rest;
      NumberLe(t.vendor, 2, p + (n + rest));
      NumberLe(t.profile, 2, n + rest);
      NumberLe(t.num, w, rest);
  }

  lemma {:induction false} BlobRoundTrip(b: seq<byte>, w: nat, rest: seq<byte>)
    requires 1 <= w <= 8 && |b| < Range(w)
    ensures ReadBlob(Le(|b|, w) + b + rest, w) == Ok(Taken(b, w + |b|))
  {
    var s := Le(|b|, w) + b + rest;
    assert s == Le(|b|, w) + (b + rest);
    NumberLe(|b|, w, b + rest);
    Middle(Le(|b|, w), b, rest);
    BlobOf(s, w, b);
  }

  lemma BlobOf(s: seq<byte>, w: nat, b: seq<byte>)
    requires 1 <= w <= 8 && w + |b| <= |s| && Number(s, w) == |b| && s[w..w + |b|] == b
    ensures ReadBlob(s, w) == Ok(Taken(b, w + |b|))
  {
  }

  lemma Middle(a: seq<byte>, b: seq<byte>, c: seq<byte>)
    ensures (a + b + c)[|a|..|a| + |b|] == b
  {
  }

  /** Truncating two's complement to the chosen width and sign-extending gives the number back. */
  lemma SignedRoundTrip(i: int64)
    ensures var w := Width(IntCode(i));
            FromLe(Le(TwosComplement(i), w)) < Range(w) &&
            SignExtend(FromLe(Le(TwosComplement(i), w)), w) == i
  {
    Ranges();
    var w := Width(IntCode(i));
    FromLeLe(TwosComplement(i), w);
    Truncated(i, w);
  }

  /** 2^64 is a multiple of the modulus, so truncation keeps small negative numbers. */
  lemma Truncated(i: int64, w: nat)
    requires w == 1 || w == 2 || w == 4 || w == 8
    requires 0 <= 2 * i + Range(w) && 2 * i < Range(w)
    ensures TwosComplement(i) % Range(w) == if i < 0 then i + Range(w) else i
  {
    Ranges();
    if w == 1 {
      assert TwosComplement(i) % 0x100 == if i < 0 then i + 0x100 else i;
    } else if w == 2 {
      assert TwosComplement(i) % 0x1_0000 == if i < 0 then i + 0x1_0000 else i;
    } else if w == 4 {
      assert TwosComplement(i) % 0x1_0000_0000 == if i < 0 then i + 0x1_0000_0000 else i;
    }
  }

  lemma ItemRoundTrip(x: Item, rest: seq<byte>)
    requires x.Fits()
    ensures ReadItem(ItemType(x), ItemBytes(x) + rest) == Ok(Taken(x, |ItemBytes(x)|))
  {
    Ranges();
    match x
    case Open(_) =>
    case Value(v) =>
      match v
      case Int(i) =>
        var w := Width(IntCode(i));
        assert (ItemBytes(x) + rest)[..w] == ItemBytes(x);
        SignedRoundTrip(i);
      case Uint(u) => NumberLe(u, Width(UintCode(u)), rest);
      case Bool(_) =>
      case Single(bits) => NumberLe(bits, 4, rest);
      case Double(bits) => NumberLe(bits, 8, rest);
      case Text(s) => BlobRoundTrip(s, Width(UintCode(|s|)), rest);
      case Octets(s) => BlobRoundTrip(s, Width(UintCode(|s|)), rest);
      case Null =>
  }

  /** A head is read back exactly, whatever follows it. */
  lemma {:induction false} HeadRoundTrip(t: Tag, x: Item, rest: seq<byte>)
    requires t.Canonical() && x.Fits()
    ensures ReadHead(EncHead(t, x) + rest) == Elem(t, x, |EncHead(t, x)|)
  {
    var tc, et, tb, xb := TagControl(t), ItemType(x), TagBytes(t), ItemBytes(x);
    assert ReadTag(tc, tb + (xb + rest)) == Ok(Taken(t, |tb|)) by { TagRoundTrip(t, xb + rest); }
    assert ReadItem(et, xb + rest) == Ok(Taken(x, |xb|)) by { ItemRoundTrip(x, rest); }
    HeadOf(tc, et, t, tb, x, xb, rest);
  }

  lemma HeadOf(tc: nat, et: nat, t: Tag, tb: seq<byte>, x: Item, xb: seq<byte>, rest: seq<byte>)
    requires tc < 8 && et < END_OF_CONTAINER
    requires ReadTag(tc, tb + (xb + rest)) == Ok(Taken(t, |tb|))
    requires ReadItem(et, xb + rest) == Ok(Taken(x, |xb|))
    ensures ReadHead([ControlByte(tc, et)] + tb + xb + rest) == Elem(t, x, 1 + |tb| + |xb|)
  {
    Suffixes(ControlByte(tc, et), tb, xb, rest);
  }

  lemma Suffixes(c: byte, tb: seq<byte>, xb: seq<byte>, rest: seq<byte>)
    ensures ([c] + tb + xb + rest)[1..] == tb + (xb + rest)
    ensures ([c] + tb + xb + rest)[1 + |tb|..] == xb + rest
  {
  }
}
