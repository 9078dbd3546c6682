/** The plaintext message header, which secured messages authenticate as additional data. */
module MessageHeader {
  import opened Bytes

  /** Which destination field is present; values above 2 are not encodable. */
  datatype Header = Header(
    sessionID: uint16, sessionType: byte, privacy: bool, control: bool,
    counter: uint32,
    sourceNodeID: uint64, sourcePresent: bool,
    destKind: byte, destNodeID: uint64, destGroupID: uint16)
  {
    /** Fields that are not present are zero, and the session type fits its two bits. */
    predicate Normal() {
      && sessionType < 4
      && destKind <= DEST_GROUP
      && (!sourcePresent ==> sourceNodeID == 0)
      && (destKind != DEST_NODE ==> destNodeID == 0)
      && (destKind != DEST_GROUP ==> destGroupID == 0)
    }
  }

  const DEST_NONE := 0
  const DEST_NODE := 1
  const DEST_GROUP := 2

  datatype HeaderError = BadDestination | Short | BadVersion | Extensions | ReservedSize

  function MessageFlags(h: Header): byte
    requires h.destKind <= DEST_GROUP
  {
    (if h.sourcePresent then 4 else 0) + h.destKind
  }

  function SecurityFlags(h: Header): byte {
    h.sessionType % 4 + (if h.privacy then 0x80 else 0) + (if h.control then 0x40 else 0)
  }

  function SourceField(h: Header): seq<byte> {
    if h.sourcePresent then Le(h.sourceNodeID, 8) else []
  }

  function DestField(h: Header): seq<byte> {
    if h.destKind == DEST_NODE then Le(h.destNodeID, 8)
    else if h.destKind == DEST_GROUP then Le(h.destGroupID, 2)
    else []
  }

  function Fixed(h: Header): (s: seq<byte>)
    requires h.destKind <= DEST_GROUP
    ensures |s| == 8
  {
    [MessageFlags(h)] + Le(h.sessionID, 2) + [SecurityFlags(h)] + Le(h.counter, 4)
  }

  function Encode(h: Header): (r: Result<seq<byte>, HeaderError>)
    ensures r.Ok? <==> h.destKind <= DEST_GROUP
    ensures r.Ok? ==> |r.value| >= 8
  {
    if h.destKind > DEST_GROUP then Err(BadDestination) else Ok(Fixed(h) + SourceField(h) + DestField(h))
  }

  function Number16(s: seq<byte>): (v: uint16)
    requires |s| == 2
  {
    Ranges();
    FromLe(s)
  }

  function Number32(s: seq<byte>): (v: uint32)
    requires |s| == 4
  {
    Ranges();
    FromLe(s)
  }

  function Number64(s: seq<byte>): (v: uint64)
    requires |s| == 8
  {
    Ranges();
    FromLe(s)
  }

  /** A header and the number of bytes it takes; the rest of the message follows. */
  datatype Decoded = Decoded(header: Header, size: nat)

  function Decode(data: seq<byte>): (r: Result<Decoded, HeaderError>)
    ensures r.Ok? ==> 8 <= r.value.size <= |data|
    ensures r.Ok? ==> r.value.header.Normal() && r.value.header.counter == Number32(data[4..8])
  {
    if |data| < 8 then Err(Short)
    else if data[0] / 16 != 0 then Err(BadVersion)
    else if data[3] / 0x20 % 2 != 0 then Err(Extensions)
    else
      var h := Header(Number16(data[1..3]), data[3] % 4, data[3] / 0x80 % 2 != 0, data[3] / 0x40 % 2 != 0,
                      Number32(data[4..8]), 0, false, DEST_NONE, 0, 0);
      var sourced :- DecodeSource(data, h);
      DecodeDest(data, sourced)
  }

  function DecodeSource(data: seq<byte>, h: Header): (r: Result<Decoded, HeaderError>)
    requires |data| >= 8 && h.Normal() && h.destKind == DEST_NONE && !h.sourcePresent
    ensures r.Ok? ==> 8 <= r.value.size <= |data| && r.value.header.Normal()
    ensures r.Ok? ==> r.value.header.counter == h.counter && r.value.header.destKind == DEST_NONE
  {
    if data[0] / 4 % 2 == 0 then Ok(Decoded(h, 8))
    else if |data| < 16 then Err(Short)
    else Ok(Decoded(h.(sourceNodeID := Number64(data[8..16]), sourcePresent := true), 16))
  }

  function DecodeDest(data: seq<byte>, d: Decoded): (r: Result<Decoded, HeaderError>)
    requires 8 <= d.size <= |data| && d.header.Normal() && d.header.destKind == DEST_NONE
    ensures r.Ok? ==> 8 <= r.value.size <= |data| && r.value.header.Normal()
    ensures r.Ok? ==> r.value.header.counter == d.header.counter
  {
    var kind, pos := data[0] % 4, d.size;
    if kind == DEST_NONE then Ok(d)
    else if kind == DEST_NODE then
      if |data| - pos < 8 then Err(Short)
      else Ok(Decoded(d.header.(destNodeID := Number64(data[pos..pos + 8]), destKind := DEST_NODE), pos + 8))
    else if kind == DEST_GROUP then
      if |data| - pos < 2 then Err(Short)
      else Ok(Decoded(d.header.(destGroupID := Number16(data[pos..pos + 2]), destKind := DEST_GROUP), pos + 2))
    else Err(ReservedSize)
  }

  method EncodeHeader(h: Header) returns (r: Result<seq<byte>, HeaderError>)
    ensures r == Encode(h)
  {
    if h.destKind > DEST_GROUP { return Err(BadDestination); }
    var msgFlags: byte := 0;
    if h.sourcePresent { msgFlags := msgFlags + 4; }
    msgFlags := msgFlags + h.destKind;
    var secFlags: byte := h.sessionType % 4;
    if h.privacy { secFlags := secFlags + 0x80; }
    if h.control { secFlags := secFlags + 0x40; }
    var b: seq<byte> := [msgFlags];
    b := b + Le(h.sessionID, 2);
    b := b + [secFlags];
    b := b + Le(h.counter, 4);
    assert b == Fixed(h);
    if h.sourcePresent { b := b + Le(h.sourceNodeID, 8); }
    assert b == Fixed(h) + SourceField(h);
    if h.destKind == DEST_NODE {
      b := b + Le(h.destNodeID, 8);
    } else if h.destKind == DEST_GROUP {
      b := b + Le(h.destGroupID, 2);
    }
    assert b == Fixed(h) + SourceField(h) + DestField(h);
    r := Ok(b);
  }

  method DecodeHeader(data: seq<byte>) returns (r: Result<(Header, seq<byte>), HeaderError>)
    ensures Decode(data).Err? ==> r == Err(Decode(data).error)
    ensures Decode(data).Ok? ==> r == Ok((Decode(data).value.header, data[Decode(data).value.size..]))
  {
    if |data| < 8 { return Err(Short); }
    if data[0] / 16 != 0 { return Err(BadVersion); }
    var h := Header(Number16(data[1..3]), data[3] % 4, data[3] / 0x80 % 2 != 0, data[3] / 0x40 % 2 != 0,
                    Number32(data[4..8]), 0, false, DEST_NONE, 0, 0);
    if data[3] / 0x20 % 2 != 0 { return Err(Extensions); }
    var pos := 8;
    if data[0] / 4 % 2 != 0 {
      if |data| - pos < 8 { return Err(Short); }
      h := h.(sourceNodeID := Number64(data[pos..pos + 8]), sourcePresent := true);
      pos := pos + 8;
    }
    var kind := data[0] % 4;
    if kind == DEST_NODE {
      if |data| - pos < 8 { return Err(Short); }
      h := h.(destNodeID := Number64(data[pos..pos + 8]), destKind := DEST_NODE);
      pos := pos + 8;
    } else if kind == DEST_GROUP {
      if |data| - pos < 2 { return Err(Short); }
      h := h.(destGroupID := Number16(data[pos..pos + 2]), destKind := DEST_GROUP);
      pos := pos + 2;
    } else if kind != DEST_NONE {
      return Err(ReservedSize);
    }
    r := Ok((h, data[pos..]));
  }

  lemma Field(pre: seq<byte>, v: nat, width: nat, post: seq<byte>)
    requires v < Range(width)
    ensures (pre + Le(v, width) + post)[|pre|..|pre| + width] == Le(v, width)
    ensures FromLe(Le(v, width)) == v
  {
    FromLeLe(v, width);
    SmallMod(v, Range(width));
  }

  lemma SmallMod(v: nat, m: nat)
    requires v < m
    ensures v % m == v
  {
  }

  lemma Regrouped(a: seq<byte>, b: seq<byte>, c: seq<byte>, d: seq<byte>)
    ensures a + b + c + d == a + (b + c + d) == a + b + (c + d)
  {}

  /** Decoding an encoded header gives it back, with exactly its bytes consumed. */
  lemma RoundTrip(h: Header, rest: seq<byte>)
    requires h.Normal()
    ensures Decode(Encode(h).value + rest) == Ok(Decoded(h, |Encode(h).value|))
  {
    hide Fixed, SourceField, DestField, DecodeSource, DecodeDest, Number16, Number32, MessageFlags, SecurityFlags;
    var src, dst := SourceField(h), DestField(h);
    var data := Fixed(h) + src + dst + rest;
    Regrouped(Fixed(h), src, dst, rest);
    FixedFields(h, src + dst + rest);
    var base := h.(sourceNodeID := 0, sourcePresent := false, destKind := DEST_NONE, destNodeID := 0, destGroupID := 0);
    var sourced := base.(sourceNodeID := h.sourceNodeID, sourcePresent := h.sourcePresent);
    SourceStep(h, data, base, dst + rest);
    DestStep(h, data, sourced, Fixed(h) + src, rest);
    BaseOf(h, data, base);
  }

  /** The fields in front of the optional ones. */
  lemma BaseOf(h: Header, data: seq<byte>, base: Header)
    requires h.Normal() && |data| >= 8
    requires data[0] == MessageFlags(h) && data[3] == SecurityFlags(h)
    requires Number16(data[1..3]) == h.sessionID && Number32(data[4..8]) == h.counter
    requires base == h.(sourceNodeID := 0, sourcePresent := false, destKind := DEST_NONE, destNodeID := 0, destGroupID := 0)
    ensures data[0] / 16 == 0 && data[3] / 0x20 % 2 == 0
    ensures base == Header(Number16(data[1..3]), data[3] % 4, data[3] / 0x80 % 2 != 0, data[3] / 0x40 % 2 != 0,
                           Number32(data[4..8]), 0, false, DEST_NONE, 0, 0)
  {
  }

  lemma SourceStep(h: Header, data: seq<byte>, base: Header, rest: seq<byte>)
    requires h.Normal() && base.Normal() && base.destKind == DEST_NONE && !base.sourcePresent
    requires data == Fixed(h) + SourceField(h) + rest && data[0] == MessageFlags(h)
    ensures DecodeSource(data, base) ==
            Ok(Decoded(base.(sourceNodeID := h.sourceNodeID, sourcePresent := h.sourcePresent), 8 + |SourceField(h)|))
  {
    Ranges();
    if h.sourcePresent { Field(Fixed(h), h.sourceNodeID, 8, rest); }
  }

  lemma DestStep(h: Header, data: seq<byte>, d: Header, pre: seq<byte>, rest: seq<byte>)
    requires h.Normal() && d.Normal() && d.destKind == DEST_NONE && |pre| >= 8
    requires data == pre + DestField(h) + rest && data[0] == MessageFlags(h)
    ensures DecodeDest(data, Decoded(d, |pre|)) ==
            Ok(Decoded(d.(destKind := h.destKind, destNodeID := h.destNodeID, destGroupID := h.destGroupID),
                       |pre| + |DestField(h)|))
  {
    Ranges();
    if h.destKind == DEST_NODE { Field(pre, h.destNodeID, 8, rest); }
    if h.destKind == DEST_GROUP { Field(pre, h.destGroupID, 2, rest); }
  }

  lemma FixedFields(h: Header, rest: seq<byte>)
    requires h.Normal()
    ensures var data := Fixed(h) + rest;
            && data[0] == MessageFlags(h) && data[3] == SecurityFlags(h)
            && Number16(data[1..3]) == h.sessionID && Number32(data[4..8]) == h.counter
  {
    Ranges();
    var data := Fixed(h) + rest;
    Field([MessageFlags(h)], h.sessionID, 2, [SecurityFlags(h)] + Le(h.counter, 4) + rest);
    assert data == [MessageFlags(h)] + Le(h.sessionID, 2) + ([SecurityFlags(h)] + Le(h.counter, 4) + rest);
    var pre := [MessageFlags(h)] + Le(h.sessionID, 2) + [SecurityFlags(h)];
    Field(pre, h.counter, 4, rest);
    assert data == pre + Le(h.counter, 4) + rest;
  }
}
