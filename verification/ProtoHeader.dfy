/** The protocol header inside a secured message: which exchange and which operation it belongs to. */
module ProtoHeader {
  import opened Bytes
  import MH = MessageHeader

  datatype Header = Header(
    initiator: bool, reliable: bool,
    opcode: byte, exchange: uint16, protocol: uint16,
    vendor: uint16, vendorPresent: bool,
    ackCounter: uint32, ackPresent: bool)
  {
    /** Fields that are not present are zero. */
    predicate Normal() {
      (!vendorPresent ==> vendor == 0) && (!ackPresent ==> ackCounter == 0)
    }
  }

  datatype ProtoError = Truncated | Extensions

  function Flags(p: Header): byte {
    (if p.initiator then 1 else 0) + (if p.ackPresent then 2 else 0) + (if p.reliable then 4 else 0)
    + (if p.vendorPresent then 16 else 0)
  }

  function VendorField(p: Header): seq<byte> { if p.vendorPresent then Le(p.vendor, 2) else [] }

  function AckField(p: Header): seq<byte> { if p.ackPresent then Le(p.ackCounter, 4) else [] }

  function Encoded(p: Header): seq<byte> {
    [Flags(p), p.opcode] + Le(p.exchange, 2) + Le(p.protocol, 2) + VendorField(p) + AckField(p)
  }

  method Encode(p: Header) returns (b: seq<byte>)
    ensures b == Encoded(p)
  {
    var flags: byte := 0;
    if p.initiator { flags := flags + 1; }
    if p.ackPresent { flags := flags + 2; }
    if p.reliable { flags := flags + 4; }
    if p.vendorPresent { flags := flags + 16; }
    b := [flags, p.opcode];
    b := b + Le(p.exchange, 2);
    b := b + Le(p.protocol, 2);
    if p.vendorPresent { b := b + Le(p.vendor, 2); }
    if p.ackPresent { b := b + Le(p.ackCounter, 4); }
  }

  /** The header in front of a message, and where the payload starts. */
  function Decoded(data: seq<byte>): (r: Result<(Header, nat), ProtoError>)
    ensures r.Ok? ==> 6 <= r.value.1 <= |data| && r.value.0.Normal()
  {
    if |data| < 6 then Err(Truncated)
    else
      var vendor, ack := data[0] / 16 % 2 == 1, data[0] / 2 % 2 == 1;
      var ackAt := if vendor then 8 else 6;
      var end := if ack then ackAt + 4 else ackAt;
      if |data| < end then Err(Truncated)
      else if data[0] / 8 % 2 == 1 then Err(Extensions)
      else
        Ok((Header(data[0] % 2 == 1, data[0] / 4 % 2 == 1, data[1], MH.Number16(data[2..4]), MH.Number16(data[4..6]),
                   if vendor then MH.Number16(data[6..8]) else 0, vendor,
                   if ack then MH.Number32(data[ackAt..end]) else 0, ack), end))
  }

  method Decode(data: seq<byte>) returns (r: Result<(Header, seq<byte>), ProtoError>)
    ensures Decoded(data).Err? ==> r == Err(Decoded(data).error)
    ensures Decoded(data).Ok? ==> r == Ok((Decoded(data).value.0, data[Decoded(data).value.1..]))
  {
    if |data| < 6 { return Err(Truncated); }
    var p := Header(data[0] % 2 == 1, data[0] / 4 % 2 == 1, data[1], MH.Number16(data[2..4]), MH.Number16(data[4..6]),
                    0, false, 0, false);
    var pos := 6;
    if data[0] / 16 % 2 == 1 {
      if |data| - pos < 2 { return Err(Truncated); }
      p := p.(vendor := MH.Number16(data[pos..pos + 2]), vendorPresent := true);
      pos := pos + 2;
    }
    if data[0] / 2 % 2 == 1 {
      if |data| - pos < 4 { return Err(Truncated); }
      p := p.(ackCounter := MH.Number32(data[pos..pos + 4]), ackPresent := true);
      pos := pos + 4;
    }
    if data[0] / 8 % 2 == 1 { return Err(Extensions); }
    r := Ok((p, data[pos..]));
  }

  lemma Parts(p: Header, payload: seq<byte>)
    requires p.Normal()
    ensures var data := Encoded(p) + payload;
            && |data| >= 6 && data[0] == Flags(p) && data[1] == p.opcode
            && MH.Number16(data[2..4]) == p.exchange && MH.Number16(data[4..6]) == p.protocol
  {
    Ranges();
    var data := Encoded(p) + payload;
    var a, b, c := [Flags(p), p.opcode], Le(p.exchange, 2), Le(p.protocol, 2);
    var rest := VendorField(p) + AckField(p) + payload;
    assert data == a + b + (c + rest);
    MH.Field(a, p.exchange, 2, c + rest);
    assert data == (a + b) + c + rest;
    MH.Field(a + b, p.protocol, 2, rest);
  }

  lemma OptionalParts(p: Header, payload: seq<byte>)
    requires p.Normal()
    ensures var data, ackAt := Encoded(p) + payload, if p.vendorPresent then 8 else 6;
            && (p.vendorPresent ==> |data| >= 8 && MH.Number16(data[6..8]) == p.vendor)
            && (p.ackPresent ==> |data| >= ackAt + 4 && MH.Number32(data[ackAt..ackAt + 4]) == p.ackCounter)
  {
    Ranges();
    var pre := [Flags(p), p.opcode] + Le(p.exchange, 2) + Le(p.protocol, 2);
    var data := Encoded(p) + payload;
    if p.vendorPresent {
      assert data == pre + Le(p.vendor, 2) + (AckField(p) + payload);
      MH.Field(pre, p.vendor, 2, AckField(p) + payload);
    }
    if p.ackPresent {
      assert data == (pre + VendorField(p)) + Le(p.ackCounter, 4) + payload;
      MH.Field(pre + VendorField(p), p.ackCounter, 4, payload);
    }
  }

  /** A message is split back into the header and payload it was put together from. */
  lemma RoundTrip(p: Header, payload: seq<byte>)
    requires p.Normal()
    ensures Decoded(Encoded(p) + payload) == Ok((p, |Encoded(p)|))
    ensures (Encoded(p) + payload)[|Encoded(p)|..] == payload
  {
    Parts(p, payload);
    OptionalParts(p, payload);
    FlagBits(p);
  }

  lemma FlagBits(p: Header)
    ensures var f := Flags(p);
            && (f % 2 == 1 <==> p.initiator) && (f / 2 % 2 == 1 <==> p.ackPresent)
            && (f / 4 % 2 == 1 <==> p.reliable) && f / 8 % 2 == 0 && (f / 16 % 2 == 1 <==> p.vendorPresent)
  {
  }
}
