module QrCode {
  // QR onboarding payloads: little-endian bit fields in base 38 (section 5.1.3 of the Matter Core
  // Specification). The printer is this model's, after that section; the program only reads.

  import opened Base38
  import opened Bytes
  import opened ManualCode
  import opened Radix

  // ---------------------------------------------------------------------- bits

  /** The bits of the bytes, each byte from its least significant bit. */
  function Bits(data: seq<byte>): (r: seq<nat>)
    ensures |r| == 8 * |data|
    ensures Below(r, 2)
  {
    if data == [] then [] else Digits(data[0], 2, 8) + Bits(data[1..])
  }

  lemma {:induction false} BitAt(data: seq<byte>, p: nat)
    requires p < 8 * |data|
    ensures Bits(data)[p] == Digits(data[p / 8], 2, 8)[p % 8]
  {
    if p >= 8 {
      BitAt(data[1..], p - 8);
      assert p / 8 - 1 == (p - 8) / 8 && p % 8 == (p - 8) % 8;
    }
  }

  function Min(a: nat, b: nat): nat { if a < b then a else b }

  /** The 32-bit number of the n bits at a position; bits past the 32nd are shifted out. */
  function Field(data: seq<byte>, at: nat, n: nat): nat
    requires at + n <= 8 * |data|
  {
    Number(Bits(data)[at..at + Min(n, 32)], 2)
  }

  lemma OneMoreBit(bits: seq<nat>, start: nat, i: nat)
    requires start + i < |bits| && Below(bits, 2)
    ensures Number(bits[start..start + i + 1], 2) ==
            Number(bits[start..start + i], 2) + if bits[start + i] == 0 then 0 else Power(2, i)
  {
    hide Number, Power;
    assert bits[start..start + i + 1] == bits[start..start + i] + [bits[start + i]];
    OneMoreDigit(bits[start..start + i], bits[start + i], 2);
  }

  class BitReader {
    const data: seq<byte>
    var pos: nat
    var failed: bool

    ghost predicate Valid()
      reads this
    {
      pos <= 8 * |data|
    }

    constructor (data: seq<byte>)
      ensures Valid() && this.data == data && pos == 0 && !failed
    {
      this.data, pos, failed := data, 0, false;
    }

    /** The next n bits; a read past the end uses up what is left and fails for good. */
    method Read(n: nat) returns (v: nat)
      requires Valid()
      modifies this
      ensures Valid()
      ensures old(failed) ==> v == 0 && failed && pos == old(pos)
      ensures !old(failed) && old(pos) + n <= 8 * |data| ==>
                !failed && pos == old(pos) + n && v == Field(data, old(pos), n)
      ensures !old(failed) && old(pos) + n > 8 * |data| ==> v == 0 && failed && pos == 8 * |data|
    {
      hide Digits, Power, Bits, Number;
      if failed { return 0; }
      ghost var start, bits := pos, Bits(data);
      v := 0;
      var i := 0;
      NumberOfNone(2);
      assert bits[start..start] == [];
      while i < n
        invariant 0 <= i <= n && pos == start + i <= 8 * |data| && !failed
        invariant v == Number(bits[start..start + Min(i, 32)], 2)
      {
        var byteIdx, bitIdx := pos / 8, pos % 8;
        if byteIdx >= |data| {
          failed := true;
          return 0;
        }
        BitAt(data, pos);
        if i < 32 {
          OneMoreBit(bits, start, i);
          if Digits(data[byteIdx], 2, 8)[bitIdx] != 0 { v := v + Power(2, i); }
        }
        pos := pos + 1;
        i := i + 1;
      }
    }
  }

  // ---------------------------------------------------------------------- packing fields

  datatype Entry = Entry(width: nat, value: nat)

  ghost predicate Fits(fs: seq<Entry>) {
    forall f :: f in fs ==> f.width <= 32 && f.value < Power(2, f.width)
  }

  function FieldBits(fs: seq<Entry>): (r: seq<nat>)
    ensures Below(r, 2) && |r| == Offset(fs, |fs|)
  {
    if fs == [] then [] else Digits(fs[0].value, 2, fs[0].width) + FieldBits(fs[1..])
  }

  /** Where the k-th field starts. */
  function Offset(fs: seq<Entry>, k: nat): nat
    requires k <= |fs|
  {
    if k == 0 then 0 else fs[0].width + Offset(fs[1..], k - 1)
  }

  function BytesOf(bits: seq<nat>): (data: seq<byte>)
    requires |bits| % 8 == 0 && Below(bits, 2)
    ensures |data| == |bits| / 8
  {
    if bits == [] then []
    else
      OneByte(bits[..8]);
      [Number(bits[..8], 2)] + BytesOf(bits[8..])
  }

  lemma OneByte(bits: seq<nat>)
    requires |bits| == 8 && Below(bits, 2)
    ensures Number(bits, 2) < 0x100
  {
    NumberBound(bits, 2);
    assert Power(2, 2) == 4;
    assert Power(2, 4) == 16;
    assert Power(2, 6) == 64;
  }

  lemma {:induction false} BitsOfBytes(bits: seq<nat>)
    requires |bits| % 8 == 0 && Below(bits, 2)
    ensures Bits(BytesOf(bits)) == bits
  {
    hide Digits, Number;
    if bits != [] {
      var low, rest := bits[..8], bits[8..];
      OneByte(low);
      DigitsOfNumber(low, 2);
      BitsOfBytes(rest);
      assert BytesOf(bits)[1..] == BytesOf(rest);
      assert bits == low + rest;
    }
  }

  lemma {:induction false} BitsConcat(a: seq<byte>, b: seq<byte>)
    ensures Bits(a + b) == Bits(a) + Bits(b)
  {
    hide Digits;
    if a == [] {
      assert a + b == b;
      assert [] + Bits(b) == Bits(b);
    } else {
      BitsConcat(a[1..], b);
      assert (a + b)[1..] == a[1..] + b;
      var first, x, y := Digits(a[0], 2, 8), Bits(a[1..]), Bits(b);
      assert (first + x) + y == first + (x + y);
    }
  }

  lemma {:induction false} OffsetsGrow(fs: seq<Entry>, k: nat)
    requires k < |fs|
    ensures Offset(fs, k) + fs[k].width == Offset(fs, k + 1) <= Offset(fs, |fs|)
  {
    if k > 0 {
      OffsetsGrow(fs[1..], k - 1);
    } else {
      assert Offset(fs[1..], 0) == 0;
    }
  }

  lemma SliceBehind(first: seq<nat>, rest: seq<nat>, o: nat, w: nat)
    requires o + w <= |rest|
    ensures (first + rest)[|first| + o..|first| + o + w] == rest[o..o + w]
  {}

  /** Each field's bits are its value's digits. */
  lemma {:induction false} FieldAt(fs: seq<Entry>, k: nat)
    requires k < |fs|
    ensures Offset(fs, k) + fs[k].width <= |FieldBits(fs)|
    ensures FieldBits(fs)[Offset(fs, k)..Offset(fs, k) + fs[k].width] == Digits(fs[k].value, 2, fs[k].width)
  {
    hide Digits;
    OffsetsGrow(fs, k);
    var first, rest := Digits(fs[0].value, 2, fs[0].width), FieldBits(fs[1..]);
    if k == 0 {
      assert (first + rest)[..|first|] == first;
    } else {
      FieldAt(fs[1..], k - 1);
      SliceBehind(first, rest, Offset(fs[1..], k - 1), fs[k].width);
    }
  }

  /** Every field of every layout is read back, whatever bytes follow. */
  lemma {:induction false} FieldRoundTrip(fs: seq<Entry>, extra: seq<byte>, k: nat)
    requires Fits(fs) && k < |fs| && |FieldBits(fs)| % 8 == 0
    ensures var data := BytesOf(FieldBits(fs)) + extra;
            && Offset(fs, k) + fs[k].width <= 8 * |data|
            && Field(data, Offset(fs, k), fs[k].width) == fs[k].value
  {
    hide Digits, Number, Power, Bits, BytesOf, FieldBits;
    var bits := FieldBits(fs);
    var o, w := Offset(fs, k), fs[k].width;
    FieldAt(fs, k);
    BitsOfBytes(bits);
    BitsConcat(BytesOf(bits), extra);
    assert Bits(BytesOf(bits) + extra)[o..o + w] == bits[o..o + w];
    NumberOfDigits(fs[k].value, 2, w);
  }

  // ---------------------------------------------------------------------- QR codes

  function Parsed(raw: seq<byte>): Result<Payload, SetupError> {
    if |raw| < 11 then Err(TooShort)
    else if Field(raw, 0, 3) != 0 then Err(BadVersion)
    else if !GoodPasscode(Field(raw, 57, 27)) then Err(PasscodeRange)
    else Ok(Payload(Field(raw, 57, 27), Field(raw, 45, 12), true, Field(raw, 3, 16), Field(raw, 19, 16),
                    Field(raw, 35, 2), Field(raw, 37, 8)))
  }

  function QrParsed(qr: string): Result<Payload, SetupError> {
    if !("MT:" <= qr) then Err(NotAQrCode)
    else
      match Unpacked(qr[3..])
      case Err(e) => Err(e)
      case Ok(raw) => Parsed(raw)
  }

  method ParseQRCode(qr: string) returns (r: Result<Payload, SetupError>)
    ensures r == QrParsed(qr)
  {
    hide Field, Unpacked;
    if !("MT:" <= qr) { return Err(NotAQrCode); }
    var body := Base38Decode(qr[3..]);
    if body.Err? { return Err(body.error); }
    var raw := body.value;
    if |raw| < 11 { return Err(TooShort); }
    var br := new BitReader(raw);
    var version := br.Read(3);
    var vid := br.Read(16);
    var pid := br.Read(16);
    var flow := br.Read(2);
    var caps := br.Read(8);
    var disc := br.Read(12);
    var passcode := br.Read(27);
    // Eleven bytes hold all 84 bits, so the reader has not failed here.
    assert !br.failed;
    if version != 0 { return Err(BadVersion); }
    if passcode == 0 || passcode > 99999998 { return Err(PasscodeRange); }
    r := Ok(Payload(passcode, disc, true, vid, pid, flow, caps));
  }

  predicate GoodPayload(p: Payload) {
    && GoodPasscode(p.passcode) && p.discriminator < 0x1000 && p.long
    && p.vendor < 0x1_0000 && p.product < 0x1_0000 && p.flow < 4 && p.capabilities < 0x100
  }

  function Layout(p: Payload): seq<Entry> {
    [Entry(3, 0), Entry(16, p.vendor), Entry(16, p.product), Entry(2, p.flow), Entry(8, p.capabilities),
     Entry(12, p.discriminator), Entry(27, p.passcode), Entry(4, 0)]
  }

  lemma PowersOfTwo()
    ensures Power(2, 2) == 4 && Power(2, 3) == 8 && Power(2, 4) == 16 && Power(2, 8) == 0x100
    ensures Power(2, 12) == 0x1000 && Power(2, 16) == 0x1_0000 && Power(2, 27) == 0x800_0000
  {
    assert Power(2, 6) == 64;
    assert Power(2, 10) == 0x400;
    assert Power(2, 14) == 0x4000;
    assert Power(2, 18) == 0x4_0000;
    assert Power(2, 20) == 0x10_0000;
    assert Power(2, 22) == 0x40_0000;
    assert Power(2, 24) == 0x100_0000;
    assert Power(2, 26) == 0x400_0000;
  }

  lemma {:induction false} LayoutFits(p: Payload)
    requires GoodPayload(p)
    ensures Fits(Layout(p))
  {
    hide Power;
    PowersOfTwo();
  }

  lemma LayoutOffsets(fs: seq<Entry>, p: Payload)
    requires fs == Layout(p)
    ensures Offset(fs, 0) == 0 && Offset(fs, 1) == 3 && Offset(fs, 2) == 19 && Offset(fs, 3) == 35
    ensures Offset(fs, 4) == 37 && Offset(fs, 5) == 45 && Offset(fs, 6) == 57 && Offset(fs, 8) == 88
  {
    assert Offset(fs, 0) == 0;
    OffsetsGrow(fs, 0);
    OffsetsGrow(fs, 1);
    OffsetsGrow(fs, 2);
    OffsetsGrow(fs, 3);
    OffsetsGrow(fs, 4);
    OffsetsGrow(fs, 5);
    OffsetsGrow(fs, 6);
    OffsetsGrow(fs, 7);
  }

  /** The code of a payload; `extra` is what may follow the fixed fields. */
  function Printed(p: Payload, extra: seq<byte>): string
    requires |FieldBits(Layout(p))| % 8 == 0
  {
    "MT:" + Packed(BytesOf(FieldBits(Layout(p))) + extra)
  }

  /** Every payload is read back from its code. */
  lemma QrRoundTrip(p: Payload, extra: seq<byte>)
    requires GoodPayload(p)
    ensures |FieldBits(Layout(p))| % 8 == 0
    ensures QrParsed(Printed(p, extra)) == Ok(p)
  {
    hide Field, FieldBits, BytesOf, Offset, Packed, Unpacked, Fits;
    var fs := Layout(p);
    LayoutFits(p);
    LayoutOffsets(fs, p);
    var raw := BytesOf(FieldBits(fs)) + extra;
    Base38RoundTrip(raw);
    assert Printed(p, extra)[3..] == Packed(raw);
    FieldRoundTrip(fs, extra, 0);
    FieldRoundTrip(fs, extra, 1);
    FieldRoundTrip(fs, extra, 2);
    FieldRoundTrip(fs, extra, 3);
    FieldRoundTrip(fs, extra, 4);
    FieldRoundTrip(fs, extra, 5);
    FieldRoundTrip(fs, extra, 6);
  }
}
