module AshFrame {
  // ASH frames, the data link between a host and a Zigbee network co-processor: CRC, randomizing,
  // byte stuffing, and the frames built from them (Silicon Labs UG101).

  import opened Words
  import opened Bytes

  type Octet = w: seq<bool> | |w| == 8 witness Zeros(8)

  type Register = w: seq<bool> | |w| == 16 witness Zeros(16)

  // The reserved bytes, bit 0 first: 0x7E, 0x7D, 0x11, 0x13, 0x18 and 0x1A.
  const FLAG: Octet := [false, true, true, true, true, true, true, false]
  const ESCAPE: Octet := [true, false, true, true, true, true, true, false]
  const XON: Octet := [true, false, false, false, true, false, false, false]
  const XOFF: Octet := [true, true, false, false, true, false, false, false]
  const SUBST: Octet := [false, false, false, true, true, false, false, false]
  const CANCEL: Octet := [false, true, false, true, true, false, false, false]

  // ---------------------------------------------------------------------- CRC

  /** 0x1021 */
  const POLYNOMIAL: Register := Or(One(12, 16), Or(One(5, 16), One(0, 16)))

  /** One bit of the CCITT CRC. */
  function CrcBit(crc: Register): Register {
    if crc[15] then Xor(Shl(crc, 1), POLYNOMIAL) else Shl(crc, 1)
  }

  function CrcBits(crc: Register, n: nat): Register
    decreases n
  {
    if n == 0 then crc else CrcBits(CrcBit(crc), n - 1)
  }

  /** A byte in the high half of a register. */
  function High(b: Octet): Register { Zeros(8) + b }

  function CrcByte(crc: Register, b: Octet): Register {
    CrcBits(Xor(crc, High(b)), 8)
  }

  function CrcFrom(crc: Register, data: seq<Octet>): Register
    decreases |data|
  {
    if data == [] then crc else CrcFrom(CrcByte(crc, data[0]), data[1..])
  }

  /** 0xFFFF */
  const CRC_START: Register := Ones(16)

  function Crc16(data: seq<Octet>): Register { CrcFrom(CRC_START, data) }

  method ComputeCrc16(data: seq<Octet>) returns (crc: Register)
    ensures crc == Crc16(data)
  {
    crc := CRC_START;
    for i := 0 to |data|
      invariant CrcFrom(crc, data[i..]) == Crc16(data)
    {
      hide CrcByte;
      assert data[i..][1..] == data[i + 1..];
      crc := AddByte(crc, data[i]);
    }
  }

  method AddByte(start: Register, b: Octet) returns (crc: Register)
    ensures crc == CrcByte(start, b)
  {
    hide CrcByte, CrcBit, Xor, Shl;
    crc := Xor(start, High(b));
    EightBits(start, b, 8);
    for i := 0 to 8
      invariant CrcBits(crc, Left(i)) == CrcByte(start, b)
    {
      CrcBitByTop(crc);
      OneBit(crc, i);
      if crc[15] {
        crc := Xor(Shl(crc, 1), POLYNOMIAL);
      } else {
        crc := Shl(crc, 1);
      }
    }
    NoBit(crc);
  }

  /** How many of the eight bits are left. */
  function Left(i: nat): nat
    requires i <= 8
  {
    8 - i
  }

  lemma OneBit(crc: Register, i: nat)
    requires i < 8
    ensures CrcBits(crc, Left(i)) == CrcBits(CrcBit(crc), Left(i + 1))
  {
    hide CrcBit;
  }

  lemma NoBit(crc: Register)
    ensures CrcBits(crc, Left(8)) == crc
  {
  }

  lemma EightBits(crc: Register, b: Octet, n: nat)
    requires n == 8
    ensures CrcByte(crc, b) == CrcBits(Xor(crc, High(b)), n) && n == Left(0)
  {
    hide CrcBit, Xor, Shl, CrcBits;
  }

  lemma CrcBitByTop(crc: Register)
    ensures CrcBit(crc) == if crc[15] then Xor(Shl(crc, 1), POLYNOMIAL) else Shl(crc, 1)
  {
  }

  /** The step bit by bit: a rotation that also feeds the top bit into bits 5 and 12. */
  lemma {:induction false} CrcBitShape(r: Register)
    ensures forall i :: 0 <= i < 16 ==>
              CrcBit(r)[i] == (if i == 0 then r[15] else if i == 5 || i == 12 then r[i - 1] != r[15] else r[i - 1])
  {
    hide Or, One, Zeros, Shl, Xor;
    PolynomialBits();
  }

  lemma {:induction false} PolynomialBits()
    ensures forall i :: 0 <= i < 16 ==> (POLYNOMIAL[i] <==> i == 0 || i == 5 || i == 12)
  {
    hide Or, One, Zeros;
  }

  lemma {:induction false} CrcBitLinear(x: Register, y: Register)
    ensures CrcBit(Xor(x, y)) == Xor(CrcBit(x), CrcBit(y))
  {
    hide CrcBit;
    CrcBitShape(x);
    CrcBitShape(y);
    CrcBitShape(Xor(x, y));
  }

  lemma CrcBitInjective(x: Register, y: Register)
    requires CrcBit(x) == CrcBit(y)
    ensures x == y
  {
    hide CrcBit;
    CrcBitShape(x);
    CrcBitShape(y);
    assert CrcBit(x)[0] == CrcBit(y)[0];
    forall i | 0 <= i < 15 ensures x[i] == y[i] {
      assert CrcBit(x)[i + 1] == CrcBit(y)[i + 1];
    }
  }

  lemma {:induction false} CrcBitsLinear(x: Register, y: Register, n: nat)
    ensures CrcBits(Xor(x, y), n) == Xor(CrcBits(x, n), CrcBits(y, n))
    decreases n
  {
    hide CrcBit;
    if n > 0 {
      CrcBitLinear(x, y);
      CrcBitsLinear(CrcBit(x), CrcBit(y), n - 1);
    }
  }

  lemma {:induction false} CrcBitsInjective(x: Register, y: Register, n: nat)
    requires CrcBits(x, n) == CrcBits(y, n)
    ensures x == y
    decreases n
  {
    hide CrcBit;
    if n > 0 {
      CrcBitsInjective(CrcBit(x), CrcBit(y), n - 1);
      CrcBitInjective(x, y);
    }
  }

  /** A nonzero byte in the high half reaches the low half within eight steps. */
  lemma HighByteSpreads(b: Octet)
    requires forall i :: 0 <= i < 8 ==> !CrcBits(High(b), 8)[i]
    ensures b == Zeros(8)
  {
    hide CrcBit;
    var r0 := High(b);
    var r1 := CrcBit(r0);
    var r2 := CrcBit(r1);
    var r3 := CrcBit(r2);
    var r4 := CrcBit(r3);
    var r5 := CrcBit(r4);
    var r6 := CrcBit(r5);
    var r7 := CrcBit(r6);
    var r8 := CrcBit(r7);
    assert CrcBits(r0, 8) == CrcBits(r1, 7) == CrcBits(r2, 6) == CrcBits(r3, 5) == CrcBits(r4, 4) ==
           CrcBits(r5, 3) == CrcBits(r6, 2) == CrcBits(r7, 1) == r8;
    CrcBitGround(r0);
    CrcBitGround(r1);
    CrcBitGround(r2);
    CrcBitGround(r3);
    CrcBitGround(r4);
    CrcBitGround(r5);
    CrcBitGround(r6);
    CrcBitGround(r7);
    assert !r8[0] && !r8[1] && !r8[2] && !r8[3] && !r8[4] && !r8[5] && !r8[6] && !r8[7];
    assert b == r0[8..];
    assert forall i :: 0 <= i < 8 ==> !r0[i];
  }

  lemma {:induction false} CrcBitGround(r: Register)
    ensures var c := CrcBit(r);
            && c[0] == r[15] && c[1] == r[0] && c[2] == r[1] && c[3] == r[2] && c[4] == r[3]
            && c[5] == (r[4] != r[15]) && c[6] == r[5] && c[7] == r[6] && c[8] == r[7] && c[9] == r[8]
            && c[10] == r[9] && c[11] == r[10] && c[12] == (r[11] != r[15]) && c[13] == r[12]
            && c[14] == r[13] && c[15] == r[14]
  {
    hide CrcBit;
    CrcBitShape(r);
  }

  lemma {:induction false} CrcByteInjective(x: Register, y: Register, b: Octet)
    requires CrcByte(x, b) == CrcByte(y, b)
    ensures x == y
  {
    CrcBitsInjective(Xor(x, High(b)), Xor(y, High(b)), 8);
    XorTwice(x, High(b));
    XorTwice(y, High(b));
  }

  lemma {:induction false} CrcFromInjective(x: Register, y: Register, data: seq<Octet>)
    requires CrcFrom(x, data) == CrcFrom(y, data)
    ensures x == y
    decreases |data|
  {
    hide CrcByte;
    if data != [] {
      CrcFromInjective(CrcByte(x, data[0]), CrcByte(y, data[0]), data[1..]);
      CrcByteInjective(x, y, data[0]);
    }
  }

  lemma {:induction false} CrcFromAppend(crc: Register, a: seq<Octet>, b: seq<Octet>)
    ensures CrcFrom(crc, a + b) == CrcFrom(CrcFrom(crc, a), b)
    decreases |a|
  {
    hide CrcByte;
    if a == [] {
      assert a + b == b;
    } else {
      assert (a + b)[1..] == a[1..] + b;
      CrcFromAppend(CrcByte(crc, a[0]), a[1..], b);
    }
  }

  /** Bytes that lead from two registers to the same one: the low halves are the same, and the high ones with the bytes. */
  lemma SameAfterByte(u: Register, v: Register, b: Octet, d: Octet)
    requires CrcByte(u, b) == CrcByte(v, d)
    ensures forall i :: 0 <= i < 8 ==> u[i] == v[i] && (u[i + 8] != b[i]) == (v[i + 8] != d[i])
  {
    hide CrcBits, Zeros;
    CrcBitsInjective(Xor(u, High(b)), Xor(v, High(d)), 8);
    forall i | 0 <= i < 8 ensures u[i] == v[i] && (u[i + 8] != b[i]) == (v[i + 8] != d[i]) {
      assert Xor(u, High(b))[i] == Xor(v, High(d))[i];
      assert Xor(u, High(b))[i + 8] == Xor(v, High(d))[i + 8];
    }
  }

  /** From one register different bytes lead to registers with different low halves. */
  lemma LowHalfTellsApart(s: Register, a: Octet, c: Octet)
    requires forall i :: 0 <= i < 8 ==> CrcByte(s, a)[i] == CrcByte(s, c)[i]
    ensures a == c
  {
    hide CrcBits;
    var e: Octet := Xor(a, c);
    assert Xor(Xor(s, High(a)), Xor(s, High(c))) == High(e);
    CrcBitsLinear(Xor(s, High(a)), Xor(s, High(c)), 8);
    var u, v := CrcByte(s, a), CrcByte(s, c);
    forall i | 0 <= i < 8 ensures !CrcBits(High(e), 8)[i] {
      assert u[i] == v[i];
    }
    HighByteSpreads(e);
    forall i | 0 <= i < 8 ensures a[i] == c[i] {
      assert !e[i];
    }
  }

  /** Two bytes are told apart by the register they leave, from whatever register they start. */
  lemma {:induction false} TwoBytesTellApart(s: Register, a: Octet, b: Octet, c: Octet, d: Octet)
    requires CrcByte(CrcByte(s, a), b) == CrcByte(CrcByte(s, c), d)
    ensures a == c && b == d
  {
    hide CrcByte;
    var u, v := CrcByte(s, a), CrcByte(s, c);
    SameAfterByte(u, v, b, d);
    LowHalfTellsApart(s, a, c);
    forall i | 0 <= i < 8 ensures b[i] == d[i] {
      assert u[i] == v[i] && (u[i + 8] != b[i]) == (v[i + 8] != d[i]);
    }
  }

  /** The two bytes that a CRC is sent as, high byte first. */
  function CrcBytes(crc: Register): seq<Octet> { [crc[8..], crc[..8]] }

  /** While the top bits are zero the step only shifts. */
  lemma {:induction false} CrcBitsShift(r: Register, n: nat)
    requires n <= 16 && forall i :: 16 - n <= i < 16 ==> !r[i]
    ensures CrcBits(r, n) == Shl(r, n)
    decreases n
  {
    hide Shl, Xor, Zeros;
    if n > 0 {
      CrcBitsShift(Shl(r, 1), n - 1);
      assert Shl(Shl(r, 1), n - 1) == Shl(r, n);
    } else {
      assert Shl(r, 0) == r;
    }
  }

  /** Feeding a CRC its own bytes gives zero. */
  lemma {:induction false} OwnBytesGiveZero(s: Register)
    ensures CrcByte(CrcByte(s, s[8..]), s[..8]) == Zeros(16)
  {
    hide CrcBit;
    var low := Xor(s, High(s[8..]));
    assert forall i :: 8 <= i < 16 ==> !low[i];
    CrcBitsShift(low, 8);
    var zero := Xor(CrcByte(s, s[8..]), High(s[..8]));
    assert forall i :: 0 <= i < 16 ==> !zero[i];
    CrcBitsShift(zero, 8);
    assert Shl(zero, 8) == Zeros(16);
  }

  /** A body is followed by its CRC exactly when the CRC of everything is zero. */
  lemma CheckedIsZero(body: seq<Octet>, hi: Octet, lo: Octet)
    ensures Crc16(body + [hi, lo]) == Zeros(16) <==> [hi, lo] == CrcBytes(Crc16(body))
  {
    hide CrcByte;
    var s := Crc16(body);
    CrcFromAppend(CRC_START, body, [hi, lo]);
    CrcOfTwo(s, hi, lo);
    OwnBytesGiveZero(s);
    if CrcByte(CrcByte(s, hi), lo) == Zeros(16) {
      TwoBytesTellApart(s, hi, lo, s[8..], s[..8]);
    }
  }

  lemma CrcOfTwo(s: Register, a: Octet, b: Octet)
    ensures CrcFrom(s, [a, b]) == CrcByte(CrcByte(s, a), b)
  {
    hide CrcByte;
    var both: seq<Octet>, rest: seq<Octet>, none: seq<Octet> := [a, b], [b], [];
    assert both[0] == a && both[1..] == rest && rest[0] == b && rest[1..] == none;
    assert CrcFrom(s, both) == CrcFrom(CrcByte(s, a), rest) == CrcFrom(CrcByte(CrcByte(s, a), b), none);
  }

  // ---------------------------------------------------------------------- randomizing

  /** 0xB8 */
  const FEEDBACK: Octet := [false, false, false, true, true, true, false, true]
  /** 0x42 */
  const SEED: Octet := [false, true, false, false, false, false, true, false]

  function NextRandom(r: Octet): Octet {
    if r[0] then Xor(Shr(r, 1), FEEDBACK) else Shr(r, 1)
  }

  function RandomizeFrom(r: Octet, data: seq<Octet>): (out: seq<Octet>)
    ensures |out| == |data|
    decreases |data|
  {
    if data == [] then [] else [Xor(data[0], r)] + RandomizeFrom(NextRandom(r), data[1..])
  }

  function Randomize(data: seq<Octet>): seq<Octet> { RandomizeFrom(SEED, data) }

  lemma RandomizeStep(out: seq<Octet>, r: Octet, data: seq<Octet>)
    requires data != []
    ensures out + RandomizeFrom(r, data) == out + [Xor(data[0], r)] + RandomizeFrom(NextRandom(r), data[1..])
  {
    hide NextRandom, Xor;
  }

  method ComputeRandomize(data: seq<Octet>) returns (out: seq<Octet>)
    ensures out == Randomize(data)
  {
    out := [];
    var r := SEED;
    for i := 0 to |data|
      invariant out + RandomizeFrom(r, data[i..]) == Randomize(data)
    {
      hide NextRandom, Xor, RandomizeFrom;
      RandomizeStep(out, r, data[i..]);
      assert data[i..][1..] == data[i + 1..];
      var x: Octet := Xor(data[i], r);
      out := out + [x];
      r := ComputeNextRandom(r);
    }
  }

  method ComputeNextRandom(r: Octet) returns (next: Octet)
    ensures next == NextRandom(r)
  {
    if !r[0] {
      next := Shr(r, 1);
    } else {
      next := Xor(Shr(r, 1), FEEDBACK);
    }
  }

  lemma {:induction false} RandomizeTwice(r: Octet, data: seq<Octet>)
    ensures RandomizeFrom(r, RandomizeFrom(r, data)) == data
    decreases |data|
  {
    hide NextRandom;
    if data != [] {
      var out := RandomizeFrom(r, data);
      assert out[1..] == RandomizeFrom(NextRandom(r), data[1..]);
      XorTwice(data[0], r);
      RandomizeTwice(NextRandom(r), data[1..]);
    }
  }

  // ---------------------------------------------------------------------- byte stuffing

  predicate IsReserved(b: Octet) {
    b == FLAG || b == ESCAPE || b == XON || b == XOFF || b == SUBST || b == CANCEL
  }

  /** b ^ 0x20 */
  function Flip(b: Octet): Octet { Xor(b, One(5, 8)) }

  function Stuff(data: seq<Octet>): seq<Octet>
    decreases |data|
  {
    if data == [] then []
    else Stuffed(data[0]) + Stuff(data[1..])
  }

  /** Undoes stuffing; `esc` tells that an escape byte came before. A dangling escape is dropped. */
  function Unstuff(esc: bool, data: seq<Octet>): seq<Octet>
    decreases |data|
  {
    if data == [] then []
    else if esc then [Flip(data[0])] + Unstuff(false, data[1..])
    else if data[0] == ESCAPE then Unstuff(true, data[1..])
    else [data[0]] + Unstuff(false, data[1..])
  }

  method ComputeStuff(data: seq<Octet>) returns (out: seq<Octet>)
    ensures out == Stuff(data)
  {
    hide IsReserved, Flip;
    out := [];
    for i := 0 to |data|
      invariant out + Stuff(data[i..]) == Stuff(data)
    {
      assert data[i..][1..] == data[i + 1..];
      assert out + (Stuffed(data[i]) + Stuff(data[i + 1..])) == out + Stuffed(data[i]) + Stuff(data[i + 1..]);
      if IsReserved(data[i]) {
        out := out + [ESCAPE, Flip(data[i])];
      } else {
        out := out + [data[i]];
      }
    }
  }

  method ComputeUnstuff(data: seq<Octet>) returns (out: seq<Octet>)
    ensures out == Unstuff(false, data)
  {
    hide Flip;
    out := [];
    var esc := false;
    for i := 0 to |data|
      invariant out + Unstuff(esc, data[i..]) == Unstuff(false, data)
    {
      assert data[i..][1..] == data[i + 1..];
      if esc {
        out := out + [Flip(data[i])];
        esc := false;
      } else if data[i] == ESCAPE {
        esc := true;
      } else {
        out := out + [data[i]];
      }
    }
  }

  lemma FlipTwice(b: Octet)
    ensures Flip(Flip(b)) == b
  {
    XorTwice(b, One(5, 8));
  }

  /** What a byte becomes on the line. */
  function Stuffed(b: Octet): (s: seq<Octet>)
    ensures |s| == if IsReserved(b) then 2 else 1
  {
    if IsReserved(b) then [ESCAPE, Flip(b)] else [b]
  }

  lemma StuffedByte(b: Octet, rest: seq<Octet>)
    ensures Unstuff(false, Stuffed(b) + rest) == [b] + Unstuff(false, rest)
    ensures forall c :: c in Stuffed(b) ==> !Framing(c)
  {
    hide Flip;
    if IsReserved(b) {
      var s := Stuffed(b) + rest;
      assert s[0] == ESCAPE && s[1..] == [Flip(b)] + rest && s[1..][1..] == rest;
      FlipTwice(b);
      FlippedIsPlain(b);
      EscapeIsPlain();
    } else {
      assert ([b] + rest)[1..] == rest;
    }
  }

  /** The reserved bytes but the escape. */
  predicate Framing(b: Octet) { b == FLAG || b == XON || b == XOFF || b == SUBST || b == CANCEL }

  lemma EscapeIsPlain()
    ensures !Framing(ESCAPE)
  {
    assert ESCAPE[0] != FLAG[0] && ESCAPE[0] != CANCEL[0];
    assert ESCAPE[5] != XON[5] && ESCAPE[5] != XOFF[5] && ESCAPE[5] != SUBST[5];
  }

  /** Unstuffing gives back what was stuffed. */
  lemma {:induction false} UnstuffStuff(data: seq<Octet>)
    ensures Unstuff(false, Stuff(data)) == data
    decreases |data|
  {
    hide IsReserved, Stuffed, Unstuff;
    if data != [] {
      UnstuffStuff(data[1..]);
      StuffedByte(data[0], Stuff(data[1..]));
      assert data == [data[0]] + data[1..];
    } else {
      UnstuffNothing();
    }
  }

  lemma UnstuffNothing()
    ensures Unstuff(false, []) == []
  {
  }

  /** Stuffed data holds no byte that means something to the framing. */
  lemma {:induction false} StuffedIsPlain(data: seq<Octet>)
    ensures forall c :: c in Stuff(data) ==> !Framing(c)
    decreases |data|
  {
    hide IsReserved, Stuffed, Framing;
    if data != [] {
      StuffedIsPlain(data[1..]);
      StuffedByte(data[0], []);
    }
  }

  lemma FlippedIsPlain(b: Octet)
    requires IsReserved(b)
    ensures !IsReserved(Flip(b))
  {
    hide Xor, One, Zeros;
    assert Flip(b)[5] != b[5];
    assert Flip(b)[6] == b[6];
    assert FLAG[5] && FLAG[6] && ESCAPE[5] && ESCAPE[6];
    assert !XON[5] && !XON[6] && !XOFF[5] && !XOFF[6] && !SUBST[5] && !SUBST[6] && !CANCEL[5] && !CANCEL[6];
  }

  // ---------------------------------------------------------------------- frames

  datatype Frame =
    | Data(frmNum: Octet, reTx: bool, ackNum: Octet, payload: seq<Octet>)
    | Ack(ackNum: Octet)
    | Nak(ackNum: Octet)
    | Rst
    | RstAck(code: Octet)
    | Error(code: Octet)

  datatype AshError = Short | BadCrc | UnknownControl

  // Control bytes 0x07, 0x80, 0xA0, 0xC0, 0xC1 and 0xC2.
  const SEVEN: Octet := [true, true, true, false, false, false, false, false]
  const ACK_CONTROL: Octet := [false, false, false, false, false, false, false, true]
  const NAK_CONTROL: Octet := [false, false, false, false, false, true, false, true]
  const RST_CONTROL: Octet := [false, false, false, false, false, false, true, true]
  const RSTACK_CONTROL: Octet := [true, false, false, false, false, false, true, true]
  const ERROR_CONTROL: Octet := [false, true, false, false, false, false, true, true]

  /** The body with its CRC, before stuffing. */
  function Checked(body: seq<Octet>): seq<Octet> { body + CrcBytes(Crc16(body)) }

  function Encode(body: seq<Octet>): seq<Octet> { Stuff(Checked(body)) + [FLAG] }

  function DataControl(frmNum: Octet, ackNum: Octet): Octet {
    Or(Shl(And(frmNum, SEVEN), 4), And(ackNum, SEVEN))
  }

  /** What an unstuffed body without its CRC means. */
  function Interpret(body: seq<Octet>): Result<Frame, AshError>
    requires body != []
  {
    var ctrl := body[0];
    if !ctrl[7] then Ok(Data(And(Shr(ctrl, 4), SEVEN), ctrl[3], And(ctrl, SEVEN), Randomize(body[1..])))
    else if !ctrl[6] && !ctrl[5] then Ok(Ack(And(ctrl, SEVEN)))
    else if !ctrl[6] then Ok(Nak(And(ctrl, SEVEN)))
    else if ctrl == RST_CONTROL then Ok(Rst)
    else if ctrl == RSTACK_CONTROL then Ok(RstAck(if |body| >= 3 then body[2] else Zeros(8)))
    else if ctrl == ERROR_CONTROL then Ok(Error(if |body| >= 3 then body[2] else Zeros(8)))
    else Err(UnknownControl)
  }

  function DecodeUnstuffed(b: seq<Octet>): Result<Frame, AshError> {
    if |b| < 3 then Err(Short)
    else if b[|b| - 2..] != CrcBytes(Crc16(b[..|b| - 2])) then Err(BadCrc)
    else Interpret(b[..|b| - 2])
  }

  /** Decodes the bytes between two flags. */
  function Decode(raw: seq<Octet>): Result<Frame, AshError> { DecodeUnstuffed(Unstuff(false, raw)) }

  /** A call of one of the frame builders. */
  datatype Sent = SentData(frmNum: Octet, ackNum: Octet, ezsp: seq<Octet>) | SentAck(ackNum: Octet) | SentNak(ackNum: Octet) | SentRst

  function BodyOf(f: Sent): (body: seq<Octet>)
    ensures body != []
  {
    match f
    case SentData(frmNum, ackNum, ezsp) => [DataControl(frmNum, ackNum)] + Randomize(ezsp)
    case SentAck(ackNum) => [Or(ACK_CONTROL, And(ackNum, SEVEN))]
    case SentNak(ackNum) => [Or(NAK_CONTROL, And(ackNum, SEVEN))]
    case SentRst => [RST_CONTROL]
  }

  /** The bytes that the builder for this frame puts on the line. */
  function Build(f: Sent): seq<Octet> { Encode(BodyOf(f)) }

  /** The frame as its receiver should see it: sequence numbers are three bits wide. */
  function Expected(f: Sent): Frame {
    match f
    case SentData(frmNum, ackNum, ezsp) => Data(And(frmNum, SEVEN), false, And(ackNum, SEVEN), ezsp)
    case SentAck(ackNum) => Ack(And(ackNum, SEVEN))
    case SentNak(ackNum) => Nak(And(ackNum, SEVEN))
    case SentRst => Rst
  }

  lemma SevenBits()
    ensures forall i :: 0 <= i < 8 ==> (SEVEN[i] <==> i < 3)
  {
  }

  lemma DataControlFields(frmNum: Octet, ackNum: Octet)
    ensures var c := DataControl(frmNum, ackNum);
            !c[7] && !c[3] && And(Shr(c, 4), SEVEN) == And(frmNum, SEVEN) && And(c, SEVEN) == And(ackNum, SEVEN)
  {
    hide And, Or, Shl, Shr, Zeros;
    SevenBits();
  }

  lemma AckControlFields(c: Octet, n: Octet)
    requires forall i :: 0 <= i < 3 ==> !c[i]
    ensures And(Or(c, And(n, SEVEN)), SEVEN) == And(n, SEVEN)
    ensures forall i :: 3 <= i < 8 ==> Or(c, And(n, SEVEN))[i] == c[i]
  {
    hide And, Or;
    SevenBits();
  }

  lemma InterpretBody(f: Sent)
    ensures Interpret(BodyOf(f)) == Ok(Expected(f))
  {
    hide And, Or, Shl, Shr, Zeros;
    match f
    case SentData(frmNum, ackNum, ezsp) =>
      DataControlFields(frmNum, ackNum);
      assert BodyOf(f)[1..] == Randomize(ezsp);
      RandomizeTwice(SEED, ezsp);
    case SentAck(ackNum) => AckControlFields(ACK_CONTROL, ackNum);
    case SentNak(ackNum) => AckControlFields(NAK_CONTROL, ackNum);
    case SentRst =>
  }

  /** Every built frame decodes to what was sent, payload included. */
  lemma {:induction false} DecodeEncode(f: Sent)
    ensures Decode(Stuff(Checked(BodyOf(f)))) == Ok(Expected(f))
  {
    hide Interpret, Crc16, Unstuff, Stuff;
    var body := BodyOf(f);
    var b := Checked(body);
    UnstuffStuff(b);
    assert b[..|b| - 2] == body && b[|b| - 2..] == CrcBytes(Crc16(body));
    InterpretBody(f);
  }

  // ---------------------------------------------------------------------- error detection

  /** The received bytes pass the CRC test. */
  predicate CrcPasses(b: seq<Octet>) {
    |b| >= 3 && b[|b| - 2..] == CrcBytes(Crc16(b[..|b| - 2]))
  }

  lemma PassesIsZero(b: seq<Octet>)
    requires |b| >= 3
    ensures CrcPasses(b) <==> Crc16(b) == Zeros(16)
  {
    hide Crc16;
    var body, hi, lo := b[..|b| - 2], b[|b| - 2], b[|b| - 1];
    assert b == body + [hi, lo] && b[|b| - 2..] == [hi, lo];
    CheckedIsZero(body, hi, lo);
  }

  /** Only the two bytes at i and i+1 may differ. */
  predicate DifferInTwo(b: seq<Octet>, c: seq<Octet>, i: nat) {
    |b| == |c| && i + 2 <= |b| && b[..i] == c[..i] && b[i + 2..] == c[i + 2..]
  }

  /**
   * A frame whose CRC passes is never turned into another one whose CRC passes by changing one
   * byte or two adjacent bytes, the CRC bytes included.
   */
  lemma {:induction false} AdjacentChangeIsDetected(b: seq<Octet>, c: seq<Octet>, i: nat)
    requires CrcPasses(b) && DifferInTwo(b, c, i) && b != c
    ensures DecodeUnstuffed(c) == Err(BadCrc)
  {
    hide Crc16;
    PassesIsZero(b);
    PassesIsZero(c);
    if CrcPasses(c) { SameZero(b, c, i); }
  }

  lemma SameZero(b: seq<Octet>, c: seq<Octet>, i: nat)
    requires DifferInTwo(b, c, i) && Crc16(b) == Crc16(c)
    ensures b == c
  {
    hide CrcFrom, CrcByte;
    var s := CrcFrom(CRC_START, b[..i]);
    CrcAround(b, i);
    CrcAround(c, i);
    CrcFromInjective(CrcFrom(s, [b[i], b[i + 1]]), CrcFrom(s, [c[i], c[i + 1]]), b[i + 2..]);
    CrcOfTwo(s, b[i], b[i + 1]);
    CrcOfTwo(s, c[i], c[i + 1]);
    TwoBytesTellApart(s, b[i], b[i + 1], c[i], c[i + 1]);
    assert b == b[..i] + [b[i], b[i + 1]] + b[i + 2..];
    assert c == c[..i] + [c[i], c[i + 1]] + c[i + 2..];
  }

  lemma {:induction false} CrcAround(b: seq<Octet>, i: nat)
    requires i + 2 <= |b|
    ensures Crc16(b) == CrcFrom(CrcFrom(CrcFrom(CRC_START, b[..i]), [b[i], b[i + 1]]), b[i + 2..])
  {
    hide CrcFrom;
    var two: seq<Octet> := [b[i], b[i + 1]];
    assert b == b[..i] + two + b[i + 2..];
    CrcFromAppend(CRC_START, b[..i] + two, b[i + 2..]);
    CrcFromAppend(CRC_START, b[..i], two);
  }

  // ---------------------------------------------------------------------- frames on the line, bit by bit

  /** A number of three bits. */
  predicate ThreeBits(n: Octet) { forall i :: 3 <= i < 8 ==> !n[i] }

  predicate Numbered(f: Frame) {
    match f
    case Data(frmNum, _, ackNum, _) => ThreeBits(frmNum) && ThreeBits(ackNum)
    case Ack(ackNum) => ThreeBits(ackNum)
    case Nak(ackNum) => ThreeBits(ackNum)
    case Rst => true
    case RstAck(_) => true
    case Error(_) => true
  }

  /**
   * The body of a frame as either side of the line sends it: acknowledgement number, retransmission flag and
   * frame number from the lowest bit of the control byte on; a reset or an error with the protocol version
   * in front of its code.
   */
  function FrameBody(f: Frame, version: Octet): (body: seq<Octet>)
    ensures body != []
  {
    match f
    case Data(n, reTx, a, payload) => [[a[0], a[1], a[2], reTx, n[0], n[1], n[2], false]] + Randomize(payload)
    case Ack(a) => [[a[0], a[1], a[2], false, false, false, false, true]]
    case Nak(a) => [[a[0], a[1], a[2], false, false, true, false, true]]
    case Rst => [[false, false, false, false, false, false, true, true]]
    case RstAck(code) => [[true, false, false, false, false, false, true, true], version, code]
    case Error(code) => [[false, true, false, false, false, false, true, true], version, code]
  }

  lemma LowAndHigh(c: Octet, n: Octet)
    requires ThreeBits(n)
    ensures c[..3] == n[..3] ==> And(c, SEVEN) == n
    ensures c[4..7] == n[..3] ==> And(Shr(c, 4), SEVEN) == n
  {
    hide And, Shr;
    SevenBits();
    assert n[..3] == [n[0], n[1], n[2]] && c[..3] == [c[0], c[1], c[2]] && c[4..7] == [c[4], c[5], c[6]];
  }

  lemma InterpretFrame(f: Frame, version: Octet)
    requires Numbered(f)
    ensures Interpret(FrameBody(f, version)) == Ok(f)
  {
    hide And, Shr, Randomize, ThreeBits;
    var c := FrameBody(f, version)[0];
    match f
    case Data(n, reTx, a, payload) =>
      assert c[..3] == a[..3] && c[4..7] == n[..3];
      LowAndHigh(c, a);
      LowAndHigh(c, n);
      assert FrameBody(f, version)[1..] == Randomize(payload);
      Derandomized(payload);
    case Ack(a) =>
      assert c[..3] == a[..3];
      LowAndHigh(c, a);
    case Nak(a) =>
      assert c[..3] == a[..3];
      LowAndHigh(c, a);
    case Rst =>
    case RstAck(_) => assert c[0] && !RST_CONTROL[0];
    case Error(_) => assert !c[0] && c[1] && !RST_CONTROL[1] && !RSTACK_CONTROL[1];
  }

  lemma Derandomized(payload: seq<Octet>)
    ensures Randomize(Randomize(payload)) == payload
  {
    RandomizeTwice(SEED, payload);
  }

  /** Every frame of either side is decoded to its fields, the codes of resets and errors included. */
  lemma {:induction false} FrameDecodes(f: Frame, version: Octet)
    requires Numbered(f)
    ensures Decode(Stuff(Checked(FrameBody(f, version)))) == Ok(f)
  {
    hide Interpret, Crc16, Unstuff, Stuff, FrameBody;
    var body := FrameBody(f, version);
    var b := Checked(body);
    UnstuffStuff(b);
    assert b[..|b| - 2] == body && b[|b| - 2..] == CrcBytes(Crc16(body));
    InterpretFrame(f, version);
  }

  /** The builders of the host put such frames on the line, never as retransmissions. */
  lemma BuiltBody(f: Sent, version: Octet)
    ensures Numbered(Expected(f)) && BodyOf(f) == FrameBody(Expected(f), version)
    ensures Expected(f).Data? ==> !Expected(f).reTx
  {
    hide And, Or, Shl, Randomize, Zeros, DataControl;
    SevenBits();
    match f
    case SentData(n, a, ezsp) => BuiltData(n, a);
    case SentAck(a) => BuiltControl(ACK_CONTROL, a);
    case SentNak(a) => BuiltControl(NAK_CONTROL, a);
    case SentRst =>
  }

  lemma BuiltData(n: Octet, a: Octet)
    ensures DataControl(n, a) == [a[0], a[1], a[2], false, n[0], n[1], n[2], false]
    ensures And(n, SEVEN)[0] == n[0] && And(n, SEVEN)[1] == n[1] && And(n, SEVEN)[2] == n[2]
    ensures And(a, SEVEN)[0] == a[0] && And(a, SEVEN)[1] == a[1] && And(a, SEVEN)[2] == a[2]
  {
    hide And, Or, Shl, Zeros;
    SevenBits();
  }

  lemma BuiltControl(c: Octet, a: Octet)
    requires forall i :: 0 <= i < 3 ==> !c[i]
    ensures Or(c, And(a, SEVEN)) == [a[0], a[1], a[2], c[3], c[4], c[5], c[6], c[7]]
    ensures And(a, SEVEN)[0] == a[0] && And(a, SEVEN)[1] == a[1] && And(a, SEVEN)[2] == a[2]
  {
    hide And, Or, Zeros;
    SevenBits();
  }

  /** A reset or error that breaks off before its code has the code zero. */
  lemma NoCode(version: Octet)
    ensures Interpret([RSTACK_CONTROL]) == Ok(RstAck(Zeros(8))) && Interpret([RSTACK_CONTROL, version]) == Ok(RstAck(Zeros(8)))
    ensures Interpret([ERROR_CONTROL]) == Ok(Error(Zeros(8))) && Interpret([ERROR_CONTROL, version]) == Ok(Error(Zeros(8)))
  {
    assert RSTACK_CONTROL[0] && !RST_CONTROL[0];
    assert ERROR_CONTROL[1] && !RST_CONTROL[1] && !RSTACK_CONTROL[1];
  }

  // ---------------------------------------------------------------------- documented bytes

  /** 7E, 7D, 11, 13, 18 and 1A are sent as 7D followed by the byte with bit 5 turned round, all others as they are. */
  lemma DocumentedStuffing(b: Octet)
    ensures var escape := [true, false, true, true, true, true, true, false];
            Stuffed(b) == if Special(b) then [escape, [b[0], b[1], b[2], b[3], b[4], !b[5], b[6], b[7]]] else [b]
  {
    hide Xor, One, Zeros;
    assert Flip(b) == [b[0], b[1], b[2], b[3], b[4], !b[5], b[6], b[7]];
    assert IsReserved(b) <==> Special(b);
  }

  predicate Special(b: Octet) {
    || b == [false, true, true, true, true, true, true, false] // 0x7E
    || b == [true, false, true, true, true, true, true, false] // 0x7D
    || b == [true, false, false, false, true, false, false, false] // 0x11
    || b == [true, true, false, false, true, false, false, false] // 0x13
    || b == [false, false, false, true, true, false, false, false] // 0x18
    || b == [false, true, false, true, true, false, false, false] // 0x1A
  }

  /** One CRC step bit by bit. */
  predicate Steps(r: Register, c: Register) {
    && c[0] == r[15] && c[1] == r[0] && c[2] == r[1] && c[3] == r[2] && c[4] == r[3]
    && c[5] == (r[4] != r[15]) && c[6] == r[5] && c[7] == r[6] && c[8] == r[7] && c[9] == r[8]
    && c[10] == r[9] && c[11] == r[10] && c[12] == (r[11] != r[15]) && c[13] == r[12]
    && c[14] == r[13] && c[15] == r[14]
  }

  lemma NextBit(r: Register, next: Register, n: nat)
    requires 0 < n && Steps(r, next)
    ensures CrcBits(r, n) == CrcBits(next, n - 1)
  {
    hide CrcBit;
    CrcBitGround(r);
    assert CrcBit(r) == next;
  }

  lemma ResetCrc0(n: nat)
    requires n >= 2
    ensures CrcBits([true, true, true, true, true, true, true, true, true, true, true, true, true, true, false, false], n) ==
            CrcBits([false, false, true, true, true, true, true, true, true, true, true, true, true, true, true, true], n - 2)
  {
    hide CrcBits;
    var r0: Register := [true, true, true, true, true, true, true, true, true, true, true, true, true, true, false, false];
    var r1: Register := [false, true, true, true, true, true, true, true, true, true, true, true, true, true, true, false];
    var r2: Register := [false, false, true, true, true, true, true, true, true, true, true, true, true, true, true, true];
    NextBit(r0, r1, n - 0);
    NextBit(r1, r2, n - 1);
  }

  lemma ResetCrc1(n: nat)
    requires n >= 2
    ensures CrcBits([false, false, true, true, true, true, true, true, true, true, true, true, true, true, true, true], n) ==
            CrcBits([true, true, false, false, true, false, false, true, true, true, true, true, false, false, true, true], n - 2)
  {
    hide CrcBits;
    var r0: Register := [false, false, true, true, true, true, true, true, true, true, true, true, true, true, true, true];
    var r1: Register := [true, false, false, true, true, false, true, true, true, true, true, true, false, true, true, true];
    var r2: Register := [true, true, false, false, true, false, false, true, true, true, true, true, false, false, true, true];
    NextBit(r0, r1, n - 0);
    NextBit(r1, r2, n - 1);
  }

  lemma ResetCrc2(n: nat)
    requires n >= 2
    ensures CrcBits([true, true, false, false, true, false, false, true, true, true, true, true, false, false, true, true], n) ==
            CrcBits([true, true, true, true, false, true, false, false, false, true, true, true, false, false, false, false], n - 2)
  {
    hide CrcBits;
    var r0: Register := [true, true, false, false, true, false, false, true, true, true, true, true, false, false, true, true];
    var r1: Register := [true, true, true, false, false, false, false, false, true, true, true, true, false, false, false, true];
    var r2: Register := [true, true, true, true, false, true, false, false, false, true, true, true, false, false, false, false];
    NextBit(r0, r1, n - 0);
    NextBit(r1, r2, n - 1);
  }

  lemma ResetCrc3(n: nat)
    requires n >= 2
    ensures CrcBits([true, true, true, true, false, true, false, false, false, true, true, true, false, false, false, false], n) ==
            CrcBits([false, false, true, true, true, true, false, true, false, false, false, true, true, true, false, false], n - 2)
  {
    hide CrcBits;
    var r0: Register := [true, true, true, true, false, true, false, false, false, true, true, true, false, false, false, false];
    var r1: Register := [false, true, true, true, true, false, true, false, false, false, true, true, true, false, false, false];
    var r2: Register := [false, false, true, true, true, true, false, true, false, false, false, true, true, true, false, false];
    NextBit(r0, r1, n - 0);
    NextBit(r1, r2, n - 1);
  }

  /** The CRC of the reset body is 0x38BC. */
  lemma ResetCrc()
    ensures Crc16([RST_CONTROL]) == [false, false, true, true, true, true, false, true, false, false, false, true, true, true, false, false]
  {
    hide CrcByte, CrcBits;
    CrcOfOne(RST_CONTROL);
    EightBits(CRC_START, RST_CONTROL, 8);
    ResetStart();
    ResetCrc0(8);
    ResetCrc1(6);
    ResetCrc2(4);
    ResetCrc3(2);
    NothingLeft([false, false, true, true, true, true, false, true, false, false, false, true, true, true, false, false], 0);
  }

  lemma NothingLeft(r: Register, n: nat)
    requires n == 0
    ensures CrcBits(r, n) == r
  {
  }

  lemma ResetStart()
    ensures Xor(CRC_START, High(RST_CONTROL)) == [true, true, true, true, true, true, true, true, true, true, true, true, true, true, false, false]
  {
    hide Xor, Zeros, Ones;
  }

  lemma CrcOfOne(a: Octet)
    ensures Crc16([a]) == CrcByte(CRC_START, a)
  {
    hide CrcByte;
    var one: seq<Octet>, none: seq<Octet> := [a], [];
    assert one[1..] == none;
    assert CrcFrom(CRC_START, one) == CrcFrom(CrcByte(CRC_START, a), none);
  }

  /** The sequence that payloads are combined with, bit by bit. */
  function Sequence(k: nat): Octet {
    if k == 0 then [false, true, false, false, false, false, true, false]
    else
      var r := Sequence(k - 1);
      [r[1], r[2], r[3], r[4] != r[0], r[5] != r[0], r[6] != r[0], r[7], r[0]]
  }

  lemma NextRandomBits(r: Octet)
    ensures NextRandom(r) == [r[1], r[2], r[3], r[4] != r[0], r[5] != r[0], r[6] != r[0], r[7], r[0]]
  {
    hide Xor, Shr, Zeros;
  }

  /** Byte k of a payload is combined with byte k of the sequence. */
  lemma RandomizeAt(data: seq<Octet>, k: nat)
    requires k < |data|
    ensures forall i :: 0 <= i < 8 ==> (Randomize(data)[k][i] <==> data[k][i] != Sequence(k)[i])
  {
    hide Sequence, RandomizeFrom, Xor, NextRandom;
    FirstOfSequence();
    RandomizeFromAt(SEED, data, 0, k);
  }

  lemma FirstOfSequence()
    ensures SEED == Sequence(0)
  {
  }

  lemma {:induction false} RandomizeFromAt(r: Octet, data: seq<Octet>, j: nat, k: nat)
    requires k < |data| && r == Sequence(j)
    ensures RandomizeFrom(r, data)[k] == Xor(data[k], Sequence(j + k))
    decreases k
  {
    hide NextRandom, Xor;
    if k > 0 {
      NextRandomBits(r);
      RandomizeFromAt(NextRandom(r), data[1..], j + 1, k - 1);
    }
  }

  /** It starts with 42 21 A8 54 2A. */
  lemma DocumentedSequence()
    ensures Sequence(1) == [true, false, false, false, false, true, false, false]
    ensures Sequence(2) == [false, false, false, true, false, true, false, true]
    ensures Sequence(3) == [false, false, true, false, true, false, true, false]
    ensures Sequence(4) == [false, true, false, true, false, true, false, false]
  {
  }

  /** The reset frame is C0 38 BC 7E. */
  lemma ResetOnTheLine()
    ensures Build(SentRst) == [[false, false, false, false, false, false, true, true], [false, false, false, true, true, true, false, false],
                               [false, false, true, true, true, true, false, true], [false, true, true, true, true, true, true, false]]
  {
    hide Crc16, Stuffed;
    ResetCrc();
    var crc := Crc16([RST_CONTROL]);
    var hi: Octet, lo: Octet := [false, false, false, true, true, true, false, false], [false, false, true, true, true, true, false, true];
    assert crc[8..] == hi && crc[..8] == lo;
    assert Checked([RST_CONTROL]) == [RST_CONTROL, hi, lo];
    PlainByte(RST_CONTROL);
    PlainByte(hi);
    PlainByte(lo);
    StuffThree(RST_CONTROL, hi, lo);
  }

  lemma PlainByte(b: Octet)
    ensures b[7] || (b[5] && !b[6]) ==> Stuffed(b) == [b]
  {
  }

  lemma StuffThree(a: Octet, b: Octet, c: Octet)
    ensures Stuff([a, b, c]) == Stuffed(a) + Stuffed(b) + Stuffed(c)
  {
    hide Stuffed;
    assert [a, b, c][1..] == [b, c] && [b, c][1..] == [c] && [c][1..] == [];
    assert Stuff([c]) == Stuffed(c) + Stuff([]);
    assert Stuff([b, c]) == Stuffed(b) + Stuff([c]);
  }
}
