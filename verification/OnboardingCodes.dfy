/**
 * What pairing codes say, apart from any printer: the fields of a QR code as parts of one large number, the
 * symbols of base 38, and the two well-known codes of the Matter SDK's test payload.
 */
module OnboardingCodes {
  import opened Arithmetic
  import opened Base38
  import opened Bytes
  import opened ManualCode
  import opened QrCode
  import opened Radix
  import opened Verhoeff

  // ---------------------------------------------------------------------- QR fields are parts of one number

  lemma {:induction false} NumberJoin(a: seq<nat>, b: seq<nat>, base: nat)
    requires base > 0
    ensures Number(a + b, base) == Number(a, base) + Power(base, |a|) * Number(b, base)
  {
    if a == [] {
      assert a + b == b;
    } else {
      assert (a + b)[1..] == a[1..] + b;
      NumberJoin(a[1..], b, base);
      Distribute(base, Number(a[1..], base), Power(base, |a| - 1), Number(b, base));
    }
  }

  /** The bits of some bytes are the digits of their little-endian number. */
  lemma {:induction false} BitsNumber(data: seq<byte>)
    ensures Number(Bits(data), 2) == FromLe(data)
  {
    hide Digits, Number, Power;
    if data == [] {
      NumberOfNone(2);
    } else {
      BitsNumber(data[1..]);
      NumberJoin(Digits(data[0], 2, 8), Bits(data[1..]), 2);
      PowersOfTwo();
      NumberOfDigits(data[0], 2, 8);
    }
  }

  /** Digits from a position on are what is left after dividing. */
  lemma {:induction false} SliceOfNumber(ds: seq<nat>, at: nat, n: nat, base: nat)
    requires base > 0 && Below(ds, base) && at + n <= |ds|
    ensures Number(ds[at..at + n], base) == Number(ds, base) / Power(base, at) % Power(base, n)
  {
    hide Number, Power;
    var a, m, z := ds[..at], ds[at..at + n], ds[at + n..];
    assert ds == a + (m + z);
    NumberJoin(a, m + z, base);
    NumberJoin(m, z, base);
    NumberBound(a, base);
    NumberBound(m, base);
    DivModUnique(Number(ds, base), Power(base, at), Number(m + z, base), Number(a, base));
    DivModUnique(Number(m + z, base), Power(base, n), Number(z, base), Number(m, base));
  }

  lemma {:induction false} FieldIsPart(data: seq<byte>, at: nat, n: nat)
    requires n <= 32 && at + n <= 8 * |data|
    ensures Field(data, at, n) == FromLe(data) / Power(2, at) % Power(2, n)
  {
    hide Number, Power, Bits;
    BitsNumber(data);
    SliceOfNumber(Bits(data), at, n, 2);
  }

  lemma {:induction false} PowerAdds(m: nat, n: nat)
    ensures Power(2, m + n) == Power(2, m) * Power(2, n)
  {
    if m > 0 {
      PowerAdds(m - 1, n);
      Regroup(Power(2, m - 1), Power(2, n));
    }
  }

  lemma Regroup(a: nat, b: nat)
    ensures 2 * (a * b) == (2 * a) * b
  {
  }

  lemma PlacesOfFields()
    ensures Power(2, 0) == 1 && Power(2, 19) == 0x8_0000 && Power(2, 35) == 0x8_0000_0000 && Power(2, 37) == 0x20_0000_0000
    ensures Power(2, 45) == 0x2000_0000_0000 && Power(2, 57) == 0x200_0000_0000_0000
  {
    hide Power;
    PowersOfTwo();
    PowerAdds(3, 16);
    PowerAdds(16, 16);
    PowerAdds(3, 32);
    PowerAdds(2, 35);
    PowerAdds(8, 37);
    PowerAdds(12, 45);
    NoPower();
  }

  lemma NoPower()
    ensures Power(2, 0) == 1
  {
  }

  /** Version, vendor, product, flow, capabilities, discriminator and passcode, from the lowest bit up. */
  lemma QrByPlace(raw: seq<byte>)
    requires |raw| >= 11
    ensures var n := FromLe(raw);
            var passcode := n / 0x200_0000_0000_0000 % 0x800_0000;
            Parsed(raw) ==
              if n % 8 != 0 then Err(BadVersion)
              else if !(0 < passcode <= 99999998) then Err(PasscodeRange)
              else Ok(Payload(passcode, n / 0x2000_0000_0000 % 0x1000, true, n / 8 % 0x1_0000, n / 0x8_0000 % 0x1_0000,
                              n / 0x8_0000_0000 % 4, n / 0x20_0000_0000 % 0x100))
  {
    hide Field, Power, FromLe;
    PowersOfTwo();
    PlacesOfFields();
    FieldIsPart(raw, 0, 3);
    FieldIsPart(raw, 3, 16);
    FieldIsPart(raw, 19, 16);
    FieldIsPart(raw, 35, 2);
    FieldIsPart(raw, 37, 8);
    FieldIsPart(raw, 45, 12);
    FieldIsPart(raw, 57, 27);
  }

  // ---------------------------------------------------------------------- base 38

  const ALPHABET := "0123456789ABCDEFGHIJKLMNOPQRSTUVWXYZ-."

  lemma ValueAt(v: nat)
    requires v < 38
    ensures |ALPHABET| == 38 && Value(ALPHABET[v]) == Some(v)
  {
    assert v == 0 || v == 1 || v == 2 || v == 3 || v == 4 || v == 5 || v == 6 || v == 7 || v == 8 || v == 9 || v == 10
        || v == 11 || v == 12 || v == 13 || v == 14 || v == 15 || v == 16 || v == 17 || v == 18 || v == 19 || v == 20
        || v == 21 || v == 22 || v == 23 || v == 24 || v == 25 || v == 26 || v == 27 || v == 28 || v == 29 || v == 30
        || v == 31 || v == 32 || v == 33 || v == 34 || v == 35 || v == 36 || v == 37;
  }

  /** The value of a symbol is its place in the alphabet, and nothing else has one. */
  lemma ValueIsPlace(c: char)
    ensures |ALPHABET| == 38
    ensures match Value(c) case None => c !in ALPHABET case Some(v) => v < 38 && ALPHABET[v] == c
  {
    hide Value;
    if c in ALPHABET {
      var i :| 0 <= i < |ALPHABET| && ALPHABET[i] == c;
      ValueAt(i);
    } else if Value(c).Some? {
      ValueAt(Value(c).value);
      SymbolOfValue(c);
      SymbolOfValue(ALPHABET[Value(c).value]);
    }
  }

  /** Five symbols, the least significant first, give three bytes, also the least significant first. */
  lemma FiveSymbols(s: string, a: nat, b: nat, c: nat, d: nat, e: nat)
    requires |s| >= 5
    requires Value(s[0]) == Some(a) && Value(s[1]) == Some(b) && Value(s[2]) == Some(c) && Value(s[3]) == Some(d) && Value(s[4]) == Some(e)
    ensures var v := a + 38 * b + 1444 * c + 54872 * d + 2085136 * e;
            Unpacked(s) == Prefixed([v % 0x100, v / 0x100 % 0x100, v / 0x1_0000 % 0x100], Unpacked(s[5..]))
  {
    hide Value, Values, Number, Le, Prefixed;
    var g := s[..5];
    assert g == [s[0], s[1], s[2], s[3], s[4]];
    ValuesOfFive(g, a, b, c, d, e);
    NumberOfFive(a, b, c, d, e);
    ThreeBytes(Number([a, b, c, d, e], 38));
  }

  lemma ValuesOfFive(g: string, a: nat, b: nat, c: nat, d: nat, e: nat)
    requires |g| == 5
    requires Value(g[0]) == Some(a) && Value(g[1]) == Some(b) && Value(g[2]) == Some(c) && Value(g[3]) == Some(d) && Value(g[4]) == Some(e)
    ensures Values(g) == Some([a, b, c, d, e])
  {
    hide Value;
    ValuesOfFour(g[1..], b, c, d, e);
    assert [a] + [b, c, d, e] == [a, b, c, d, e];
  }

  lemma ValuesOfFour(g: string, a: nat, b: nat, c: nat, d: nat)
    requires |g| == 4
    requires Value(g[0]) == Some(a) && Value(g[1]) == Some(b) && Value(g[2]) == Some(c) && Value(g[3]) == Some(d)
    ensures Values(g) == Some([a, b, c, d])
  {
    hide Value, Values;
    ValuesMore(g);
    ValuesMore(g[1..]);
    ValuesMore(g[2..]);
    ValuesMore(g[3..]);
    NoValues(g[4..]);
    assert g[1..][1..] == g[2..] && g[2..][1..] == g[3..] && g[3..][1..] == g[4..];
    assert [d] + [] == [d] && [c] + [d] == [c, d] && [b] + [c, d] == [b, c, d] && [a] + [b, c, d] == [a, b, c, d];
  }

  lemma ValuesMore(s: string)
    requires s != ""
    ensures Values(s) == if Value(s[0]).Some? && Values(s[1..]).Some? then Some([Value(s[0]).value] + Values(s[1..]).value) else None
  {
    hide Value;
  }

  lemma NoValues(s: string)
    requires s == ""
    ensures Values(s) == Some([])
  {
  }

  lemma NumberOfFive(a: nat, b: nat, c: nat, d: nat, e: nat)
    ensures Number([a, b, c, d], 38) == a + 38 * b + 1444 * c + 54872 * d
    ensures Number([a, b, c, d, e], 38) == a + 38 * b + 1444 * c + 54872 * d + 2085136 * e
  {
    hide Number;
    NumberOfNone(38);
    NumberOfMore(d, [], 38);
    NumberOfMore(c, [d], 38);
    NumberOfMore(b, [c, d], 38);
    NumberOfMore(a, [b, c, d], 38);
    NumberOfMore(e, [], 38);
    NumberOfMore(d, [e], 38);
    NumberOfMore(c, [d, e], 38);
    NumberOfMore(b, [c, d, e], 38);
    NumberOfMore(a, [b, c, d, e], 38);
    assert [d] + [] == [d] && [c] + [d] == [c, d] && [b] + [c, d] == [b, c, d] && [a] + [b, c, d] == [a, b, c, d];
    assert [e] + [] == [e] && [d] + [e] == [d, e] && [c] + [d, e] == [c, d, e] && [b] + [c, d, e] == [b, c, d, e]
        && [a] + [b, c, d, e] == [a, b, c, d, e];
  }

  lemma ThreeBytes(v: nat)
    ensures Le(v, 3) == [v % 0x100, v / 0x100 % 0x100, v / 0x1_0000 % 0x100]
    ensures Le(v, 2) == [v % 0x100, v / 0x100 % 0x100]
  {
    hide Le;
    LowestByte(v, 3);
    LowestByte(v, 2);
    LowestByte(v / 0x100, 2);
    LowestByte(v / 0x100, 1);
    LowestByte(v / 0x1_0000, 1);
    assert v / 0x100 / 0x100 == v / 0x1_0000;
    NoBytes(v / 0x1_0000 / 0x100);
    NoBytes(v / 0x100 / 0x100);
  }

  lemma LowestByte(v: nat, width: nat)
    requires width > 0
    ensures Le(v, width) == [v % 0x100] + Le(v / 0x100, width - 1)
  {
  }

  lemma NoBytes(v: nat)
    ensures Le(v, 0) == []
  {
  }

  /** Four symbols at the end give two bytes. */
  lemma LastFour(s: string, a: nat, b: nat, c: nat, d: nat)
    requires |s| == 4
    requires Value(s[0]) == Some(a) && Value(s[1]) == Some(b) && Value(s[2]) == Some(c) && Value(s[3]) == Some(d)
    ensures var v := a + 38 * b + 1444 * c + 54872 * d;
            Unpacked(s) == Ok([v % 0x100, v / 0x100 % 0x100])
  {
    hide Value, Values, Number, Le;
    assert s[..4] == s && s[4..] == "";
    ValuesOfFour(s, a, b, c, d);
    NumberOfFive(a, b, c, d, 0);
    ThreeBytes(Number([a, b, c, d], 38));
    assert Unpacked("") == Ok([]);
    PrefixedTwice(Le(Number([a, b, c, d], 38), 2), [], Ok([]));
  }

  // ---------------------------------------------------------------------- known codes

  lemma KnownEnd()
    ensures Unpacked("KA0648G00") == Ok([0xE0, 0x4B, 0x84, 0x68, 0x02])
  {
    hide Unpacked;
    var s, end := "KA0648G00", "8G00";
    FiveSymbols(s, 20, 10, 0, 6, 4);
    LastFour(end, 8, 16, 0, 0);
    assert s[5..] == end;
    var c, d := [0xE0, 0x4B, 0x84], [0x68, 0x02];
    assert c + d == [0xE0, 0x4B, 0x84, 0x68, 0x02];
  }

  lemma KnownMiddle()
    ensures Unpacked("42C00KA0648G00") == Ok([0x00, 0x44, 0x00, 0xE0, 0x4B, 0x84, 0x68, 0x02])
  {
    hide Unpacked;
    var s, end := "42C00KA0648G00", "KA0648G00";
    FiveSymbols(s, 4, 2, 12, 0, 0);
    KnownEnd();
    assert s[5..] == end;
    var b, c := [0x00, 0x44, 0x00], [0xE0, 0x4B, 0x84, 0x68, 0x02];
    assert b + c == [0x00, 0x44, 0x00, 0xE0, 0x4B, 0x84, 0x68, 0x02];
  }

  lemma KnownSymbols()
    ensures Unpacked("Y.K9042C00KA0648G00") == Ok([0x88, 0xFF, 0x07, 0x00, 0x44, 0x00, 0xE0, 0x4B, 0x84, 0x68, 0x02])
  {
    hide Unpacked;
    var s, end := "Y.K9042C00KA0648G00", "42C00KA0648G00";
    FiveSymbols(s, 34, 37, 20, 9, 0);
    KnownMiddle();
    assert s[5..] == end;
    var a, b := [0x88, 0xFF, 0x07], [0x00, 0x44, 0x00, 0xE0, 0x4B, 0x84, 0x68, 0x02];
    assert a + b == [0x88, 0xFF, 0x07, 0x00, 0x44, 0x00, 0xE0, 0x4B, 0x84, 0x68, 0x02];
  }

  lemma KnownNumber(raw: seq<byte>)
    requires raw == [0x88, 0xFF, 0x07, 0x00, 0x44, 0x00, 0xE0, 0x4B, 0x84, 0x68, 0x02]
    ensures FromLe(raw) == 2911418191035670798532488
  {
    hide FromLe;
    var low, mid, top := 0x0007_FF88, 0x4BE0_0044, 0x02_6884;
    assert FromLe(raw[8..]) == top by { LastThree(raw); }
    assert FromLe(raw[4..]) == mid + 0x1_0000_0000 * top by { FourMore(raw, 4); }
    assert FromLe(raw[0..]) == low + 0x1_0000_0000 * FromLe(raw[4..]) by { FourMore(raw, 0); }
    assert raw[0..] == raw;
  }

  lemma LastThree(s: seq<byte>)
    requires |s| == 11
    ensures FromLe(s[8..]) == s[8] as nat + 0x100 * (s[9] as nat) + 0x1_0000 * (s[10] as nat)
  {
    hide FromLe;
    FromLeMore(s, 8);
    FromLeMore(s, 9);
    FromLeMore(s, 10);
    FromLeNothing(s[11..]);
  }

  lemma FourMore(s: seq<byte>, i: nat)
    requires i + 4 <= |s|
    ensures FromLe(s[i..]) == s[i] + 0x100 * s[i + 1] + 0x1_0000 * s[i + 2] + 0x100_0000 * s[i + 3] + 0x1_0000_0000 * FromLe(s[i + 4..])
  {
    hide FromLe;
    FromLeMore(s, i);
    FromLeMore(s, i + 1);
    FromLeMore(s, i + 2);
    FromLeMore(s, i + 3);
  }

  lemma FromLeMore(s: seq<byte>, i: nat)
    requires i < |s|
    ensures FromLe(s[i..]) == s[i] + 0x100 * FromLe(s[i + 1..])
  {
    assert s[i..][1..] == s[i + 1..];
  }

  lemma FromLeNothing(s: seq<byte>)
    requires s == []
    ensures FromLe(s) == 0
  {
  }

  lemma QrOfBytes(qr: string, raw: seq<byte>)
    requires "MT:" <= qr && Unpacked(qr[3..]) == Ok(raw)
    ensures QrParsed(qr) == Parsed(raw)
  {
    hide Unpacked, Parsed;
  }

  lemma KnownPlaces(raw: seq<byte>)
    requires |raw| == 11 && FromLe(raw) == 2911418191035670798532488
    ensures Parsed(raw) == Ok(Payload(20202021, 0xF00, true, 0xFFF1, 0x8000, 0, 2))
  {
    hide Parsed, FromLe;
    QrByPlace(raw);
  }

  /** Passcode 20202021, discriminator 3840, vendor FFF1, product 8000, on-network discovery. */
  lemma KnownQrCode()
    ensures QrParsed("MT:Y.K9042C00KA0648G00") == Ok(Payload(20202021, 0xF00, true, 0xFFF1, 0x8000, 0, 2))
  {
    hide Unpacked, Parsed, QrParsed, FromLe;
    var qr, text := "MT:Y.K9042C00KA0648G00", "Y.K9042C00KA0648G00";
    assert qr[3..] == text;
    var raw: seq<byte> := [0x88, 0xFF, 0x07, 0x00, 0x44, 0x00, 0xE0, 0x4B, 0x84, 0x68, 0x02];
    KnownSymbols();
    KnownNumber(raw);
    KnownPlaces(raw);
    QrOfBytes(qr, raw);
  }

  lemma {:induction false} DigitsJoin(a: string, b: string)
    requires DigitsIn(a).Some? && DigitsIn(b).Some?
    ensures DigitsIn(a + b) == Some(DigitsIn(a).value + DigitsIn(b).value)
  {
    var front := DigitsIn(a).value;
    if b == "" {
      assert a + b == a && front + [] == front;
    } else {
      var n := |b| - 1;
      assert (a + b)[..|a + b| - 1] == a + b[..n];
      DigitsJoin(a, b[..n]);
      var more := DigitsIn(b[..n]).value;
      if '0' <= b[n] <= '9' {
        var last: seq<Digit> := [(b[n] - '0') as nat];
        assert (front + more) + last == front + (more + last);
      }
    }
  }

  lemma OneDigit(c: char)
    requires '0' <= c <= '9' || c == '-'
    ensures DigitsIn([c]) == Some(if c == '-' then [] else [(c - '0') as nat])
  {
    var one := [c];
    assert one[..0] == "";
    assert DigitsIn(one[..0]) == Some([]);
    if c != '-' {
      var d: seq<Digit> := [(c - '0') as nat];
      assert [] + d == d;
    }
  }

  lemma FourDigits(s: string)
    requires |s| == 4 && forall i :: 0 <= i < 4 ==> '0' <= s[i] <= '9'
    ensures DigitsIn(s) == Some([(s[0] - '0') as nat, (s[1] - '0') as nat, (s[2] - '0') as nat, (s[3] - '0') as nat])
  {
    hide DigitsIn;
    var a, b, c, d := [s[0]], [s[1]], [s[2]], [s[3]];
    OneDigit(s[0]);
    OneDigit(s[1]);
    OneDigit(s[2]);
    OneDigit(s[3]);
    DigitsJoin(a, b);
    DigitsJoin(c, d);
    DigitsJoin(a + b, c + d);
    assert s == (a + b) + (c + d);
    var ds: seq<Digit> := [(s[0] - '0') as nat, (s[1] - '0') as nat, (s[2] - '0') as nat, (s[3] - '0') as nat];
    assert ([ds[0]] + [ds[1]]) + ([ds[2]] + [ds[3]]) == ds;
  }

  const KNOWN_DIGITS: seq<Digit> := [3, 4, 9, 7, 0, 1, 1, 2, 3, 3, 2]

  /** The code may be grouped with dashes. */
  lemma KnownText()
    ensures DigitsIn("34970112332") == Some(KNOWN_DIGITS) && DigitsIn("3497-011-2332") == Some(KNOWN_DIGITS)
  {
    hide DigitsIn;
    var a, b, c: string := "3497", "011", "2332";
    var da: seq<Digit>, db: seq<Digit>, dc: seq<Digit> := [3, 4, 9, 7], [0, 1, 1], [2, 3, 3, 2];
    FourDigits(a);
    FourDigits(c);
    ThreeDigits(b);
    assert da + db + dc == KNOWN_DIGITS;
    DigitsJoin(a, b);
    DigitsJoin(a + b, c);
    assert "34970112332" == a + b + c;
    WithDash(a, da);
    WithDash(b, db);
    DigitsJoin(a + "-", b + "-");
    DigitsJoin((a + "-") + (b + "-"), c);
    assert "3497-011-2332" == (a + "-") + (b + "-") + c;
  }

  lemma ThreeDigits(s: string)
    requires |s| == 3 && forall i :: 0 <= i < 3 ==> '0' <= s[i] <= '9'
    ensures DigitsIn(s) == Some([(s[0] - '0') as nat, (s[1] - '0') as nat, (s[2] - '0') as nat])
  {
    hide DigitsIn;
    var a, b, c := [s[0]], [s[1]], [s[2]];
    OneDigit(s[0]);
    OneDigit(s[1]);
    OneDigit(s[2]);
    DigitsJoin(a, b);
    DigitsJoin(a + b, c);
    assert s == (a + b) + c;
    var ds: seq<Digit> := [(s[0] - '0') as nat, (s[1] - '0') as nat, (s[2] - '0') as nat];
    assert ([ds[0]] + [ds[1]]) + [ds[2]] == ds;
  }

  lemma WithDash(s: string, ds: seq<Digit>)
    requires DigitsIn(s) == Some(ds)
    ensures DigitsIn(s + "-") == Some(ds)
  {
    hide DigitsIn;
    OneDigit('-');
    DigitsJoin(s, "-");
    assert ds + [] == ds;
  }

  lemma SumMore(ds: seq<Digit>, n: nat)
    requires 0 < n <= |ds|
    ensures Sum(ds, n) == Mul(Sum(ds, n - 1), Permuted(n - 1, ds[|ds| - n]))
  {
    hide Mul, Permuted;
  }

  lemma KnownEntries()
    ensures Permuted(0, 2) == 2 && Permuted(1, 3) == 6 && Permuted(2, 3) == 3 && Permuted(3, 2) == 1 && Permuted(4, 1) == 4
    ensures Permuted(5, 1) == 2 && Permuted(6, 0) == 2 && Permuted(7, 7) == 2 && Permuted(8, 9) == 9 && Permuted(9, 4) == 2
    ensures Permuted(10, 3) == 3
  {
  }

  lemma KnownCheck()
    ensures Checked(KNOWN_DIGITS)
  {
    hide Permuted, Sum;
    var ds := KNOWN_DIGITS;
    KnownEntries();
    NoSum(ds);
    SumMore(ds, 1);
    SumMore(ds, 2);
    SumMore(ds, 3);
    SumMore(ds, 4);
    SumMore(ds, 5);
    SumMore(ds, 6);
    SumMore(ds, 7);
    SumMore(ds, 8);
    SumMore(ds, 9);
    SumMore(ds, 10);
    SumMore(ds, 11);
  }

  lemma NoSum(ds: seq<Digit>)
    ensures Sum(ds, 0) == 0
  {
  }

  lemma DecimalMore(ds: seq<Digit>, d: Digit)
    ensures Decimal(ds + [d]) == Decimal(ds) * 10 + d
  {
    assert (ds + [d])[..|ds|] == ds;
  }

  lemma NoDecimal()
    ensures Decimal([]) == 0
  {
  }

  lemma FourDecimal(a: Digit, b: Digit, c: Digit, d: Digit)
    ensures Decimal([a, b, c, d]) == 1000 * a + 100 * b + 10 * c + d
  {
    hide Decimal;
    NoDecimal();
    DecimalMore([], a);
    DecimalMore([a], b);
    DecimalMore([a, b], c);
    DecimalMore([a, b, c], d);
    assert [] + [a] == [a] && [a] + [b] == [a, b] && [a, b] + [c] == [a, b, c] && [a, b, c] + [d] == [a, b, c, d];
  }

  lemma KnownDecimals()
    ensures Decimal(KNOWN_DIGITS[1..6]) == 49701 && Decimal(KNOWN_DIGITS[6..10]) == 1233
  {
    hide Decimal;
    assert KNOWN_DIGITS[1..6] == [4, 9, 7, 0] + [1] && KNOWN_DIGITS[6..10] == [1, 2, 3, 3];
    FourDecimal(4, 9, 7, 0);
    DecimalMore([4, 9, 7, 0], 1);
    FourDecimal(1, 2, 3, 3);
  }

  /** The manual code of the same payload: passcode 20202021 and the four high bits of the discriminator. */
  lemma KnownManualCode()
    ensures ManualParsed("34970112332") == Ok(Payload(20202021, 0xF, false, 0, 0, 0, 0))
    ensures ManualParsed("3497-011-2332") == Ok(Payload(20202021, 0xF, false, 0, 0, 0, 0))
  {
    hide DigitsIn, Checked, Decimal;
    KnownText();
    KnownCheck();
    KnownDecimals();
  }
}
