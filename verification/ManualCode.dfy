module ManualCode {
  // Manual pairing codes (section 5.1.4 of the Matter Core Specification). The printer is this model's,
  // after that section; the program only reads.

  import opened Bytes
  import opened Verhoeff

  datatype SetupError =
    | BadCharacter | BadLength | CheckMismatch | FieldRange | PasscodeRange
    | NotAQrCode | BadBase38Character | BadBase38Length | TooShort | BadVersion

  datatype Payload = Payload(passcode: nat, discriminator: nat, long: bool, vendor: nat, product: nat,
                             flow: nat, capabilities: nat)

  predicate GoodPasscode(p: nat) { 0 < p <= 99999998 }

  // ---------------------------------------------------------------------- manual codes

  /** The digits of a code; dashes and spaces group them, and nothing else may occur. */
  function DigitsIn(code: string): Option<seq<Digit>> {
    if code == "" then Some([])
    else
      var n, c := |code| - 1, code[|code| - 1];
      var front := DigitsIn(code[..n]);
      if front.None? then None
      else if '0' <= c <= '9' then Some(front.value + [(c - '0') as nat])
      else if c == '-' || c == ' ' then front
      else None
  }

  function Decimal(ds: seq<Digit>): nat {
    if ds == [] then 0 else Decimal(ds[..|ds| - 1]) * 10 + ds[|ds| - 1]
  }

  /** The payload of digits whose length and check digit are right. */
  function Fields(ds: seq<Digit>): Result<Payload, SetupError>
    requires |ds| >= 11
  {
    var chunk2, chunk3 := Decimal(ds[1..6]), Decimal(ds[6..10]);
    if ds[0] > 7 || chunk2 > 0xFFFF || chunk3 > 0x1FFF then Err(FieldRange)
    else
      var passcode := chunk3 * 0x4000 + chunk2 % 0x4000;
      if !GoodPasscode(passcode) then Err(PasscodeRange)
      else Ok(Payload(passcode, ds[0] % 4 * 4 + chunk2 / 0x4000 % 4, false, 0, 0, 0, 0))
  }

  function ManualParsed(code: string): Result<Payload, SetupError> {
    match DigitsIn(code)
    case None => Err(BadCharacter)
    case Some(ds) =>
      if |ds| != 11 && |ds| != 21 then Err(BadLength)
      else if !Checked(ds) then Err(CheckMismatch)
      else Fields(ds)
  }

  lemma {:induction false} BadPrefix(code: string, n: nat)
    requires n <= |code| && DigitsIn(code[..n]) == None
    ensures DigitsIn(code) == None
    decreases |code| - n
  {
    if n < |code| {
      assert code[..n + 1][..n] == code[..n];
      BadPrefix(code, n + 1);
    } else {
      assert code[..n] == code;
    }
  }

  method ParseManualCode(code: string) returns (r: Result<Payload, SetupError>)
    ensures r == ManualParsed(code)
  {
    var digits: seq<Digit>, i := [], 0;
    while i < |code|
      invariant 0 <= i <= |code| && DigitsIn(code[..i]) == Some(digits)
    {
      var c := code[i];
      assert code[..i + 1][..i] == code[..i];
      if '0' <= c <= '9' {
        digits := digits + [(c - '0') as nat];
      } else if c != '-' && c != ' ' {
        BadPrefix(code, i + 1);
        return Err(BadCharacter);
      }
      i := i + 1;
    }
    assert code[..|code|] == code;
    if |digits| != 11 && |digits| != 21 { return Err(BadLength); }
    var ok := VerhoeffValid(digits);
    if !ok { return Err(CheckMismatch); }
    var chunk2 := ReadDecimal(digits[1..6]);
    var chunk3 := ReadDecimal(digits[6..10]);
    if digits[0] > 7 || chunk2 > 0xFFFF || chunk3 > 0x1FFF { return Err(FieldRange); }
    var passcode := chunk3 * 0x4000 + chunk2 % 0x4000;
    if passcode == 0 || passcode > 99999998 { return Err(PasscodeRange); }
    var first: nat := digits[0];
    r := Ok(Payload(passcode, first % 4 * 4 + chunk2 / 0x4000 % 4, false, 0, 0, 0, 0));
  }

  method ReadDecimal(ds: seq<Digit>) returns (v: nat)
    ensures v == Decimal(ds)
  {
    var i := 0;
    v := 0;
    while i < |ds|
      invariant 0 <= i <= |ds| && v == Decimal(ds[..i])
    {
      assert ds[..i + 1][..i] == ds[..i];
      v := v * 10 + ds[i];
      i := i + 1;
    }
    assert ds[..|ds|] == ds;
  }

  /** n decimal digits, the most significant first. */
  function DecimalDigits(v: nat, n: nat): (ds: seq<Digit>)
    ensures |ds| == n
  {
    if n == 0 then [] else DecimalDigits(v / 10, n - 1) + [v % 10]
  }

  function Tens(n: nat): nat { if n == 0 then 1 else 10 * Tens(n - 1) }

  lemma {:induction false} DecimalRoundTrip(v: nat, n: nat)
    requires v < Tens(n)
    ensures Decimal(DecimalDigits(v, n)) == v
  {
    if n > 0 {
      DecimalRoundTrip(v / 10, n - 1);
      assert DecimalDigits(v, n)[..n - 1] == DecimalDigits(v / 10, n - 1);
    }
  }

  lemma {:induction false} DecimalIsRead(ds: seq<Digit>)
    ensures Decimal(ds) < Tens(|ds|) && DecimalDigits(Decimal(ds), |ds|) == ds
  {
    if ds != [] { DecimalIsRead(ds[..|ds| - 1]); }
  }

  /**
   * The digits of a code: `custom` marks a code with vendor and product, whose ten digits are `extra`.
   * The short discriminator has four bits.
   */
  function ManualDigits(passcode: nat, short: nat, custom: bool, extra: seq<Digit>): (ds: seq<Digit>)
    requires short < 16
    ensures |ds| == 11 + |extra|
  {
    var first: Digit := (if custom then 4 else 0) + short / 4;
    var body := [first] + DecimalDigits(short % 4 * 0x4000 + passcode % 0x4000, 5)
                + DecimalDigits(passcode / 0x4000, 4) + extra;
    body + [CheckDigit(body)]
  }

  lemma SmallTens(n: nat)
    requires n == 4 || n == 5
    ensures Tens(n) == if n == 4 then 10000 else 100000
  {
    assert Tens(2) == 100;
    assert Tens(4) == 10000;
  }

  lemma ManualSlices(passcode: nat, short: nat, custom: bool, extra: seq<Digit>)
    requires short < 16
    ensures var ds := ManualDigits(passcode, short, custom, extra);
            && ds[0] == (if custom then 4 else 0) + short / 4
            && ds[1..6] == DecimalDigits(short % 4 * 0x4000 + passcode % 0x4000, 5)
            && ds[6..10] == DecimalDigits(passcode / 0x4000, 4)
            && ds[10..|ds| - 1] == extra
            && Checked(ds)
  {
    hide Checked, CheckDigit, DecimalDigits;
    var ds := ManualDigits(passcode, short, custom, extra);
    var body := ds[..|ds| - 1];
    assert ds == body + [CheckDigit(body)];
    OneCheckDigit(body, CheckDigit(body));
  }

  /** Printing and reading back a manual code, grouped in any way, gives its fields. */
  lemma ManualRoundTrip(code: string, passcode: nat, short: nat, custom: bool, extra: seq<Digit>)
    requires GoodPasscode(passcode) && short < 16 && (|extra| == 0 || |extra| == 10)
    requires DigitsIn(code) == Some(ManualDigits(passcode, short, custom, extra))
    ensures ManualParsed(code) == Ok(Payload(passcode, short, false, 0, 0, 0, 0))
  {
    hide DecimalDigits, Decimal, Checked, CheckDigit, DigitsIn, ManualDigits;
    ManualSlices(passcode, short, custom, extra);
    SmallTens(4);
    SmallTens(5);
    DecimalRoundTrip(short % 4 * 0x4000 + passcode % 0x4000, 5);
    DecimalRoundTrip(passcode / 0x4000, 4);
  }

  /** The three chunks of a code and its two fields determine each other. */
  lemma ChunksOfFields(first: nat, chunk2: nat, chunk3: nat)
    requires first <= 7 && chunk2 <= 0xFFFF
    ensures var passcode, short := chunk3 * 0x4000 + chunk2 % 0x4000, first % 4 * 4 + chunk2 / 0x4000 % 4;
            && short < 16 && passcode / 0x4000 == chunk3 && passcode % 0x4000 == chunk2 % 0x4000
            && short % 4 * 0x4000 + passcode % 0x4000 == chunk2
            && (if first >= 4 then 4 else 0) + short / 4 == first
  {
  }

  lemma ChunksOf(ds: seq<Digit>)
    requires |ds| >= 11
    ensures ds == ds[..|ds| - 1] + [ds[|ds| - 1]]
    ensures ds[..|ds| - 1] == [ds[0]] + ds[1..6] + ds[6..10] + ds[10..|ds| - 1]
  {}

  /** A code is read as a payload only if it is one of that payload's codes. */
  lemma {:induction false} ManualIsPrinted(code: string, ds: seq<Digit>, p: Payload)
    requires DigitsIn(code) == Some(ds) && ManualParsed(code) == Ok(p)
    ensures GoodPasscode(p.passcode) && p.discriminator < 16 && !p.long
    ensures ds == ManualDigits(p.passcode, p.discriminator, ds[0] >= 4, ds[10..|ds| - 1])
  {
    hide DecimalDigits, Decimal, Checked, CheckDigit, DigitsIn;
    var a, b := ds[1..6], ds[6..10];
    DecimalIsRead(a);
    DecimalIsRead(b);
    ChunksOfFields(ds[0], Decimal(a), Decimal(b));
    ChunksOf(ds);
    OneCheckDigit(ds[..|ds| - 1], ds[|ds| - 1]);
  }

  /** Mistyping one digit of an accepted code, or swapping two neighbours, is always noticed. */
  lemma MistypedCode(code: string, wrong: string, ds: seq<Digit>, i: nat, d: Digit)
    requires DigitsIn(code) == Some(ds) && ManualParsed(code).Ok? && i < |ds|
    requires || (d != ds[i] && DigitsIn(wrong) == Some(ds[i := d]))
             || (i + 1 < |ds| && ds[i] != ds[i + 1] && DigitsIn(wrong) == Some(ds[i := ds[i + 1]][i + 1 := ds[i]]))
    ensures ManualParsed(wrong) == Err(CheckMismatch)
  {
    hide Fields, Checked;
    if d != ds[i] { SingleDigit(ds, i, d); }
    if i + 1 < |ds| && ds[i] != ds[i + 1] { NeighboursSwapped(ds, i); }
  }
}
