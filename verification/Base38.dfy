module Base38 {
  // Base 38, the text form of QR onboarding payloads (section 5.1.3 of the Matter Core Specification). The
  // printer is this model's, after that section; the program only reads. A character stands for one byte.

  import opened Bytes
  import opened ManualCode
  import opened Radix

  /** The value of a symbol: digits, letters, dash and dot in this order. */
  function Value(c: char): (r: Option<nat>)
    ensures r.Some? ==> r.value < 38
  {
    if '0' <= c <= '9' then Some((c - '0') as nat)
    else if 'A' <= c <= 'Z' then Some((c - 'A') as nat + 10)
    else if c == '-' then Some(36)
    else if c == '.' then Some(37)
    else None
  }

  function Symbol(v: nat): (c: char)
    requires v < 38
    ensures Value(c) == Some(v)
  {
    if v < 10 then '0' + v as char else if v < 36 then 'A' + (v - 10) as char else if v == 36 then '-' else '.'
  }

  function Values(s: string): (r: Option<seq<nat>>)
    ensures r.Some? ==> |r.value| == |s| && Below(r.value, 38)
  {
    if s == "" then Some([])
    else
      var v, rest := Value(s[0]), Values(s[1..]);
      if v.None? || rest.None? then None else Some([v.value] + rest.value)
  }

  function Symbols(vs: seq<nat>): (s: string)
    requires Below(vs, 38)
    ensures |s| == |vs|
  {
    if vs == [] then "" else [Symbol(vs[0])] + Symbols(vs[1..])
  }

  lemma {:induction false} ValuesOfSymbols(vs: seq<nat>)
    requires Below(vs, 38)
    ensures Values(Symbols(vs)) == Some(vs)
  {
    if vs != [] {
      ValuesOfSymbols(vs[1..]);
      assert Symbols(vs)[1..] == Symbols(vs[1..]);
      assert [vs[0]] + vs[1..] == vs;
    }
  }

  lemma SymbolOfValue(c: char)
    ensures Value(c).Some? ==> Symbol(Value(c).value) == c
  {
  }

  lemma {:induction false} SymbolsOfValues(s: string)
    requires Values(s).Some?
    ensures Symbols(Values(s).value) == s
  {
    if s != "" {
      SymbolOfValue(s[0]);
      SymbolsOfValues(s[1..]);
    }
  }

  /** Groups of five symbols stand for three bytes; a last group of four for two, of two for one. */
  function GroupLength(rest: nat): (n: nat)
    ensures n <= rest && n <= 5
  {
    if rest >= 5 then 5 else if rest == 4 then 4 else if rest == 2 then 2 else 0
  }

  function BytesOfGroup(n: nat): nat { (n + 1) / 2 }

  /** More bytes after the given ones, unless reading them failed. */
  function Prefixed(out: seq<byte>, r: Result<seq<byte>, SetupError>): Result<seq<byte>, SetupError> {
    if r.Ok? then Ok(out + r.value) else r
  }

  /** The bytes of a text, or the error of its first bad group. */
  function Unpacked(s: string): Result<seq<byte>, SetupError> {
    if s == "" then Ok([])
    else
      var n := GroupLength(|s|);
      if n == 0 then Err(BadBase38Length)
      else
        match Values(s[..n])
        case None => Err(BadBase38Character)
        case Some(vs) => Prefixed(Le(Number(vs, 38), BytesOfGroup(n)), Unpacked(s[n..]))
  }

  lemma PrefixedTwice(a: seq<byte>, b: seq<byte>, r: Result<seq<byte>, SetupError>)
    ensures Prefixed(a, Prefixed(b, r)) == Prefixed(a + b, r)
    ensures Prefixed([], r) == r
    ensures Prefixed(a, Ok([])) == Ok(a) && Prefixed(a, Ok(b)) == Ok(a + b)
  {
    assert a + [] == a;
    if r.Ok? { assert [] + r.value == r.value; }
    if r.Ok? { assert a + (b + r.value) == (a + b) + r.value; }
  }

  lemma {:induction false} BadValue(s: string, j: nat)
    requires j < |s| && Value(s[j]) == None
    ensures Values(s) == None
  {
    if j > 0 { BadValue(s[1..], j - 1); }
  }

  lemma {:induction false} ValueOf(s: string, j: nat)
    requires j < |s| && Values(s).Some?
    ensures Value(s[j]) == Some(Values(s).value[j])
  {
    if j > 0 { ValueOf(s[1..], j - 1); }
  }

  /** The value of one group, from its last symbol to its first. */
  method ReadGroup(s: string) returns (r: Option<nat>)
    ensures Values(s) == None ==> r == None
    ensures Values(s).Some? ==> r == Some(Number(Values(s).value, 38))
  {
    var v: nat, j := 0, |s|;
    while j > 0
      invariant 0 <= j <= |s|
      invariant Values(s).Some? ==> v == Number(Values(s).value[j..], 38)
      invariant forall k :: j <= k < |s| ==> Value(s[k]).Some?
    {
      j := j - 1;
      var d := Value(s[j]);
      if d.None? {
        BadValue(s, j);
        return None;
      }
      if Values(s).Some? {
        ValueOf(s, j);
        assert Values(s).value[j..][1..] == Values(s).value[j + 1..];
      }
      v := v * 38 + d.value;
    }
    AllValued(s);
    r := Some(v);
  }

  lemma {:induction false} AllValued(s: string)
    requires forall k :: 0 <= k < |s| ==> Value(s[k]).Some?
    ensures Values(s).Some?
  {
    if s != "" { AllValued(s[1..]); }
  }

  method Base38Decode(s: string) returns (r: Result<seq<byte>, SetupError>)
    ensures r == Unpacked(s)
  {
    hide Prefixed, Values, Number;
    var out: seq<byte>, i := [], 0;
    assert s[0..] == s;
    PrefixedTwice([], [], Unpacked(s));
    while i < |s|
      invariant 0 <= i <= |s|
      invariant Unpacked(s) == Prefixed(out, Unpacked(s[i..]))
    {
      PrefixedError(out, Unpacked(s[i..]));
      var chars := GroupLength(|s| - i);
      if chars == 0 { return Err(BadBase38Length); }
      assert s[i..][..chars] == s[i..i + chars] && s[i..][chars..] == s[i + chars..];
      var g := ReadGroup(s[i..i + chars]);
      if g.None? { return Err(BadBase38Character); }
      var bytes := LowBytes(g.value, BytesOfGroup(chars));
      PrefixedTwice(out, bytes, Unpacked(s[i + chars..]));
      out := out + bytes;
      i := i + chars;
    }
    PrefixedTwice(out, [], Ok([]));
    r := Ok(out);
  }

  lemma PrefixedError(out: seq<byte>, r: Result<seq<byte>, SetupError>)
    ensures r.Err? ==> Prefixed(out, r) == r
  {
  }

  method LowBytes(value: nat, width: nat) returns (out: seq<byte>)
    ensures out == Le(value, width)
  {
    var v, j := value, 0;
    out := [];
    while j < width
      invariant 0 <= j <= width
      invariant Le(value, width) == out + Le(v, width - j)
    {
      out := out + [v % 0x100];
      v := v / 0x100;
      j := j + 1;
    }
  }

  /** The symbols of up to three bytes. */
  function Group(bytes: seq<byte>): (s: string)
    requires 1 <= |bytes| <= 3
    ensures |s| == if |bytes| == 3 then 5 else 2 * |bytes|
  {
    Symbols(Digits(FromLe(bytes), 38, if |bytes| == 3 then 5 else 2 * |bytes|))
  }

  function Packed(bytes: seq<byte>): string {
    if bytes == [] then ""
    else if |bytes| <= 3 then Group(bytes)
    else Group(bytes[..3]) + Packed(bytes[3..])
  }

  lemma Powers()
    ensures Power(38, 2) == 1444 && Power(38, 4) == 2085136 && Power(38, 5) == 79235168
    ensures Range(1) == 0x100 && Range(2) == 0x1_0000 && Range(3) == 0x100_0000
  {
    assert Power(38, 3) == 38 * Power(38, 2);
    assert Power(38, 4) == 38 * Power(38, 3);
  }

  /** One group is read back. */
  lemma GroupRoundTrip(bytes: seq<byte>)
    requires 1 <= |bytes| <= 3
    ensures var n := |Group(bytes)|;
            && n == GroupLength(n) && BytesOfGroup(n) == |bytes|
            && Values(Group(bytes)).Some?
            && Le(Number(Values(Group(bytes)).value, 38), |bytes|) == bytes
  {
    hide Power, Range, Number, Digits, Symbols, Values;
    var v, n := FromLe(bytes), |Group(bytes)|;
    Powers();
    ValuesOfSymbols(Digits(v, 38, n));
    NumberOfDigits(v, 38, n);
    LeFromLe(bytes);
  }

  /** Every byte string is read back from its symbols. */
  lemma {:induction false} Base38RoundTrip(bytes: seq<byte>)
    ensures Unpacked(Packed(bytes)) == Ok(bytes)
  {
    hide Number, Values, Group, Le, Prefixed;
    if 0 < |bytes| <= 3 {
      GroupRoundTrip(bytes);
      var g := Group(bytes);
      assert g[..|g|] == g && g[|g|..] == "";
      PrefixedTwice(bytes, [], Ok([]));
    } else if bytes != [] {
      var g, rest := Group(bytes[..3]), Packed(bytes[3..]);
      GroupRoundTrip(bytes[..3]);
      assert (g + rest)[..5] == g && (g + rest)[5..] == rest;
      Base38RoundTrip(bytes[3..]);
      assert bytes[..3] + bytes[3..] == bytes;
      PrefixedTwice(bytes[..3], bytes[3..], Ok([]));
    }
  }

  /** No group of the text stands for more than its bytes hold. The reader drops such excess unnoticed. */
  predicate Canonical(s: string) {
    var n := GroupLength(|s|);
    s == "" || (n > 0 && Values(s[..n]).Some? && Number(Values(s[..n]).value, 38) < Range(BytesOfGroup(n))
                && Canonical(s[n..]))
  }

  lemma PackedSplit(a: seq<byte>, b: seq<byte>)
    requires |a| == 3 || (1 <= |a| <= 3 && b == [])
    ensures Packed(a + b) == Group(a) + Packed(b)
  {
    if b == [] {
      assert a + b == a;
    } else {
      assert (a + b)[..3] == a && (a + b)[3..] == b;
    }
  }

  /** One group is the one printed for its bytes exactly if it is not in excess. */
  lemma {:induction false} GroupExact(g: string)
    requires |g| > 0 && GroupLength(|g|) == |g| && Values(g).Some?
    ensures var v, n := Number(Values(g).value, 38), BytesOfGroup(|g|);
            Group(Le(v, n)) == g <==> v < Range(n)
  {
    hide Power, Range, Number, Digits, Symbols, Values, Le;
    var vs := Values(g).value;
    var v, n := Number(vs, 38), BytesOfGroup(|g|);
    Powers();
    FromLeLe(v, n);
    var low := v % Range(n);
    assert Group(Le(v, n)) == Symbols(Digits(low, 38, |g|));
    SymbolsOfValues(g);
    ValuesOfSymbols(Digits(low, 38, |g|));
    DigitsOfNumber(vs, 38);
    NumberOfDigits(low, 38, |g|);
    if v < Range(n) { assert low == v; }
  }

  /** So a text that is read is the one printed for its bytes exactly if no group is in excess. */
  lemma {:induction false} Base38Exact(s: string)
    requires Unpacked(s).Ok?
    ensures Packed(Unpacked(s).value) == s <==> Canonical(s)
  {
    hide Power, Range, Number, Values, Le, Group, Packed;
    if s == "" {
      PackedNone();
    } else {
      var n := GroupLength(|s|);
      var g, rest := s[..n], s[n..];
      var bytes := Le(Number(Values(g).value, 38), BytesOfGroup(n));
      var more := Unpacked(rest).value;
      assert s == g + rest;
      GroupExact(g);
      PackedSplit(bytes, more);
      Base38Exact(rest);
      SameParts(Group(bytes), Packed(more), g, rest);
    }
  }

  /** Two dots stand for 1443, of which one byte keeps 163: the text is read, but it is not how that byte is printed. */
  lemma ExcessIsRead()
    ensures Unpacked("..") == Ok([163]) && !Canonical("..") && Packed([163]) != ".."
  {
    var g := "..";
    assert g[..2] == g && g[2..] == "" && g[1..] == "." && "."[1..] == "";
    assert Values("") == Some([]) && Value('.') == Some(37);
    assert Values(".") == Some([37] + []);
    assert [37] + [] == [37] && [37] + [37] == [37, 37];
    assert Values(".") == Some([37]) && Values(g) == Some([37, 37]);
    assert Number([37], 38) == 37 && Number([37, 37], 38) == 1443;
    Ranges();
    assert Le(1443, 1) == [163];
    Base38Exact(g);
  }

  lemma PackedNone()
    ensures Packed([]) == ""
  {
  }

  lemma SameParts(a: string, b: string, c: string, d: string)
    requires |a| == |c|
    ensures a + b == c + d <==> a == c && b == d
  {
    assert (a + b)[..|a|] == a && (a + b)[|a|..] == b;
    assert (c + d)[..|a|] == c && (c + d)[|a|..] == d;
  }
}
