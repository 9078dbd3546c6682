/** Machine integers and their little-endian byte strings, shared by the codecs. */
module Bytes {
  import opened Arithmetic

  type byte = x: int | 0 <= x < 0x100
  type uint16 = x: int | 0 <= x < 0x1_0000
  type uint32 = x: int | 0 <= x < 0x1_0000_0000
  type uint64 = x: int | 0 <= x < 0x1_0000_0000_0000_0000
  type int64 = x: int | -0x8000_0000_0000_0000 <= x < 0x8000_0000_0000_0000

  datatype Result<+T, +E> = Ok(value: T) | Err(error: E) {
    predicate IsFailure() { Err? }
    function PropagateFailure<U>(): Result<U, E> requires Err? { Err(error) }
    function Extract(): T requires Ok? { value }
  }

  datatype Option<+T> = None | Some(value: T)

  /** 256 to the power of `width`. */
  function Range(width: nat): (r: nat)
    ensures r > 0
  {
    if width == 0 then 1 else 0x100 * Range(width - 1)
  }

  lemma Ranges()
    ensures Range(1) == 0x100
    ensures Range(2) == 0x1_0000
    ensures Range(4) == 0x1_0000_0000
    ensures Range(8) == 0x1_0000_0000_0000_0000
  {
    assert Range(3) == 0x100 * Range(2);
    assert Range(5) == 0x100 * Range(4);
    assert Range(7) == 0x100 * Range(6);
  }

  /** The `width` low bytes of v, least significant first. */
  function Le(v: nat, width: nat): (s: seq<byte>)
    ensures |s| == width
  {
    if width == 0 then [] else [v % 0x100] + Le(v / 0x100, width - 1)
  }

  /** The number whose little-endian bytes are s. */
  function FromLe(s: seq<byte>): (v: nat)
    ensures v < Range(|s|)
  {
    if s == [] then 0 else s[0] + 0x100 * FromLe(s[1..])
  }

  /** Reading back what was written gives v truncated to the width. */
  lemma {:induction false} FromLeLe(v: nat, width: nat)
    ensures FromLe(Le(v, width)) == v % Range(width)
  {
    if width > 0 {
      FromLeLe(v / 0x100, width - 1);
      assert Le(v, width)[1..] == Le(v / 0x100, width - 1);
      ModStep(v, Range(width - 1));
    }
  }

  lemma {:induction false} LeInjective(v: nat, w: nat, width: nat)
    requires v < Range(width) && w < Range(width) && Le(v, width) == Le(w, width)
    ensures v == w
  {
    if width > 0 {
      var a, b := Le(v / 0x100, width - 1), Le(w / 0x100, width - 1);
      assert a == Le(v, width)[1..] && b == Le(w, width)[1..];
      assert v % 0x100 == Le(v, width)[0] == Le(w, width)[0] == w % 0x100;
      LeInjective(v / 0x100, w / 0x100, width - 1);
    }
  }

  lemma {:induction false} ModStep(v: nat, m: nat)
    requires m > 0
    ensures v % (0x100 * m) == v % 0x100 + 0x100 * ((v / 0x100) % m)
  {
    var q := v / 0x100;
    assert v == 0x100 * q + v % 0x100;
    assert q == m * (q / m) + q % m;
    assert v == (0x100 * m) * (q / m) + (v % 0x100 + 0x100 * (q % m)) by {
      assert 0x100 * (m * (q / m)) == (0x100 * m) * (q / m);
    }
    DivModUnique(v, 0x100 * m, q / m, v % 0x100 + 0x100 * (q % m));
  }

  /** Writing back what was read gives the same bytes. */
  lemma {:induction false} LeFromLe(s: seq<byte>)
    ensures Le(FromLe(s), |s|) == s
  {
    if s != [] {
      LeFromLe(s[1..]);
      DivModUnique(FromLe(s), 0x100, FromLe(s[1..]), s[0]);
    }
  }
}
