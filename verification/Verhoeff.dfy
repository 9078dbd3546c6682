module Verhoeff {
  // The Verhoeff check digit of manual pairing codes. The two tables are those of the source; the proofs
  // go through the dihedral group of the pentagon, whose product the first table is.

  type Digit = d: nat | d < 10

  const PRODUCT: seq<seq<nat>> :=
    [[0, 1, 2, 3, 4, 5, 6, 7, 8, 9],
     [1, 2, 3, 4, 0, 6, 7, 8, 9, 5],
     [2, 3, 4, 0, 1, 7, 8, 9, 5, 6],
     [3, 4, 0, 1, 2, 8, 9, 5, 6, 7],
     [4, 0, 1, 2, 3, 9, 5, 6, 7, 8],
     [5, 9, 8, 7, 6, 0, 4, 3, 2, 1],
     [6, 5, 9, 8, 7, 1, 0, 4, 3, 2],
     [7, 6, 5, 9, 8, 2, 1, 0, 4, 3],
     [8, 7, 6, 5, 9, 3, 2, 1, 0, 4],
     [9, 8, 7, 6, 5, 4, 3, 2, 1, 0]]

  const PERMUTATION: seq<seq<nat>> :=
    [[0, 1, 2, 3, 4, 5, 6, 7, 8, 9],
     [1, 5, 7, 6, 2, 8, 3, 0, 9, 4],
     [5, 8, 0, 3, 7, 9, 6, 1, 4, 2],
     [8, 9, 1, 6, 0, 4, 3, 5, 2, 7],
     [9, 4, 5, 3, 1, 2, 6, 8, 7, 0],
     [4, 2, 8, 6, 5, 7, 3, 9, 0, 1],
     [2, 7, 9, 3, 8, 0, 6, 4, 1, 5],
     [7, 0, 4, 6, 9, 1, 3, 2, 5, 8]]

  // ---------------------------------------------------------------------- the tables

  function Mod5(x: int): (r: nat)
    requires -5 < x < 10
    ensures r < 5
  {
    if x < 0 then x + 5 else if x < 5 then x else x - 5
  }

  /** Rotations are 0 to 4, reflections 5 to 9; rotating after a reflection turns the other way. */
  function Mul(j: Digit, k: Digit): (r: Digit) {
    if j < 5 then if k < 5 then Mod5(j + k) else Mod5(j + k - 5) + 5
    else if k < 5 then Mod5(j - 5 - k) + 5 else Mod5(j - k)
  }

  function Inverse(j: Digit): Digit { if j == 0 || j >= 5 then j else 5 - j }

  lemma ProductIsMul(j: Digit, k: Digit)
    ensures |PRODUCT| == 10 && |PRODUCT[j]| == 10 && PRODUCT[j][k] == Mul(j, k)
  {
    var row := PRODUCT[j];
    assert j == 0 || j == 1 || j == 2 || j == 3 || j == 4 || j == 5 || j == 6 || j == 7 || j == 8 || j == 9;
    assert k == 0 || k == 1 || k == 2 || k == 3 || k == 4 || k == 5 || k == 6 || k == 7 || k == 8 || k == 9;
  }

  lemma RotationFirst(a: Digit, b: Digit, c: Digit)
    requires a < 5
    ensures Mul(Mul(a, b), c) == Mul(a, Mul(b, c))
  {
  }

  lemma ReflectionFirst(a: Digit, b: Digit, c: Digit)
    requires a >= 5
    ensures Mul(Mul(a, b), c) == Mul(a, Mul(b, c))
  {
  }

  lemma Associative(a: Digit, b: Digit, c: Digit)
    ensures Mul(Mul(a, b), c) == Mul(a, Mul(b, c))
  {
    hide Mul;
    if a < 5 { RotationFirst(a, b, c); } else { ReflectionFirst(a, b, c); }
  }

  lemma Identity(a: Digit)
    ensures Mul(0, a) == a && Mul(a, 0) == a
  {
  }

  lemma Inverses(a: Digit, b: Digit)
    ensures Mul(a, b) == 0 <==> a == Inverse(b)
  {
  }

  lemma Cancel(a: Digit, b: Digit, c: Digit)
    ensures Mul(a, c) == Mul(b, c) ==> a == b
    ensures Mul(c, a) == Mul(c, b) ==> a == b
  {
  }

  lemma Rows(i: nat, d: Digit)
    requires i < 8
    ensures |PERMUTATION| == 8 && |PERMUTATION[i]| == 10 && PERMUTATION[i][d] < 10
  {
    assert i == 0 || i == 1 || i == 2 || i == 3 || i == 4 || i == 5 || i == 6 || i == 7;
    assert d == 0 || d == 1 || d == 2 || d == 3 || d == 4 || d == 5 || d == 6 || d == 7 || d == 8 || d == 9;
  }

  /** The table entry of a digit in the i-th position from the right. */
  function Permuted(i: nat, d: Digit): (r: Digit) {
    Rows(i % 8, d);
    PERMUTATION[i % 8][d]
  }

  /** Each row is the row before it, permuted once more; after the last row comes the first. */
  lemma RowsCompose(i: nat, d: Digit)
    ensures Permuted(i + 1, d) == Permuted(1, Permuted(i, d))
  {
    var n, e := i % 8, Permuted(i, d);
    assert (i + 1) % 8 == if n == 7 then 0 else n + 1;
    assert n == 0 || n == 1 || n == 2 || n == 3 || n == 4 || n == 5 || n == 6 || n == 7;
    assert d == 0 || d == 1 || d == 2 || d == 3 || d == 4 || d == 5 || d == 6 || d == 7 || d == 8 || d == 9;
  }

  lemma FirstRow(a: Digit, b: Digit)
    ensures Permuted(0, a) == a
    ensures Permuted(1, a) == Permuted(1, b) ==> a == b
    ensures a != b ==> Mul(a, Permuted(1, b)) != Mul(b, Permuted(1, a))
  {
    assert a == 0 || a == 1 || a == 2 || a == 3 || a == 4 || a == 5 || a == 6 || a == 7 || a == 8 || a == 9;
    assert b == 0 || b == 1 || b == 2 || b == 3 || b == 4 || b == 5 || b == 6 || b == 7 || b == 8 || b == 9;
  }

  lemma {:induction false} RowsInjective(i: nat, a: Digit, b: Digit)
    ensures Permuted(i, a) == Permuted(i, b) ==> a == b
  {
    hide Permuted, Mul;
    if i == 0 {
      FirstRow(a, b);
      FirstRow(b, a);
    } else {
      RowsCompose(i - 1, a);
      RowsCompose(i - 1, b);
      FirstRow(Permuted(i - 1, a), Permuted(i - 1, b));
      RowsInjective(i - 1, a, b);
    }
  }

  // ---------------------------------------------------------------------- the check

  /** The product over the n rightmost digits. */
  function Sum(digits: seq<Digit>, n: nat): (c: Digit)
    requires n <= |digits|
  {
    if n == 0 then 0 else Mul(Sum(digits, n - 1), Permuted(n - 1, digits[|digits| - n]))
  }

  predicate Checked(digits: seq<Digit>) { Sum(digits, |digits|) == 0 }

  lemma TablesMultiply(c: Digit, i: nat, d: Digit)
    ensures |PERMUTATION| == 8 && |PERMUTATION[i % 8]| == 10 && |PRODUCT| == 10 && |PRODUCT[c]| == 10
    ensures PERMUTATION[i % 8][d] < 10
    ensures PRODUCT[c][PERMUTATION[i % 8][d]] == Mul(c, Permuted(i, d))
  {
    Rows(i % 8, d);
    ProductIsMul(c, Permuted(i, d));
  }

  method VerhoeffValid(digits: seq<Digit>) returns (ok: bool)
    ensures ok <==> Checked(digits)
  {
    hide Mul, Permuted;
    var c: Digit, i := 0, 0;
    while i < |digits|
      invariant 0 <= i <= |digits| && c == Sum(digits, i)
    {
      var d := digits[|digits| - 1 - i];
      TablesMultiply(c, i, d);
      c := PRODUCT[c][PERMUTATION[i % 8][d]];
      i := i + 1;
    }
    ok := c == 0;
  }

  // ---------------------------------------------------------------------- what it detects

  predicate SameBut(a: seq<Digit>, b: seq<Digit>, lo: nat, hi: nat) {
    |a| == |b| && lo <= hi <= |a| && a[..lo] == b[..lo] && a[hi..] == b[hi..]
  }

  /** Up to the changed digits the products agree, and once different they stay different. */
  lemma {:induction false} SumsAgree(a: seq<Digit>, b: seq<Digit>, lo: nat, hi: nat, n: nat)
    requires SameBut(a, b, lo, hi) && n <= |a| - hi
    ensures Sum(a, n) == Sum(b, n)
  {
    hide Mul, Permuted;
    if n > 0 {
      assert a[hi..][|a| - n - hi] == b[hi..][|a| - n - hi];
      SumsAgree(a, b, lo, hi, n - 1);
    }
  }

  lemma {:induction false} SumsDiffer(a: seq<Digit>, b: seq<Digit>, lo: nat, hi: nat, n: nat)
    requires SameBut(a, b, lo, hi) && |a| - lo <= n <= |a|
    requires Sum(a, |a| - lo) != Sum(b, |a| - lo)
    ensures Sum(a, n) != Sum(b, n)
  {
    hide Mul, Permuted;
    if n > |a| - lo {
      assert a[..lo][|a| - n] == b[..lo][|a| - n];
      SumsDiffer(a, b, lo, hi, n - 1);
      Cancel(Sum(a, n - 1), Sum(b, n - 1), Permuted(n - 1, a[|a| - n]));
    }
  }

  /** Every change of a single digit breaks a checked code of any length. */
  lemma SingleDigit(a: seq<Digit>, i: nat, d: Digit)
    requires Checked(a) && i < |a| && d != a[i]
    ensures !Checked(a[i := d])
  {
    hide Mul, Permuted;
    var b := a[i := d];
    var n := |a| - 1 - i;
    SumsAgree(a, b, i, i + 1, n);
    RowsInjective(n, a[i], d);
    Cancel(Permuted(n, a[i]), Permuted(n, d), Sum(a, n));
    SumsDiffer(a, b, i, i + 1, |a|);
  }

  /** Every swap of two neighbouring digits that differ breaks it too. */
  lemma NeighboursSwapped(a: seq<Digit>, i: nat)
    requires Checked(a) && i + 1 < |a| && a[i] != a[i + 1]
    ensures !Checked(a[i := a[i + 1]][i + 1 := a[i]])
  {
    hide Mul, Permuted;
    var b := a[i := a[i + 1]][i + 1 := a[i]];
    var n := |a| - 2 - i;
    SumsAgree(a, b, i, i + 2, n);
    SwapTellsApart(Sum(a, n), n, a[i + 1], a[i]);
    SumsDiffer(a, b, i, i + 2, |a|);
  }

  lemma {:induction false} SwapTellsApart(c: Digit, n: nat, x: Digit, y: Digit)
    requires x != y
    ensures Mul(Mul(c, Permuted(n, x)), Permuted(n + 1, y)) != Mul(Mul(c, Permuted(n, y)), Permuted(n + 1, x))
  {
    hide Mul, Permuted;
    var u, v := Permuted(n, x), Permuted(n, y);
    RowsInjective(n, x, y);
    RowsCompose(n, x);
    RowsCompose(n, y);
    FirstRow(u, v);
    Associative(c, u, Permuted(1, v));
    Associative(c, v, Permuted(1, u));
    Cancel(Mul(u, Permuted(1, v)), Mul(v, Permuted(1, u)), c);
  }

  // ---------------------------------------------------------------------- the check digit

  /** The product over the n rightmost digits of a payload, each one place further left. */
  function Weight(payload: seq<Digit>, n: nat): (c: Digit)
    requires n <= |payload|
  {
    if n == 0 then 0 else Mul(Weight(payload, n - 1), Permuted(n, payload[|payload| - n]))
  }

  function CheckDigit(payload: seq<Digit>): Digit { Inverse(Weight(payload, |payload|)) }

  lemma {:induction false} SumOfCheck(all: seq<Digit>)
    requires all != []
    ensures Sum(all, 1) == Mul(all[|all| - 1], 0)
  {
    hide Mul, Permuted;
    var x := all[|all| - 1];
    FirstRow(x, x);
    Identity(x);
  }

  lemma {:induction false} SumWithCheck(payload: seq<Digit>, x: Digit, n: nat)
    requires n <= |payload|
    ensures Sum(payload + [x], n + 1) == Mul(x, Weight(payload, n))
  {
    hide Mul, Permuted;
    var all := payload + [x];
    if n == 0 {
      SumOfCheck(all);
    } else {
      SumWithCheck(payload, x, n - 1);
      assert all[|all| - (n + 1)] == payload[|payload| - n];
      Associative(x, Weight(payload, n - 1), Permuted(n, payload[|payload| - n]));
    }
  }

  /** Every payload has exactly one check digit. */
  lemma OneCheckDigit(payload: seq<Digit>, x: Digit)
    ensures Checked(payload + [x]) <==> x == CheckDigit(payload)
  {
    hide Mul;
    SumWithCheck(payload, x, |payload|);
    Inverses(x, Weight(payload, |payload|));
  }
}
