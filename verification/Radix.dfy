/** Numbers as their digits in any base, least significant first. */
module Radix {
  import opened Arithmetic

  function Power(b: nat, n: nat): (r: nat)
    requires b > 0
    ensures r > 0
  {
    if n == 0 then 1 else b * Power(b, n - 1)
  }

  ghost predicate Below(ds: seq<nat>, b: nat) {
    forall i :: 0 <= i < |ds| ==> ds[i] < b
  }

  function Number(ds: seq<nat>, b: nat): nat {
    if ds == [] then 0 else ds[0] + b * Number(ds[1..], b)
  }

  /** v / b, and v % b is what is left. */
  function Divided(v: nat, b: nat): (r: (nat, nat))
    requires b > 0
    ensures v == b * r.0 + r.1 && r.1 < b
  {
    if v < b then (0, v) else var r := Divided(v - b, b); (r.0 + 1, r.1)
  }

  /** The n low digits of v. */
  function Digits(v: nat, b: nat, n: nat): (ds: seq<nat>)
    requires b > 0
    ensures |ds| == n
    ensures forall i :: 0 <= i < n ==> ds[i] < b
  {
    if n == 0 then [] else [Divided(v, b).1] + Digits(Divided(v, b).0, b, n - 1)
  }

  lemma {:induction false} NumberBound(ds: seq<nat>, b: nat)
    requires b > 0 && Below(ds, b)
    ensures Number(ds, b) < Power(b, |ds|)
  {
    if ds != [] {
      NumberBound(ds[1..], b);
      NextMultiple(b, Number(ds[1..], b), Power(b, |ds| - 1));
    }
  }

  lemma QuotientBound(b: nat, q: nat, p: nat)
    requires b * q < b * p
    ensures q < p
  {
    if p < q { NextMultiple(b, p, q); }
  }

  lemma {:induction false} NumberOfDigits(v: nat, b: nat, n: nat)
    requires b > 0 && v < Power(b, n)
    ensures Number(Digits(v, b, n), b) == v
  {
    hide Divided, Number;
    if n == 0 {
      NumberOfNone(b);
    } else {
      var (q, d) := Divided(v, b);
      QuotientBound(b, q, Power(b, n - 1));
      NumberOfDigits(q, b, n - 1);
      NumberOfMore(d, Digits(q, b, n - 1), b);
    }
  }

  lemma NumberOfNone(b: nat)
    ensures Number([], b) == 0
  {
  }

  lemma NumberOfMore(d: nat, ds: seq<nat>, b: nat)
    ensures Number([d] + ds, b) == d + b * Number(ds, b)
  {
    assert ([d] + ds)[1..] == ds;
  }

  lemma {:induction false} DigitsOfNumber(ds: seq<nat>, b: nat)
    requires b > 0 && Below(ds, b)
    ensures Digits(Number(ds, b), b, |ds|) == ds
  {
    hide Divided;
    if ds != [] {
      var v := Number(ds, b);
      QuotientUnique(b, Divided(v, b).0, Divided(v, b).1, Number(ds[1..], b), ds[0]);
      DigitsOfNumber(ds[1..], b);
    }
  }

  /** A further, more significant digit. */
  lemma {:induction false} OneMoreDigit(ds: seq<nat>, d: nat, b: nat)
    requires b > 0
    ensures Number(ds + [d], b) == Number(ds, b) + Power(b, |ds|) * d
  {
    var all := ds + [d];
    if ds == [] {
      assert all[1..] == [];
      assert Number(all[1..], b) == 0;
    } else {
      assert all[1..] == ds[1..] + [d];
      OneMoreDigit(ds[1..], d, b);
      Distribute(b, Number(ds[1..], b), Power(b, |ds| - 1), d);
    }
  }

  lemma Distribute(b: nat, x: nat, p: nat, d: nat)
    ensures b * (x + p * d) == b * x + (b * p) * d
  {
  }
}
