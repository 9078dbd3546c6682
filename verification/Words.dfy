/** Fixed-width machine words as their bits, least significant bit first. */
module Words {

  function Zeros(n: nat): (w: seq<bool>)
    ensures |w| == n && forall i :: 0 <= i < n ==> !w[i]
  {
    if n == 0 then [] else [false] + Zeros(n - 1)
  }

  function Ones(n: nat): (w: seq<bool>)
    ensures |w| == n && forall i :: 0 <= i < n ==> w[i]
  {
    if n == 0 then [] else [true] + Ones(n - 1)
  }

  /** 1 << k in a word of n bits. */
  function One(k: nat, n: nat): (w: seq<bool>)
    requires k < n
    ensures |w| == n && forall i :: 0 <= i < n ==> w[i] == (i == k)
  {
    Zeros(k) + [true] + Zeros(n - 1 - k)
  }

  function Shl(a: seq<bool>, k: nat): (w: seq<bool>)
    requires k <= |a|
    ensures |w| == |a| && forall i :: 0 <= i < |a| ==> w[i] == (i >= k && a[i - k])
  {
    Zeros(k) + a[..|a| - k]
  }

  function Shr(a: seq<bool>, k: nat): (w: seq<bool>)
    requires k <= |a|
    ensures |w| == |a| && forall i :: 0 <= i < |a| ==> w[i] == (i + k < |a| && a[i + k])
  {
    a[k..] + Zeros(k)
  }

  function Or(a: seq<bool>, b: seq<bool>): (w: seq<bool>)
    requires |a| == |b|
    ensures |w| == |a| && forall i :: 0 <= i < |w| ==> w[i] == (a[i] || b[i])
  {
    if a == [] then [] else [a[0] || b[0]] + Or(a[1..], b[1..])
  }

  function And(a: seq<bool>, b: seq<bool>): (w: seq<bool>)
    requires |a| == |b|
    ensures |w| == |a| && forall i :: 0 <= i < |w| ==> w[i] == (a[i] && b[i])
  {
    if a == [] then [] else [a[0] && b[0]] + And(a[1..], b[1..])
  }

  function Xor(a: seq<bool>, b: seq<bool>): (w: seq<bool>)
    requires |a| == |b|
    ensures |w| == |a| && forall i :: 0 <= i < |w| ==> w[i] == (a[i] != b[i])
  {
    if a == [] then [] else [a[0] != b[0]] + Xor(a[1..], b[1..])
  }

  /** Masking with one bit tests that bit. */
  lemma TestBit(a: seq<bool>, k: nat)
    requires k < |a|
    ensures And(a, One(k, |a|)) != Zeros(|a|) <==> a[k]
  {
    var masked := And(a, One(k, |a|));
    if a[k] { assert masked[k] && !Zeros(|a|)[k]; }
  }

  lemma XorTwice(a: seq<bool>, b: seq<bool>)
    requires |a| == |b|
    ensures Xor(Xor(a, b), b) == a
  {
  }
}
