module Spake2 {
  // SPAKE2+ over an abstract group (RFC 9383) with the key schedule of Matter. Hash, key derivation and
  // MAC are parameters; only the laws of an Abelian group are assumed of the curve.

  import opened Bytes
  import opened Ccm

  // ---------------------------------------------------------------------- the group

  /** A curve: its operations, the points G, M and N, and the encoding of points. */
  datatype Curve<!P(!new)> = Curve(add: (P, P) -> P, neg: P -> P, zero: P, g: P, m: P, n: P, order: nat,
                                   bytes: P -> seq<byte>, point: seq<byte> -> Option<P>)

  ghost predicate Lawful<P(!new)>(c: Curve<P>) {
    && c.order > 0
    && (forall a, b :: c.add(a, b) == c.add(b, a))
    && (forall a, b, d :: c.add(c.add(a, b), d) == c.add(a, c.add(b, d)))
    && (forall a :: c.add(a, c.zero) == a)
    && (forall a :: c.add(a, c.neg(a)) == c.zero)
    && (forall a :: c.point(c.bytes(a)) == Some(a))
  }

  /** The k-fold sum of a point. */
  function Times<P(!new)>(c: Curve<P>, k: nat, p: P): P {
    if k == 0 then c.zero else c.add(Times(c, k - 1, p), p)
  }

  lemma {:induction false} TimesOfSum<P(!new)>(c: Curve<P>, j: nat, k: nat, p: P)
    requires Lawful(c)
    ensures Times(c, j + k, p) == c.add(Times(c, j, p), Times(c, k, p))
  {
    if k > 0 {
      TimesOfSum(c, j, k - 1, p);
      assert Times(c, j + k, p) == c.add(Times(c, j + (k - 1), p), p);
    }
  }

  lemma OneMoreTime(j: nat, k: nat)
    requires j > 0
    ensures j * k == (j - 1) * k + k
  {
  }

  lemma {:induction false} TimesTimes<P(!new)>(c: Curve<P>, j: nat, k: nat, p: P)
    requires Lawful(c)
    ensures Times(c, j, Times(c, k, p)) == Times(c, j * k, p)
  {
    hide Lawful;
    if j > 0 {
      TimesTimes(c, j - 1, k, p);
      OneMoreTime(j, k);
      TimesOfSum(c, (j - 1) * k, k, p);
    }
  }

  /** Diffie-Hellman: the two scalars may be applied in either order. */
  lemma Commute<P(!new)>(c: Curve<P>, j: nat, k: nat, p: P)
    requires Lawful(c)
    ensures Times(c, j, Times(c, k, p)) == Times(c, k, Times(c, j, p))
  {
    hide Lawful, Times;
    TimesTimes(c, j, k, p);
    TimesTimes(c, k, j, p);
    assert j * k == k * j;
  }

  lemma Decodes<P(!new)>(c: Curve<P>, a: P)
    requires Lawful(c)
    ensures c.point(c.bytes(a)) == Some(a)
  {
  }

  lemma Unblind<P(!new)>(c: Curve<P>, a: P, b: P)
    requires Lawful(c)
    ensures c.add(c.add(a, b), c.neg(b)) == a
  {
    assert c.add(c.add(a, b), c.neg(b)) == c.add(a, c.add(b, c.neg(b)));
  }

  // ---------------------------------------------------------------------- shares and shared points

  /** Scalars are reduced modulo the group order wherever they are used. */
  function Scaled<P(!new)>(c: Curve<P>, k: nat, p: P): P
    requires c.order > 0
  {
    Times(c, k % c.order, p)
  }

  function ProverShare<P(!new)>(c: Curve<P>, w0: nat, x: nat): seq<byte>
    requires c.order > 0
  {
    c.bytes(c.add(Scaled(c, x, c.g), Scaled(c, w0, c.m)))
  }

  function VerifierShare<P(!new)>(c: Curve<P>, w0: nat, y: nat): seq<byte>
    requires c.order > 0
  {
    c.bytes(c.add(Scaled(c, y, c.g), Scaled(c, w0, c.n)))
  }

  /** The verifier's record of w1, which it does not know. */
  function Record<P(!new)>(c: Curve<P>, w1: nat): seq<byte>
    requires c.order > 0
  {
    c.bytes(Scaled(c, w1, c.g))
  }

  /** Z and V. */
  datatype Shared = Shared(z: seq<byte>, v: seq<byte>)

  function ProverFinish<P(!new)>(c: Curve<P>, w0: nat, w1: nat, x: nat, pB: seq<byte>): Option<Shared>
    requires c.order > 0
  {
    match c.point(pB)
    case None => None
    case Some(y) =>
      var t := c.add(y, c.neg(Scaled(c, w0, c.n)));
      Some(Shared(c.bytes(Scaled(c, x, t)), c.bytes(Scaled(c, w1, t))))
  }

  function VerifierFinish<P(!new)>(c: Curve<P>, w0: nat, l: P, y: nat, pA: seq<byte>): Option<Shared>
    requires c.order > 0
  {
    match c.point(pA)
    case None => None
    case Some(x) =>
      var t := c.add(x, c.neg(Scaled(c, w0, c.m)));
      Some(Shared(c.bytes(Scaled(c, y, t)), c.bytes(Scaled(c, y, l))))
  }

  lemma Nontrivial<P(!new)>(c: Curve<P>)
    requires Lawful(c)
    ensures c.order > 0
  {
  }

  /** The product of two scalars, each reduced. */
  function Product<P(!new)>(c: Curve<P>, j: nat, k: nat): nat
    requires c.order > 0
  {
    Multiplied(j % c.order, k % c.order)
  }

  function Multiplied(a: nat, b: nat): nat { a * b }

  lemma Scales<P(!new)>(c: Curve<P>, j: nat, k: nat)
    requires Lawful(c)
    ensures c.order > 0 && Scaled(c, j, Scaled(c, k, c.g)) == Times(c, Product(c, j, k), c.g)
  {
    hide Times;
    TimesTimes(c, j % c.order, k % c.order, c.g);
  }

  /** Each side gets the same two points from the other's share: Z is xy times the generator, V is w1 y times it. */
  lemma {:induction false} SameSharedPoints<P(!new)>(c: Curve<P>, w0: nat, w1: nat, x: nat, y: nat)
    requires Lawful(c)
    ensures c.point(Record(c, w1)).Some?
    ensures ProverFinish(c, w0, w1, x, VerifierShare(c, w0, y)).Some?
    ensures ProverFinish(c, w0, w1, x, VerifierShare(c, w0, y)) ==
            VerifierFinish(c, w0, c.point(Record(c, w1)).value, y, ProverShare(c, w0, x))
    ensures var shared := ProverFinish(c, w0, w1, x, VerifierShare(c, w0, y)).value;
            && shared.z == c.bytes(Times(c, Product(c, x, y), c.g))
            && shared.v == c.bytes(Times(c, Product(c, w1, y), c.g))
  {
    hide Times, Lawful;
    assert c.order > 0 by { Nontrivial(c); }
    Scales(c, x, y);
    Scales(c, w1, y);
    var yG, xG := Scaled(c, y, c.g), Scaled(c, x, c.g);
    Decodes(c, c.add(yG, Scaled(c, w0, c.n)));
    Decodes(c, c.add(xG, Scaled(c, w0, c.m)));
    Decodes(c, Scaled(c, w1, c.g));
    Unblind(c, yG, Scaled(c, w0, c.n));
    Unblind(c, xG, Scaled(c, w0, c.m));
    Commute(c, x % c.order, y % c.order, c.g);
    Commute(c, w1 % c.order, y % c.order, c.g);
  }

  lemma Shuffled<P(!new)>(c: Curve<P>, a: P, b: P, p: P, q: P)
    requires Lawful(c)
    ensures c.add(c.add(a, b), c.add(p, q)) == c.add(c.add(a, p), c.add(b, q))
  {
    assert c.add(b, c.add(p, q)) == c.add(c.add(b, p), q) == c.add(c.add(p, b), q) == c.add(p, c.add(b, q));
    assert c.add(c.add(a, b), c.add(p, q)) == c.add(a, c.add(b, c.add(p, q)));
    assert c.add(c.add(a, p), c.add(b, q)) == c.add(a, c.add(p, c.add(b, q)));
  }

  lemma {:induction false} TimesOfAdd<P(!new)>(c: Curve<P>, k: nat, p: P, q: P)
    requires Lawful(c)
    ensures Times(c, k, c.add(p, q)) == c.add(Times(c, k, p), Times(c, k, q))
  {
    if k > 0 {
      TimesOfAdd(c, k - 1, p, q);
      Shuffled(c, Times(c, k - 1, p), Times(c, k - 1, q), p, q);
    }
  }

  /** Adding something changes nothing exactly if it is the neutral element. */
  lemma Nothing<P(!new)>(c: Curve<P>, a: P, d: P)
    requires Lawful(c)
    ensures c.add(a, d) == a <==> d == c.zero
  {
    if c.add(a, d) == a {
      assert c.add(c.add(a, d), c.neg(a)) == c.zero;
      assert c.add(c.add(d, a), c.neg(a)) == d by { Unblind(c, d, a); }
    }
  }

  /** How far apart two blindings are. */
  function Apart<P(!new)>(c: Curve<P>, w: nat, w0: nat, base: P): P
    requires c.order > 0
  {
    c.add(Scaled(c, w, base), c.neg(Scaled(c, w0, base)))
  }

  /**
   * A share that was made from another scalar w leads to the same Z only if the difference of the two
   * blindings vanishes under the own secret; so the point depends on the passcode.
   */
  lemma OtherScalar<P(!new)>(c: Curve<P>, w0: nat, w1: nat, w: nat, x: nat, y: nat, l: P)
    requires Lawful(c)
    ensures c.order > 0
    ensures var r := ProverFinish(c, w0, w1, x, VerifierShare(c, w, y));
            && r.Some?
            && (r.value.z == c.bytes(Times(c, Product(c, x, y), c.g)) <==>
                  Times(c, x % c.order, Apart(c, w, w0, c.n)) == c.zero)
    ensures var r := VerifierFinish(c, w0, l, y, ProverShare(c, w, x));
            && r.Some?
            && (r.value.z == c.bytes(Times(c, Product(c, y, x), c.g)) <==>
                  Times(c, y % c.order, Apart(c, w, w0, c.m)) == c.zero)
  {
    hide Lawful, Times, Scaled;
    Nontrivial(c);
    UnblindedWrong(c, w0, w, x, y, c.n);
    UnblindedWrong(c, w0, w, y, x, c.m);
    Decodes(c, c.add(Scaled(c, y, c.g), Scaled(c, w, c.n)));
    Decodes(c, c.add(Scaled(c, x, c.g), Scaled(c, w, c.m)));
  }

  lemma UnblindedWrong<P(!new)>(c: Curve<P>, w0: nat, w: nat, j: nat, k: nat, base: P)
    requires Lawful(c)
    ensures c.order > 0
    ensures var t := c.add(c.add(Scaled(c, k, c.g), Scaled(c, w, base)), c.neg(Scaled(c, w0, base)));
            c.bytes(Scaled(c, j, t)) == c.bytes(Times(c, Product(c, j, k), c.g)) <==>
            Times(c, j % c.order, Apart(c, w, w0, base)) == c.zero
  {
    Nontrivial(c);
    Scales(c, j, k);
    var g, d, n := Scaled(c, k, c.g), Apart(c, w, w0, base), j % c.order;
    var t := c.add(c.add(g, Scaled(c, w, base)), c.neg(Scaled(c, w0, base)));
    assert t == c.add(g, d);
    TimesOfAdd(c, n, g, d);
    Nothing(c, Times(c, n, g), Times(c, n, d));
    Decodes(c, Scaled(c, j, t));
    Decodes(c, Times(c, Product(c, j, k), c.g));
  }

  // ---------------------------------------------------------------------- the transcript

  /** Fields one after the other, each behind its length in eight bytes. */
  function Transcript(fields: seq<seq<byte>>): seq<byte> {
    if fields == [] then [] else Le(|fields[0]|, 8) + fields[0] + Transcript(fields[1..])
  }

  ghost predicate Short(fields: seq<seq<byte>>) {
    forall f :: f in fields ==> |f| < 0x1_0000_0000_0000_0000
  }

  /** Different fields have different transcripts, however their bytes are split. */
  lemma {:induction false} TranscriptInjective(a: seq<seq<byte>>, b: seq<seq<byte>>)
    requires Short(a) && Short(b) && Transcript(a) == Transcript(b)
    ensures a == b
  {
    hide Le;
    if a != [] && b != [] {
      var ta, tb := Transcript(a), Transcript(b);
      var n := |a[0]|;
      assert Le(n, 8) == ta[..8] == tb[..8] == Le(|b[0]|, 8);
      Ranges();
      LeInjective(n, |b[0]|, 8);
      assert a[0] == ta[8..8 + n] == tb[8..8 + n] == b[0];
      assert Transcript(a[1..]) == ta[8 + n..] == tb[8 + n..] == Transcript(b[1..]);
      TranscriptInjective(a[1..], b[1..]);
    }
  }

  /** What the keys are derived from: what one side saw and computed. */
  datatype Seen = Seen(context: seq<byte>, shareP: seq<byte>, shareV: seq<byte>, shared: Shared, w0: nat)

  function Fields<P(!new)>(c: Curve<P>, s: Seen): seq<seq<byte>>
    requires c.order > 0
  {
    [s.context, [], [], c.bytes(c.m), c.bytes(c.n), s.shareP, s.shareV, s.shared.z, s.shared.v, Be(s.w0 % c.order, 32)]
  }

  // ---------------------------------------------------------------------- the key schedule

  /**
   * The primitives: the two halves of the transcript's hash, the two confirmation keys derived from the
   * first half, and the MAC.
   */
  datatype Primitives = Primitives(ka: seq<byte> -> seq<byte>, ke: seq<byte> -> seq<byte>,
                                   kcA: seq<byte> -> seq<byte>, kcB: seq<byte> -> seq<byte>,
                                   mac: (seq<byte>, seq<byte>) -> seq<byte>)

  /** Symbolic primitives: different inputs give different outputs. */
  ghost predicate Symbolic(p: Primitives) {
    && (forall s, t :: p.ka(s) == p.ka(t) ==> s == t)
    && (forall s, t :: p.kcA(s) == p.kcA(t) ==> s == t)
    && (forall s, t :: p.kcB(s) == p.kcB(t) ==> s == t)
    && (forall k, s, j, t :: p.mac(k, s) == p.mac(j, t) ==> k == j && s == t)
  }

  datatype Keys = Keys(ke: seq<byte>, cA: seq<byte>, cB: seq<byte>)

  function Derived<P(!new)>(c: Curve<P>, p: Primitives, s: Seen): Keys
    requires c.order > 0
  {
    var tt := Transcript(Fields(c, s));
    var ka := p.ka(tt);
    Keys(p.ke(tt), p.mac(p.kcA(ka), s.shareV), p.mac(p.kcB(ka), s.shareP))
  }

  function ProverKeys<P(!new)>(c: Curve<P>, p: Primitives, w0: nat, w1: nat, x: nat, pB: seq<byte>,
                        context: seq<byte>): Option<Keys>
    requires c.order > 0
  {
    match ProverFinish(c, w0, w1, x, pB)
    case None => None
    case Some(shared) => Some(Derived(c, p, Seen(context, ProverShare(c, w0, x), pB, shared, w0)))
  }

  function VerifierKeys<P(!new)>(c: Curve<P>, p: Primitives, w0: nat, l: P, y: nat, pA: seq<byte>,
                          context: seq<byte>): Option<Keys>
    requires c.order > 0
  {
    match VerifierFinish(c, w0, l, y, pA)
    case None => None
    case Some(shared) => Some(Derived(c, p, Seen(context, pA, VerifierShare(c, w0, y), shared, w0)))
  }

  /** With the same passcode and context both sides derive the same keys and confirmations. */
  lemma KeysAgree<P(!new)>(c: Curve<P>, p: Primitives, w0: nat, w1: nat, x: nat, y: nat, context: seq<byte>)
    requires Lawful(c)
    ensures c.point(Record(c, w1)).Some?
    ensures ProverKeys(c, p, w0, w1, x, VerifierShare(c, w0, y), context).Some?
    ensures ProverKeys(c, p, w0, w1, x, VerifierShare(c, w0, y), context) ==
            VerifierKeys(c, p, w0, c.point(Record(c, w1)).value, y, ProverShare(c, w0, x), context)
  {
    hide Scaled, Derived;
    SameSharedPoints(c, w0, w1, x, y);
  }

  ghost predicate SizesFit<P(!new)>(c: Curve<P>, s: Seen)
    requires c.order > 0
  {
    Short(Fields(c, s)) && c.order <= Range(32)
  }

  /**
   * With symbolic primitives an accepted confirmation of either kind shows that both sides saw the same
   * context and shares and computed the same points from the same passcode scalar.
   */
  lemma ConfirmedMeansSameView<P(!new)>(c: Curve<P>, p: Primitives, s: Seen, t: Seen)
    requires Lawful(c) && Symbolic(p) && SizesFit(c, s) && SizesFit(c, t)
    requires Derived(c, p, s).cA == Derived(c, p, t).cA || Derived(c, p, s).cB == Derived(c, p, t).cB
    ensures s.context == t.context && s.shareP == t.shareP && s.shareV == t.shareV && s.shared == t.shared
    ensures s.w0 % c.order == t.w0 % c.order
    ensures Derived(c, p, s) == Derived(c, p, t)
  {
    hide Transcript, Be, Range;
    var a, b := Fields(c, s), Fields(c, t);
    assert p.ka(Transcript(a)) == p.ka(Transcript(b));
    TranscriptInjective(a, b);
    assert a[0] == b[0] && a[5] == b[5] && a[6] == b[6] && a[7] == b[7] && a[8] == b[8] && a[9] == b[9];
    BeInjective(s.w0 % c.order, t.w0 % c.order, 32);
  }

  /** The key of the session, too, is shared only by sides with the same view. */
  lemma KeyMeansSameView<P(!new)>(c: Curve<P>, p: Primitives, s: Seen, t: Seen)
    requires Lawful(c) && SizesFit(c, s) && SizesFit(c, t)
    requires forall a, b :: p.ke(a) == p.ke(b) ==> a == b
    requires Derived(c, p, s).ke == Derived(c, p, t).ke
    ensures s.context == t.context && s.shareP == t.shareP && s.shareV == t.shareV && s.shared == t.shared
    ensures s.w0 % c.order == t.w0 % c.order
  {
    hide Transcript, Be, Range;
    var a, b := Fields(c, s), Fields(c, t);
    assert p.ke(Transcript(a)) == p.ke(Transcript(b));
    TranscriptInjective(a, b);
    assert a[0] == b[0] && a[5] == b[5] && a[6] == b[6] && a[7] == b[7] && a[8] == b[8] && a[9] == b[9];
    BeInjective(s.w0 % c.order, t.w0 % c.order, 32);
  }
}
