module Replay {
  // The replay window of a secure session: the highest accepted counter and a bitmap of the 32
  // counters below it (section 4.6.7 of the Matter Core Specification).
  //
  // The bitmap is exact but for one case. An advance of exactly 32 clears bit 31, although the
  // previous maximum is then still inside the window. That one counter is called displaced.

  import opened Bytes
  import opened Words

  type Word = w: seq<bool> | |w| == 32 witness Zeros(32)

  const ZERO: Word := Zeros(32)

  // ---------------------------------------------------------------------- the window

  datatype Window = Window(max: uint32, bitmap: Word, started: bool)

  const EMPTY := Window(0, ZERO, false)

  /** The bitmap moved up by the advance, with the old maximum entered; a long advance empties it. */
  function Advanced(bitmap: Word, shift: nat): (r: Word)
    requires shift > 0
    ensures forall i :: 0 <= i < 32 ==>
              r[i] == (shift < 32 && (i == shift - 1 || (i >= shift && bitmap[i - shift])))
  {
    if shift < 32 then Or(Shl(bitmap, shift), One(shift - 1, 32)) else ZERO
  }

  /** The window after counter c was presented, and whether c was accepted. */
  function Present(w: Window, c: uint32): (r: (Window, bool)) {
    if !w.started then (Window(c, w.bitmap, true), true)
    else if c > w.max then (Window(c, Advanced(w.bitmap, c - w.max), true), true)
    else if c == w.max || w.max - c > 32 || w.bitmap[w.max - c - 1] then (w, false)
    else (Window(w.max, Or(w.bitmap, One(w.max - c - 1, 32)), true), true)
  }

  class ReplayWindow {
    var max: uint32
    var bitmap: Word
    var started: bool

    ghost function Value(): Window
      reads this
    {
      Window(max, bitmap, started)
    }

    constructor ()
      ensures Value() == EMPTY
    {
      max, bitmap, started := 0, ZERO, false;
    }

    /** Records counter c, or refuses it as a duplicate or as too old. */
    method Accept(c: uint32) returns (ok: bool)
      modifies this
      ensures (Value(), ok) == Present(old(Value()), c)
    {
      if !started {
        started := true;
        max := c;
        return true;
      }
      if c > max {
        var shift := c - max;
        if shift < 32 {
          bitmap := Or(Shl(bitmap, shift), One(shift - 1, 32));
        } else {
          bitmap := ZERO;
        }
        max := c;
        return true;
      }
      if c == max { return false; }
      var diff := max - c;
      if diff > 32 { return false; }
      var bit := One(diff - 1, 32);
      TestBit(bitmap, diff - 1);
      if And(bitmap, bit) != ZERO { return false; }
      bitmap := Or(bitmap, bit);
      return true;
    }
  }

  // ---------------------------------------------------------------------- runs

  /** A window with the counters it accepted so far, oldest first, and the displaced one if any. */
  datatype Past = Past(w: Window, accepted: seq<uint32>, displaced: Option<uint32>)

  /**
   * The displaced counter after c was accepted: an advance of exactly 32 displaces the old
   * maximum, until the maximum advances again or the counter is accepted a second time.
   */
  function NextDisplaced(s: Past, c: uint32): Option<uint32> {
    if !s.w.started then None
    else if c > s.w.max then if c - s.w.max == 32 then Some(s.w.max) else None
    else if s.displaced == Some(c) then None
    else s.displaced
  }

  function Step(s: Past, c: uint32): Past {
    if Present(s.w, c).1 then Past(Present(s.w, c).0, s.accepted + [c], NextDisplaced(s, c)) else s
  }

  /** The past after the given counters were presented in order. */
  function Run(cs: seq<uint32>): Past {
    if cs == [] then Past(EMPTY, [], None) else Step(Run(cs[..|cs| - 1]), cs[|cs| - 1])
  }

  /** Counter c was accepted and is not displaced. */
  predicate Remembered(s: Past, c: int) {
    c in s.accepted && !(s.displaced.Some? && s.displaced.value == c)
  }

  /** Bit k tells exactly whether the counter k+1 below the maximum is remembered. */
  ghost predicate BitmapExact(s: Past) {
    forall k :: 0 <= k < 32 ==> (s.w.bitmap[k] <==> Remembered(s, s.w.max - (k + 1)))
  }

  ghost predicate Exact(s: Past) {
    && (s.w.started <==> s.accepted != [])
    && (!s.w.started ==> s.w.max == 0)
    && (s.w.started ==> s.w.max in s.accepted)
    && (forall a :: a in s.accepted ==> a <= s.w.max)
    && BitmapExact(s)
    && (s.displaced.Some? ==> s.displaced.value == s.w.max - 32 && s.w.max - 32 in s.accepted)
  }

  lemma AcceptedSnoc(s: Past, c: uint32)
    ensures forall a :: a in s.accepted + [c] <==> a in s.accepted || a == c
  {
    assert (s.accepted + [c])[|s.accepted|] == c;
  }

  lemma AdvanceExact(s: Past, c: uint32)
    requires Exact(s) && s.w.started && c > s.w.max
    ensures BitmapExact(Step(s, c))
  {
    hide Zeros, Or, One, Shl, Advanced;
    var r, shift := Step(s, c), c - s.w.max;
    AcceptedSnoc(s, c);
    assert r.w == Window(c, Advanced(s.w.bitmap, shift), true) && r.accepted == s.accepted + [c];
    forall k | 0 <= k < 32 ensures r.w.bitmap[k] <==> Remembered(r, c - (k + 1)) {
      if k >= shift {
        assert c - (k + 1) == s.w.max - ((k - shift) + 1);
        assert s.w.bitmap[k - shift] <==> Remembered(s, c - (k + 1));
      }
    }
  }

  lemma MarkExact(s: Past, c: uint32)
    requires Exact(s) && s.w.started && c < s.w.max && Present(s.w, c).1
    ensures BitmapExact(Step(s, c))
  {
    var r := Step(s, c);
    AcceptedSnoc(s, c);
    hide Zeros, Or, One;
    var bit := s.w.max - c - 1;
    assert r.w.bitmap == Or(s.w.bitmap, One(bit, 32)) && r.w.max == s.w.max && r.accepted == s.accepted + [c];
    forall k | 0 <= k < 32 ensures r.w.bitmap[k] <==> Remembered(r, r.w.max - (k + 1)) {
      assert s.w.bitmap[k] <==> Remembered(s, s.w.max - (k + 1));
      assert k == bit <==> s.w.max - (k + 1) == c;
    }
  }

  lemma {:induction false} StepExact(s: Past, c: uint32)
    requires Exact(s)
    ensures Exact(Step(s, c))
  {
    if Present(s.w, c).1 {
      AcceptedSnoc(s, c);
      if !s.w.started {
        assert forall k :: 0 <= k < 32 ==> (s.w.bitmap[k] <==> Remembered(s, s.w.max - (k + 1)));
      } else if c > s.w.max {
        AdvanceExact(s, c);
      } else {
        MarkExact(s, c);
      }
    }
  }

  /** In every run the bitmap is exact in this sense. */
  lemma {:induction false} RunExact(cs: seq<uint32>)
    ensures Exact(Run(cs))
    decreases |cs|
  {
    if cs != [] {
      RunExact(cs[..|cs| - 1]);
      StepExact(Run(cs[..|cs| - 1]), cs[|cs| - 1]);
    }
  }

  /**
   * The decision on the next counter, in terms of the accepted ones alone: refused are the counters
   * that were accepted before, unless displaced, and those more than 32 below the maximum.
   */
  lemma Decision(cs: seq<uint32>, c: uint32)
    ensures Present(Run(cs).w, c).1 <==>
            (c !in Run(cs).accepted && c + 32 >= Run(cs).w.max) || Run(cs).displaced == Some(c)
  {
    RunExact(cs);
    DecisionAt(Run(cs), c);
  }

  lemma DecisionAt(s: Past, c: uint32)
    requires Exact(s)
    ensures Present(s.w, c).1 <==> (c !in s.accepted && c + 32 >= s.w.max) || s.displaced == Some(c)
  {
    hide Zeros, Or, One, Advanced;
    if s.w.started && c < s.w.max && s.w.max - c <= 32 {
      assert s.w.bitmap[s.w.max - c - 1] <==> Remembered(s, c);
    }
  }

  // ---------------------------------------------------------------------- how often a counter is accepted

  /** How often c was accepted. */
  function Times(accepted: seq<uint32>, c: uint32): nat {
    if accepted == [] then 0
    else Times(accepted[..|accepted| - 1], c) + (if accepted[|accepted| - 1] == c then 1 else 0)
  }

  lemma {:induction false} TimesZero(accepted: seq<uint32>, c: uint32)
    ensures Times(accepted, c) == 0 <==> c !in accepted
    decreases |accepted|
  {
    if accepted != [] {
      var init := accepted[..|accepted| - 1];
      assert accepted == init + [accepted[|accepted| - 1]];
      TimesZero(init, c);
    }
  }

  ghost predicate AtMostTwice(s: Past) {
    && (forall c: uint32 :: Times(s.accepted, c) <= 2)
    && (s.w.started ==> Times(s.accepted, s.w.max) == 1)
    && (s.displaced.Some? ==> Times(s.accepted, s.displaced.value) == 1)
  }

  /**
   * In every run a counter is accepted at most twice; the current maximum and a displaced counter
   * were accepted once.
   */
  lemma {:induction false} AcceptedAtMostTwice(cs: seq<uint32>)
    ensures AtMostTwice(Run(cs))
    decreases |cs|
  {
    if cs != [] {
      var before, c := cs[..|cs| - 1], cs[|cs| - 1];
      AcceptedAtMostTwice(before);
      RunExact(before);
      StepAtMostTwice(Run(before), c);
    }
  }

  lemma StepAtMostTwice(s: Past, c: uint32)
    requires Exact(s) && AtMostTwice(s)
    ensures AtMostTwice(Step(s, c))
  {
    DecisionAt(s, c);
    if Present(s.w, c).1 {
      var r := Step(s, c);
      assert r.accepted[..|r.accepted| - 1] == s.accepted;
      TimesZero(s.accepted, c);
      assert forall x: uint32 :: Times(r.accepted, x) == Times(s.accepted, x) + (if x == c then 1 else 0);
    }
  }

  /** No counter was accepted twice. */
  ghost predicate Once(accepted: seq<uint32>) {
    forall c: uint32 :: Times(accepted, c) <= 1
  }

  /** The run presents a displaced counter at some point. */
  predicate PresentsDisplaced(cs: seq<uint32>) {
    cs != [] && (PresentsDisplaced(cs[..|cs| - 1]) || Run(cs[..|cs| - 1]).displaced == Some(cs[|cs| - 1]))
  }

  /** The run advances by exactly 32 at some point. */
  predicate AdvancesBy32(cs: seq<uint32>) {
    cs != [] &&
    var s := Run(cs[..|cs| - 1]);
    (AdvancesBy32(cs[..|cs| - 1]) || (s.w.started && cs[|cs| - 1] == s.w.max + 32))
  }

  /**
   * Replay protection holds exactly in the runs that never present a displaced counter: there no
   * counter is accepted twice, and in every other run some counter is.
   */
  lemma {:induction false} OnceUnlessDisplaced(cs: seq<uint32>)
    ensures Once(Run(cs).accepted) <==> !PresentsDisplaced(cs)
    decreases |cs|
  {
    if cs != [] {
      var before, c := cs[..|cs| - 1], cs[|cs| - 1];
      OnceUnlessDisplaced(before);
      RunExact(before);
      AcceptedAtMostTwice(before);
      StepOnce(Run(before), c);
    }
  }

  lemma StepOnce(s: Past, c: uint32)
    requires Exact(s) && AtMostTwice(s)
    ensures Once(Step(s, c).accepted) <==> Once(s.accepted) && s.displaced != Some(c)
  {
    DecisionAt(s, c);
    if Present(s.w, c).1 {
      var r := Step(s, c);
      assert r.accepted[..|r.accepted| - 1] == s.accepted;
      TimesZero(s.accepted, c);
      assert forall x: uint32 :: Times(r.accepted, x) == Times(s.accepted, x) + (if x == c then 1 else 0);
      assert s.displaced == Some(c) ==> Times(r.accepted, c) == 2;
      if Once(r.accepted) {
        forall x: uint32 ensures Times(s.accepted, x) <= 1 {
          assert Times(r.accepted, x) <= 1;
        }
      }
    }
  }

  /** In particular no counter is accepted twice in a run that never advances by exactly 32. */
  lemma {:induction false} OnceWithoutAdvanceBy32(cs: seq<uint32>)
    requires !AdvancesBy32(cs)
    ensures Run(cs).displaced == None && !PresentsDisplaced(cs)
    ensures Once(Run(cs).accepted)
    decreases |cs|
  {
    if cs != [] { OnceWithoutAdvanceBy32(cs[..|cs| - 1]); }
    OnceUnlessDisplaced(cs);
  }

  /** A run in which a replayed counter is accepted: 0, then 32, then 0 again. */
  lemma ReplayedCounter()
    ensures Run([0, 32, 0]).accepted == [0, 32, 0]
  {
    var a: seq<uint32>, b: seq<uint32>, c: seq<uint32> := [0], [0, 32], [0, 32, 0];
    assert a[..0] == [] && b[..1] == a && c[..2] == b;
    assert Run(a) == Past(Window(0, ZERO, true), [0], None);
    assert Run(b).w == Window(32, ZERO, true) && Run(b).accepted == [0, 32];
  }
}
