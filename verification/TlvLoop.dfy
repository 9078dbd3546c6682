module TlvLoop {
  // The shape every message decoder has: a loop over Next that hands each element to a step, until there is
  // none or the step fails. `Each` is that loop as a function of the input and of what a caller observes,
  // for every byte string; a decoder is proved equal to it, and what it makes of encoded members follows.

  import opened Bytes
  import opened TlvFormat
  import opened TlvTree
  import opened TlvReader
  import opened TlvWalk

  /** What a step or a loop gives: a state or an error, and the reader afterwards. */
  datatype Done<+S, +E> = Done(r: Result<S, E>, v: View)

  predicate Within(data: seq<byte>, v: View) { v.Ready? ==> v.pos <= |data| }

  /** The reader did not go back. */
  predicate Onward(v: View, w: View) { w.Ready? ==> v.Ready? && v.pos <= w.pos }

  /** The loop from the current element on. A step that went back would be ignored; none does. */
  function Each<S, E>(data: seq<byte>, v: View, s: S, step: (S, View) -> Done<S, E>): (d: Done<S, E>)
    requires Within(data, v)
    ensures Within(data, d.v) && Onward(v, d.v)
    decreases if HasCurrent(v) then |data| - v.pos + 1 else 0
  {
    if !HasCurrent(v) then Done(Ok(s), v)
    else
      var n := step(s, v);
      if !Within(data, n.v) || !Onward(v, n.v) then Done(n.r, v)
      else if n.r.Err? then n
      else Each(data, NextView(data, n.v), n.r.value, step)
  }

  /** Entering the current container and looping over its members. */
  function Inside<S, E>(data: seq<byte>, v: View, s: S, notEntered: E, step: (S, View) -> Done<S, E>): (d: Done<S, E>)
    requires Within(data, v)
    ensures Within(data, d.v) && Onward(v, d.v)
  {
    var w := EnterView(v);
    if !Enterable(v) || w.Failed? then Done(Err(notEntered), w) else Each(data, NextView(data, w), s, step)
  }

  /** Inside the one structure that a message starts with. */
  function Opened(b: seq<byte>): (v: Option<View>)
    ensures v.Some? ==> Within(b, v.value)
  {
    var n := NextView(b, Ready(0, 0, None));
    if HasCurrent(n) && n.cur.value.item == Open(Structure) then Some(EnterView(n)) else None
  }

  /** The loop over the members of a message's structure. */
  function Message<S, E>(b: seq<byte>, s: S, notAStructure: E, step: (S, View) -> Done<S, E>): (d: Done<S, E>)
    ensures Within(b, d.v)
  {
    match Opened(b)
    case None => Done(Err(notAStructure), Ready(0, 0, None))
    case Some(v) => Each(b, NextView(b, v), s, step)
  }

  /** A reader inside the one structure that a message starts with. */
  method OpenStructure(b: seq<byte>) returns (r: Reader, ok: bool)
    ensures fresh(r) && r.Valid() && r.data == b
    ensures ok == Opened(b).Some? && (ok ==> r.View() == Opened(b).value)
  {
    hide HeadView, Skip;
    r := new Reader(b);
    ok := r.Next();
    if ok { KindHere(r); }
    if !ok || r.typ != TypeStructure { return r, false; }
    ok := r.Enter();
  }

  lemma KindHere(r: Reader)
    requires r.Valid() && HasCurrent(r.View())
    ensures r.typ == TypeStructure <==> r.View().cur.value.item == Open(Structure)
    ensures r.typ == TypeList <==> r.View().cur.value.item == Open(List)
    ensures r.typ == TypeArray <==> r.View().cur.value.item == Open(Array)
  {
  }

  // ---------------------------------------------------------------------- fields

  /** The current element as an unsigned number cut to the given range. */
  function UintHere(v: View, range: nat): (n: Option<nat>)
    requires range > 0
    ensures n.Some? ==> n.value < range
  {
    if HasCurrent(v) && v.cur.value.item.Value? && AsUint(v.cur.value.item.scalar).Some? then
      Some(AsUint(v.cur.value.item.scalar).value % range)
    else None
  }

  function BoolHere(v: View): Option<bool> {
    if HasCurrent(v) && v.cur.value.item.Value? && v.cur.value.item.scalar.Bool? then Some(v.cur.value.item.scalar.b) else None
  }

  function BytesHere(v: View): Option<seq<byte>> {
    if HasCurrent(v) && v.cur.value.item.Value? && v.cur.value.item.scalar.Octets? then Some(v.cur.value.item.scalar.octets)
    else None
  }

  function NumHere(v: View): uint32
    requires HasCurrent(v)
  {
    v.cur.value.tag.num
  }

  method UintField(r: Reader, range: nat) returns (n: Option<nat>)
    requires r.Valid() && range > 0
    ensures n == UintHere(r.View(), range)
  {
    var u := r.GetUint();
    n := if u.Some? then Some(u.value % range) else None;
  }

  method BoolField(r: Reader) returns (b: Option<bool>)
    requires r.Valid()
    ensures b == BoolHere(r.View())
  {
    b := if r.valid && r.typ == TypeBool then Some(r.u != 0) else None;
  }

  method BytesField(r: Reader) returns (b: Option<seq<byte>>)
    requires r.Valid()
    ensures b == BytesHere(r.View()) && (b.Some? ==> |b.value| < 0x1_0000_0000_0000_0000)
  {
    b := if r.valid && r.typ == TypeBytes then Some(r.b) else None;
  }

  // ---------------------------------------------------------------------- what holds of every state

  /** The current element is one that the format can hold. */
  predicate Genuine(v: View) { HasCurrent(v) ==> v.cur.value.tag.Canonical() && v.cur.value.item.Fits() }

  /** From a state and element for which `keeps` holds, a step that succeeds goes on to others for which it holds. */
  ghost predicate Steps<S(!new), E(!new)>(data: seq<byte>, step: (S, View) -> Done<S, E>, keeps: (S, View) -> bool) {
    forall s, v :: StepKeeps(data, s, v, step, keeps)
  }

  ghost predicate StepKeeps<S, E>(data: seq<byte>, s: S, v: View, step: (S, View) -> Done<S, E>, keeps: (S, View) -> bool) {
    var n := step(s, v);
    Within(data, v) && Genuine(v) && HasCurrent(v) && keeps(s, v) && n.r.Ok? ==>
      Within(data, n.v) && Onward(v, n.v) && keeps(n.r.value, NextView(data, n.v))
  }

  /** What the steps keep holds at the end of the loop. */
  lemma {:induction false} EachKeeps<S(!new), E(!new)>(data: seq<byte>, v: View, s: S, step: (S, View) -> Done<S, E>,
                                                       keeps: (S, View) -> bool)
    requires Within(data, v) && Genuine(v) && keeps(s, v) && Steps(data, step, keeps)
    ensures var d := Each(data, v, s, step); d.r.Ok? ==> keeps(d.r.value, d.v) && !HasCurrent(d.v)
    decreases if HasCurrent(v) then |data| - v.pos + 1 else 0
  {
    hide HeadAt, Skip;
    if HasCurrent(v) {
      assert StepKeeps(data, s, v, step, keeps);
      var n := step(s, v);
      if n.r.Ok? { EachKeeps(data, NextView(data, n.v), n.r.value, step, keeps); }
    }
  }

  lemma InsideKeeps<S(!new), E(!new)>(data: seq<byte>, v: View, s: S, notEntered: E, step: (S, View) -> Done<S, E>,
                                      keeps: (S, View) -> bool)
    requires Within(data, v) && Steps(data, step, keeps)
    requires Enterable(v) && EnterView(v).Ready? ==> keeps(s, NextView(data, EnterView(v)))
    ensures var d := Inside(data, v, s, notEntered, step); d.r.Ok? ==> keeps(d.r.value, d.v) && !HasCurrent(d.v)
  {
    hide HeadAt, Skip;
    var w := EnterView(v);
    if Enterable(v) && !w.Failed? { EachKeeps(data, NextView(data, w), s, step, keeps); }
  }

  lemma MessageKeeps<S(!new), E(!new)>(b: seq<byte>, s: S, notAStructure: E, step: (S, View) -> Done<S, E>,
                                       keeps: (S, View) -> bool)
    requires Steps(b, step, keeps) && (Opened(b).Some? ==> keeps(s, NextView(b, Opened(b).value)))
    ensures var d := Message(b, s, notAStructure, step); d.r.Ok? ==> keeps(d.r.value, d.v) && !HasCurrent(d.v)
  {
    hide HeadAt, Skip, Opened;
    if Opened(b).Some? { EachKeeps(b, NextView(b, Opened(b).value), s, step, keeps); }
  }

  // ---------------------------------------------------------------------- encoded members

  /** On this member the step goes from one state to the next and leaves the reader in front of the others. */
  ghost predicate Takes<S, E>(data: seq<byte>, step: (S, View) -> Done<S, E>, s: S, t: S, w: View,
                              es: seq<Element>, depth: nat, rest: seq<byte>)
  {
    var n := step(s, w);
    n.r == Ok(t) && Within(data, n.v) && Onward(w, n.v) && Facing(data, n.v, es, depth, rest)
  }

  ghost predicate TakesMember<S(!new), E>(data: seq<byte>, step: (S, View) -> Done<S, E>, s: S, t: S,
                                    e: Element, es: seq<Element>, depth: nat, rest: seq<byte>)
  {
    forall w :: On(data, w, e, depth, Tail(es, rest)) && Facing(data, w, es, depth, rest) ==>
                  Takes(data, step, s, t, w, es, depth, rest)
  }

  /** In front of encoded members the loop takes the states ss one after the other and ends behind the end marker. */
  lemma {:induction false} EachMember<S(!new), E>(data: seq<byte>, v: View, es: seq<Element>, ss: seq<S>, depth: nat, rest: seq<byte>,
                                            step: (S, View) -> Done<S, E>)
    requires |ss| == |es| + 1 && depth > 0 && Facing(data, v, es, depth, rest)
    requires forall k :: 0 <= k < |es| ==> TakesMember(data, step, ss[k], ss[k + 1], es[k], es[k + 1..], depth, rest)
    ensures Within(data, v)
    ensures var d := Each(data, NextView(data, v), ss[0], step);
            d.r == Ok(ss[|es|]) && Left(data, d.v, depth - 1, rest)
    decreases |es|
  {
    hide NextView, EnterView, Tail;
    Walk(data, v, es, depth, rest);
    FacingIsWithin(data, v, es, depth, rest);
    hide Facing;
    if es != [] {
      var w := NextView(data, v);
      assert TakesMember(data, step, ss[0], ss[1], es[0], es[1..], depth, rest);
      assert Takes(data, step, ss[0], ss[1], w, es[1..], depth, rest);
      var n := step(ss[0], w);
      var more, states := es[1..], ss[1..];
      forall k | 0 <= k < |more|
        ensures TakesMember(data, step, states[k], states[k + 1], more[k], more[k + 1..], depth, rest)
      {
        assert TakesMember(data, step, ss[k + 1], ss[k + 2], es[k + 1], es[k + 2..], depth, rest);
        assert more[k + 1..] == es[k + 2..];
      }
      EachMember(data, n.v, more, states, depth, rest, step);
    }
  }

  lemma FacingIsWithin(data: seq<byte>, v: View, es: seq<Element>, depth: nat, rest: seq<byte>)
    requires Facing(data, v, es, depth, rest)
    ensures Within(data, v) && v.Ready?
  {
  }

  /** A leaf that the step reads without moving the reader. */
  lemma LeafTaken<S(!new), E>(data: seq<byte>, step: (S, View) -> Done<S, E>, s: S, t: S,
                              e: Element, es: seq<Element>, depth: nat, rest: seq<byte>)
    requires e.Leaf?
    requires forall w :: Within(data, w) && HasCurrent(w) && w.cur.value == Current(e.tag, Value(e.scalar)) ==>
               step(s, w) == Done(Ok(t), w)
    ensures TakesMember(data, step, s, t, e, es, depth, rest)
  {
    forall w | On(data, w, e, depth, Tail(es, rest)) && Facing(data, w, es, depth, rest)
      ensures Takes(data, step, s, t, w, es, depth, rest)
    {
      FacingIsWithin(data, w, es, depth, rest);
      hide Facing;
      assert step(s, w) == Done(Ok(t), w);
    }
  }

  /** A container that the step reads to its end. */
  lemma NodeTaken<S(!new), E>(data: seq<byte>, step: (S, View) -> Done<S, E>, s: S, t: S,
                              e: Element, es: seq<Element>, depth: nat, rest: seq<byte>)
    requires forall w :: On(data, w, e, depth, Tail(es, rest)) ==>
               var n := step(s, w); n.r == Ok(t) && Onward(w, n.v) && Left(data, n.v, depth, Tail(es, rest))
    ensures TakesMember(data, step, s, t, e, es, depth, rest)
  {
    forall w | On(data, w, e, depth, Tail(es, rest)) && Facing(data, w, es, depth, rest)
      ensures Takes(data, step, s, t, w, es, depth, rest)
    {
      Returned(data, w, step(s, w).v, es, depth, rest);
    }
  }

  /** The members of a container that the reader stands on. */
  lemma {:induction false} InsideMembers<S(!new), E>(data: seq<byte>, v: View, e: Element, ss: seq<S>, depth: nat, rest: seq<byte>,
                                                     notEntered: E, step: (S, View) -> Done<S, E>)
    requires On(data, v, e, depth, rest) && e.Node? && |ss| == |e.members| + 1
    requires forall k :: 0 <= k < |e.members| ==>
               TakesMember(data, step, ss[k], ss[k + 1], e.members[k], e.members[k + 1..], depth + 1, rest)
    ensures Within(data, v)
    ensures var d := Inside(data, v, ss[0], notEntered, step); d.r == Ok(ss[|e.members|]) && Left(data, d.v, depth, rest)
  {
    FacingIsWithin(data, EnterView(v), e.members, depth + 1, rest);
    hide Facing, NextView, TakesMember, Left;
    EachMember(data, EnterView(v), e.members, ss, depth + 1, rest, step);
  }

  /** The members of an encoded message, whatever follows it. */
  lemma {:induction false} MessageMembers<S(!new), E>(b: seq<byte>, t: Tag, es: seq<Element>, rest: seq<byte>, ss: seq<S>,
                                                      notAStructure: E, step: (S, View) -> Done<S, E>)
    requires b == Enc(Node(t, Structure, es)) + rest && t.Canonical() && AllWellFormed(es) && Height(es) < MAX_DEPTH
    requires |ss| == |es| + 1
    requires forall k :: 0 <= k < |es| ==> TakesMember(b, step, ss[k], ss[k + 1], es[k], es[k + 1..], 1, rest)
    ensures var d := Message(b, ss[0], notAStructure, step); d.r == Ok(ss[|es|]) && Left(b, d.v, 0, rest)
  {
    hide Facing, NextView, TakesMember, Left, Enc, AllWellFormed, Height;
    Start(b, t, Structure, es, rest);
    EachMember(b, EnterView(NextView(b, Ready(0, 0, None))), es, ss, 1, rest, step);
  }

  lemma LeftIsReady(b: seq<byte>, v: View, depth: nat, rest: seq<byte>)
    requires Left(b, v, depth, rest)
    ensures v.Ready?
  {
  }

  lemma OnIsCurrent(data: seq<byte>, w: View, e: Element, depth: nat, more: seq<byte>)
    requires On(data, w, e, depth, more)
    ensures HasCurrent(w) && w.depth == depth && w.cur.value == Current(e.tag, ItemOf(e))
  {
  }
}
