module Transcode {
  // Copying an element from a reader to a writer, which the interaction model uses to capture
  // attribute values. Floats leave as float64; the conversion of a float32 pattern is a parameter.

  import opened Bytes
  import opened TlvFormat
  import opened TlvTree
  import opened TlvWriter
  import opened TlvReader

  type Widening = uint32 -> uint64

  function WidenedScalar(widen: Widening, v: Scalar): (r: Scalar)
    ensures v.Fits() ==> r.Fits()
  {
    if v.Single? then Double(widen(v.bits)) else v
  }

  /** The same tree with every float32 replaced by the float64 of the same value. */
  function Widened(widen: Widening, e: Element): (r: Element)
    ensures r.tag == e.tag
    decreases e, 1
  {
    match e
    case Leaf(t, v) => Leaf(t, WidenedScalar(widen, v))
    case Node(t, k, es) => Node(t, k, WidenedAll(widen, es))
  }

  function WidenedAll(widen: Widening, es: seq<Element>): seq<Element>
    decreases es, 0
  {
    if es == [] then [] else [Widened(widen, es[0])] + WidenedAll(widen, es[1..])
  }

  predicate FloatFree(es: seq<Element>) {
    forall i :: 0 <= i < |es| ==> (match es[i]
                                   case Leaf(_, v) => !v.Single?
                                   case Node(_, _, inner) => FloatFree(inner))
  }

  lemma {:induction false} WidenedFloatFree(widen: Widening, es: seq<Element>)
    requires FloatFree(es)
    ensures WidenedAll(widen, es) == es
    decreases es
  {
    if es != [] {
      assert es == [es[0]] + es[1..];
      WidenedFloatFree(widen, es[1..]);
      match es[0]
      case Leaf(_, _) =>
      case Node(_, _, inner) => WidenedFloatFree(widen, inner);
    }
  }

  lemma {:induction false} WidenedWellFormed(widen: Widening, es: seq<Element>)
    requires AllWellFormed(es)
    ensures AllWellFormed(WidenedAll(widen, es)) && Height(WidenedAll(widen, es)) == Height(es)
    decreases es
  {
    if es != [] {
      var e := es[0];
      WidenedWellFormed(widen, es[1..]);
      Cons(Widened(widen, e), WidenedAll(widen, es[1..]));
      match e
      case Leaf(_, _) =>
      case Node(_, _, inner) => WidenedWellFormed(widen, inner);
    }
  }

  function Retag(e: Element, t: Tag): Element {
    match e
    case Leaf(_, v) => Leaf(t, v)
    case Node(_, k, es) => Node(t, k, es)
  }

  lemma {:induction false} WidenedSnoc(widen: Widening, es: seq<Element>, e: Element)
    ensures WidenedAll(widen, es + [e]) == WidenedAll(widen, es) + [Widened(widen, e)]
    decreases |es|
  {
    if es == [] {
      assert es + [e] == [e];
    } else {
      assert (es + [e])[1..] == es[1..] + [e];
      WidenedSnoc(widen, es[1..], e);
    }
  }

  lemma AppendElement(widen: Widening, buf: seq<byte>, es: seq<Element>, e: Element)
    ensures buf + EncAll(WidenedAll(widen, es)) + Enc(Widened(widen, e)) ==
            buf + EncAll(WidenedAll(widen, es + [e]))
  {
    hide Enc, EncAll, Widened, WidenedAll;
    WidenedSnoc(widen, es, e);
    EncAllSnoc(WidenedAll(widen, es), Widened(widen, e));
    Assoc(buf, EncAll(WidenedAll(widen, es)), Enc(Widened(widen, e)));
  }

  // ---------------------------------------------------------------------- how far reading gets

  /** The members that reading meets until it ends or fails; one that breaks off is kept as far as it goes. */
  function Met(data: seq<byte>, p: nat, room: nat): seq<Element>
    requires p <= |data|
    decreases |data| - p
  {
    if p == |data| then []
    else match HeadAt(data, p)
      case Bad(_) => []
      case End => []
      case Elem(t, Value(v), n) => [Leaf(t, v)] + Met(data, p + n, room)
      case Elem(t, Open(k), n) =>
        if room == 0 then [Node(t, k, [])]
        else match Members(data, p + n, room - 1)
          case Err(_) => [Node(t, k, Met(data, p + n, room - 1))]
          case Ok(inner) => [Node(t, k, inner.members)] + Met(data, inner.end, room)
  }

  /** The element that the reader stands on, as far as reading it gets. */
  function Copied(data: seq<byte>, pos: nat, cur: Current, room: nat): Element
    requires pos <= |data|
  {
    match cur.item
    case Value(v) => Leaf(cur.tag, v)
    case Open(k) => Node(cur.tag, k, if room == 0 then [] else Met(data, pos, room - 1))
  }

  /** What is met after a call of Next. */
  function MetFrom(data: seq<byte>, v: View, room: nat): seq<Element>
    requires v.Ready? ==> v.pos <= |data|
  {
    if !HasCurrent(v) then []
    else match WholeElement(data, v.pos, v.cur.value, room)
      case Err(_) => [Copied(data, v.pos, v.cur.value, room)]
      case Ok(w) => [w.element] + Met(data, w.end, room)
  }

  /** Where reading succeeds, everything is met. */
  lemma {:induction false} AllIsMet(data: seq<byte>, p: nat, room: nat)
    requires p <= |data| && Members(data, p, room).Ok?
    ensures Met(data, p, room) == Members(data, p, room).value.members
    decreases |data| - p
  {
    hide HeadAt;
    match HeadAt(data, p)
    case Bad(_) =>
    case End =>
    case Elem(t, Value(v), n) => AllIsMet(data, p + n, room);
    case Elem(t, Open(k), n) => AllIsMet(data, Members(data, p + n, room - 1).value.end, room);
  }

  lemma WholeIsCopied(data: seq<byte>, pos: nat, cur: Current, room: nat)
    requires pos <= |data| && WholeElement(data, pos, cur, room).Ok?
    ensures Copied(data, pos, cur, room) == WholeElement(data, pos, cur, room).value.element
  {
    hide Members, Met;
    if cur.item.Open? { AllIsMet(data, pos, room - 1); }
  }

  lemma MetByNext(data: seq<byte>, pos: nat, depth: nat, room: nat)
    requires pos <= |data| && depth > 0
    ensures Met(data, pos, room) == MetFrom(data, NextView(data, Ready(pos, depth, None)), room)
  {
    hide HeadAt, Members;
  }

  lemma NothingWellFormed()
    ensures AllWellFormed([]) && Height([]) == 0
  {
  }

  lemma Alone(e: Element)
    ensures AllWellFormed([e]) == WellFormed(e) && Height([e]) == HeightOf(e)
  {
  }

  /** What is met is a tree that can be written, within the depth limit. */
  lemma {:induction false} MetWellFormed(data: seq<byte>, p: nat, room: nat)
    requires p <= |data|
    ensures AllWellFormed(Met(data, p, room)) && Height(Met(data, p, room)) <= room + 1
    ensures Members(data, p, room) != Err(TooDeep) ==> Height(Met(data, p, room)) <= room
    decreases |data| - p
  {
    hide HeadAt, EncHead, AllWellFormed, Height;
    NothingWellFormed();
    if p < |data| {
      match HeadAt(data, p)
      case Bad(_) =>
      case End =>
      case Elem(t, Value(v), n) =>
        MetWellFormed(data, p + n, room);
        Cons(Leaf(t, v), Met(data, p + n, room));
      case Elem(t, Open(k), n) =>
        if room == 0 {
          Alone(Node(t, k, []));
        } else {
          match Members(data, p + n, room - 1)
          case Err(_) =>
            MetWellFormed(data, p + n, room - 1);
            Alone(Node(t, k, Met(data, p + n, room - 1)));
          case Ok(inner) =>
            MembersWellFormed(data, p + n, room - 1);
            MetWellFormed(data, inner.end, room);
            Cons(Node(t, k, inner.members), Met(data, inner.end, room));
        }
    }
  }

  // ---------------------------------------------------------------------- copying

  datatype CopyError = NotAnElement | ReadFailed(read: Error)

  function TooDeepOnly(x: Error): Option<CopyError> {
    if x == TooDeep then Some(ReadFailed(x)) else None
  }

  /**
   * Copies the current element of the reader under the given tag. When reading it succeeds, the
   * reader ends behind it and the writer has appended the encoding of the same tree. When it does not,
   * the reader keeps the error, but only running into the depth limit is reported; otherwise
   * everything up to the error is copied and the containers that it is in are closed.
   */
  method WriteElement(widen: Widening, w: Writer, tag: Tag, r: Reader) returns (err: Option<CopyError>)
    requires r.Valid()
    modifies w, r
    ensures r.Valid()
    ensures !HasCurrent(old(r.View())) ==> err == Some(NotAnElement) && r.View() == old(r.View())
    ensures HasCurrent(old(r.View())) ==>
              match WholeElement(r.data, old(r.pos), old(r.View().cur.value), MAX_DEPTH - old(r.depth))
              case Err(x) => r.View() == Failed(x) && err == TooDeepOnly(x)
              case Ok(e) => err == None && r.View() == Past(old(r.View()), e.end) && Behind(r.View(), e.end, old(r.depth))
    ensures HasCurrent(old(r.View())) && old(w.err) == None && tag.Writable() && err == None ==>
              && w.err == None && w.depth == old(w.depth)
              && w.buf == old(w.buf) +
                 Enc(Retag(Widened(widen, Copied(r.data, old(r.pos), old(r.View().cur.value), MAX_DEPTH - old(r.depth))), tag))
    decreases |r.data| - r.pos, 1
  {
    hide Members, EncHead, Met, EncAll;
    if !r.valid { return Some(NotAnElement); }
    if !r.typ.Container() {
      var v := r.Scalar();
      PutScalar(w, tag, WidenedScalar(widen, v));
      return None;
    }
    var kind := if r.typ == TypeStructure then Structure else if r.typ == TypeArray then Array else List;
    w.Start(tag, kind);
    var ok := r.Enter();
    if !ok { return Some(ReadFailed(r.err.value)); }
    ghost var es;
    err, es := WriteMembers(widen, w, r);
    if err.Some? { return; }
    w.EndContainer();
    NodeJoins(old(w.buf), tag, kind, WidenedAll(widen, es));
  }

  /** The loop over the members of an entered container. */
  method WriteMembers(widen: Widening, w: Writer, r: Reader) returns (err: Option<CopyError>, ghost es: seq<Element>)
    requires r.Valid() && r.View().Ready? && r.View().cur == None && r.depth > 0
    modifies w, r
    ensures r.Valid()
    ensures match Members(r.data, old(r.pos), MAX_DEPTH - old(r.depth))
            case Err(x) => r.View() == Failed(x) && err == TooDeepOnly(x)
            case Ok(b) => err == None && r.View() == Ready(b.end, old(r.depth) - 1, None)
    ensures err == None ==> es == Met(r.data, old(r.pos), MAX_DEPTH - old(r.depth))
    ensures old(w.err) == None && err == None ==>
              && w.err == None && w.depth == old(w.depth)
              && w.buf == old(w.buf) + EncAll(WidenedAll(widen, es))
    decreases |r.data| - r.pos, 0
  {
    hide Members, WholeElement, Resume, Enc, Reading, HeadView, ItemFields, Retag, Met, Copied, MetFrom, NextView,
         EncAll, Widened, WidenedAll;
    ghost var depth, room, result := r.depth, MAX_DEPTH - r.depth, Members(r.data, r.pos, MAX_DEPTH - r.depth);
    ghost var all := Met(r.data, r.pos, room);
    NothingCopied(widen, w.buf);
    es := [];
    err := None;
    ReadingStarts(r.data, r.pos, depth, room);
    MetByNext(r.data, r.pos, depth, room);
    var more := r.Next();
    while more
      invariant r.Valid() && more == HasCurrent(r.View()) && err == None
      invariant more ==> r.pos > old(r.pos) && r.depth == depth
      invariant r.View() != Failed(TooDeep)
      invariant Reading(r.data, r.View(), es, depth, room, result) || (r.View().Failed? && result == Err(r.View().error))
      invariant all == es + MetFrom(r.data, r.View(), room)
      invariant old(w.err) == None ==>
                  w.err == None && w.depth == old(w.depth) && w.buf == old(w.buf) + EncAll(WidenedAll(widen, es))
      decreases more, |r.data| - r.pos
    {
      ghost var before, whole := r.View(), WholeElement(r.data, r.pos, r.View().cur.value, room);
      ghost var next := Copied(r.data, r.pos, r.View().cur.value, room);
      TagKept(widen, r.data, r.pos, before.cur.value, room);
      if whole.Err? { ReadingFails(r.data, before, es, depth, room, result); }
      err := WriteElement(widen, w, r.tag, r);
      if err.Some? { return; }
      AppendElement(widen, old(w.buf), es, next);
      if r.err.Some? {
        // The next call of Next ends the loop at once.
        MeetingFails(r.data, before, r.View(), es, room);
      } else {
        ReadingGoesOn(r.data, before, r.View(), es, depth, room, result);
        MeetingGoesOn(r.data, before, r.View(), es, depth, room);
      }
      es := es + [next];
      more := r.Next();
    }
    if Reading(r.data, r.View(), es, depth, room, result) { ReadingEnds(r.data, r.View(), es, depth, room, result); }
    NoMoreIsMet(r.data, r.View(), room, es);
  }

  lemma NothingCopied(widen: Widening, buf: seq<byte>)
    ensures buf + EncAll(WidenedAll(widen, [])) == buf
  {
  }

  lemma NoMoreIsMet(data: seq<byte>, v: View, room: nat, es: seq<Element>)
    requires !HasCurrent(v) && (v.Ready? ==> v.pos <= |data|)
    ensures es + MetFrom(data, v, room) == es
  {
  }

  lemma MeetingGoesOn(data: seq<byte>, before: View, after: View, es: seq<Element>, depth: nat, room: nat)
    requires HasCurrent(before) && before.pos <= |data| && depth > 0
    requires WholeElement(data, before.pos, before.cur.value, room).Ok?
    requires Behind(after, WholeElement(data, before.pos, before.cur.value, room).value.end, depth)
    requires NextView(data, after).Ready? ==> NextView(data, after).pos <= |data|
    ensures Copied(data, before.pos, before.cur.value, room) == WholeElement(data, before.pos, before.cur.value, room).value.element
    ensures es + MetFrom(data, before, room) ==
            es + [Copied(data, before.pos, before.cur.value, room)] + MetFrom(data, NextView(data, after), room)
  {
    hide Members, WholeElement, Copied, Met, HeadAt, NextView;
    var whole := WholeElement(data, before.pos, before.cur.value, room).value;
    WholeIsCopied(data, before.pos, before.cur.value, room);
    NextBehind(data, after);
    MetByNext(data, whole.end, depth, room);
  }

  lemma MeetingFails(data: seq<byte>, before: View, after: View, es: seq<Element>, room: nat)
    requires HasCurrent(before) && before.pos <= |data| && after.Failed?
    requires WholeElement(data, before.pos, before.cur.value, room).Err?
    ensures NextView(data, after) == after
    ensures es + MetFrom(data, before, room) ==
            es + [Copied(data, before.pos, before.cur.value, room)] + MetFrom(data, NextView(data, after), room)
  {
    hide WholeElement, Copied, Met;
  }

  /** An element carries the tag that the reader reported, so copying it retags nothing. */
  lemma TagKept(widen: Widening, data: seq<byte>, pos: nat, cur: Current, room: nat)
    requires pos <= |data|
    ensures Retag(Widened(widen, Copied(data, pos, cur, room)), cur.tag) == Widened(widen, Copied(data, pos, cur, room))
  {
  }

  /**
   * Re-encodes the current element as a single anonymous element, as far as it can be read. The bytes
   * decode to the same tree.
   */
  method CaptureAnon(widen: Widening, r: Reader) returns (res: Result<seq<byte>, CopyError>)
    requires r.Valid()
    modifies r
    ensures r.Valid()
    ensures !HasCurrent(old(r.View())) ==> res == Err(NotAnElement) && r.View() == old(r.View())
    ensures HasCurrent(old(r.View())) ==>
              var cur, room := old(r.View().cur.value), MAX_DEPTH - old(r.depth);
              var whole, e := WholeElement(r.data, old(r.pos), cur, room), CapturedTree(widen, r.data, old(r.pos), cur, room);
              && r.View() == (if whole.Ok? then Past(old(r.View()), whole.value.end) else Failed(whole.error))
              && res == (if whole == Err(TooDeep) then Err(ReadFailed(TooDeep)) else Ok(Enc(e)))
              && (res.Ok? ==> Document(Enc(e), 0, MAX_DEPTH) == Ok(Body([e], |Enc(e)|)))
  {
    hide Document, Enc, WholeElement, CapturedTree;
    if !r.valid { return Err(NotAnElement); }
    ghost var cur, room := r.View().cur.value, MAX_DEPTH - r.depth;
    ghost var e := CapturedTree(widen, r.data, r.pos, cur, room);
    if WholeElement(r.data, r.pos, cur, room) != Err(TooDeep) { CapturedReadsBack(widen, r.data, r.pos, cur, room); }
    CapturedIs(widen, r.data, r.pos, cur, room);
    var w := new Writer();
    var err := WriteElement(widen, w, ANONYMOUS, r);
    if err.Some? { return Err(err.value); }
    assert w.buf == [] + Enc(e) == Enc(e);
    var bytes := w.Finish();
    res := Ok(bytes.value);
  }

  /** The tree that capturing the current element encodes. */
  function CapturedTree(widen: Widening, data: seq<byte>, pos: nat, cur: Current, room: nat): Element
    requires pos <= |data|
  {
    Retag(Widened(widen, Copied(data, pos, cur, room)), ANONYMOUS)
  }

  lemma CapturedIs(widen: Widening, data: seq<byte>, pos: nat, cur: Current, room: nat)
    requires pos <= |data|
    ensures CapturedTree(widen, data, pos, cur, room) == Retag(Widened(widen, Copied(data, pos, cur, room)), ANONYMOUS)
  {
  }

  lemma CapturedReadsBack(widen: Widening, data: seq<byte>, pos: nat, cur: Current, room: nat)
    requires pos <= |data| && room <= MAX_DEPTH && cur.tag.Canonical() && cur.item.Fits()
    requires WholeElement(data, pos, cur, room) != Err(TooDeep)
    ensures var e := CapturedTree(widen, data, pos, cur, room);
            Document(Enc(e), 0, MAX_DEPTH) == Ok(Body([e], |Enc(e)|))
  {
    hide Document, Members, EncHead, Met;
    var e := CapturedTree(widen, data, pos, cur, room);
    if cur.item.Open? {
      MetWellFormed(data, pos, room - 1);
      WidenedWellFormed(widen, Met(data, pos, room - 1));
    }
    assert WellFormed(e) && HeightOf(e) <= MAX_DEPTH;
    Cons(e, []);
    assert [e] + [] == [e] && EncAll([e]) == Enc(e) + EncAll([]);
    DocumentRoundTrip(Enc(e), 0, [e], MAX_DEPTH);
  }
}
