module TlvTree {
  // TLV element trees: their encoding, the recursive reading of a container body, and the flat scan
  // that skips a body without reading it.

  import opened Bytes
  import opened TlvFormat

  const MAX_DEPTH := 32

  datatype Element =
    | Leaf(tag: Tag, scalar: Scalar)
    | Node(tag: Tag, kind: Kind, members: seq<Element>)

  function ItemOf(e: Element): Item {
    match e
    case Leaf(_, v) => Value(v)
    case Node(_, k, _) => Open(k)
  }

  /** Tags as the source's constructors build them, and blobs that a Go slice can hold. */
  predicate WellFormed(e: Element) {
    && e.tag.Canonical()
    && match e
       case Leaf(_, v) => v.Fits()
       case Node(_, _, es) => AllWellFormed(es)
  }

  predicate AllWellFormed(es: seq<Element>) {
    es == [] || (WellFormed(es[0]) && AllWellFormed(es[1..]))
  }

  function Max(a: nat, b: nat): nat { if a < b then b else a }

  /** Levels of container nesting within the members of one body. */
  function Height(es: seq<Element>): nat {
    if es == [] then 0 else Max(HeightOf(es[0]), Height(es[1..]))
  }

  function HeightOf(e: Element): nat {
    match e
    case Leaf(_, _) => 0
    case Node(_, _, es) => 1 + Height(es)
  }

  // ---------------------------------------------------------------------- encoding

  function Enc(e: Element): (s: seq<byte>)
    ensures |s| > 0
    decreases e, 1
  {
    match e
    case Leaf(t, v) => EncHead(t, Value(v))
    case Node(t, k, es) => EncHead(t, Open(k)) + EncAll(es) + [END_OF_CONTAINER]
  }

  function EncAll(es: seq<Element>): seq<byte>
    decreases es, 0
  {
    if es == [] then [] else Enc(es[0]) + EncAll(es[1..])
  }

  lemma {:induction false} EncAllSnoc(es: seq<Element>, e: Element)
    ensures EncAll(es + [e]) == EncAll(es) + Enc(e)
    decreases |es|
  {
    hide Enc;
    if es == [] {
      assert es + [e] == [e] && [e][1..] == [];
      assert EncAll([e]) == Enc(e) + EncAll([]);
    } else {
      assert (es + [e])[1..] == es[1..] + [e];
      EncAllSnoc(es[1..], e);
    }
  }

  // ---------------------------------------------------------------------- decoding

  /** The element head at position p of the input. */
  function HeadAt(data: seq<byte>, p: nat): (h: Head)
    requires p < |data|
    ensures h.Elem? ==> 0 < h.size <= |data| - p && h.tag.Canonical() && h.item.Fits()
  {
    ReadHead(data[p..])
  }

  /** The head at p taken apart the way the reader consumes it: control byte, tag, value. */
  lemma HeadParts(data: seq<byte>, p: nat)
    requires p < |data|
    ensures var et := data[p] % 0x20;
            HeadAt(data, p) ==
            if et == END_OF_CONTAINER then End
            else match ReadTag(data[p] / 0x20, data[p + 1..])
              case Err(e) => Bad(e)
              case Ok(t) =>
                match ReadItem(et, data[p + 1 + t.size..])
                case Err(e) => Bad(e)
                case Ok(x) => Elem(t.value, x.value, 1 + t.size + x.size)
  {
    hide ReadTag, ReadItem;
    var s := data[p..];
    assert s[0] == data[p] && s[1..] == data[p + 1..];
    match ReadTag(data[p] / 0x20, data[p + 1..])
    case Err(_) =>
    case Ok(t) => assert s[1 + t.size..] == data[p + 1 + t.size..];
  }

  /** Containers are the element types that are opened. */
  lemma OpensContainer(et: nat, s: seq<byte>)
    requires et < 0x20
    ensures STRUCTURE <= et <= LIST <==> ReadItem(et, s).Ok? && ReadItem(et, s).value.value.Open?
    ensures STRUCTURE <= et <= LIST ==> ReadItem(et, s).value.size == 0
  {
  }

  /** Elements read, and the position reached. */
  datatype Body = Body(members: seq<Element>, end: nat)

  function More(e: Element, rest: Result<Body, Error>): Result<Body, Error> {
    match rest
    case Err(x) => Err(x)
    case Ok(b) => Ok(Body([e] + b.members, b.end))
  }

  /**
   * Reads members up to and with the end marker of the current container, entering every container
   * on the way. `room` is the number of further nesting levels that the depth limit allows.
   */
  function Members(data: seq<byte>, p: nat, room: nat): (r: Result<Body, Error>)
    requires p <= |data|
    ensures r.Ok? ==> p < r.value.end <= |data|
    decreases |data| - p
  {
    if p == |data| then Err(EndedInside)
    else match HeadAt(data, p)
      case Bad(e) => Err(e)
      case End => Ok(Body([], p + 1))
      case Elem(t, Value(v), n) => More(Leaf(t, v), Members(data, p + n, room))
      case Elem(t, Open(k), n) =>
        if room == 0 then Err(TooDeep)
        else
          var inner :- Members(data, p + n, room - 1);
          More(Node(t, k, inner.members), Members(data, inner.end, room))
  }

  /** Reads elements up to the end of the input, where an end marker is an error. */
  function Document(data: seq<byte>, p: nat, room: nat): (r: Result<Body, Error>)
    requires p <= |data|
    ensures r.Ok? ==> r.value.end == |data|
    decreases |data| - p
  {
    if p == |data| then Ok(Body([], p))
    else match HeadAt(data, p)
      case Bad(e) => Err(e)
      case End => Err(EndAtTop)
      case Elem(t, Value(v), n) => More(Leaf(t, v), Document(data, p + n, room))
      case Elem(t, Open(k), n) =>
        if room == 0 then Err(TooDeep)
        else
          var inner :- Members(data, p + n, room - 1);
          More(Node(t, k, inner.members), Document(data, inner.end, room))
  }

  /**
   * Skips the rest of `level` open containers by counting openings and end markers, and gives the
   * position reached. Values are measured and never built.
   */
  function Skip(data: seq<byte>, p: nat, level: nat): (r: Result<nat, Error>)
    requires p <= |data|
    ensures r.Ok? ==> p <= r.value <= |data|
    decreases |data| - p
  {
    if level == 0 then Ok(p)
    else if p == |data| then Err(EndedInside)
    else match HeadAt(data, p)
      case Bad(e) => Err(e)
      case End => Skip(data, p + 1, level - 1)
      case Elem(_, Value(_), n) => Skip(data, p + n, level)
      case Elem(_, Open(_), n) =>
        if level >= MAX_DEPTH then Err(TooDeep) else Skip(data, p + n, level + 1)
  }

  // ---------------------------------------------------------------------- round trip

  /** The bytes x stand at position p of the input. */
  predicate At(data: seq<byte>, p: nat, x: seq<byte>) {
    p + |x| <= |data| && data[p..p + |x|] == x
  }

  lemma AtSplit(data: seq<byte>, p: nat, x: seq<byte>, y: seq<byte>)
    requires At(data, p, x + y)
    ensures At(data, p, x) && At(data, p + |x|, y)
  {
    var d := data[p..p + |x + y|];
    assert data[p..p + |x|] == d[..|x|] == x;
    assert data[p + |x|..p + |x| + |y|] == d[|x|..] == y;
  }

  lemma SuffixAt(data: seq<byte>, p: nat, x: seq<byte>, rest: seq<byte>)
    requires p <= |data| && data[p..] == x + rest
    ensures At(data, p, x) && data[p + |x|..] == rest
  {
    assert data[p..p + |x|] == data[p..][..|x|];
    assert data[p + |x|..] == data[p..][|x|..];
  }

  lemma HeadAtRoundTrip(data: seq<byte>, p: nat, t: Tag, x: Item)
    requires At(data, p, EncHead(t, x)) && t.Canonical() && x.Fits()
    ensures HeadAt(data, p) == Elem(t, x, |EncHead(t, x)|)
  {
    hide ReadHead, EncHead;
    var h := EncHead(t, x);
    assert data[p..] == h + data[p + |h|..];
    HeadRoundTrip(t, x, data[p + |h|..]);
  }

  lemma EndAt(data: seq<byte>, p: nat)
    requires At(data, p, [END_OF_CONTAINER])
    ensures p < |data| && HeadAt(data, p) == End
  {
    assert data[p] == data[p..p + 1][0] == END_OF_CONTAINER;
  }

  /** What storable members say about the first of them and the rest. */
  lemma FirstOf(es: seq<Element>, room: nat)
    requires es != [] && AllWellFormed(es) && Height(es) <= room
    ensures AllWellFormed(es[1..]) && Height(es[1..]) <= room
    ensures es[0].tag.Canonical() && (es[0].Leaf? ==> Value(es[0].scalar).Fits())
    ensures es[0].Node? ==> AllWellFormed(es[0].members) && 1 + Height(es[0].members) <= room
    ensures [es[0]] + es[1..] == es
  {}

  lemma BodyBytes(es: seq<Element>)
    requires es != []
    ensures EncAll(es) + [END_OF_CONTAINER] == Enc(es[0]) + (EncAll(es[1..]) + [END_OF_CONTAINER])
    ensures es[0].Leaf? ==> Enc(es[0]) == EncHead(es[0].tag, Value(es[0].scalar))
    ensures es[0].Node? ==> |Enc(es[0])| == |EncHead(es[0].tag, Open(es[0].kind))| + |EncAll(es[0].members)| + 1
  {
    hide EncHead;
  }

  /** One more member in front of those that are read from where it ends. */
  lemma OneMore(data: seq<byte>, p: nat, e: Element, n: nat, q: nat, es: seq<Element>, end: nat, room: nat)
    requires p < |data| && HeadAt(data, p) == Elem(e.tag, ItemOf(e), n)
    requires e.Leaf? ==> q == p + n
    requires e.Node? ==> room > 0 && Members(data, p + n, room - 1) == Ok(Body(e.members, q))
    requires q <= |data| && Members(data, q, room) == Ok(Body(es, end))
    ensures Members(data, p, room) == Ok(Body([e] + es, end))
  {
    hide HeadAt;
  }

  /** A well-formed body within the depth limit is read back exactly, whatever surrounds it. */
  lemma {:induction false} MembersRoundTrip(data: seq<byte>, p: nat, es: seq<Element>, room: nat)
    requires At(data, p, EncAll(es) + [END_OF_CONTAINER])
    requires AllWellFormed(es) && Height(es) <= room
    ensures Members(data, p, room) == Ok(Body(es, p + |EncAll(es)| + 1))
    decreases es
  {
    hide HeadAt, EncHead, At, AllWellFormed, WellFormed, Height;
    if es == [] {
      assert EncAll(es) + [END_OF_CONTAINER] == [END_OF_CONTAINER];
      EndAt(data, p);
    } else {
      hide Members, Enc, EncAll;
      var e, rest := es[0], EncAll(es[1..]) + [END_OF_CONTAINER];
      BodyBytes(es);
      AtSplit(data, p, Enc(e), rest);
      FirstOf(es, room);
      var q := p + |Enc(e)|;
      MembersRoundTrip(data, q, es[1..], room);
      match e
      case Leaf(t, v) =>
        HeadAtRoundTrip(data, p, t, Value(v));
        OneMore(data, p, e, |EncHead(t, Value(v))|, q, es[1..], q + |EncAll(es[1..])| + 1, room);
      case Node(t, k, inner) =>
        var n := |EncHead(t, Open(k))|;
        InnerAt(data, p, t, k, inner);
        MembersRoundTrip(data, p + n, inner, room - 1);
        OneMore(data, p, e, n, q, es[1..], q + |EncAll(es[1..])| + 1, room);
    }
  }

  lemma {:induction false} InnerAt(data: seq<byte>, p: nat, t: Tag, k: Kind, inner: seq<Element>)
    requires At(data, p, Enc(Node(t, k, inner))) && t.Canonical()
    ensures HeadAt(data, p) == Elem(t, Open(k), |EncHead(t, Open(k))|)
    ensures At(data, p + |EncHead(t, Open(k))|, EncAll(inner) + [END_OF_CONTAINER])
  {
    var h, body := EncHead(t, Open(k)), EncAll(inner) + [END_OF_CONTAINER];
    assert Enc(Node(t, k, inner)) == h + body;
    AtSplit(data, p, h, body);
    HeadAtRoundTrip(data, p, t, Open(k));
  }

  /** A whole document is read back exactly. */
  lemma {:induction false} DocumentRoundTrip(data: seq<byte>, p: nat, es: seq<Element>, room: nat)
    requires p <= |data| && data[p..] == EncAll(es)
    requires AllWellFormed(es) && Height(es) <= room
    ensures Document(data, p, room) == Ok(Body(es, |data|))
    decreases es
  {
    hide HeadAt, EncHead, At, AllWellFormed, WellFormed, Height;
    if es != [] {
      var e := es[0];
      SuffixAt(data, p, Enc(e), EncAll(es[1..]));
      FirstOf(es, room);
      DocumentRoundTrip(data, p + |Enc(e)|, es[1..], room);
      match e
      case Leaf(t, v) =>
        HeadAtRoundTrip(data, p, t, Value(v));
      case Node(t, k, inner) =>
        InnerAt(data, p, t, k, inner);
        MembersRoundTrip(data, p + |EncHead(t, Open(k))|, inner, room - 1);
    }
  }

  /** Reading only gives trees that the writer can write, within the depth limit. */
  lemma {:induction false} MembersWellFormed(data: seq<byte>, p: nat, room: nat)
    requires p <= |data| && Members(data, p, room).Ok?
    ensures AllWellFormed(Members(data, p, room).value.members)
    ensures Height(Members(data, p, room).value.members) <= room
    decreases |data| - p
  {
    hide HeadAt, EncHead;
    match HeadAt(data, p)
    case Bad(_) =>
    case End =>
    case Elem(t, Value(v), n) =>
      MembersWellFormed(data, p + n, room);
      Cons(Leaf(t, v), Members(data, p + n, room).value.members);
    case Elem(t, Open(k), n) =>
      var inner := Members(data, p + n, room - 1).value;
      MembersWellFormed(data, p + n, room - 1);
      MembersWellFormed(data, inner.end, room);
      Cons(Node(t, k, inner.members), Members(data, inner.end, room).value.members);
  }

  lemma Cons(e: Element, es: seq<Element>)
    ensures AllWellFormed([e] + es) == (WellFormed(e) && AllWellFormed(es))
    ensures Height([e] + es) == Max(HeightOf(e), Height(es))
  {
    assert ([e] + es)[1..] == es;
  }

  // ---------------------------------------------------------------------- skipping refines reading

  /**
   * Where `level` containers are open, the flat scan does what reading the innermost body and then
   * scanning on would do, with the same errors.
   */
  lemma {:induction false} SkipStep(data: seq<byte>, p: nat, level: nat)
    requires p <= |data| && 1 <= level <= MAX_DEPTH
    ensures Skip(data, p, level) ==
            match Members(data, p, MAX_DEPTH - level)
            case Err(e) => Err(e)
            case Ok(b) => Skip(data, b.end, level - 1)
    decreases |data| - p
  {
    hide HeadAt, EncHead;
    if p < |data| {
      match HeadAt(data, p)
      case Bad(_) =>
      case End =>
      case Elem(t, Value(v), n) =>
        SkipStep(data, p + n, level);
      case Elem(t, Open(k), n) =>
        if level < MAX_DEPTH {
          SkipStep(data, p + n, level + 1);
          match Members(data, p + n, MAX_DEPTH - level - 1)
          case Err(_) =>
          case Ok(inner) => SkipStep(data, inner.end, level);
        }
    }
  }

  /** Skipping a container at the top level and reading it in full agree on success, end and error. */
  lemma SkipIsDrain(data: seq<byte>, p: nat)
    requires p <= |data|
    ensures Skip(data, p, 1) ==
            match Members(data, p, MAX_DEPTH - 1)
            case Err(e) => Err(e)
            case Ok(b) => Ok(b.end)
  {
    SkipStep(data, p, 1);
  }

  /** A smaller depth allowance changes nothing but to refuse the taller trees. */
  lemma {:induction false} RoomMatters(data: seq<byte>, p: nat, room: nat, more: nat)
    requires p <= |data| && room <= more
    ensures Members(data, p, room).Ok? <==>
            Members(data, p, more).Ok? && Height(Members(data, p, more).value.members) <= room
    ensures Members(data, p, room).Ok? ==> Members(data, p, room) == Members(data, p, more)
    decreases |data| - p
  {
    hide HeadAt, EncHead;
    if p < |data| {
      match HeadAt(data, p)
      case Bad(_) =>
      case End =>
      case Elem(t, Value(v), n) =>
        RoomMatters(data, p + n, room, more);
        HeightMore(Leaf(t, v), Members(data, p + n, more));
      case Elem(t, Open(k), n) =>
        if room > 0 { RoomMatters(data, p + n, room - 1, more - 1); }
        if more > 0 && Members(data, p + n, more - 1).Ok? {
          var inner := Members(data, p + n, more - 1).value;
          RoomMatters(data, inner.end, room, more);
          HeightMore(Node(t, k, inner.members), Members(data, inner.end, more));
        }
    }
  }

  lemma HeightMore(e: Element, r: Result<Body, Error>)
    ensures r.Ok? ==> Height(More(e, r).value.members) == Max(HeightOf(e), Height(r.value.members))
  {
    if r.Ok? { Cons(e, r.value.members); }
  }

  /**
   * Inside other containers the two limits differ: the scan counts levels from the skipped
   * container, reading counts them from the top. At depth d reading succeeds exactly when the scan
   * does and the skipped tree is no taller than what is left of the limit, and then they stop at
   * the same place.
   */
  lemma SkipInside(data: seq<byte>, p: nat, depth: nat)
    requires p <= |data| && depth < MAX_DEPTH
    ensures var read, full := Members(data, p, MAX_DEPTH - depth - 1), Members(data, p, MAX_DEPTH - 1);
            && (Skip(data, p, 1).Ok? <==> full.Ok?)
            && (read.Ok? <==> full.Ok? && Height(full.value.members) <= MAX_DEPTH - depth - 1)
            && (read.Ok? ==> Skip(data, p, 1) == Ok(read.value.end))
  {
    hide Members, Skip, Height;
    SkipIsDrain(data, p);
    RoomMatters(data, p, MAX_DEPTH - depth - 1, MAX_DEPTH - 1);
  }

  /** On the lowest level but one, a container that holds another is passed over but cannot be read. */
  lemma PassedOverUnread()
    ensures var data := [STRUCTURE, END_OF_CONTAINER, END_OF_CONTAINER];
            Skip(data, 0, 1) == Ok(3) && Members(data, 0, MAX_DEPTH - (MAX_DEPTH - 1) - 1) == Err(TooDeep)
  {
    var data := [STRUCTURE, END_OF_CONTAINER, END_OF_CONTAINER];
    assert HeadAt(data, 0) == Elem(ANONYMOUS, Open(Structure), 1);
    assert HeadAt(data, 1) == End && HeadAt(data, 2) == End;
    hide HeadAt;
    assert Skip(data, 3, 0) == Ok(3);
    assert Skip(data, 2, 1) == Ok(3);
    assert Skip(data, 1, 2) == Ok(3);
  }
}
