/**
 * Attribute reports of the interaction model (section 10.6 of the Matter Core Specification): the encoder,
 * the decoder for every input, and exactly which reports go through both unchanged. An attribute value
 * travels as an opaque element, which the encoder copies out of its bytes and the decoder captures back.
 */
module Report {
  import opened Bytes
  import opened TlvFormat
  import opened TlvTree
  import opened TlvReader
  import opened TlvWriter
  import opened TlvLoop
  import opened TlvWalk
  import opened Transcode
  import opened Invoke

  datatype AttributePath = AttributePath(endpoint: uint16, cluster: uint32, attribute: uint32)

  /** A value, encoded as one anonymous element, or a status. */
  datatype AttributeReport = AttributeReport(path: AttributePath, version: uint32, data: seq<byte>, status: Option<byte>)

  datatype ReportData = ReportData(subscription: uint32, reports: seq<AttributeReport>)

  datatype ReportError = Im(e: ImError) | Copy(c: CopyError)

  // ---------------------------------------------------------------------- the trees of the messages

  function AttrPathMembers(p: AttributePath): seq<Element> {
    [Leaf(Ctx(2), Uint(p.endpoint)), Leaf(Ctx(3), Uint(p.cluster)), Leaf(Ctx(4), Uint(p.attribute))]
  }

  /**
   * The element at the start of some bytes as a report carries it, as far as it can be read; nothing if
   * they do not start with one. A value that is too deep has no such form.
   */
  function ValueOf(widen: Widening, data: seq<byte>): (r: Result<Option<Element>, Error>)
    ensures r.Err? ==> r.error == TooDeep
  {
    var v := NextView(data, Ready(0, 0, None));
    if !HasCurrent(v) then Ok(None)
    else if WholeElement(data, v.pos, v.cur.value, MAX_DEPTH) == Err(TooDeep) then Err(TooDeep)
    else Ok(Some(Retag(Widened(widen, Copied(data, v.pos, v.cur.value, MAX_DEPTH)), Ctx(2))))
  }

  /** What the encoder makes of the value of a report. */
  function Carried(widen: Widening, rep: AttributeReport): Option<Element> {
    if rep.status.Some? || ValueOf(widen, rep.data).Err? then None else ValueOf(widen, rep.data).value
  }

  predicate Refused(widen: Widening, rep: AttributeReport) { rep.status.None? && ValueOf(widen, rep.data).Err? }

  function StatusMembers(p: AttributePath, status: byte): seq<Element> {
    [Node(Ctx(0), List, AttrPathMembers(p)), Node(Ctx(1), Structure, [Leaf(Ctx(0), Uint(status))])]
  }

  function DataMembers(p: AttributePath, version: uint32, value: Option<Element>): seq<Element> {
    [Leaf(Ctx(0), Uint(version)), Node(Ctx(1), List, AttrPathMembers(p))]
    + if value.Some? then [value.value] else []
  }

  function ReportMembers(rep: AttributeReport, value: Option<Element>): seq<Element> {
    if rep.status.Some? then [Node(Ctx(0), Structure, StatusMembers(rep.path, rep.status.value))]
    else [Node(Ctx(1), Structure, DataMembers(rep.path, rep.version, value))]
  }

  function ReportTree(widen: Widening, rep: AttributeReport): Element {
    Node(ANONYMOUS, Structure, ReportMembers(rep, Carried(widen, rep)))
  }

  function ReportTrees(widen: Widening, reps: seq<AttributeReport>): (es: seq<Element>)
    ensures |es| == |reps|
    ensures forall i :: 0 <= i < |reps| ==> es[i] == ReportTree(widen, reps[i])
  {
    if reps == [] then [] else [ReportTree(widen, reps[0])] + ReportTrees(widen, reps[1..])
  }

  function Optional(present: bool, e: Element): seq<Element> { if present then [e] else [] }

  function MessageMembers(widen: Widening, d: ReportData, suppress: bool): seq<Element> {
    Optional(d.subscription != 0, Leaf(Ctx(0), Uint(d.subscription))) + [Node(Ctx(1), Array, ReportTrees(widen, d.reports))]
    + Optional(suppress, Leaf(Ctx(4), Bool(true))) + [Leaf(Ctx(255), Uint(REVISION))]
  }

  function ReportBytes(widen: Widening, d: ReportData, suppress: bool): seq<byte> {
    Enc(Node(ANONYMOUS, Structure, MessageMembers(widen, d, suppress)))
  }

  // ---------------------------------------------------------------------- encoding

  method EncodeAttrPath(w: Writer, tag: Tag, p: AttributePath)
    requires tag.Writable() && w.err == None
    modifies w
    ensures w.err == None && w.depth == old(w.depth)
    ensures w.buf == old(w.buf) + Enc(Node(tag, List, AttrPathMembers(p)))
  {
    hide EncHead, EncAll;
    w.Start(tag, List);
    ghost var start, es := w.buf, AttrPathMembers(p);
    NothingYet(start, es);
    w.PutUint(Ctx(2), p.endpoint);
    Appended(start, es, 0);
    w.PutUint(Ctx(3), p.cluster);
    Appended(start, es, 1);
    w.PutUint(Ctx(4), p.attribute);
    Appended(start, es, 2);
    w.EndContainer();
    Closed(old(w.buf), tag, List, es);
  }

  method EncodeStatus(w: Writer, p: AttributePath, status: byte)
    requires w.err == None
    modifies w
    ensures w.err == None && w.depth == old(w.depth)
    ensures w.buf == old(w.buf) + Enc(Node(Ctx(0), Structure, StatusMembers(p, status)))
  {
    hide EncHead, EncAll, AttrPathMembers;
    w.Start(Ctx(0), Structure);
    ghost var start, es := w.buf, StatusMembers(p, status);
    NothingYet(start, es);
    EncodeAttrPath(w, Ctx(0), p);
    Appended(start, es, 0);
    ghost var before := w.buf;
    w.Start(Ctx(1), Structure);
    ghost var inner, ls := w.buf, [Leaf(Ctx(0), Uint(status))];
    NothingYet(inner, ls);
    w.PutUint(Ctx(0), status);
    Appended(inner, ls, 0);
    w.EndContainer();
    Closed(before, Ctx(1), Structure, ls);
    Appended(start, es, 1);
    w.EndContainer();
    Closed(old(w.buf), Ctx(0), Structure, es);
  }

  method PutNumber(w: Writer, t: Tag, v: uint64)
    requires w.err == None && t.Writable()
    modifies w
    ensures w.err == None && w.depth == old(w.depth) && w.buf == old(w.buf) + Enc(Leaf(t, Uint(v)))
  {
    hide EncHead;
    w.PutUint(t, v);
  }

  method PutTrue(w: Writer, t: Tag)
    requires w.err == None && t.Writable()
    modifies w
    ensures w.err == None && w.depth == old(w.depth) && w.buf == old(w.buf) + Enc(Leaf(t, Bool(true)))
  {
    hide EncHead;
    w.PutBool(t, true);
  }

  /** Copies the value out of its bytes. Only a value that is too deep is refused; one that breaks off is copied as far as it goes. */
  method EncodeValue(widen: Widening, w: Writer, data: seq<byte>) returns (err: Option<CopyError>)
    requires w.err == None
    modifies w
    ensures match ValueOf(widen, data)
            case Err(x) => err == Some(ReadFailed(TooDeep))
            case Ok(value) =>
              && err == None && w.err == None && w.depth == old(w.depth)
              && w.buf == old(w.buf) + if value.Some? then Enc(value.value) else []
  {
    hide NextView, WholeElement, Copied, Enc, ItemFields;
    var dr := new Reader(data);
    var more := dr.Next();
    err := None;
    if more { err := WriteElement(widen, w, Ctx(2), dr); }
  }

  method EncodeData(widen: Widening, w: Writer, rep: AttributeReport) returns (err: Option<CopyError>)
    requires w.err == None && rep.status == None
    modifies w
    ensures match ValueOf(widen, rep.data)
            case Err(x) => err == Some(ReadFailed(TooDeep))
            case Ok(value) =>
              && err == None && w.err == None && w.depth == old(w.depth)
              && w.buf == old(w.buf) + Enc(Node(Ctx(1), Structure, DataMembers(rep.path, rep.version, value)))
  {
    hide EncHead, EncAll, AttrPathMembers, Enc, ValueOf;
    w.Start(Ctx(1), Structure);
    ghost var value := if ValueOf(widen, rep.data).Ok? then ValueOf(widen, rep.data).value else None;
    ghost var start, es := w.buf, DataMembers(rep.path, rep.version, value);
    NothingYet(start, es);
    PutNumber(w, Ctx(0), rep.version);
    Appended(start, es, 0);
    EncodeAttrPath(w, Ctx(1), rep.path);
    Appended(start, es, 1);
    err := EncodeValue(widen, w, rep.data);
    if err.Some? { return; }
    if value.Some? { Appended(start, es, 2); }
    w.EndContainer();
    Closed(old(w.buf), Ctx(1), Structure, es);
  }

  method EncodeReport(widen: Widening, w: Writer, rep: AttributeReport) returns (err: Option<CopyError>)
    requires w.err == None
    modifies w
    ensures err == if Refused(widen, rep) then Some(ReadFailed(TooDeep)) else None
    ensures err == None ==>
              w.err == None && w.depth == old(w.depth) && w.buf == old(w.buf) + Enc(ReportTree(widen, rep))
  {
    hide EncHead, EncAll, Enc, StatusMembers, DataMembers, ValueOf;
    w.Start(ANONYMOUS, Structure);
    ghost var start, es := w.buf, ReportMembers(rep, Carried(widen, rep));
    NothingYet(start, es);
    if rep.status.Some? {
      EncodeStatus(w, rep.path, rep.status.value);
    } else {
      err := EncodeData(widen, w, rep);
      if err.Some? { return; }
    }
    Appended(start, es, 0);
    err := None;
    w.EndContainer();
    Closed(old(w.buf), ANONYMOUS, Structure, es);
  }

  ghost predicate NoneRefused(widen: Widening, reps: seq<AttributeReport>) { forall rep :: rep in reps ==> !Refused(widen, rep) }

  method EncodeReports(widen: Widening, w: Writer, reps: seq<AttributeReport>) returns (err: Option<CopyError>)
    requires w.err == None
    modifies w
    ensures err == if NoneRefused(widen, reps) then None else Some(ReadFailed(TooDeep))
    ensures err == None ==>
              w.err == None && w.depth == old(w.depth) && w.buf == old(w.buf) + EncAll(ReportTrees(widen, reps))
  {
    hide EncAll, Enc, ReportTree, Refused;
    ghost var es := ReportTrees(widen, reps);
    NothingYet(w.buf, es);
    var i := 0;
    while i < |reps|
      invariant 0 <= i <= |reps| && w.err == None && w.depth == old(w.depth)
      invariant NoneRefused(widen, reps[..i])
      invariant w.buf == old(w.buf) + EncAll(es[..i])
    {
      err := EncodeReport(widen, w, reps[i]);
      if err.Some? {
        assert Refused(widen, reps[i]) && reps[i] in reps;
        return;
      }
      assert reps[i] in reps;
      Appended(old(w.buf), es, i);
      TakeMore(reps, i);
      i := i + 1;
    }
    err := None;
    assert reps[..i] == reps && es[..i] == es;
  }

  /** Refused if and only if some value is too deep; otherwise the bytes of the message's tree. */
  method EncodeReportData(widen: Widening, d: ReportData, suppress: bool) returns (r: Result<seq<byte>, ReportError>)
    ensures r == if NoneRefused(widen, d.reports) then Ok(ReportBytes(widen, d, suppress)) else Err(Copy(ReadFailed(TooDeep)))
  {
    hide EncHead, EncAll, Enc, ReportTrees, NoneRefused;
    ghost var trees, es := ReportTrees(widen, d.reports), MessageMembers(widen, d, suppress);
    var w := new Writer();
    w.Start(ANONYMOUS, Structure);
    ghost var start := w.buf;
    NothingYet(start, es);
    if d.subscription != 0 {
      PutNumber(w, Ctx(0), d.subscription);
      Appended(start, es, 0);
    }
    ghost var at, before := if d.subscription != 0 then 1 else 0, w.buf;
    w.Start(Ctx(1), Array);
    var err := EncodeReports(widen, w, d.reports);
    if err.Some? { return Err(Copy(err.value)); }
    w.EndContainer();
    assert trees[..|trees|] == trees;
    Closed(before, Ctx(1), Array, trees);
    Appended(start, es, at);
    if suppress {
      PutTrue(w, Ctx(4));
      Appended(start, es, at + 1);
    }
    PutNumber(w, Ctx(255), REVISION);
    Appended(start, es, |es| - 1);
    w.EndContainer();
    Closed([], ANONYMOUS, Structure, es);
    var b := w.Finish();
    r := Ok(b.value);
  }

  // ---------------------------------------------------------------------- decoding

  function AttrPathField(p: AttributePath, v: View): Result<AttributePath, ReportError> {
    if !HasCurrent(v) then Ok(p)
    else if NumHere(v) == 2 then
      if UintHere(v, 0x1_0000).None? then Err(Im(WrongType)) else Ok(p.(endpoint := UintHere(v, 0x1_0000).value))
    else if NumHere(v) == 3 || NumHere(v) == 4 then
      if UintHere(v, 0x1_0000_0000).None? then Err(Im(WrongType))
      else if NumHere(v) == 3 then Ok(p.(cluster := UintHere(v, 0x1_0000_0000).value))
      else Ok(p.(attribute := UintHere(v, 0x1_0000_0000).value))
    else Ok(p)
  }

  function AttrPathStep(): (AttributePath, View) -> Done<AttributePath, ReportError> { (p, v) => Done(AttrPathField(p, v), v) }

  const NO_ATTR_PATH := AttributePath(0, 0, 0)

  function AttrPathDecoded(data: seq<byte>, v: View): (d: Done<AttributePath, ReportError>)
    requires Within(data, v)
    ensures Within(data, d.v) && Onward(v, d.v)
  {
    if !HasCurrent(v) || v.cur.value.item != Open(List) then Done(Err(Im(NotAList)), v)
    else
      var d := Inside(data, v, NO_ATTR_PATH, Im(NotEntered), AttrPathStep());
      if d.r.Ok? && d.v.Failed? then Done(Err(Im(BadTlv(d.v.error))), d.v) else d
  }

  /** A path; members with other tags, which the specification allows, are passed over. */
  method DecodeAttrPath(r: Reader) returns (res: Result<AttributePath, ReportError>)
    requires r.Valid() && HasCurrent(r.View())
    modifies r
    ensures r.Valid() && Done(res, r.View()) == AttrPathDecoded(r.data, old(r.View()))
  {
    hide NextView, ItemFields;
    KindHere(r);
    if r.typ != TypeList { return Err(Im(NotAList)); }
    var ok := r.Enter();
    if !ok { return Err(Im(NotEntered)); }
    var path := NO_ATTR_PATH;
    var more := r.Next();
    while more
      invariant r.Valid() && more == HasCurrent(r.View())
      invariant Each(r.data, r.View(), path, AttrPathStep()) ==
                Inside(r.data, old(r.View()), NO_ATTR_PATH, Im(NotEntered), AttrPathStep())
      decreases more, |r.data| - r.pos
    {
      if r.tag.num == 2 {
        var v := UintField(r, 0x1_0000);
        if v.None? { return Err(Im(WrongType)); }
        path := path.(endpoint := v.value);
      } else if r.tag.num == 3 || r.tag.num == 4 {
        var v := UintField(r, 0x1_0000_0000);
        if v.None? { return Err(Im(WrongType)); }
        path := if r.tag.num == 3 then path.(cluster := v.value) else path.(attribute := v.value);
      }
      more := r.Next();
    }
    if r.err.Some? { return Err(Im(BadTlv(r.err.value))); }
    res := Ok(path);
  }

  lemma AttrPathReadBack(data: seq<byte>, v: View, t: Tag, p: AttributePath, depth: nat, rest: seq<byte>)
    requires On(data, v, Node(t, List, AttrPathMembers(p)), depth, rest)
    ensures Within(data, v)
    ensures var d := AttrPathDecoded(data, v); d.r == Ok(p) && Left(data, d.v, depth, rest)
  {
    hide Left, On, Inside, Facing;
    var es, s1 := AttrPathMembers(p), NO_ATTR_PATH.(endpoint := p.endpoint);
    var s2 := s1.(cluster := p.cluster);
    LeafTaken(data, AttrPathStep(), NO_ATTR_PATH, s1, es[0], es[1..], depth + 1, rest);
    LeafTaken(data, AttrPathStep(), s1, s2, es[1], es[2..], depth + 1, rest);
    LeafTaken(data, AttrPathStep(), s2, p, es[2], es[3..], depth + 1, rest);
    InsideMembers(data, v, Node(t, List, es), [NO_ATTR_PATH, s1, s2, p], depth, rest, Im(NotEntered), AttrPathStep());
    OnIsCurrent(data, v, Node(t, List, es), depth, rest);
    LeftIsReady(data, Inside(data, v, NO_ATTR_PATH, Im(NotEntered), AttrPathStep()).v, depth, rest);
  }

  // A status: path and code.

  function CodeField(rep: AttributeReport, v: View): Result<AttributeReport, ReportError> {
    if !HasCurrent(v) || NumHere(v) != 0 then Ok(rep)
    else if UintHere(v, 0x100).None? then Err(Im(WrongType))
    else Ok(rep.(status := Some(UintHere(v, 0x100).value)))
  }

  function CodeStep(): (AttributeReport, View) -> Done<AttributeReport, ReportError> { (rep, v) => Done(CodeField(rep, v), v) }

  function CodeDecoded(data: seq<byte>, rep: AttributeReport, v: View): (d: Done<AttributeReport, ReportError>)
    requires Within(data, v)
    ensures Within(data, d.v) && Onward(v, d.v)
  {
    Inside(data, v, rep, Im(NotEntered), CodeStep())
  }

  method DecodeCode(r: Reader, start: AttributeReport) returns (res: Result<AttributeReport, ReportError>)
    requires r.Valid() && HasCurrent(r.View())
    modifies r
    ensures r.Valid() && Done(res, r.View()) == CodeDecoded(r.data, start, old(r.View()))
  {
    hide NextView, ItemFields;
    var ok := r.Enter();
    if !ok { return Err(Im(NotEntered)); }
    var rep := start;
    var more := r.Next();
    while more
      invariant r.Valid() && more == HasCurrent(r.View())
      invariant Each(r.data, r.View(), rep, CodeStep()) == CodeDecoded(r.data, start, old(r.View()))
      decreases more, |r.data| - r.pos
    {
      if r.tag.num == 0 {
        var v := UintField(r, 0x100);
        if v.None? { return Err(Im(WrongType)); }
        rep := rep.(status := Some(v.value));
      }
      more := r.Next();
    }
    res := Ok(rep);
  }

  function StatusField(data: seq<byte>, rep: AttributeReport, v: View): (d: Done<AttributeReport, ReportError>)
    requires Within(data, v)
    ensures Within(data, d.v) && Onward(v, d.v)
  {
    if !HasCurrent(v) then Done(Ok(rep), v)
    else if NumHere(v) == 0 then
      var p := AttrPathDecoded(data, v);
      Done(if p.r.Err? then Err(p.r.error) else Ok(rep.(path := p.r.value)), p.v)
    else if NumHere(v) == 1 then CodeDecoded(data, rep, v)
    else Done(Ok(rep), v)
  }

  function StatusStep(data: seq<byte>): (AttributeReport, View) -> Done<AttributeReport, ReportError> {
    (rep, v) => if Within(data, v) then StatusField(data, rep, v) else Done(Ok(rep), v)
  }

  function StatusDecoded(data: seq<byte>, rep: AttributeReport, v: View): (d: Done<AttributeReport, ReportError>)
    requires Within(data, v)
    ensures Within(data, d.v) && Onward(v, d.v)
  {
    Inside(data, v, rep, Im(NotEntered), StatusStep(data))
  }

  method DecodeStatusField(r: Reader, rep: AttributeReport) returns (res: Result<AttributeReport, ReportError>)
    requires r.Valid() && HasCurrent(r.View())
    modifies r
    ensures r.Valid() && Done(res, r.View()) == StatusField(r.data, rep, old(r.View()))
  {
    hide AttrPathDecoded, CodeDecoded, ItemFields;
    var num := r.tag.num;
    if num == 0 {
      var p := DecodeAttrPath(r);
      return if p.Err? then Err(p.error) else Ok(rep.(path := p.value));
    }
    if num == 1 {
      res := DecodeCode(r, rep);
      return;
    }
    res := Ok(rep);
  }

  method DecodeStatus(r: Reader, start: AttributeReport) returns (res: Result<AttributeReport, ReportError>)
    requires r.Valid() && HasCurrent(r.View())
    modifies r
    ensures r.Valid() && Done(res, r.View()) == StatusDecoded(r.data, start, old(r.View()))
  {
    hide NextView, StatusField, ItemFields;
    var ok := r.Enter();
    if !ok { return Err(Im(NotEntered)); }
    var rep := start;
    var more := r.Next();
    while more
      invariant r.Valid() && more == HasCurrent(r.View())
      invariant Each(r.data, r.View(), rep, StatusStep(r.data)) == StatusDecoded(r.data, start, old(r.View()))
      decreases more, |r.data| - r.pos
    {
      var field := DecodeStatusField(r, rep);
      if field.Err? { return Err(field.error); }
      rep := field.value;
      more := r.Next();
    }
    res := Ok(rep);
  }

  lemma CodeReadBack(data: seq<byte>, rep: AttributeReport, v: View, status: byte, depth: nat, rest: seq<byte>)
    requires On(data, v, Node(Ctx(1), Structure, [Leaf(Ctx(0), Uint(status))]), depth, rest)
    ensures Within(data, v)
    ensures var d := CodeDecoded(data, rep, v); d.r == Ok(rep.(status := Some(status))) && Left(data, d.v, depth, rest)
  {
    hide Left, On, Inside, Facing;
    var es, done := [Leaf(Ctx(0), Uint(status))], rep.(status := Some(status));
    LeafTaken(data, CodeStep(), rep, done, es[0], es[1..], depth + 1, rest);
    InsideMembers(data, v, Node(Ctx(1), Structure, es), [rep, done], depth, rest, Im(NotEntered), CodeStep());
  }

  lemma StatusReadBack(data: seq<byte>, rep: AttributeReport, v: View, p: AttributePath, status: byte, depth: nat, rest: seq<byte>)
    requires On(data, v, Node(Ctx(0), Structure, StatusMembers(p, status)), depth, rest)
    ensures Within(data, v)
    ensures var d := StatusDecoded(data, rep, v);
            d.r == Ok(rep.(path := p, status := Some(status))) && Left(data, d.v, depth, rest)
  {
    hide Left, On, Inside, Facing, AttrPathDecoded, CodeDecoded, AttrPathMembers;
    var es, step, named, done := StatusMembers(p, status), StatusStep(data), rep.(path := p), rep.(path := p, status := Some(status));
    forall w | On(data, w, es[0], depth + 1, Tail(es[1..], rest))
      ensures var n := step(rep, w); n.r == Ok(named) && Onward(w, n.v) && Left(data, n.v, depth + 1, Tail(es[1..], rest))
    {
      AttrPathReadBack(data, w, Ctx(0), p, depth + 1, Tail(es[1..], rest));
      OnIsCurrent(data, w, es[0], depth + 1, Tail(es[1..], rest));
    }
    NodeTaken(data, step, rep, named, es[0], es[1..], depth + 1, rest);
    forall w | On(data, w, es[1], depth + 1, Tail(es[2..], rest))
      ensures var n := step(named, w); n.r == Ok(done) && Onward(w, n.v) && Left(data, n.v, depth + 1, Tail(es[2..], rest))
    {
      CodeReadBack(data, named, w, status, depth + 1, Tail(es[2..], rest));
      OnIsCurrent(data, w, es[1], depth + 1, Tail(es[2..], rest));
    }
    NodeTaken(data, step, named, done, es[1], es[2..], depth + 1, rest);
    InsideMembers(data, v, Node(Ctx(0), Structure, es), [rep, named, done], depth, rest, Im(NotEntered), step);
  }

  // A value: the element, captured.

  function Room(v: View): nat
    requires v.Ready?
  {
    if v.depth <= MAX_DEPTH then MAX_DEPTH - v.depth else 0
  }

  function Captured(widen: Widening, data: seq<byte>, v: View): (d: Done<seq<byte>, ReportError>)
    requires Within(data, v)
    ensures Within(data, d.v) && Onward(v, d.v)
  {
    if !HasCurrent(v) then Done(Err(Copy(NotAnElement)), v)
    else
      var whole := WholeElement(data, v.pos, v.cur.value, Room(v));
      Done(if whole == Err(TooDeep) then Err(Copy(ReadFailed(TooDeep)))
           else Ok(Enc(CapturedTree(widen, data, v.pos, v.cur.value, Room(v)))),
           if whole.Ok? then Past(v, whole.value.end) else Failed(whole.error))
  }

  method CaptureValue(widen: Widening, r: Reader) returns (res: Result<seq<byte>, ReportError>)
    requires r.Valid() && HasCurrent(r.View())
    modifies r
    ensures r.Valid() && Done(res, r.View()) == Captured(widen, r.data, old(r.View()))
  {
    hide WholeElement, CapturedTree, Enc, Document, ItemFields;
    var c := CaptureAnon(widen, r);
    res := if c.Ok? then Ok(c.value) else Err(Copy(c.error));
  }

  function DataField(widen: Widening, data: seq<byte>, rep: AttributeReport, v: View): (d: Done<AttributeReport, ReportError>)
    requires Within(data, v)
    ensures Within(data, d.v) && Onward(v, d.v)
  {
    if !HasCurrent(v) then Done(Ok(rep), v)
    else if NumHere(v) == 0 then
      if UintHere(v, 0x1_0000_0000).None? then Done(Err(Im(WrongType)), v)
      else Done(Ok(rep.(version := UintHere(v, 0x1_0000_0000).value)), v)
    else if NumHere(v) == 1 then
      var p := AttrPathDecoded(data, v);
      Done(if p.r.Err? then Err(p.r.error) else Ok(rep.(path := p.r.value)), p.v)
    else if NumHere(v) == 2 then
      var c := Captured(widen, data, v);
      Done(if c.r.Err? then Err(c.r.error) else Ok(rep.(data := c.r.value)), c.v)
    else Done(Ok(rep), v)
  }

  function DataStep(widen: Widening, data: seq<byte>): (AttributeReport, View) -> Done<AttributeReport, ReportError> {
    (rep, v) => if Within(data, v) then DataField(widen, data, rep, v) else Done(Ok(rep), v)
  }

  function DataDecoded(widen: Widening, data: seq<byte>, rep: AttributeReport, v: View): (d: Done<AttributeReport, ReportError>)
    requires Within(data, v)
    ensures Within(data, d.v) && Onward(v, d.v)
  {
    Inside(data, v, rep, Im(NotEntered), DataStep(widen, data))
  }

  method DecodeDataField(widen: Widening, r: Reader, rep: AttributeReport) returns (res: Result<AttributeReport, ReportError>)
    requires r.Valid() && HasCurrent(r.View())
    modifies r
    ensures r.Valid() && Done(res, r.View()) == DataField(widen, r.data, rep, old(r.View()))
  {
    hide AttrPathDecoded, Captured, ItemFields;
    var num := r.tag.num;
    if num == 0 {
      var v := UintField(r, 0x1_0000_0000);
      return if v.None? then Err(Im(WrongType)) else Ok(rep.(version := v.value));
    }
    if num == 1 {
      var p := DecodeAttrPath(r);
      return if p.Err? then Err(p.error) else Ok(rep.(path := p.value));
    }
    if num == 2 {
      var c := CaptureValue(widen, r);
      return if c.Err? then Err(c.error) else Ok(rep.(data := c.value));
    }
    res := Ok(rep);
  }

  method DecodeData(widen: Widening, r: Reader, start: AttributeReport) returns (res: Result<AttributeReport, ReportError>)
    requires r.Valid() && HasCurrent(r.View())
    modifies r
    ensures r.Valid() && Done(res, r.View()) == DataDecoded(widen, r.data, start, old(r.View()))
  {
    hide NextView, DataField, ItemFields;
    var ok := r.Enter();
    if !ok { return Err(Im(NotEntered)); }
    var rep := start;
    var more := r.Next();
    while more
      invariant r.Valid() && more == HasCurrent(r.View())
      invariant Each(r.data, r.View(), rep, DataStep(widen, r.data)) == DataDecoded(widen, r.data, start, old(r.View()))
      decreases more, |r.data| - r.pos
    {
      var field := DecodeDataField(widen, r, rep);
      if field.Err? { return Err(field.error); }
      rep := field.value;
      more := r.Next();
    }
    res := Ok(rep);
  }

  // One report.

  function ReportField(widen: Widening, data: seq<byte>, rep: AttributeReport, v: View): (d: Done<AttributeReport, ReportError>)
    requires Within(data, v)
    ensures Within(data, d.v) && Onward(v, d.v)
  {
    if !HasCurrent(v) then Done(Ok(rep), v)
    else if NumHere(v) == 0 then StatusDecoded(data, rep, v)
    else if NumHere(v) == 1 then DataDecoded(widen, data, rep, v)
    else Done(Ok(rep), v)
  }

  function ReportStep(widen: Widening, data: seq<byte>): (AttributeReport, View) -> Done<AttributeReport, ReportError> {
    (rep, v) => if Within(data, v) then ReportField(widen, data, rep, v) else Done(Ok(rep), v)
  }

  const NO_REPORT := AttributeReport(NO_ATTR_PATH, 0, [], None)

  function ReportDecoded(widen: Widening, data: seq<byte>, v: View): (d: Done<AttributeReport, ReportError>)
    requires Within(data, v)
    ensures Within(data, d.v) && Onward(v, d.v)
  {
    Inside(data, v, NO_REPORT, Im(NotEntered), ReportStep(widen, data))
  }

  method DecodeReport(widen: Widening, r: Reader) returns (res: Result<AttributeReport, ReportError>)
    requires r.Valid() && HasCurrent(r.View())
    modifies r
    ensures r.Valid() && Done(res, r.View()) == ReportDecoded(widen, r.data, old(r.View()))
  {
    hide NextView, StatusDecoded, DataDecoded, ItemFields;
    var ok := r.Enter();
    if !ok { return Err(Im(NotEntered)); }
    var rep := NO_REPORT;
    var more := r.Next();
    while more
      invariant r.Valid() && more == HasCurrent(r.View())
      invariant Each(r.data, r.View(), rep, ReportStep(widen, r.data)) == ReportDecoded(widen, r.data, old(r.View()))
      decreases more, |r.data| - r.pos
    {
      var field: Result<AttributeReport, ReportError> := Ok(rep);
      if r.tag.num == 0 {
        field := DecodeStatus(r, rep);
      } else if r.tag.num == 1 {
        field := DecodeData(widen, r, rep);
      }
      if field.Err? { return Err(field.error); }
      rep := field.value;
      more := r.Next();
    }
    res := Ok(rep);
  }

  // The array of reports.

  function ReportsField(widen: Widening, data: seq<byte>, reps: seq<AttributeReport>, v: View)
    : (d: Done<seq<AttributeReport>, ReportError>)
    requires Within(data, v)
    ensures Within(data, d.v) && Onward(v, d.v)
  {
    var rep := ReportDecoded(widen, data, v);
    Done(if rep.r.Err? then Err(rep.r.error) else Ok(reps + [rep.r.value]), rep.v)
  }

  function ReportsStep(widen: Widening, data: seq<byte>): (seq<AttributeReport>, View) -> Done<seq<AttributeReport>, ReportError> {
    (reps, v) => if Within(data, v) then ReportsField(widen, data, reps, v) else Done(Ok(reps), v)
  }

  function ReportsDecoded(widen: Widening, data: seq<byte>, v: View): (d: Done<seq<AttributeReport>, ReportError>)
    requires Within(data, v)
    ensures Within(data, d.v) && Onward(v, d.v)
  {
    Inside(data, v, [], Im(NotEntered), ReportsStep(widen, data))
  }

  method DecodeReports(widen: Widening, r: Reader) returns (res: Result<seq<AttributeReport>, ReportError>)
    requires r.Valid() && HasCurrent(r.View())
    modifies r
    ensures r.Valid() && Done(res, r.View()) == ReportsDecoded(widen, r.data, old(r.View()))
  {
    hide NextView, ReportDecoded, ItemFields;
    var ok := r.Enter();
    if !ok { return Err(Im(NotEntered)); }
    var reps := [];
    var more := r.Next();
    while more
      invariant r.Valid() && more == HasCurrent(r.View())
      invariant Each(r.data, r.View(), reps, ReportsStep(widen, r.data)) == ReportsDecoded(widen, r.data, old(r.View()))
      decreases more, |r.data| - r.pos
    {
      var rep := DecodeReport(widen, r);
      if rep.Err? { return Err(rep.error); }
      reps := reps + [rep.value];
      more := r.Next();
    }
    res := Ok(reps);
  }

  // The message.

  function MessageField(widen: Widening, data: seq<byte>, d: ReportData, v: View): (n: Done<ReportData, ReportError>)
    requires Within(data, v)
    ensures Within(data, n.v) && Onward(v, n.v)
  {
    if !HasCurrent(v) then Done(Ok(d), v)
    else if NumHere(v) == 0 then
      if UintHere(v, 0x1_0000_0000).None? then Done(Err(Im(WrongType)), v)
      else Done(Ok(d.(subscription := UintHere(v, 0x1_0000_0000).value)), v)
    else if NumHere(v) == 1 then
      var reps := ReportsDecoded(widen, data, v);
      Done(if reps.r.Err? then Err(reps.r.error) else Ok(d.(reports := d.reports + reps.r.value)), reps.v)
    else Done(Ok(d), v)
  }

  function MessageStep(widen: Widening, data: seq<byte>): (ReportData, View) -> Done<ReportData, ReportError> {
    (d, v) => if Within(data, v) then MessageField(widen, data, d, v) else Done(Ok(d), v)
  }

  const NO_DATA := ReportData(0, [])

  function ReportDataDecoded(widen: Widening, b: seq<byte>): Result<ReportData, ReportError> {
    var d := Message(b, NO_DATA, Im(NotAStructure), MessageStep(widen, b));
    if d.r.Ok? && d.v.Failed? then Err(Im(BadTlv(d.v.error))) else d.r
  }

  method DecodeMessageField(widen: Widening, r: Reader, d: ReportData) returns (res: Result<ReportData, ReportError>)
    requires r.Valid() && HasCurrent(r.View())
    modifies r
    ensures r.Valid() && Done(res, r.View()) == MessageField(widen, r.data, d, old(r.View()))
  {
    hide ReportsDecoded, ItemFields;
    var num := r.tag.num;
    if num == 0 {
      var v := UintField(r, 0x1_0000_0000);
      return if v.None? then Err(Im(WrongType)) else Ok(d.(subscription := v.value));
    }
    if num == 1 {
      var reps := DecodeReports(widen, r);
      return if reps.Err? then Err(reps.error) else Ok(d.(reports := d.reports + reps.value));
    }
    res := Ok(d);
  }

  method DecodeReportData(widen: Widening, b: seq<byte>) returns (res: Result<ReportData, ReportError>)
    ensures res == ReportDataDecoded(widen, b)
  {
    hide NextView, MessageField, Opened, ItemFields;
    var r, ok := OpenStructure(b);
    if !ok { return Err(Im(NotAStructure)); }
    var got := NO_DATA;
    var more := r.Next();
    while more
      invariant r.Valid() && more == HasCurrent(r.View())
      invariant Each(b, r.View(), got, MessageStep(widen, b)) == Message(b, NO_DATA, Im(NotAStructure), MessageStep(widen, b))
      decreases more, |b| - r.pos
    {
      var field := DecodeMessageField(widen, r, got);
      if field.Err? { return Err(field.error); }
      got := field.value;
      more := r.Next();
    }
    if r.err.Some? { return Err(Im(BadTlv(r.err.value))); }
    res := Ok(got);
  }

  // ---------------------------------------------------------------------- which reports go through unchanged

  /** Values as the program can carry them: no float of 32 bits, and not too deep for a report. */
  const VALUE_HEIGHT := 28

  ghost predicate Portable(e: Element) {
    e.tag == ANONYMOUS && WellFormed(e) && FloatFree([e]) && HeightOf(e) <= VALUE_HEIGHT
  }

  /** No value, or the encoding of one that the program can carry. */
  ghost predicate ValueBytes(b: seq<byte>) { b == [] || exists e :: Portable(e) && b == Enc(e) }

  /** A status comes alone. */
  ghost predicate Reportable(rep: AttributeReport) {
    ValueBytes(rep.data) && (rep.status.Some? ==> rep.data == [] && rep.version == 0)
  }

  ghost predicate AllReportable(reps: seq<AttributeReport>) { forall rep :: rep in reps ==> Reportable(rep) }

  lemma NotWidened(widen: Widening, e: Element)
    requires FloatFree([e])
    ensures Widened(widen, e) == e
  {
    WidenedFloatFree(widen, [e]);
    assert WidenedAll(widen, [e]) == [Widened(widen, e)] + WidenedAll(widen, [e][1..]);
  }

  /** The reader of a value stands on its element after one call of Next. */
  lemma ValueAhead(e: Element)
    requires Portable(e)
    ensures var v := NextView(Enc(e), Ready(0, 0, None));
            && HasCurrent(v) && v.depth == 0 && WholeElement(Enc(e), v.pos, v.cur.value, MAX_DEPTH) == Ok(Whole(e, |Enc(e)|))
            && Copied(Enc(e), v.pos, v.cur.value, MAX_DEPTH) == e
  {
    hide HeadAt, EncHead, Members, Met, AllWellFormed, Height;
    var data := Enc(e);
    assert data[0..] == data + [] && data == data + [];
    match e
    case Leaf(t, x) =>
      SuffixAt(data, 0, EncHead(t, Value(x)), []);
      HeadAtRoundTrip(data, 0, t, Value(x));
    case Node(t, k, inner) =>
      NodeAhead(data, 0, t, k, inner, [], 0);
      var p := |EncHead(t, Open(k))|;
      SuffixAt(data, p, EncAll(inner) + [END_OF_CONTAINER], []);
      MembersRoundTrip(data, p, inner, MAX_DEPTH - 1);
      AllIsMet(data, p, MAX_DEPTH - 1);
  }

  lemma ValueIs(widen: Widening, e: Element)
    requires Portable(e)
    ensures ValueOf(widen, Enc(e)) == Ok(Some(Retag(e, Ctx(2))))
  {
    ValueAhead(e);
    NotWidened(widen, e);
  }

  lemma NoValueIs(widen: Widening)
    ensures ValueOf(widen, []) == Ok(None)
  {
  }

  lemma ValueIsNotRefused(widen: Widening, rep: AttributeReport)
    requires ValueBytes(rep.data)
    ensures !Refused(widen, rep)
  {
    hide ValueOf;
    NoValueIs(widen);
    if rep.data != [] {
      var e :| Portable(e) && rep.data == Enc(e);
      ValueIs(widen, e);
    }
  }

  /** The element that the reader stands on, read as a whole. */
  lemma WholeHere(data: seq<byte>, v: View, e: Element, es: seq<Element>, depth: nat, rest: seq<byte>)
    requires On(data, v, e, depth, Tail(es, rest)) && Facing(data, v, es, depth, rest)
    requires WellFormed(e) && HeightOf(e) <= MAX_DEPTH - depth
    ensures v.pos <= |data| && HasCurrent(v)
    ensures var whole := WholeElement(data, v.pos, v.cur.value, MAX_DEPTH - depth);
            && whole.Ok? && whole.value.element == e && Copied(data, v.pos, v.cur.value, MAX_DEPTH - depth) == e
            && data[whole.value.end..] == Tail(es, rest)
            && Facing(data, Past(v, whole.value.end), es, depth, rest)
  {
    hide HeadAt, Skip, Enc, EncAll, Members, Met, AllWellFormed, Height;
    match e
    case Leaf(t, x) =>
    case Node(t, k, inner) =>
      var more := Tail(es, rest);
      assert EncAll(inner) + [END_OF_CONTAINER] + more == (EncAll(inner) + [END_OF_CONTAINER]) + more;
      SuffixAt(data, v.pos, EncAll(inner) + [END_OF_CONTAINER], more);
      MembersRoundTrip(data, v.pos, inner, MAX_DEPTH - depth - 1);
      AllIsMet(data, v.pos, MAX_DEPTH - depth - 1);
  }

  /** The captured bytes of a value that travelled under the tag of a report. */
  lemma CapturedValue(widen: Widening, e: Element)
    requires Portable(e)
    ensures Retag(Widened(widen, Retag(e, Ctx(2))), ANONYMOUS) == e
    ensures WellFormed(Retag(e, Ctx(2))) && HeightOf(Retag(e, Ctx(2))) == HeightOf(e) <= VALUE_HEIGHT
  {
    hide AllWellFormed, Height;
    NotWidened(widen, e);
  }

  /** A value in a report is captured to the bytes it came from. */
  lemma CapturedReadBack(widen: Widening, data: seq<byte>, v: View, e: Element, es: seq<Element>, depth: nat, rest: seq<byte>)
    requires Portable(e) && depth + VALUE_HEIGHT <= MAX_DEPTH
    requires On(data, v, Retag(e, Ctx(2)), depth, Tail(es, rest)) && Facing(data, v, es, depth, rest)
    ensures Within(data, v)
    ensures var c := Captured(widen, data, v); c.r == Ok(Enc(e)) && Facing(data, c.v, es, depth, rest)
  {
    hide Facing, On, Portable, Tail, Widened, WholeElement, Copied, Retag, WellFormed, Enc;
    CapturedValue(widen, e);
    OnIsCurrent(data, v, Retag(e, Ctx(2)), depth, Tail(es, rest));
    WholeHere(data, v, Retag(e, Ctx(2)), es, depth, rest);
  }

  lemma ValueTaken(widen: Widening, data: seq<byte>, s: AttributeReport, e: Element, es: seq<Element>, depth: nat, rest: seq<byte>)
    requires Portable(e) && depth + VALUE_HEIGHT <= MAX_DEPTH
    ensures TakesMember(data, DataStep(widen, data), s, s.(data := Enc(e)), Retag(e, Ctx(2)), es, depth, rest)
  {
    hide Portable, Retag, Enc, Captured, WellFormed, Facing, On;
    forall w | On(data, w, Retag(e, Ctx(2)), depth, Tail(es, rest)) && Facing(data, w, es, depth, rest)
      ensures Takes(data, DataStep(widen, data), s, s.(data := Enc(e)), w, es, depth, rest)
    {
      CapturedReadBack(widen, data, w, e, es, depth, rest);
      OnIsCurrent(data, w, Retag(e, Ctx(2)), depth, Tail(es, rest));
      Retagged(e, Ctx(2));
    }
  }

  lemma Retagged(e: Element, t: Tag)
    ensures Retag(e, t).tag == t
  {
  }

  lemma DataReadBack(widen: Widening, data: seq<byte>, start: AttributeReport, v: View, rep: AttributeReport, depth: nat,
                     rest: seq<byte>)
    requires rep.status == None && ValueBytes(rep.data) && start.data == [] && depth + 1 + VALUE_HEIGHT <= MAX_DEPTH
    requires On(data, v, Node(Ctx(1), Structure, DataMembers(rep.path, rep.version, Carried(widen, rep))), depth, rest)
    ensures Within(data, v)
    ensures var d := DataDecoded(widen, data, start, v);
            d.r == Ok(rep.(status := start.status)) && Left(data, d.v, depth, rest)
  {
    hide Left, On, Inside, Facing, AttrPathDecoded, Captured, AttrPathMembers, Portable, ValueOf, Enc;
    var es, step, done := DataMembers(rep.path, rep.version, Carried(widen, rep)), DataStep(widen, data), rep.(status := start.status);
    var s1 := start.(version := rep.version);
    var s2 := s1.(path := rep.path);
    LeafTaken(data, step, start, s1, es[0], es[1..], depth + 1, rest);
    forall w | On(data, w, es[1], depth + 1, Tail(es[2..], rest))
      ensures var n := step(s1, w); n.r == Ok(s2) && Onward(w, n.v) && Left(data, n.v, depth + 1, Tail(es[2..], rest))
    {
      AttrPathReadBack(data, w, Ctx(1), rep.path, depth + 1, Tail(es[2..], rest));
      OnIsCurrent(data, w, es[1], depth + 1, Tail(es[2..], rest));
    }
    NodeTaken(data, step, s1, s2, es[1], es[2..], depth + 1, rest);
    NoValueIs(widen);
    if rep.data == [] {
      InsideMembers(data, v, Node(Ctx(1), Structure, es), [start, s1, s2], depth, rest, Im(NotEntered), step);
    } else {
      var e :| Portable(e) && rep.data == Enc(e);
      ValueIs(widen, e);
      ValueTaken(widen, data, s2, e, es[3..], depth + 1, rest);
      InsideMembers(data, v, Node(Ctx(1), Structure, es), [start, s1, s2, done], depth, rest, Im(NotEntered), step);
    }
  }

  lemma ReportReadBack(widen: Widening, data: seq<byte>, v: View, rep: AttributeReport, rest: seq<byte>)
    requires Reportable(rep) && On(data, v, ReportTree(widen, rep), 2, rest)
    ensures Within(data, v)
    ensures var d := ReportDecoded(widen, data, v); d.r == Ok(rep) && Left(data, d.v, 2, rest)
  {
    hide Left, On, Inside, Facing, StatusDecoded, DataDecoded, StatusMembers, DataMembers, ValueBytes, Carried;
    var es, step := ReportMembers(rep, Carried(widen, rep)), ReportStep(widen, data);
    forall w | On(data, w, es[0], 3, Tail(es[1..], rest))
      ensures var n := step(NO_REPORT, w); n.r == Ok(rep) && Onward(w, n.v) && Left(data, n.v, 3, Tail(es[1..], rest))
    {
      OnIsCurrent(data, w, es[0], 3, Tail(es[1..], rest));
      if rep.status.Some? {
        StatusReadBack(data, NO_REPORT, w, rep.path, rep.status.value, 3, Tail(es[1..], rest));
      } else {
        DataReadBack(widen, data, NO_REPORT, w, rep, 3, Tail(es[1..], rest));
      }
    }
    NodeTaken(data, step, NO_REPORT, rep, es[0], es[1..], 3, rest);
    InsideMembers(data, v, ReportTree(widen, rep), [NO_REPORT, rep], 2, rest, Im(NotEntered), step);
  }

  lemma ReportsReadBack(widen: Widening, data: seq<byte>, v: View, reps: seq<AttributeReport>, rest: seq<byte>)
    requires AllReportable(reps) && On(data, v, Node(Ctx(1), Array, ReportTrees(widen, reps)), 1, rest)
    ensures Within(data, v)
    ensures var d := ReportsDecoded(widen, data, v); d.r == Ok(reps) && Left(data, d.v, 1, rest)
  {
    hide Left, On, Inside, Facing, ReportDecoded, ReportTree, Reportable;
    var es, ss, step := ReportTrees(widen, reps), Prefixes(reps), ReportsStep(widen, data);
    forall k | 0 <= k < |es| ensures TakesMember(data, step, ss[k], ss[k + 1], es[k], es[k + 1..], 2, rest) {
      forall w | On(data, w, es[k], 2, Tail(es[k + 1..], rest))
        ensures var n := step(ss[k], w); n.r == Ok(ss[k + 1]) && Onward(w, n.v) && Left(data, n.v, 2, Tail(es[k + 1..], rest))
      {
        assert reps[k] in reps;
        ReportReadBack(widen, data, w, reps[k], Tail(es[k + 1..], rest));
        TakeMore(reps, k);
      }
      NodeTaken(data, step, ss[k], ss[k + 1], es[k], es[k + 1..], 2, rest);
    }
    InsideMembers(data, v, Node(Ctx(1), Array, es), ss, 1, rest, Im(NotEntered), step);
    assert reps[..|reps|] == reps && reps[..0] == [];
  }

  lemma CarriedWellFormed(widen: Widening, rep: AttributeReport)
    requires Reportable(rep)
    ensures var value := Carried(widen, rep); value.Some? ==> WellFormed(value.value) && HeightOf(value.value) <= VALUE_HEIGHT
  {
    hide ValueOf, Enc, Portable, Retag, WellFormed;
    NoValueIs(widen);
    if rep.data != [] {
      var e :| Portable(e) && rep.data == Enc(e);
      ValueIs(widen, e);
      CapturedValue(widen, e);
    }
  }

  lemma StatusWellFormed(p: AttributePath, code: byte)
    requires AllWellFormed(AttrPathMembers(p)) && Height(AttrPathMembers(p)) == 0
    ensures AllWellFormed(StatusMembers(p, code)) && Height(StatusMembers(p, code)) <= VALUE_HEIGHT
  {
    hide AllWellFormed, Height, AttrPathMembers;
    var number, path := Leaf(Ctx(0), Uint(code)), Node(Ctx(0), List, AttrPathMembers(p));
    var status := Node(Ctx(1), Structure, [number]);
    FlatIsWellFormed([number]);
    OneNode(status);
    Cons(path, [status]);
    assert [path] + [status] == StatusMembers(p, code);
  }

  lemma DataWellFormed(p: AttributePath, version: uint32, value: Option<Element>)
    requires AllWellFormed(AttrPathMembers(p)) && Height(AttrPathMembers(p)) == 0
    requires value.Some? ==> WellFormed(value.value) && HeightOf(value.value) <= VALUE_HEIGHT
    ensures AllWellFormed(DataMembers(p, version, value)) && Height(DataMembers(p, version, value)) <= VALUE_HEIGHT
  {
    hide AllWellFormed, Height, AttrPathMembers;
    NothingWellFormed();
    var number, path := Leaf(Ctx(0), Uint(version)), Node(Ctx(1), List, AttrPathMembers(p));
    var last := if value.Some? then [value.value] else [];
    if value.Some? {
      Cons(last[0], []);
      assert [last[0]] + [] == last;
    }
    Cons(path, last);
    Cons(number, [path] + last);
    assert [number] + ([path] + last) == DataMembers(p, version, value);
  }

  lemma Wrapped(t: Tag, es: seq<Element>, h: nat)
    requires t.Canonical() && AllWellFormed(es) && Height(es) <= h
    ensures var e := Node(ANONYMOUS, Structure, [Node(t, Structure, es)]); WellFormed(e) && HeightOf(e) <= 2 + h
  {
    OneNode(Node(t, Structure, es));
  }

  lemma ReportWellFormed(widen: Widening, rep: AttributeReport)
    requires Reportable(rep)
    ensures WellFormed(ReportTree(widen, rep)) && HeightOf(ReportTree(widen, rep)) <= 2 + VALUE_HEIGHT
  {
    CarriedWellFormed(widen, rep);
    FlatIsWellFormed(AttrPathMembers(rep.path));
    hide AllWellFormed, Height, WellFormed, HeightOf, AttrPathMembers, Enc, Reportable, Carried, StatusMembers, DataMembers;
    var value := Carried(widen, rep);
    if rep.status.Some? {
      StatusWellFormed(rep.path, rep.status.value);
      Wrapped(Ctx(0), StatusMembers(rep.path, rep.status.value), VALUE_HEIGHT);
    } else {
      DataWellFormed(rep.path, rep.version, value);
      Wrapped(Ctx(1), DataMembers(rep.path, rep.version, value), VALUE_HEIGHT);
    }
  }

  lemma {:induction false} ReportsWellFormed(widen: Widening, reps: seq<AttributeReport>)
    requires AllReportable(reps)
    ensures AllWellFormed(ReportTrees(widen, reps)) && Height(ReportTrees(widen, reps)) <= 2 + VALUE_HEIGHT
  {
    hide ReportTree, Reportable;
    if reps != [] {
      assert Reportable(reps[0]);
      ReportWellFormed(widen, reps[0]);
      ReportsWellFormed(widen, reps[1..]);
      Cons(ReportTree(widen, reps[0]), ReportTrees(widen, reps[1..]));
    }
  }

  lemma MessageWellFormed(widen: Widening, d: ReportData, suppress: bool)
    requires AllReportable(d.reports)
    ensures AllWellFormed(MessageMembers(widen, d, suppress)) && Height(MessageMembers(widen, d, suppress)) < MAX_DEPTH
  {
    hide AllWellFormed, Height, AllReportable, ReportTrees;
    NothingWellFormed();
    ReportsWellFormed(widen, d.reports);
    var a, b := Optional(d.subscription != 0, Leaf(Ctx(0), Uint(d.subscription))), Node(Ctx(1), Array, ReportTrees(widen, d.reports));
    var c, e := Optional(suppress, Leaf(Ctx(4), Bool(true))), Leaf(Ctx(255), Uint(REVISION));
    FlatIsWellFormed(a);
    FlatIsWellFormed(c + [e]);
    OneNode(b);
    Joined([b], c + [e]);
    Joined(a, [b] + (c + [e]));
    assert MessageMembers(widen, d, suppress) == a + ([b] + (c + [e]));
  }

  function States(d: ReportData, suppress: bool): (ss: seq<ReportData>)
    ensures |ss| == (if d.subscription != 0 then 1 else 0) + 2 + (if suppress then 1 else 0) + 1
  {
    [NO_DATA] + (if d.subscription != 0 then [ReportData(d.subscription, [])] else []) + [d] + (if suppress then [d] else []) + [d]
  }

  lemma ReportsTaken(widen: Widening, b: seq<byte>, s: ReportData, reps: seq<AttributeReport>, es: seq<Element>, rest: seq<byte>)
    requires AllReportable(reps) && s.reports == []
    ensures TakesMember(b, MessageStep(widen, b), s, s.(reports := reps), Node(Ctx(1), Array, ReportTrees(widen, reps)), es, 1, rest)
  {
    hide Left, On, Facing, Enc, ReportsDecoded, ReportTrees, AllReportable;
    var e, step, done := Node(Ctx(1), Array, ReportTrees(widen, reps)), MessageStep(widen, b), s.(reports := reps);
    forall w | On(b, w, e, 1, Tail(es, rest))
      ensures var n := step(s, w); n.r == Ok(done) && Onward(w, n.v) && Left(b, n.v, 1, Tail(es, rest))
    {
      ReportsReadBack(widen, b, w, reps, Tail(es, rest));
      OnIsCurrent(b, w, e, 1, Tail(es, rest));
      assert [] + reps == reps;
    }
    NodeTaken(b, step, s, done, e, es, 1, rest);
  }

  lemma MembersTaken(widen: Widening, d: ReportData, suppress: bool, b: seq<byte>, rest: seq<byte>)
    requires AllReportable(d.reports)
    ensures var es, ss := MessageMembers(widen, d, suppress), States(d, suppress);
            |ss| == |es| + 1 && forall k :: 0 <= k < |es| ==> TakesMember(b, MessageStep(widen, b), ss[k], ss[k + 1], es[k], es[k + 1..], 1, rest)
  {
    hide TakesMember, ReportsDecoded, ReportTrees, AllReportable;
    var es, ss, at := MessageMembers(widen, d, suppress), States(d, suppress), if d.subscription != 0 then 1 else 0;
    forall k | 0 <= k < |es| ensures TakesMember(b, MessageStep(widen, b), ss[k], ss[k + 1], es[k], es[k + 1..], 1, rest) {
      if k == at {
        ReportsTaken(widen, b, ss[at], d.reports, es[at + 1..], rest);
      } else {
        LeafTaken(b, MessageStep(widen, b), ss[k], ss[k + 1], es[k], es[k + 1..], 1, rest);
      }
    }
  }

  /** Reports that the program can carry are read back, whatever follows them. */
  lemma ReadBack(widen: Widening, d: ReportData, suppress: bool, rest: seq<byte>)
    requires AllReportable(d.reports)
    ensures ReportDataDecoded(widen, ReportBytes(widen, d, suppress) + rest) == Ok(d)
  {
    hide Left, Message, Enc, MessageMembers, AllWellFormed, Height, AllReportable, TakesMember;
    var es, b := MessageMembers(widen, d, suppress), ReportBytes(widen, d, suppress) + rest;
    var step, ss := MessageStep(widen, b), States(d, suppress);
    MessageWellFormed(widen, d, suppress);
    MembersTaken(widen, d, suppress, b, rest);
    TlvLoop.MessageMembers(b, ANONYMOUS, es, rest, ss, Im(NotAStructure), step);
    LeftIsReady(b, Message(b, NO_DATA, Im(NotAStructure), step).v, 0, rest);
  }

  // What the decoder gives is always reportable but for a status that comes with data; so no other reports
  // go through unchanged. For the depth of the values it matters at which level the reader meets them.

  /** On an element at this depth, or past the last one of its container. */
  predicate AtLevel(v: View, depth: nat) {
    v.Ready? ==> v.depth + (if v.cur.Some? then 0 else 1) == depth
  }

  lemma NextLevel(data: seq<byte>, v: View, depth: nat)
    requires Within(data, v) && depth > 0 && (v.Ready? ==> v.depth == depth)
    ensures AtLevel(NextView(data, v), depth)
  {
    hide HeadAt, Skip;
  }

  /** A step that succeeds leaves the reader at the level where it found it. */
  ghost predicate LevelStep<S, E>(data: seq<byte>, s: S, v: View, step: (S, View) -> Done<S, E>) {
    var n := step(s, v);
    Within(data, v) && HasCurrent(v) && n.r.Ok? ==>
      Within(data, n.v) && Onward(v, n.v) && (n.v.Ready? ==> n.v.depth == v.depth)
  }

  lemma LevelKept<S, E>(data: seq<byte>, s: S, v: View, step: (S, View) -> Done<S, E>)
    requires LevelStep(data, s, v, step) && Within(data, v) && HasCurrent(v) && v.depth > 0 && step(s, v).r.Ok?
    ensures Within(data, step(s, v).v) && AtLevel(NextView(data, step(s, v).v), v.depth)
  {
    hide NextView;
    NextLevel(data, step(s, v).v, v.depth);
  }

  /** And so does the loop over the members of a container. */
  lemma InsideLevel<S(!new), E(!new)>(data: seq<byte>, v: View, s: S, notEntered: E, step: (S, View) -> Done<S, E>)
    requires Within(data, v) && HasCurrent(v) && forall t, w :: LevelStep(data, t, w, step)
    ensures var d := Inside(data, v, s, notEntered, step); d.r.Ok? && d.v.Ready? ==> d.v.depth == v.depth
  {
    hide NextView, Inside;
    var keeps := (t: S, w: View) => AtLevel(w, v.depth + 1);
    forall t, w ensures StepKeeps(data, t, w, step, keeps) {
      assert LevelStep(data, t, w, step);
      if HasCurrent(w) && keeps(t, w) && step(t, w).r.Ok? && Within(data, w) { LevelKept(data, t, w, step); }
    }
    if Enterable(v) && EnterView(v).Ready? { NextLevel(data, EnterView(v), v.depth + 1); }
    InsideKeeps(data, v, s, notEntered, step, keeps);
  }

  lemma AttrPathLevel(data: seq<byte>, v: View)
    requires Within(data, v) && HasCurrent(v)
    ensures var d := AttrPathDecoded(data, v); d.r.Ok? && d.v.Ready? ==> d.v.depth == v.depth
  {
    hide Inside;
    InsideLevel(data, v, NO_ATTR_PATH, Im(NotEntered), AttrPathStep());
  }

  lemma StatusLevel(data: seq<byte>, rep: AttributeReport, v: View)
    requires Within(data, v) && HasCurrent(v)
    ensures var d := StatusDecoded(data, rep, v); d.r.Ok? && d.v.Ready? ==> d.v.depth == v.depth
  {
    hide Inside, AttrPathDecoded, CodeDecoded;
    forall t, w ensures LevelStep(data, t, w, StatusStep(data)) {
      if Within(data, w) && HasCurrent(w) {
        AttrPathLevel(data, w);
        CodeLevel(data, t, w);
      }
    }
    InsideLevel(data, v, rep, Im(NotEntered), StatusStep(data));
  }

  lemma CodeLevel(data: seq<byte>, rep: AttributeReport, v: View)
    requires Within(data, v) && HasCurrent(v)
    ensures var d := CodeDecoded(data, rep, v); d.r.Ok? && d.v.Ready? ==> d.v.depth == v.depth
  {
    hide Inside;
    InsideLevel(data, v, rep, Im(NotEntered), CodeStep());
  }

  lemma DataFieldLevel(widen: Widening, data: seq<byte>, rep: AttributeReport, v: View)
    ensures LevelStep(data, rep, v, DataStep(widen, data))
  {
    hide AttrPathDecoded, WholeElement;
    if Within(data, v) && HasCurrent(v) { AttrPathLevel(data, v); }
  }

  lemma DataLevel(widen: Widening, data: seq<byte>, rep: AttributeReport, v: View)
    requires Within(data, v) && HasCurrent(v)
    ensures var d := DataDecoded(widen, data, rep, v); d.r.Ok? && d.v.Ready? ==> d.v.depth == v.depth
  {
    hide Inside, DataField;
    forall t, w ensures LevelStep(data, t, w, DataStep(widen, data)) { DataFieldLevel(widen, data, t, w); }
    InsideLevel(data, v, rep, Im(NotEntered), DataStep(widen, data));
  }

  lemma ReportFieldLevel(widen: Widening, data: seq<byte>, rep: AttributeReport, v: View)
    ensures LevelStep(data, rep, v, ReportStep(widen, data))
  {
    hide StatusDecoded, DataDecoded;
    if Within(data, v) && HasCurrent(v) {
      StatusLevel(data, rep, v);
      DataLevel(widen, data, rep, v);
    }
  }

  lemma ReportLevel(widen: Widening, data: seq<byte>, v: View)
    requires Within(data, v) && HasCurrent(v)
    ensures var d := ReportDecoded(widen, data, v); d.r.Ok? && d.v.Ready? ==> d.v.depth == v.depth
  {
    hide Inside, ReportField;
    forall t, w ensures LevelStep(data, t, w, ReportStep(widen, data)) { ReportFieldLevel(widen, data, t, w); }
    InsideLevel(data, v, NO_REPORT, Im(NotEntered), ReportStep(widen, data));
  }

  lemma ReportsFieldLevel(widen: Widening, data: seq<byte>, reps: seq<AttributeReport>, v: View)
    ensures LevelStep(data, reps, v, ReportsStep(widen, data))
  {
    hide ReportDecoded;
    if Within(data, v) && HasCurrent(v) { ReportLevel(widen, data, v); }
  }

  lemma ReportsLevel(widen: Widening, data: seq<byte>, v: View)
    requires Within(data, v) && HasCurrent(v)
    ensures var d := ReportsDecoded(widen, data, v); d.r.Ok? && d.v.Ready? ==> d.v.depth == v.depth
  {
    hide Inside, ReportDecoded;
    forall t, w ensures LevelStep(data, t, w, ReportsStep(widen, data)) { ReportsFieldLevel(widen, data, t, w); }
    InsideLevel(data, v, [], Im(NotEntered), ReportsStep(widen, data));
  }

  lemma MessageFieldLevel(widen: Widening, data: seq<byte>, d: ReportData, v: View)
    ensures LevelStep(data, d, v, MessageStep(widen, data))
  {
    hide ReportsDecoded;
    if Within(data, v) && HasCurrent(v) { ReportsLevel(widen, data, v); }
  }

  // Values.

  lemma {:induction false} WidenedIsFloatFree(widen: Widening, es: seq<Element>)
    ensures FloatFree(WidenedAll(widen, es))
    decreases es
  {
    if es != [] {
      WidenedIsFloatFree(widen, es[1..]);
      var ws := WidenedAll(widen, es);
      assert ws[1..] == WidenedAll(widen, es[1..]);
      match es[0]
      case Leaf(_, _) =>
      case Node(_, _, inner) => WidenedIsFloatFree(widen, inner);
      FloatFreeCons(ws);
    }
  }

  lemma FloatFreeCons(ws: seq<Element>)
    requires ws != [] && FloatFree(ws[1..])
    requires match ws[0] case Leaf(_, v) => !v.Single? case Node(_, _, inner) => FloatFree(inner)
    ensures FloatFree(ws)
  {
    forall i | 0 <= i < |ws|
      ensures match ws[i] case Leaf(_, v) => !v.Single? case Node(_, _, inner) => FloatFree(inner)
    {
      if i > 0 { assert ws[i] == ws[1..][i - 1]; }
    }
  }

  lemma CapturedIsPortable(widen: Widening, data: seq<byte>, pos: nat, cur: Current, room: nat)
    requires pos <= |data| && room <= VALUE_HEIGHT && cur.tag.Canonical() && cur.item.Fits()
    requires WholeElement(data, pos, cur, room) != Err(TooDeep)
    ensures Portable(CapturedTree(widen, data, pos, cur, room))
  {
    hide Members, Met;
    if cur.item.Open? {
      var members := Met(data, pos, room - 1);
      MetWellFormed(data, pos, room - 1);
      WidenedWellFormed(widen, members);
      WidenedIsFloatFree(widen, members);
    }
  }

  lemma CapturedIsValue(widen: Widening, data: seq<byte>, v: View)
    requires Within(data, v) && HasCurrent(v) && Genuine(v) && v.depth + VALUE_HEIGHT >= MAX_DEPTH
    ensures var c := Captured(widen, data, v); c.r.Ok? ==> ValueBytes(c.r.value)
  {
    hide WholeElement, Portable, CapturedTree, Enc;
    if WholeElement(data, v.pos, v.cur.value, Room(v)) != Err(TooDeep) {
      CapturedIsPortable(widen, data, v.pos, v.cur.value, Room(v));
    }
  }

  lemma DataFieldKeeps(widen: Widening, data: seq<byte>, rep: AttributeReport, v: View)
    requires Within(data, v) && HasCurrent(v) && Genuine(v) && v.depth == 4 && ValueBytes(rep.data)
    ensures var n := DataField(widen, data, rep, v); n.r.Ok? ==> ValueBytes(n.r.value.data)
  {
    hide ValueBytes, Captured, AttrPathDecoded;
    CapturedIsValue(widen, data, v);
  }

  lemma DataKeepsValue(widen: Widening, data: seq<byte>, rep: AttributeReport, v: View)
    requires Within(data, v) && HasCurrent(v) && v.depth == 3 && ValueBytes(rep.data)
    ensures var d := DataDecoded(widen, data, rep, v); d.r.Ok? ==> ValueBytes(d.r.value.data)
  {
    hide Inside, ValueBytes, NextView, DataField;
    var step, keeps := DataStep(widen, data), (t: AttributeReport, w: View) => ValueBytes(t.data) && AtLevel(w, 4);
    forall t, w ensures StepKeeps(data, t, w, step, keeps) {
      if Within(data, w) && Genuine(w) && HasCurrent(w) && keeps(t, w) && step(t, w).r.Ok? {
        assert ValueBytes(t.data) && w.depth == 4;
        DataFieldKeeps(widen, data, t, w);
        DataFieldLevel(widen, data, t, w);
        LevelKept(data, t, w, step);
      }
    }
    if Enterable(v) && EnterView(v).Ready? { NextLevel(data, EnterView(v), 4); }
    InsideKeeps(data, v, rep, Im(NotEntered), step, keeps);
  }

  lemma CodeKeepsData(data: seq<byte>, rep: AttributeReport, v: View)
    requires Within(data, v)
    ensures var d := CodeDecoded(data, rep, v); d.r.Ok? ==> d.r.value.data == rep.data
  {
    hide Inside, NextView;
    InsideKeeps(data, v, rep, Im(NotEntered), CodeStep(), (t: AttributeReport, w: View) => t.data == rep.data);
  }

  lemma StatusKeepsData(data: seq<byte>, rep: AttributeReport, v: View)
    requires Within(data, v)
    ensures var d := StatusDecoded(data, rep, v); d.r.Ok? ==> d.r.value.data == rep.data
  {
    hide Inside, NextView, AttrPathDecoded, CodeDecoded;
    var keeps := (t: AttributeReport, w: View) => t.data == rep.data;
    forall t, w ensures StepKeeps(data, t, w, StatusStep(data), keeps) {
      if Within(data, w) { CodeKeepsData(data, t, w); }
    }
    InsideKeeps(data, v, rep, Im(NotEntered), StatusStep(data), keeps);
  }

  lemma NoneIsValue()
    ensures ValueBytes([])
  {
  }

  lemma ReportFieldKeeps(widen: Widening, data: seq<byte>, rep: AttributeReport, v: View)
    requires Within(data, v) && HasCurrent(v) && v.depth == 3 && ValueBytes(rep.data)
    ensures var n := ReportField(widen, data, rep, v); n.r.Ok? ==> ValueBytes(n.r.value.data)
  {
    hide ValueBytes, StatusDecoded, DataDecoded;
    StatusKeepsData(data, rep, v);
    DataKeepsValue(widen, data, rep, v);
  }

  lemma ReportKeepsValue(widen: Widening, data: seq<byte>, v: View)
    requires Within(data, v) && HasCurrent(v) && v.depth == 2
    ensures var d := ReportDecoded(widen, data, v); d.r.Ok? ==> ValueBytes(d.r.value.data)
  {
    hide Inside, ValueBytes, NextView, ReportField;
    NoneIsValue();
    var step, keeps := ReportStep(widen, data), (t: AttributeReport, w: View) => ValueBytes(t.data) && AtLevel(w, 3);
    forall t, w ensures StepKeeps(data, t, w, step, keeps) {
      if Within(data, w) && HasCurrent(w) && keeps(t, w) && step(t, w).r.Ok? {
        assert ValueBytes(t.data) && w.depth == 3;
        ReportFieldKeeps(widen, data, t, w);
        ReportFieldLevel(widen, data, t, w);
        LevelKept(data, t, w, step);
      }
    }
    if Enterable(v) && EnterView(v).Ready? { NextLevel(data, EnterView(v), 3); }
    InsideKeeps(data, v, NO_REPORT, Im(NotEntered), step, keeps);
  }

  ghost predicate AllValues(reps: seq<AttributeReport>) { forall rep :: rep in reps ==> ValueBytes(rep.data) }

  lemma ReportsKeepValues(widen: Widening, data: seq<byte>, v: View)
    requires Within(data, v) && HasCurrent(v) && v.depth == 1
    ensures var d := ReportsDecoded(widen, data, v); d.r.Ok? ==> AllValues(d.r.value)
  {
    hide Inside, ValueBytes, NextView, ReportDecoded;
    var step, keeps := ReportsStep(widen, data), (t: seq<AttributeReport>, w: View) => AllValues(t) && AtLevel(w, 2);
    forall t, w ensures StepKeeps(data, t, w, step, keeps) {
      if Within(data, w) && HasCurrent(w) && keeps(t, w) && step(t, w).r.Ok? {
        ReportKeepsValue(widen, data, w);
        ReportsFieldLevel(widen, data, t, w);
        LevelKept(data, t, w, step);
      }
    }
    if Enterable(v) && EnterView(v).Ready? { NextLevel(data, EnterView(v), 2); }
    InsideKeeps(data, v, [], Im(NotEntered), step, keeps);
  }

  lemma DecodedValues(widen: Widening, b: seq<byte>)
    ensures ReportDataDecoded(widen, b).Ok? ==> AllValues(ReportDataDecoded(widen, b).value.reports)
  {
    hide Message, ValueBytes, NextView, ReportsDecoded;
    var step, keeps := MessageStep(widen, b), (t: ReportData, w: View) => AllValues(t.reports) && AtLevel(w, 1);
    forall t, w ensures StepKeeps(b, t, w, step, keeps) {
      if Within(b, w) && HasCurrent(w) && keeps(t, w) && step(t, w).r.Ok? {
        ReportsKeepValues(widen, b, w);
        MessageFieldLevel(widen, b, t, w);
        LevelKept(b, t, w, step);
        assert AllValues(step(t, w).r.value.reports);
      }
    }
    if Opened(b).Some? {
      OpenedLevel(b);
      NextLevel(b, Opened(b).value, 1);
      assert AllValues(NO_DATA.reports);
    }
    MessageKeeps(b, NO_DATA, Im(NotAStructure), step, keeps);
  }

  lemma OpenedLevel(b: seq<byte>)
    requires Opened(b).Some? && Opened(b).value.Ready?
    ensures Opened(b).value.depth == 1
  {
    hide HeadAt, Skip;
  }

  /** What the encoder looks at. */
  function Plainly(rep: AttributeReport): AttributeReport {
    if rep.status.Some? then rep.(data := [], version := 0) else rep
  }

  function AllPlainly(reps: seq<AttributeReport>): (rs: seq<AttributeReport>)
    ensures |rs| == |reps| && forall i :: 0 <= i < |rs| ==> rs[i] == Plainly(reps[i])
  {
    seq(|reps|, i requires 0 <= i < |reps| => Plainly(reps[i]))
  }

  lemma SameBytes(widen: Widening, d: ReportData, suppress: bool)
    ensures ReportBytes(widen, d.(reports := AllPlainly(d.reports)), suppress) == ReportBytes(widen, d, suppress)
  {
    hide ValueOf, Enc, ReportTrees, AllPlainly;
    SameTrees(widen, d.reports);
  }

  lemma SameTrees(widen: Widening, reps: seq<AttributeReport>)
    ensures ReportTrees(widen, AllPlainly(reps)) == ReportTrees(widen, reps)
  {
    hide ValueOf, Enc;
  }

  lemma PlainlyReportable(reps: seq<AttributeReport>)
    requires AllValues(reps)
    ensures AllReportable(AllPlainly(reps))
  {
    hide ValueBytes;
    NoneIsValue();
    var rs := AllPlainly(reps);
    forall rep | rep in rs ensures Reportable(rep) {
      var i :| 0 <= i < |rs| && rs[i] == rep;
      assert reps[i] in reps;
    }
  }

  lemma ValuesAreNotRefused(widen: Widening, reps: seq<AttributeReport>)
    requires AllValues(reps)
    ensures NoneRefused(widen, reps)
  {
    hide ValueBytes, Refused;
    forall rep | rep in reps ensures !Refused(widen, rep) { ValueIsNotRefused(widen, rep); }
  }

  lemma ReportableAreValues(reps: seq<AttributeReport>)
    requires AllReportable(reps)
    ensures AllValues(reps)
  {
    hide ValueBytes;
  }

  /**
   * Reports go through encoder and decoder unchanged if and only if each carries a value of at most 28
   * levels without a float of 32 bits, or no value, or a status and nothing besides.
   */
  method RoundTrip(widen: Widening, d: ReportData, suppress: bool) returns (res: Result<ReportData, ReportError>)
    ensures res == Ok(d) <==> AllReportable(d.reports)
  {
    hide AllReportable, AllValues, NoneRefused, ReportBytes, ReportDataDecoded;
    if AllReportable(d.reports) {
      ReportableAreValues(d.reports);
      ValuesAreNotRefused(widen, d.reports);
      ReadBack(widen, d, suppress, []);
    }
    var b := EncodeReportData(widen, d, suppress);
    if b.Err? { return Err(b.error); }
    res := DecodeReportData(widen, b.value);
    assert b.value + [] == b.value;
    if res == Ok(d) {
      DecodedValues(widen, b.value);
      SameBytes(widen, d, suppress);
      PlainlyReportable(d.reports);
      ReadBack(widen, d.(reports := AllPlainly(d.reports)), suppress, []);
    }
  }
}
