/**
 * Command responses of the interaction model (sections 8.9 and 10.6 of the Matter Core Specification): the
 * encoder, the decoder for every input, and exactly which responses go through both unchanged.
 */
module InvokeResponse {
  import opened Bytes
  import opened TlvFormat
  import opened TlvTree
  import opened TlvReader
  import opened TlvWriter
  import opened TlvLoop
  import opened TlvWalk
  import opened Invoke

  datatype CommandStatus = CommandStatus(path: CommandPath, status: byte)

  /** Either returned data or a status. */
  datatype InvokeResult = InvokeResult(command: Option<InvokeCommand>, status: Option<CommandStatus>)

  /** A result with neither cannot be encoded. */
  predicate Empty(r: InvokeResult) { r.command.None? && r.status.None? }

  datatype ResponseError = NothingToSay | Im(e: ImError)

  // ---------------------------------------------------------------------- the bytes and the tree

  function CodeMembers(status: byte): seq<Element> { [Leaf(Ctx(0), Uint(status))] }

  function StatusMembers(s: CommandStatus): seq<Element> {
    [Node(Ctx(0), List, PathMembers(s.path)), Node(Ctx(1), Structure, CodeMembers(s.status))]
  }

  function StatusBytes(s: CommandStatus): seq<byte> { Enc(Node(Ctx(1), Structure, StatusMembers(s))) }

  /** A command comes before a status. */
  function PartBytes(r: InvokeResult): seq<byte> {
    if r.command.Some? then CommandBytes(Ctx(0), r.command.value) else if r.status.Some? then StatusBytes(r.status.value) else []
  }

  function ResultBytes(r: InvokeResult): seq<byte> { EncHead(ANONYMOUS, Open(Structure)) + PartBytes(r) + [END_OF_CONTAINER] }

  function ResultsBytes(rs: seq<InvokeResult>): seq<byte> {
    if rs == [] then [] else ResultsBytes(rs[..|rs| - 1]) + ResultBytes(rs[|rs| - 1])
  }

  function ResponseBytes(rs: seq<InvokeResult>, suppress: bool): seq<byte> {
    EncHead(ANONYMOUS, Open(Structure)) + Enc(Leaf(Ctx(0), Bool(suppress)))
    + (EncHead(Ctx(1), Open(Array)) + ResultsBytes(rs) + [END_OF_CONTAINER])
    + Enc(Leaf(Ctx(255), Uint(REVISION))) + [END_OF_CONTAINER]
  }

  /** The result's tree, if the fields of its command are those of fs. */
  function ResultMembers(r: InvokeResult, fs: seq<Element>): seq<Element> {
    if r.command.Some? then [Node(Ctx(0), Structure, CommandMembers(r.command.value.path, fs))]
    else if r.status.Some? then [Node(Ctx(1), Structure, StatusMembers(r.status.value))]
    else []
  }

  ghost predicate ResultCarries(r: InvokeResult, fs: seq<Element>) { r.command.Some? ==> Carries(r.command.value, fs) }

  ghost predicate AllResultsCarry(rs: seq<InvokeResult>, fss: seq<seq<Element>>) {
    |rs| == |fss| && forall i :: 0 <= i < |rs| ==> ResultCarries(rs[i], fss[i])
  }

  function ResultTrees(rs: seq<InvokeResult>, fss: seq<seq<Element>>): (es: seq<Element>)
    requires |rs| == |fss|
    ensures |es| == |rs|
    ensures forall i :: 0 <= i < |rs| ==> es[i] == Node(ANONYMOUS, Structure, ResultMembers(rs[i], fss[i]))
  {
    seq(|rs|, i requires 0 <= i < |rs| => Node(ANONYMOUS, Structure, ResultMembers(rs[i], fss[i])))
  }

  function ResponseMembers(rs: seq<InvokeResult>, fss: seq<seq<Element>>, suppress: bool): seq<Element>
    requires |rs| == |fss|
  {
    [Leaf(Ctx(0), Bool(suppress)), Node(Ctx(1), Array, ResultTrees(rs, fss)), Leaf(Ctx(255), Uint(REVISION))]
  }

  lemma ResultIsTree(r: InvokeResult, fs: seq<Element>)
    requires ResultCarries(r, fs)
    ensures ResultBytes(r) == Enc(Node(ANONYMOUS, Structure, ResultMembers(r, fs)))
  {
    hide EncHead, CommandBytes, CommandMembers, StatusMembers, Carries;
    if r.command.Some? { CommandIsTree(Ctx(0), r.command.value, fs); }
    var es := ResultMembers(r, fs);
    assert EncAll(es) == PartBytes(r);
  }

  lemma {:induction false} ResultsAreTrees(rs: seq<InvokeResult>, fss: seq<seq<Element>>)
    requires AllResultsCarry(rs, fss)
    ensures ResultsBytes(rs) == EncAll(ResultTrees(rs, fss))
  {
    hide ResultBytes, ResultMembers, ResultCarries;
    if rs != [] {
      var n := |rs| - 1;
      ResultsAreTrees(rs[..n], fss[..n]);
      ResultIsTree(rs[n], fss[n]);
      EncAllSnoc(ResultTrees(rs[..n], fss[..n]), Node(ANONYMOUS, Structure, ResultMembers(rs[n], fss[n])));
      assert ResultTrees(rs, fss) == ResultTrees(rs[..n], fss[..n]) + [Node(ANONYMOUS, Structure, ResultMembers(rs[n], fss[n]))];
    }
  }

  lemma ResponseIsTree(rs: seq<InvokeResult>, fss: seq<seq<Element>>, suppress: bool)
    requires AllResultsCarry(rs, fss)
    ensures ResponseBytes(rs, suppress) == Enc(Node(ANONYMOUS, Structure, ResponseMembers(rs, fss, suppress)))
  {
    hide EncHead, ResultTrees, ResultsBytes;
    ResultsAreTrees(rs, fss);
    hide AllResultsCarry;
    var es := ResponseMembers(rs, fss, suppress);
    EncAllSnoc([es[0]], es[1]);
    EncAllSnoc([es[0]] + [es[1]], es[2]);
    assert es == [es[0]] + [es[1]] + [es[2]];
  }

  // ---------------------------------------------------------------------- encoding

  method EncodeStatus(w: Writer, s: CommandStatus)
    requires w.err == None
    modifies w
    ensures w.err == None && w.depth == old(w.depth) && w.buf == old(w.buf) + StatusBytes(s)
  {
    hide EncHead, EncAll, PathMembers;
    w.Start(Ctx(1), Structure);
    ghost var start, es := w.buf, StatusMembers(s);
    NothingYet(start, es);
    EncodePath(w, 0, s.path);
    Appended(start, es, 0);
    ghost var before := w.buf;
    w.Start(Ctx(1), Structure);
    ghost var inner, ls := w.buf, CodeMembers(s.status);
    NothingYet(inner, ls);
    w.PutUint(Ctx(0), s.status);
    Appended(inner, ls, 0);
    w.EndContainer();
    Closed(before, Ctx(1), Structure, ls);
    Appended(start, es, 1);
    w.EndContainer();
    Closed(old(w.buf), Ctx(1), Structure, es);
  }

  method EncodeResult(w: Writer, r: InvokeResult)
    requires w.err == None && !Empty(r)
    modifies w
    ensures w.err == None && w.depth == old(w.depth) && w.buf == old(w.buf) + ResultBytes(r)
  {
    hide EncHead, CommandBytes, StatusBytes;
    w.Start(ANONYMOUS, Structure);
    if r.command.Some? { EncodeCommandData(w, Ctx(0), r.command.value); } else { EncodeStatus(w, r.status.value); }
    w.EndContainer();
  }

  ghost predicate NoneEmpty(rs: seq<InvokeResult>) { forall r :: r in rs ==> !Empty(r) }

  /** Refused if and only if some result has neither part. */
  method EncodeInvokeResponse(rs: seq<InvokeResult>, suppress: bool) returns (b: Result<seq<byte>, ResponseError>)
    ensures b == if NoneEmpty(rs) then Ok(ResponseBytes(rs, suppress)) else Err(NothingToSay)
  {
    hide EncHead, ResultBytes, Empty;
    var w := new Writer();
    w.Start(ANONYMOUS, Structure);
    w.PutBool(Ctx(0), suppress);
    w.Start(Ctx(1), Array);
    ghost var start := w.buf;
    var i := 0;
    while i < |rs|
      invariant 0 <= i <= |rs| && w.err == None && w.depth == 2
      invariant NoneEmpty(rs[..i]) && w.buf == start + ResultsBytes(rs[..i])
    {
      assert rs[i] in rs;
      if Empty(rs[i]) { return Err(NothingToSay); }
      EncodeResult(w, rs[i]);
      assert rs[..i + 1][..i] == rs[..i];
      i := i + 1;
    }
    assert rs[..i] == rs;
    w.EndContainer();
    w.PutUint(Ctx(255), REVISION);
    w.EndContainer();
    Together(rs, suppress, start, w.buf);
    var bytes := w.Finish();
    b := Ok(bytes.value);
  }

  lemma Together(rs: seq<InvokeResult>, suppress: bool, start: seq<byte>, buf: seq<byte>)
    requires start == EncHead(ANONYMOUS, Open(Structure)) + EncHead(Ctx(0), Value(Bool(suppress))) + EncHead(Ctx(1), Open(Array))
    requires buf == start + ResultsBytes(rs) + [END_OF_CONTAINER] + EncHead(Ctx(255), Value(Uint(REVISION))) + [END_OF_CONTAINER]
    ensures buf == ResponseBytes(rs, suppress)
  {
    hide EncHead, ResultsBytes;
  }

  // ---------------------------------------------------------------------- decoding

  function CodeField(s: CommandStatus, v: View): Result<CommandStatus, ImError> {
    if !HasCurrent(v) || NumHere(v) != 0 then Ok(s)
    else if UintHere(v, 0x100).None? then Err(WrongType)
    else Ok(s.(status := UintHere(v, 0x100).value))
  }

  function CodeStep(): (CommandStatus, View) -> Done<CommandStatus, ImError> { (s, v) => Done(CodeField(s, v), v) }

  function CodeDecoded(data: seq<byte>, s: CommandStatus, v: View): (d: Done<CommandStatus, ImError>)
    requires Within(data, v)
    ensures Within(data, d.v) && Onward(v, d.v)
  {
    Inside(data, v, s, NotEntered, CodeStep())
  }

  method DecodeCode(r: Reader, start: CommandStatus) returns (res: Result<CommandStatus, ImError>)
    requires r.Valid() && HasCurrent(r.View())
    modifies r
    ensures r.Valid() && Done(res, r.View()) == CodeDecoded(r.data, start, old(r.View()))
  {
    hide NextView, ItemFields;
    var ok := r.Enter();
    if !ok { return Err(NotEntered); }
    var s := start;
    var more := r.Next();
    while more
      invariant r.Valid() && more == HasCurrent(r.View())
      invariant Each(r.data, r.View(), s, CodeStep()) == CodeDecoded(r.data, start, old(r.View()))
      decreases more, |r.data| - r.pos
    {
      if r.tag.num == 0 {
        var v := UintField(r, 0x100);
        if v.None? { return Err(WrongType); }
        s := s.(status := v.value);
      }
      more := r.Next();
    }
    res := Ok(s);
  }

  function StatusField(data: seq<byte>, s: CommandStatus, v: View): (d: Done<CommandStatus, ImError>)
    requires Within(data, v)
    ensures Within(data, d.v) && Onward(v, d.v)
  {
    if !HasCurrent(v) then Done(Ok(s), v)
    else if NumHere(v) == 0 then
      var p := PathDecoded(data, v);
      Done(if p.r.Err? then Err(p.r.error) else Ok(s.(path := p.r.value)), p.v)
    else if NumHere(v) == 1 then CodeDecoded(data, s, v)
    else Done(Ok(s), v)
  }

  function StatusStep(data: seq<byte>): (CommandStatus, View) -> Done<CommandStatus, ImError> {
    (s, v) => if Within(data, v) then StatusField(data, s, v) else Done(Ok(s), v)
  }

  const NO_STATUS := CommandStatus(NO_PATH, 0)

  function StatusDecoded(data: seq<byte>, v: View): (d: Done<CommandStatus, ImError>)
    requires Within(data, v)
    ensures Within(data, d.v) && Onward(v, d.v)
  {
    Inside(data, v, NO_STATUS, NotEntered, StatusStep(data))
  }

  method DecodeStatus(r: Reader) returns (res: Result<CommandStatus, ImError>)
    requires r.Valid() && HasCurrent(r.View())
    modifies r
    ensures r.Valid() && Done(res, r.View()) == StatusDecoded(r.data, old(r.View()))
  {
    hide NextView, PathDecoded, CodeDecoded, ItemFields;
    var ok := r.Enter();
    if !ok { return Err(NotEntered); }
    var s := NO_STATUS;
    var more := r.Next();
    while more
      invariant r.Valid() && more == HasCurrent(r.View())
      invariant Each(r.data, r.View(), s, StatusStep(r.data)) == StatusDecoded(r.data, old(r.View()))
      decreases more, |r.data| - r.pos
    {
      if r.tag.num == 0 {
        var p := DecodePath(r);
        if p.Err? { return Err(p.error); }
        s := s.(path := p.value);
      } else if r.tag.num == 1 {
        var c := DecodeCode(r, s);
        if c.Err? { return Err(c.error); }
        s := c.value;
      }
      more := r.Next();
    }
    res := Ok(s);
  }

  function ResultField(data: seq<byte>, x: InvokeResult, v: View): (d: Done<InvokeResult, ImError>)
    requires Within(data, v)
    ensures Within(data, d.v) && Onward(v, d.v)
  {
    if !HasCurrent(v) then Done(Ok(x), v)
    else if NumHere(v) == 0 then
      var c := CommandDecoded(data, v);
      Done(if c.r.Err? then Err(c.r.error) else Ok(x.(command := Some(c.r.value))), c.v)
    else if NumHere(v) == 1 then
      var s := StatusDecoded(data, v);
      Done(if s.r.Err? then Err(s.r.error) else Ok(x.(status := Some(s.r.value))), s.v)
    else Done(Ok(x), v)
  }

  function ResultStep(data: seq<byte>): (InvokeResult, View) -> Done<InvokeResult, ImError> {
    (x, v) => if Within(data, v) then ResultField(data, x, v) else Done(Ok(x), v)
  }

  const NO_RESULT := InvokeResult(None, None)

  function ResultDecoded(data: seq<byte>, v: View): (d: Done<InvokeResult, ImError>)
    requires Within(data, v)
    ensures Within(data, d.v) && Onward(v, d.v)
  {
    Inside(data, v, NO_RESULT, NotEntered, ResultStep(data))
  }

  method DecodeResult(r: Reader) returns (res: Result<InvokeResult, ImError>)
    requires r.Valid() && HasCurrent(r.View())
    modifies r
    ensures r.Valid() && Done(res, r.View()) == ResultDecoded(r.data, old(r.View()))
  {
    hide NextView, CommandDecoded, StatusDecoded, ItemFields;
    var ok := r.Enter();
    if !ok { return Err(NotEntered); }
    var x := NO_RESULT;
    var more := r.Next();
    while more
      invariant r.Valid() && more == HasCurrent(r.View())
      invariant Each(r.data, r.View(), x, ResultStep(r.data)) == ResultDecoded(r.data, old(r.View()))
      decreases more, |r.data| - r.pos
    {
      if r.tag.num == 0 {
        var c := DecodeCommandData(r);
        if c.Err? { return Err(c.error); }
        x := x.(command := Some(c.value));
      } else if r.tag.num == 1 {
        var s := DecodeStatus(r);
        if s.Err? { return Err(s.error); }
        x := x.(status := Some(s.value));
      }
      more := r.Next();
    }
    res := Ok(x);
  }

  function ResultsField(data: seq<byte>, rs: seq<InvokeResult>, v: View): (d: Done<seq<InvokeResult>, ImError>)
    requires Within(data, v)
    ensures Within(data, d.v) && Onward(v, d.v)
  {
    var x := ResultDecoded(data, v);
    Done(if x.r.Err? then Err(x.r.error) else Ok(rs + [x.r.value]), x.v)
  }

  function ResultsStep(data: seq<byte>): (seq<InvokeResult>, View) -> Done<seq<InvokeResult>, ImError> {
    (rs, v) => if Within(data, v) then ResultsField(data, rs, v) else Done(Ok(rs), v)
  }

  /** The results of one array behind those read before. */
  function ResultsDecoded(data: seq<byte>, rs: seq<InvokeResult>, v: View): (d: Done<seq<InvokeResult>, ImError>)
    requires Within(data, v)
    ensures Within(data, d.v) && Onward(v, d.v)
  {
    if !HasCurrent(v) || NumHere(v) != 1 then Done(Ok(rs), v) else Inside(data, v, rs, NotEntered, ResultsStep(data))
  }

  method DecodeResults(r: Reader, before: seq<InvokeResult>) returns (res: Result<seq<InvokeResult>, ImError>)
    requires r.Valid() && HasCurrent(r.View()) && r.tag.num == 1
    modifies r
    ensures r.Valid() && Done(res, r.View()) == ResultsDecoded(r.data, before, old(r.View()))
  {
    hide NextView, ResultDecoded, ItemFields;
    var ok := r.Enter();
    if !ok { return Err(NotEntered); }
    var rs := before;
    var more := r.Next();
    while more
      invariant r.Valid() && more == HasCurrent(r.View())
      invariant Each(r.data, r.View(), rs, ResultsStep(r.data)) == ResultsDecoded(r.data, before, old(r.View()))
      decreases more, |r.data| - r.pos
    {
      var x := DecodeResult(r);
      if x.Err? { return Err(x.error); }
      rs := rs + [x.value];
      more := r.Next();
    }
    res := Ok(rs);
  }

  function ResponseStep(data: seq<byte>): (seq<InvokeResult>, View) -> Done<seq<InvokeResult>, ImError> {
    (rs, v) => if Within(data, v) then ResultsDecoded(data, rs, v) else Done(Ok(rs), v)
  }

  function ResponseDecoded(b: seq<byte>): Result<seq<InvokeResult>, ImError> {
    Checked(Message(b, [], NotAStructure, ResponseStep(b))).r
  }

  method DecodeInvokeResponse(b: seq<byte>) returns (res: Result<seq<InvokeResult>, ImError>)
    ensures res == ResponseDecoded(b)
  {
    hide NextView, ResultsDecoded, Opened, ItemFields;
    var r, ok := OpenStructure(b);
    if !ok { return Err(NotAStructure); }
    var rs := [];
    var more := r.Next();
    while more
      invariant r.Valid() && more == HasCurrent(r.View())
      invariant Each(b, r.View(), rs, ResponseStep(b)) == Message(b, [], NotAStructure, ResponseStep(b))
      decreases more, |b| - r.pos
    {
      if r.tag.num == 1 {
        var field := DecodeResults(r, rs);
        if field.Err? { return Err(field.error); }
        rs := field.value;
      } else {
        OtherTag(r.data, rs, r.View());
      }
      more := r.Next();
    }
    if r.err.Some? { return Err(BadTlv(r.err.value)); }
    res := Ok(rs);
  }

  lemma OtherTag(data: seq<byte>, rs: seq<InvokeResult>, v: View)
    requires Within(data, v) && HasCurrent(v) && NumHere(v) != 1
    ensures ResultsDecoded(data, rs, v) == Done(Ok(rs), v)
  {
  }

  // ---------------------------------------------------------------------- round trip

  lemma CodeReadBack(data: seq<byte>, s: CommandStatus, v: View, status: byte, depth: nat, rest: seq<byte>)
    requires On(data, v, Node(Ctx(1), Structure, CodeMembers(status)), depth, rest)
    ensures Within(data, v)
    ensures var d := CodeDecoded(data, s, v); d.r == Ok(s.(status := status)) && Left(data, d.v, depth, rest)
  {
    hide Left, On, Inside, Facing;
    var es := CodeMembers(status);
    LeafTaken(data, CodeStep(), s, s.(status := status), es[0], es[1..], depth + 1, rest);
    InsideMembers(data, v, Node(Ctx(1), Structure, es), [s, s.(status := status)], depth, rest, NotEntered, CodeStep());
  }

  lemma StatusReadBack(data: seq<byte>, v: View, s: CommandStatus, depth: nat, rest: seq<byte>)
    requires On(data, v, Node(Ctx(1), Structure, StatusMembers(s)), depth, rest)
    ensures Within(data, v)
    ensures var d := StatusDecoded(data, v); d.r == Ok(s) && Left(data, d.v, depth, rest)
  {
    hide Left, On, Inside, Facing, PathDecoded, CodeDecoded, PathMembers, CodeMembers;
    var es, step, named := StatusMembers(s), StatusStep(data), NO_STATUS.(path := s.path);
    forall w | On(data, w, es[0], depth + 1, Tail(es[1..], rest))
      ensures var n := step(NO_STATUS, w); n.r == Ok(named) && Onward(w, n.v) && Left(data, n.v, depth + 1, Tail(es[1..], rest))
    {
      PathReadBack(data, w, Ctx(0), s.path, depth + 1, Tail(es[1..], rest));
      OnIsCurrent(data, w, es[0], depth + 1, Tail(es[1..], rest));
    }
    NodeTaken(data, step, NO_STATUS, named, es[0], es[1..], depth + 1, rest);
    forall w | On(data, w, es[1], depth + 1, Tail(es[2..], rest))
      ensures var n := step(named, w); n.r == Ok(s) && Onward(w, n.v) && Left(data, n.v, depth + 1, Tail(es[2..], rest))
    {
      CodeReadBack(data, named, w, s.status, depth + 1, Tail(es[2..], rest));
      OnIsCurrent(data, w, es[1], depth + 1, Tail(es[2..], rest));
    }
    NodeTaken(data, step, named, s, es[1], es[2..], depth + 1, rest);
    InsideMembers(data, v, Node(Ctx(1), Structure, es), [NO_STATUS, named, s], depth, rest, NotEntered, step);
  }

  /** What is left of a result on the wire. */
  function Written(r: InvokeResult): InvokeResult { if r.command.Some? then r.(status := None) else r }

  lemma ResultReadBack(data: seq<byte>, v: View, r: InvokeResult, fs: seq<Element>, depth: nat, rest: seq<byte>)
    requires !Empty(r) && ResultCarries(r, fs) && On(data, v, Node(ANONYMOUS, Structure, ResultMembers(r, fs)), depth, rest)
    ensures Within(data, v)
    ensures var d := ResultDecoded(data, v); d.r == Ok(Written(r)) && Left(data, d.v, depth, rest)
  {
    hide Left, On, Inside, Facing, CommandDecoded, StatusDecoded, CommandMembers, StatusMembers, Carries;
    var es, step := ResultMembers(r, fs), ResultStep(data);
    forall w | On(data, w, es[0], depth + 1, Tail(es[1..], rest))
      ensures var n := step(NO_RESULT, w);
              n.r == Ok(Written(r)) && Onward(w, n.v) && Left(data, n.v, depth + 1, Tail(es[1..], rest))
    {
      OnIsCurrent(data, w, es[0], depth + 1, Tail(es[1..], rest));
      if r.command.Some? {
        CommandReadBack(data, w, Ctx(0), r.command.value, fs, depth + 1, Tail(es[1..], rest));
      } else {
        StatusReadBack(data, w, r.status.value, depth + 1, Tail(es[1..], rest));
      }
    }
    NodeTaken(data, step, NO_RESULT, Written(r), es[0], es[1..], depth + 1, rest);
    InsideMembers(data, v, Node(ANONYMOUS, Structure, es), [NO_RESULT, Written(r)], depth, rest, NotEntered, step);
  }

  function AllWritten(rs: seq<InvokeResult>): (ws: seq<InvokeResult>)
    ensures |ws| == |rs| && forall i :: 0 <= i < |rs| ==> ws[i] == Written(rs[i])
  {
    seq(|rs|, i requires 0 <= i < |rs| => Written(rs[i]))
  }

  lemma ResultsReadBack(data: seq<byte>, v: View, rs: seq<InvokeResult>, fss: seq<seq<Element>>, rest: seq<byte>)
    requires NoneEmpty(rs) && AllResultsCarry(rs, fss) && On(data, v, Node(Ctx(1), Array, ResultTrees(rs, fss)), 1, rest)
    ensures Within(data, v)
    ensures var d := ResultsDecoded(data, [], v); d.r == Ok(AllWritten(rs)) && Left(data, d.v, 1, rest)
  {
    hide Left, On, Inside, Facing, ResultDecoded, ResultMembers, ResultCarries, Empty, Written;
    var es, ws, step := ResultTrees(rs, fss), AllWritten(rs), ResultsStep(data);
    var ss := Prefixes(ws);
    forall k | 0 <= k < |es| ensures TakesMember(data, step, ss[k], ss[k + 1], es[k], es[k + 1..], 2, rest) {
      forall w | On(data, w, es[k], 2, Tail(es[k + 1..], rest))
        ensures var n := step(ss[k], w); n.r == Ok(ss[k + 1]) && Onward(w, n.v) && Left(data, n.v, 2, Tail(es[k + 1..], rest))
      {
        assert rs[k] in rs;
        ResultReadBack(data, w, rs[k], fss[k], 2, Tail(es[k + 1..], rest));
        TakeMore(ws, k);
      }
      NodeTaken(data, step, ss[k], ss[k + 1], es[k], es[k + 1..], 2, rest);
    }
    InsideMembers(data, v, Node(Ctx(1), Array, es), ss, 1, rest, NotEntered, step);
    OnIsCurrent(data, v, Node(Ctx(1), Array, es), 1, rest);
    assert ws[..|ws|] == ws && ws[..0] == [];
  }

  lemma ResultWellFormed(r: InvokeResult, fs: seq<Element>)
    requires ResultCarries(r, fs)
    ensures WellFormed(Node(ANONYMOUS, Structure, ResultMembers(r, fs))) && HeightOf(Node(ANONYMOUS, Structure, ResultMembers(r, fs))) <= 3
  {
    FlatIsWellFormed([]);
    if r.command.Some? {
      assert Carries(r.command.value, fs);
      CommandWellFormed(r.command.value.path, fs);
      hide CommandMembers, Flat, AllWellFormed, Height;
      OneNode(ResultMembers(r, fs)[0]);
    } else if r.status.Some? {
      StatusWellFormed(r.status.value);
      hide StatusMembers, AllWellFormed, Height;
      OneNode(ResultMembers(r, fs)[0]);
    }
  }

  lemma StatusWellFormed(s: CommandStatus)
    ensures AllWellFormed(StatusMembers(s)) && Height(StatusMembers(s)) == 1
  {
    FlatIsWellFormed(PathMembers(s.path));
    FlatIsWellFormed(CodeMembers(s.status));
    hide AllWellFormed, Height, PathMembers, CodeMembers;
    var es := StatusMembers(s);
    OneNode(es[0]);
    OneNode(es[1]);
    Joined([es[0]], [es[1]]);
    assert es == [es[0]] + [es[1]];
  }

  lemma {:induction false} ResultsWellFormed(rs: seq<InvokeResult>, fss: seq<seq<Element>>)
    requires AllResultsCarry(rs, fss)
    ensures AllWellFormed(ResultTrees(rs, fss)) && Height(ResultTrees(rs, fss)) <= 3
    decreases |rs|
  {
    hide ResultMembers, ResultCarries;
    if rs != [] {
      ResultWellFormed(rs[0], fss[0]);
      ResultsWellFormed(rs[1..], fss[1..]);
      Cons(ResultTrees(rs, fss)[0], ResultTrees(rs[1..], fss[1..]));
      assert ResultTrees(rs, fss) == [ResultTrees(rs, fss)[0]] + ResultTrees(rs[1..], fss[1..]);
    } else {
      assert ResultTrees(rs, fss) == [];
    }
  }

  lemma ResponseWellFormed(rs: seq<InvokeResult>, fss: seq<seq<Element>>, suppress: bool)
    requires AllResultsCarry(rs, fss)
    ensures AllWellFormed(ResponseMembers(rs, fss, suppress)) && Height(ResponseMembers(rs, fss, suppress)) <= 4
  {
    hide AllWellFormed, Height, ResultTrees;
    ResultsWellFormed(rs, fss);
    hide AllResultsCarry;
    var es := ResponseMembers(rs, fss, suppress);
    FlatIsWellFormed([es[0]]);
    OneNode(es[1]);
    FlatIsWellFormed([es[2]]);
    Joined([es[0]], [es[1]]);
    Joined([es[0]] + [es[1]], [es[2]]);
    assert es == [es[0]] + [es[1]] + [es[2]];
  }

  lemma ReadBack(rs: seq<InvokeResult>, fss: seq<seq<Element>>, suppress: bool, rest: seq<byte>)
    requires NoneEmpty(rs) && AllResultsCarry(rs, fss)
    ensures ResponseDecoded(ResponseBytes(rs, suppress) + rest) == Ok(AllWritten(rs))
  {
    hide Left, On, Message, Facing, Enc, ResponseBytes, ResultsDecoded, ResultTrees, AllWellFormed, Height, AllWritten, NoneEmpty;
    ResponseIsTree(rs, fss, suppress);
    ResponseWellFormed(rs, fss, suppress);
    assert |rs| == |fss|;
    hide AllResultsCarry;
    var es, b := ResponseMembers(rs, fss, suppress), ResponseBytes(rs, suppress) + rest;
    var step, ws := ResponseStep(b), AllWritten(rs);
    FlagTaken(b, [], es[0], es[1..], rest);
    forall w | On(b, w, es[1], 1, Tail(es[2..], rest))
      ensures var n := step([], w); n.r == Ok(ws) && Onward(w, n.v) && Left(b, n.v, 1, Tail(es[2..], rest))
    {
      ResultsReadBack(b, w, rs, fss, Tail(es[2..], rest));
    }
    NodeTaken(b, step, [], ws, es[1], es[2..], 1, rest);
    FlagTaken(b, ws, es[2], es[3..], rest);
    MessageMembers(b, ANONYMOUS, es, rest, [[], [], ws, ws], NotAStructure, step);
    LeftIsReady(b, Message(b, [], NotAStructure, step).v, 0, rest);
  }

  lemma FlagTaken(b: seq<byte>, rs: seq<InvokeResult>, e: Element, es: seq<Element>, rest: seq<byte>)
    requires e.Leaf? && e.tag.num != 1
    ensures TakesMember(b, ResponseStep(b), rs, rs, e, es, 1, rest)
  {
    LeafTaken(b, ResponseStep(b), rs, rs, e, es, 1, rest);
  }

  ghost predicate AllProperResults(rs: seq<InvokeResult>) { forall r :: r in rs ==> r.command.Some? ==> Proper(r.command.value) }

  lemma ResultDecodedIsProper(data: seq<byte>, v: View)
    requires Within(data, v)
    ensures var d := ResultDecoded(data, v); d.r.Ok? && d.r.value.command.Some? ==> Proper(d.r.value.command.value)
  {
    hide CommandDecoded, StatusDecoded, Inside, Proper;
    var keeps := (x: InvokeResult, w: View) => x.command.Some? ==> Proper(x.command.value);
    forall t, w ensures StepKeeps(data, t, w, ResultStep(data), keeps) {
      if Within(data, w) { CommandDecodedIsProper(data, w); }
    }
    InsideKeeps(data, v, NO_RESULT, NotEntered, ResultStep(data), keeps);
  }

  lemma ResultsDecodedAreProper(data: seq<byte>, rs: seq<InvokeResult>, v: View)
    requires Within(data, v) && AllProperResults(rs)
    ensures var d := ResultsDecoded(data, rs, v); d.r.Ok? ==> AllProperResults(d.r.value)
  {
    hide ResultDecoded, Inside, Proper;
    var keeps := (x: seq<InvokeResult>, w: View) => AllProperResults(x);
    forall t, w ensures StepKeeps(data, t, w, ResultsStep(data), keeps) {
      if Within(data, w) { ResultDecodedIsProper(data, w); }
    }
    InsideKeeps(data, v, rs, NotEntered, ResultsStep(data), keeps);
  }

  lemma DecodedIsProper(b: seq<byte>)
    ensures ResponseDecoded(b).Ok? ==> AllProperResults(ResponseDecoded(b).value)
  {
    hide ResultsDecoded, Message, Proper;
    var keeps := (x: seq<InvokeResult>, w: View) => AllProperResults(x);
    forall t, w ensures StepKeeps(b, t, w, ResponseStep(b), keeps) {
      if Within(b, w) && AllProperResults(t) { ResultsDecodedAreProper(b, t, w); }
    }
    MessageKeeps(b, [], NotAStructure, ResponseStep(b), keeps);
  }

  lemma {:induction false} ProperCarry(rs: seq<InvokeResult>) returns (fss: seq<seq<Element>>)
    requires AllProperResults(rs)
    ensures AllResultsCarry(rs, fss)
  {
    hide Carries;
    if rs == [] {
      fss := [];
    } else {
      var fs: seq<Element> := [];
      if rs[0].command.Some? {
        assert Proper(rs[0].command.value);
        fs :| Carries(rs[0].command.value, fs);
      }
      var more := ProperCarry(rs[1..]);
      fss := [fs] + more;
    }
  }

  /** One part alone; the fields of a command are absent or encode plain members, at least one. */
  ghost predicate Single(r: InvokeResult) {
    if r.command.Some? then r.status.None? && Proper(r.command.value) else r.status.Some?
  }

  /** A response goes through encoder and decoder unchanged, whatever follows it, if and only if each result has one part alone. */
  lemma RoundTrip(rs: seq<InvokeResult>, suppress: bool, rest: seq<byte>)
    requires NoneEmpty(rs)
    ensures (forall r :: r in rs ==> Single(r)) <==> ResponseDecoded(ResponseBytes(rs, suppress) + rest) == Ok(rs)
  {
    hide ResponseBytes, ResponseDecoded, AllResultsCarry, Proper;
    DecodedIsProper(ResponseBytes(rs, suppress) + rest);
    if AllProperResults(rs) {
      var fss := ProperCarry(rs);
      ReadBack(rs, fss, suppress, rest);
      SingleIsWritten(rs);
    }
  }

  lemma SingleIsWritten(rs: seq<InvokeResult>)
    requires NoneEmpty(rs) && AllProperResults(rs)
    ensures AllWritten(rs) == rs <==> forall r :: r in rs ==> Single(r)
  {
    hide Proper;
    if AllWritten(rs) == rs {
      forall r | r in rs ensures Single(r) {
        var i :| 0 <= i < |rs| && rs[i] == r;
        assert AllWritten(rs)[i] == Written(r);
      }
    } else {
      var i :| 0 <= i < |rs| && AllWritten(rs)[i] != rs[i];
      assert rs[i] in rs;
    }
  }
}
