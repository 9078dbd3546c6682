module Invoke {
  // Command requests of the interaction model (sections 8.8 and 8.9 of the Matter Core Specification):
  // the encoder, the decoder for every input, and exactly which requests go through both unchanged.

  import opened Bytes
  import opened TlvFormat
  import opened TlvTree
  import opened TlvReader
  import opened TlvWriter
  import opened TlvLoop
  import opened TlvWalk

  const REVISION: byte := 11

  datatype CommandPath = CommandPath(endpoint: uint16, cluster: uint32, command: uint32)

  /** A command; its fields are the encoded members of a structure. */
  datatype InvokeCommand = InvokeCommand(path: CommandPath, fields: Option<seq<byte>>)

  datatype ImError = NotAStructure | NotAList | WrongType | UnsupportedField | BadTlv(e: Error) | BadWrite(w: WriteError) | NotEntered

  // ---------------------------------------------------------------------- the trees of the messages

  function PathMembers(p: CommandPath): seq<Element> {
    [Leaf(Ctx(0), Uint(p.endpoint)), Leaf(Ctx(1), Uint(p.cluster)), Leaf(Ctx(2), Uint(p.command))]
  }

  /** Field types that commands use: numbers, truth values, strings and octet strings. */
  predicate Plain(v: Scalar) { v.Uint? || v.Int? || v.Bool? || v.Octets? || v.Text? }

  predicate Flat(fs: seq<Element>) {
    AllWellFormed(fs) && forall f :: f in fs ==> f.Leaf? && Plain(f.scalar)
  }

  /** The command has these fields; no fields at all are not the same as an empty list of them. */
  ghost predicate Carries(c: InvokeCommand, fs: seq<Element>) {
    Flat(fs) && c.fields == if fs == [] then None else Some(EncAll(fs))
  }

  function CommandMembers(p: CommandPath, fs: seq<Element>): seq<Element> {
    [Node(Ctx(0), List, PathMembers(p))] + (if fs == [] then [] else [Node(Ctx(1), Structure, fs)])
  }

  // The bytes of a request, whatever the fields of its commands are: they are copied as they stand.

  function FieldsBytes(fields: Option<seq<byte>>): seq<byte> {
    if fields.None? then [] else EncHead(Ctx(1), Open(Structure)) + fields.value + [END_OF_CONTAINER]
  }

  function CommandBytes(tag: Tag, c: InvokeCommand): seq<byte> {
    EncHead(tag, Open(Structure)) + Enc(Node(Ctx(0), List, PathMembers(c.path))) + FieldsBytes(c.fields) + [END_OF_CONTAINER]
  }

  function CommandsBytes(cs: seq<InvokeCommand>): seq<byte> {
    if cs == [] then [] else CommandBytes(ANONYMOUS, cs[0]) + CommandsBytes(cs[1..])
  }

  function RequestBytes(q: InvokeRequest): seq<byte> {
    EncHead(ANONYMOUS, Open(Structure))
    + EncAll([Leaf(Ctx(0), Bool(q.suppress)), Leaf(Ctx(1), Bool(q.timed))])
    + (EncHead(Ctx(2), Open(Array)) + CommandsBytes(q.commands) + [END_OF_CONTAINER])
    + Enc(Leaf(Ctx(255), Uint(REVISION))) + [END_OF_CONTAINER]
  }

  /** The commands carry these fields, one list each. */
  ghost predicate AllCarry(cs: seq<InvokeCommand>, fss: seq<seq<Element>>) {
    |cs| == |fss| && forall i :: 0 <= i < |cs| ==> Carries(cs[i], fss[i])
  }

  /** The members of the array of commands. */
  function CommandTrees(cs: seq<InvokeCommand>, fss: seq<seq<Element>>): (es: seq<Element>)
    requires |cs| == |fss|
    ensures |es| == |cs|
    ensures forall i :: 0 <= i < |cs| ==> es[i] == Node(ANONYMOUS, Structure, CommandMembers(cs[i].path, fss[i]))
  {
    if cs == [] then []
    else [Node(ANONYMOUS, Structure, CommandMembers(cs[0].path, fss[0]))] + CommandTrees(cs[1..], fss[1..])
  }

  function RequestMembers(q: InvokeRequest, fss: seq<seq<Element>>): seq<Element>
    requires |q.commands| == |fss|
  {
    [Leaf(Ctx(0), Bool(q.suppress)), Leaf(Ctx(1), Bool(q.timed)), Node(Ctx(2), Array, CommandTrees(q.commands, fss)),
     Leaf(Ctx(255), Uint(REVISION))]
  }

  lemma CommandIsTree(tag: Tag, c: InvokeCommand, fs: seq<Element>)
    requires Carries(c, fs)
    ensures CommandBytes(tag, c) == Enc(Node(tag, Structure, CommandMembers(c.path, fs)))
  {
    hide EncHead, PathMembers;
    var path, fields := Node(Ctx(0), List, PathMembers(c.path)), Node(Ctx(1), Structure, fs);
    assert EncAll([path]) == Enc(path);
    if fs != [] {
      EncAllSnoc([path], fields);
      assert EncAll([path, fields]) == Enc(path) + Enc(fields);
      assert FieldsBytes(c.fields) == Enc(fields);
    }
  }

  lemma {:induction false} CommandsAreTrees(cs: seq<InvokeCommand>, fss: seq<seq<Element>>)
    requires AllCarry(cs, fss)
    ensures CommandsBytes(cs) == EncAll(CommandTrees(cs, fss))
  {
    hide CommandBytes, CommandMembers, Carries;
    if cs != [] {
      assert Carries(cs[0], fss[0]);
      CommandIsTree(ANONYMOUS, cs[0], fss[0]);
      CommandsAreTrees(cs[1..], fss[1..]);
    }
  }

  /** Where the fields of each command are encoded elements, so is the request. */
  lemma RequestIsTree(q: InvokeRequest, fss: seq<seq<Element>>)
    requires AllCarry(q.commands, fss)
    ensures RequestBytes(q) == Enc(Node(ANONYMOUS, Structure, RequestMembers(q, fss)))
  {
    hide EncHead, CommandTrees, CommandsBytes;
    CommandsAreTrees(q.commands, fss);
    hide AllCarry;
    var es := RequestMembers(q, fss);
    var flags := [es[0], es[1]];
    EncAllSnoc(flags, es[2]);
    EncAllSnoc(flags + [es[2]], es[3]);
    assert es == flags + [es[2]] + [es[3]];
  }

  // ---------------------------------------------------------------------- encoding

  method EncodePath(w: Writer, tag: byte, p: CommandPath)
    modifies w
    ensures old(w.err) == None ==>
              && w.err == None && w.depth == old(w.depth)
              && w.buf == old(w.buf) + Enc(Node(Ctx(tag), List, PathMembers(p)))
  {
    hide EncHead, EncAll;
    w.Start(Ctx(tag), List);
    ghost var start, es := w.buf, PathMembers(p);
    NothingYet(start, es);
    w.PutUint(Ctx(0), p.endpoint);
    Appended(start, es, 0);
    w.PutUint(Ctx(1), p.cluster);
    Appended(start, es, 1);
    w.PutUint(Ctx(2), p.command);
    Appended(start, es, 2);
    w.EndContainer();
    Closed(old(w.buf), Ctx(tag), List, es);
  }

  method EncodeCommandData(w: Writer, tag: Tag, c: InvokeCommand)
    requires tag.Writable()
    modifies w
    ensures old(w.err) == None ==>
              && w.err == None && w.depth == old(w.depth) && w.buf == old(w.buf) + CommandBytes(tag, c)
  {
    hide EncHead, Enc, PathMembers;
    w.Start(tag, Structure);
    EncodePath(w, 0, c.path);
    if c.fields.Some? {
      w.Start(Ctx(1), Structure);
      w.Raw(c.fields.value);
      w.EndContainer();
    }
    w.EndContainer();
  }

  lemma {:induction false} OneMoreCommand(cs: seq<InvokeCommand>, c: InvokeCommand)
    ensures CommandsBytes(cs + [c]) == CommandsBytes(cs) + CommandBytes(ANONYMOUS, c)
  {
    hide CommandBytes;
    if cs == [] {
      assert cs + [c] == [c];
    } else {
      assert (cs + [c])[1..] == cs[1..] + [c];
      OneMoreCommand(cs[1..], c);
    }
  }

  method EncodeCommands(w: Writer, cs: seq<InvokeCommand>)
    modifies w
    ensures old(w.err) == None ==>
              && w.err == None && w.depth == old(w.depth) && w.buf == old(w.buf) + CommandsBytes(cs)
  {
    hide CommandBytes;
    var i := 0;
    while i < |cs|
      invariant 0 <= i <= |cs|
      invariant old(w.err) == None ==>
                  && w.err == None && w.depth == old(w.depth) && w.buf == old(w.buf) + CommandsBytes(cs[..i])
    {
      EncodeCommandData(w, ANONYMOUS, cs[i]);
      OneMoreCommand(cs[..i], cs[i]);
      TakeMore(cs, i);
      i := i + 1;
    }
    assert cs[..i] == cs;
  }

  method EncodeInvokeRequest(q: InvokeRequest) returns (r: Result<seq<byte>, ImError>)
    ensures r == Ok(RequestBytes(q))
  {
    hide EncHead, EncAll, CommandsBytes, RequestBytes;
    RequestParts(q);
    var w := new Writer();
    w.Start(ANONYMOUS, Structure);
    ghost var start, flags := w.buf, [Leaf(Ctx(0), Bool(q.suppress)), Leaf(Ctx(1), Bool(q.timed))];
    NothingYet(start, flags);
    w.PutBool(Ctx(0), q.suppress);
    Appended(start, flags, 0);
    w.PutBool(Ctx(1), q.timed);
    Appended(start, flags, 1);
    assert flags[..2] == flags;
    w.Start(Ctx(2), Array);
    EncodeCommands(w, q.commands);
    w.EndContainer();
    assert w.buf == start + EncAll(flags) + (EncHead(Ctx(2), Open(Array)) + CommandsBytes(q.commands) + [END_OF_CONTAINER]);
    w.PutUint(Ctx(255), REVISION);
    w.EndContainer();
    assert w.buf == RequestBytes(q);
    var b := w.Finish();
    r := Ok(b.value);
  }

  lemma RequestParts(q: InvokeRequest)
    ensures RequestBytes(q) ==
            EncHead(ANONYMOUS, Open(Structure)) + EncAll([Leaf(Ctx(0), Bool(q.suppress)), Leaf(Ctx(1), Bool(q.timed))])
            + (EncHead(Ctx(2), Open(Array)) + CommandsBytes(q.commands) + [END_OF_CONTAINER])
            + EncHead(Ctx(255), Value(Uint(REVISION))) + [END_OF_CONTAINER]
  {
    hide EncHead, EncAll, CommandsBytes;
  }

  // ---------------------------------------------------------------------- decoding

  function PathField(p: CommandPath, v: View): Result<CommandPath, ImError> {
    if !HasCurrent(v) then Ok(p)
    else if NumHere(v) == 0 then
      if UintHere(v, 0x1_0000).None? then Err(WrongType) else Ok(p.(endpoint := UintHere(v, 0x1_0000).value))
    else if NumHere(v) == 1 || NumHere(v) == 2 then
      if UintHere(v, 0x1_0000_0000).None? then Err(WrongType)
      else if NumHere(v) == 1 then Ok(p.(cluster := UintHere(v, 0x1_0000_0000).value))
      else Ok(p.(command := UintHere(v, 0x1_0000_0000).value))
    else Ok(p)
  }

  function PathStep(): (CommandPath, View) -> Done<CommandPath, ImError> { (p, v) => Done(PathField(p, v), v) }

  const NO_PATH := CommandPath(0, 0, 0)

  /** A failed reader makes a loop's result an error. */
  function Checked<S>(d: Done<S, ImError>): (c: Done<S, ImError>)
    ensures c.v == d.v
  {
    if d.r.Ok? && d.v.Failed? then Done(Err(BadTlv(d.v.error)), d.v) else d
  }

  function PathDecoded(data: seq<byte>, v: View): (d: Done<CommandPath, ImError>)
    requires Within(data, v)
    ensures Within(data, d.v) && Onward(v, d.v)
  {
    if !HasCurrent(v) || v.cur.value.item != Open(List) then Done(Err(NotAList), v)
    else Checked(Inside(data, v, NO_PATH, NotEntered, PathStep()))
  }

  method DecodePath(r: Reader) returns (res: Result<CommandPath, ImError>)
    requires r.Valid() && HasCurrent(r.View())
    modifies r
    ensures r.Valid() && Done(res, r.View()) == PathDecoded(r.data, old(r.View()))
  {
    hide NextView, ItemFields;
    KindHere(r);
    if r.typ != TypeList { return Err(NotAList); }
    var ok := r.Enter();
    if !ok { return Err(NotEntered); }
    var path := NO_PATH;
    var more := r.Next();
    while more
      invariant r.Valid() && more == HasCurrent(r.View())
      invariant Each(r.data, r.View(), path, PathStep()) == Inside(r.data, old(r.View()), NO_PATH, NotEntered, PathStep())
      decreases more, |r.data| - r.pos
    {
      if r.tag.num == 0 {
        var v := UintField(r, 0x1_0000);
        if v.None? { return Err(WrongType); }
        path := path.(endpoint := v.value);
      } else if r.tag.num == 1 || r.tag.num == 2 {
        var v := UintField(r, 0x1_0000_0000);
        if v.None? { return Err(WrongType); }
        path := if r.tag.num == 1 then path.(cluster := v.value) else path.(command := v.value);
      }
      more := r.Next();
    }
    if r.err.Some? { return Err(BadTlv(r.err.value)); }
    res := Ok(path);
  }

  lemma PathReadBack(data: seq<byte>, v: View, t: Tag, p: CommandPath, depth: nat, rest: seq<byte>)
    requires On(data, v, Node(t, List, PathMembers(p)), depth, rest)
    ensures Within(data, v)
    ensures var d := PathDecoded(data, v); d.r == Ok(p) && Left(data, d.v, depth, rest)
  {
    hide Left, On, Inside, Facing;
    var es, s1 := PathMembers(p), NO_PATH.(endpoint := p.endpoint);
    var s2 := s1.(cluster := p.cluster);
    LeafTaken(data, PathStep(), NO_PATH, s1, es[0], es[1..], depth + 1, rest);
    LeafTaken(data, PathStep(), s1, s2, es[1], es[2..], depth + 1, rest);
    LeafTaken(data, PathStep(), s2, p, es[2], es[3..], depth + 1, rest);
    InsideMembers(data, v, Node(t, List, es), [NO_PATH, s1, s2, p], depth, rest, NotEntered, PathStep());
    OnIsCurrent(data, v, Node(t, List, es), depth, rest);
    LeftIsReady(data, Inside(data, v, NO_PATH, NotEntered, PathStep()).v, depth, rest);
  }

  // Command fields: the members of a flat structure, encoded anew one after the other.

  function FlatField(buf: seq<byte>, v: View): Result<seq<byte>, ImError> {
    if !HasCurrent(v) then Ok(buf)
    else if v.cur.value.item.Value? && Plain(v.cur.value.item.scalar) then
      Ok(buf + Enc(Leaf(v.cur.value.tag, v.cur.value.item.scalar)))
    else Err(UnsupportedField)
  }

  function FlatStep(): (seq<byte>, View) -> Done<seq<byte>, ImError> { (buf, v) => Done(FlatField(buf, v), v) }

  function FlatDecoded(data: seq<byte>, v: View): (d: Done<seq<byte>, ImError>)
    requires Within(data, v)
    ensures Within(data, d.v) && Onward(v, d.v)
  {
    Checked(Inside(data, v, [], NotEntered, FlatStep()))
  }

  method TranscodeFlatStruct(r: Reader) returns (res: Result<seq<byte>, ImError>)
    requires r.Valid() && HasCurrent(r.View())
    modifies r
    ensures r.Valid() && Done(res, r.View()) == FlatDecoded(r.data, old(r.View()))
  {
    hide NextView, ItemFields, FlatField;
    var ok := r.Enter();
    if !ok { return Err(NotEntered); }
    var w := new Writer();
    var more := r.Next();
    while more
      invariant r.Valid() && more == HasCurrent(r.View())
      invariant w.err == None && w.depth == 0
      invariant Each(r.data, r.View(), w.buf, FlatStep()) == Inside(r.data, old(r.View()), [], NotEntered, FlatStep())
      decreases more, |r.data| - r.pos
    {
      var copied := CopyField(r, w);
      if !copied { return Err(UnsupportedField); }
      more := r.Next();
    }
    if r.err.Some? { return Err(BadTlv(r.err.value)); }
    var b := w.Finish();
    res := Ok(b.value);
  }

  /** Copies the current element if it is of a plain type. */
  method CopyField(r: Reader, w: Writer) returns (ok: bool)
    requires r.Valid() && HasCurrent(r.View()) && w.err == None
    modifies w
    ensures w.err == None && w.depth == old(w.depth)
    ensures FlatField(old(w.buf), r.View()) == if ok then Ok(w.buf) else Err(UnsupportedField)
  {
    hide EncHead;
    if r.typ != TypeUint && r.typ != TypeInt && r.typ != TypeBool && r.typ != TypeBytes && r.typ != TypeString {
      return false;
    }
    var v := r.Scalar();
    PutScalar(w, r.tag, v);
    ok := true;
  }

  function Encodings(fs: seq<Element>): (ss: seq<seq<byte>>)
    ensures |ss| == |fs| + 1 && forall k :: 0 <= k <= |fs| ==> ss[k] == EncAll(fs[..k])
  {
    seq(|fs| + 1, k requires 0 <= k <= |fs| => EncAll(fs[..k]))
  }

  lemma FlatReadBack(data: seq<byte>, v: View, t: Tag, fs: seq<Element>, depth: nat, rest: seq<byte>)
    requires On(data, v, Node(t, Structure, fs), depth, rest) && Flat(fs)
    ensures Within(data, v)
    ensures var d := FlatDecoded(data, v); d.r == Ok(EncAll(fs)) && Left(data, d.v, depth, rest)
  {
    hide Left, On, Inside, Facing, EncAll, AllWellFormed, Enc;
    var ss := Encodings(fs);
    forall k | 0 <= k < |fs| ensures TakesMember(data, FlatStep(), ss[k], ss[k + 1], fs[k], fs[k + 1..], depth + 1, rest) {
      assert fs[k] in fs;
      EncAllSnoc(fs[..k], fs[k]);
      TakeMore(fs, k);
      LeafTaken(data, FlatStep(), ss[k], ss[k + 1], fs[k], fs[k + 1..], depth + 1, rest);
    }
    InsideMembers(data, v, Node(t, Structure, fs), ss, depth, rest, NotEntered, FlatStep());
    assert fs[..|fs|] == fs;
    NoneEncoded(fs[..0]);
    LeftIsReady(data, Inside(data, v, [], NotEntered, FlatStep()).v, depth, rest);
  }

  lemma NoneEncoded(fs: seq<Element>)
    ensures fs == [] <==> EncAll(fs) == []
  {
  }

  // One command.

  function CommandField(data: seq<byte>, c: InvokeCommand, v: View): (d: Done<InvokeCommand, ImError>)
    requires Within(data, v)
    ensures Within(data, d.v) && Onward(v, d.v)
  {
    if !HasCurrent(v) then Done(Ok(c), v)
    else if NumHere(v) == 0 then
      var p := PathDecoded(data, v);
      Done(if p.r.Err? then Err(p.r.error) else Ok(c.(path := p.r.value)), p.v)
    else if NumHere(v) == 1 then
      var f := FlatDecoded(data, v);
      Done(if f.r.Err? then Err(f.r.error) else Ok(c.(fields := if f.r.value == [] then None else Some(f.r.value))), f.v)
    else Done(Ok(c), v)
  }

  function CommandStep(data: seq<byte>): (InvokeCommand, View) -> Done<InvokeCommand, ImError> {
    (c, v) => if Within(data, v) then CommandField(data, c, v) else Done(Ok(c), v)
  }

  const NO_COMMAND := InvokeCommand(NO_PATH, None)

  function CommandDecoded(data: seq<byte>, v: View): (d: Done<InvokeCommand, ImError>)
    requires Within(data, v)
    ensures Within(data, d.v) && Onward(v, d.v)
  {
    Inside(data, v, NO_COMMAND, NotEntered, CommandStep(data))
  }

  method DecodeCommandField(r: Reader, c: InvokeCommand) returns (res: Result<InvokeCommand, ImError>)
    requires r.Valid() && HasCurrent(r.View())
    modifies r
    ensures r.Valid() && Done(res, r.View()) == CommandField(r.data, c, old(r.View()))
  {
    hide PathDecoded, FlatDecoded, ItemFields;
    var num := r.tag.num;
    if num == 0 {
      var p := DecodePath(r);
      return if p.Err? then Err(p.error) else Ok(c.(path := p.value));
    }
    if num == 1 {
      var f := TranscodeFlatStruct(r);
      return if f.Err? then Err(f.error) else Ok(c.(fields := if f.value == [] then None else Some(f.value)));
    }
    res := Ok(c);
  }

  method DecodeCommandData(r: Reader) returns (res: Result<InvokeCommand, ImError>)
    requires r.Valid() && HasCurrent(r.View())
    modifies r
    ensures r.Valid() && Done(res, r.View()) == CommandDecoded(r.data, old(r.View()))
  {
    hide NextView, CommandField, ItemFields;
    var ok := r.Enter();
    if !ok { return Err(NotEntered); }
    var cmd := NO_COMMAND;
    var more := r.Next();
    while more
      invariant r.Valid() && more == HasCurrent(r.View())
      invariant Each(r.data, r.View(), cmd, CommandStep(r.data)) == CommandDecoded(r.data, old(r.View()))
      decreases more, |r.data| - r.pos
    {
      var field := DecodeCommandField(r, cmd);
      if field.Err? { return Err(field.error); }
      cmd := field.value;
      more := r.Next();
    }
    res := Ok(cmd);
  }

  lemma CommandReadBack(data: seq<byte>, v: View, t: Tag, c: InvokeCommand, fs: seq<Element>, depth: nat, rest: seq<byte>)
    requires On(data, v, Node(t, Structure, CommandMembers(c.path, fs)), depth, rest) && Carries(c, fs)
    ensures Within(data, v)
    ensures var d := CommandDecoded(data, v); d.r == Ok(c) && Left(data, d.v, depth, rest)
  {
    hide Left, On, Inside, Facing, PathDecoded, FlatDecoded, EncAll, Flat, PathMembers;
    var es, named := CommandMembers(c.path, fs), NO_COMMAND.(path := c.path);
    forall w | On(data, w, es[0], depth + 1, Tail(es[1..], rest))
      ensures var n := CommandStep(data)(NO_COMMAND, w);
              n.r == Ok(named) && Onward(w, n.v) && Left(data, n.v, depth + 1, Tail(es[1..], rest))
    {
      PathReadBack(data, w, Ctx(0), c.path, depth + 1, Tail(es[1..], rest));
      OnIsCurrent(data, w, es[0], depth + 1, Tail(es[1..], rest));
    }
    NodeTaken(data, CommandStep(data), NO_COMMAND, named, es[0], es[1..], depth + 1, rest);
    if fs == [] {
      InsideMembers(data, v, Node(t, Structure, es), [NO_COMMAND, c], depth, rest, NotEntered, CommandStep(data));
    } else {
      NoneEncoded(fs);
      forall w | On(data, w, es[1], depth + 1, Tail(es[2..], rest))
        ensures var n := CommandStep(data)(named, w);
                n.r == Ok(c) && Onward(w, n.v) && Left(data, n.v, depth + 1, Tail(es[2..], rest))
      {
        FlatReadBack(data, w, Ctx(1), fs, depth + 1, Tail(es[2..], rest));
        OnIsCurrent(data, w, es[1], depth + 1, Tail(es[2..], rest));
      }
      NodeTaken(data, CommandStep(data), named, c, es[1], es[2..], depth + 1, rest);
      InsideMembers(data, v, Node(t, Structure, es), [NO_COMMAND, named, c], depth, rest, NotEntered, CommandStep(data));
    }
  }

  // The array of commands.

  function CommandsField(data: seq<byte>, cs: seq<InvokeCommand>, v: View): (d: Done<seq<InvokeCommand>, ImError>)
    requires Within(data, v)
    ensures Within(data, d.v) && Onward(v, d.v)
  {
    var c := CommandDecoded(data, v);
    Done(if c.r.Err? then Err(c.r.error) else Ok(cs + [c.r.value]), c.v)
  }

  function CommandsStep(data: seq<byte>): (seq<InvokeCommand>, View) -> Done<seq<InvokeCommand>, ImError> {
    (cs, v) => if Within(data, v) then CommandsField(data, cs, v) else Done(Ok(cs), v)
  }

  function CommandsDecoded(data: seq<byte>, v: View): (d: Done<seq<InvokeCommand>, ImError>)
    requires Within(data, v)
    ensures Within(data, d.v) && Onward(v, d.v)
  {
    Inside(data, v, [], NotEntered, CommandsStep(data))
  }

  method DecodeCommands(r: Reader) returns (res: Result<seq<InvokeCommand>, ImError>)
    requires r.Valid() && HasCurrent(r.View())
    modifies r
    ensures r.Valid() && Done(res, r.View()) == CommandsDecoded(r.data, old(r.View()))
  {
    hide NextView, CommandDecoded, ItemFields;
    var ok := r.Enter();
    if !ok { return Err(NotEntered); }
    var commands := [];
    var more := r.Next();
    while more
      invariant r.Valid() && more == HasCurrent(r.View())
      invariant Each(r.data, r.View(), commands, CommandsStep(r.data)) == CommandsDecoded(r.data, old(r.View()))
      decreases more, |r.data| - r.pos
    {
      var c := DecodeCommandData(r);
      if c.Err? { return Err(c.error); }
      commands := commands + [c.value];
      more := r.Next();
    }
    res := Ok(commands);
  }

  function Prefixes<T>(cs: seq<T>): (ss: seq<seq<T>>)
    ensures |ss| == |cs| + 1 && forall k :: 0 <= k <= |cs| ==> ss[k] == cs[..k]
  {
    seq(|cs| + 1, k requires 0 <= k <= |cs| => cs[..k])
  }

  lemma CommandsReadBack(data: seq<byte>, v: View, t: Tag, cs: seq<InvokeCommand>, fss: seq<seq<Element>>, depth: nat,
                         rest: seq<byte>)
    requires AllCarry(cs, fss) && On(data, v, Node(t, Array, CommandTrees(cs, fss)), depth, rest)
    ensures Within(data, v)
    ensures var d := CommandsDecoded(data, v); d.r == Ok(cs) && Left(data, d.v, depth, rest)
  {
    hide Left, On, Inside, Facing, CommandDecoded, CommandMembers, Carries;
    var es, ss := CommandTrees(cs, fss), Prefixes(cs);
    forall k | 0 <= k < |es|
      ensures TakesMember(data, CommandsStep(data), ss[k], ss[k + 1], es[k], es[k + 1..], depth + 1, rest)
    {
      forall w | On(data, w, es[k], depth + 1, Tail(es[k + 1..], rest))
        ensures var n := CommandsStep(data)(ss[k], w);
                n.r == Ok(ss[k + 1]) && Onward(w, n.v) && Left(data, n.v, depth + 1, Tail(es[k + 1..], rest))
      {
        CommandReadBack(data, w, ANONYMOUS, cs[k], fss[k], depth + 1, Tail(es[k + 1..], rest));
        TakeMore(cs, k);
      }
      NodeTaken(data, CommandsStep(data), ss[k], ss[k + 1], es[k], es[k + 1..], depth + 1, rest);
    }
    InsideMembers(data, v, Node(t, Array, es), ss, depth, rest, NotEntered, CommandsStep(data));
    assert cs[..|cs|] == cs && cs[..0] == [];
  }

  // The request.

  datatype InvokeRequest = InvokeRequest(commands: seq<InvokeCommand>, suppress: bool, timed: bool)

  function RequestField(data: seq<byte>, q: InvokeRequest, v: View): (d: Done<InvokeRequest, ImError>)
    requires Within(data, v)
    ensures Within(data, d.v) && Onward(v, d.v)
  {
    if !HasCurrent(v) then Done(Ok(q), v)
    else if NumHere(v) == 0 || NumHere(v) == 1 then
      if BoolHere(v).None? then Done(Err(WrongType), v)
      else if NumHere(v) == 0 then Done(Ok(q.(suppress := BoolHere(v).value)), v)
      else Done(Ok(q.(timed := BoolHere(v).value)), v)
    else if NumHere(v) == 2 then
      var cs := CommandsDecoded(data, v);
      Done(if cs.r.Err? then Err(cs.r.error) else Ok(q.(commands := q.commands + cs.r.value)), cs.v)
    else Done(Ok(q), v)
  }

  function RequestStep(data: seq<byte>): (InvokeRequest, View) -> Done<InvokeRequest, ImError> {
    (q, v) => if Within(data, v) then RequestField(data, q, v) else Done(Ok(q), v)
  }

  const NO_REQUEST := InvokeRequest([], false, false)

  function RequestDecoded(b: seq<byte>): Result<InvokeRequest, ImError> {
    Checked(Message(b, NO_REQUEST, NotAStructure, RequestStep(b))).r
  }

  method DecodeRequestField(r: Reader, q: InvokeRequest) returns (res: Result<InvokeRequest, ImError>)
    requires r.Valid() && HasCurrent(r.View())
    modifies r
    ensures r.Valid() && Done(res, r.View()) == RequestField(r.data, q, old(r.View()))
  {
    hide CommandsDecoded, ItemFields;
    var num := r.tag.num;
    if num == 0 || num == 1 {
      var v := BoolField(r);
      if v.None? { return Err(WrongType); }
      return Ok(if num == 0 then q.(suppress := v.value) else q.(timed := v.value));
    }
    if num == 2 {
      var cs := DecodeCommands(r);
      return if cs.Err? then Err(cs.error) else Ok(q.(commands := q.commands + cs.value));
    }
    res := Ok(q);
  }

  method DecodeInvokeRequest(b: seq<byte>) returns (res: Result<InvokeRequest, ImError>)
    ensures res == RequestDecoded(b)
  {
    hide NextView, RequestField, Opened, ItemFields;
    var r, ok := OpenStructure(b);
    if !ok { return Err(NotAStructure); }
    var req := NO_REQUEST;
    var more := r.Next();
    while more
      invariant r.Valid() && more == HasCurrent(r.View())
      invariant Each(b, r.View(), req, RequestStep(b)) == Message(b, NO_REQUEST, NotAStructure, RequestStep(b))
      decreases more, |b| - r.pos
    {
      var field := DecodeRequestField(r, req);
      if field.Err? { return Err(field.error); }
      req := field.value;
      more := r.Next();
    }
    if r.err.Some? { return Err(BadTlv(r.err.value)); }
    res := Ok(req);
  }

  // ---------------------------------------------------------------------- round trip

  lemma {:induction false} LeavesAreLow(fs: seq<Element>)
    requires forall f :: f in fs ==> f.Leaf?
    ensures Height(fs) == 0
  {
    if fs != [] { LeavesAreLow(fs[1..]); }
  }

  lemma CommandWellFormed(p: CommandPath, fs: seq<Element>)
    requires Flat(fs)
    ensures AllWellFormed(CommandMembers(p, fs)) && Height(CommandMembers(p, fs)) == 1
  {
    FlatIsWellFormed(PathMembers(p));
    hide PathMembers;
    LeavesAreLow(fs);
    var path, fields := Node(Ctx(0), List, PathMembers(p)), Node(Ctx(1), Structure, fs);
    Cons(fields, []);
    assert [fields] + [] == [fields];
    Cons(path, []);
    Cons(path, [fields]);
    assert [path] + [] == [path];
  }

  lemma {:induction false} CommandsWellFormed(cs: seq<InvokeCommand>, fss: seq<seq<Element>>)
    requires AllCarry(cs, fss)
    ensures AllWellFormed(CommandTrees(cs, fss)) && Height(CommandTrees(cs, fss)) <= 2
  {
    hide CommandMembers, Flat;
    if cs != [] {
      assert Carries(cs[0], fss[0]);
      CommandWellFormed(cs[0].path, fss[0]);
      CommandsWellFormed(cs[1..], fss[1..]);
      Cons(Node(ANONYMOUS, Structure, CommandMembers(cs[0].path, fss[0])), CommandTrees(cs[1..], fss[1..]));
    }
  }

  lemma RequestWellFormed(q: InvokeRequest, fss: seq<seq<Element>>)
    requires AllCarry(q.commands, fss)
    ensures AllWellFormed(RequestMembers(q, fss)) && Height(RequestMembers(q, fss)) <= 3
  {
    hide CommandTrees;
    CommandsWellFormed(q.commands, fss);
    var es := RequestMembers(q, fss);
    assert es == [es[0]] + ([es[1]] + ([es[2]] + ([es[3]] + [])));
    Cons(es[3], []);
    Cons(es[2], [es[3]] + []);
    Cons(es[1], [es[2]] + ([es[3]] + []));
    Cons(es[0], [es[1]] + ([es[2]] + ([es[3]] + [])));
  }

  /** A request whose fields are encoded elements is read back, whatever follows it. */
  lemma RequestReadBack(q: InvokeRequest, fss: seq<seq<Element>>, rest: seq<byte>)
    requires AllCarry(q.commands, fss)
    ensures RequestDecoded(RequestBytes(q) + rest) == Ok(q)
  {
    hide Left, On, Message, Facing, Enc, RequestBytes, CommandsDecoded, CommandTrees, AllWellFormed, Height;
    RequestIsTree(q, fss);
    RequestWellFormed(q, fss);
    assert |q.commands| == |fss|;
    hide AllCarry;
    var es, b, step := RequestMembers(q, fss), RequestBytes(q) + rest, RequestStep(RequestBytes(q) + rest);
    var s1 := NO_REQUEST.(suppress := q.suppress);
    var s2 := s1.(timed := q.timed);
    LeafTaken(b, step, NO_REQUEST, s1, es[0], es[1..], 1, rest);
    LeafTaken(b, step, s1, s2, es[1], es[2..], 1, rest);
    forall w | On(b, w, es[2], 1, Tail(es[3..], rest))
      ensures var n := step(s2, w); n.r == Ok(q) && Onward(w, n.v) && Left(b, n.v, 1, Tail(es[3..], rest))
    {
      CommandsReadBack(b, w, Ctx(2), q.commands, fss, 1, Tail(es[3..], rest));
      assert [] + q.commands == q.commands;
      OnIsCurrent(b, w, es[2], 1, Tail(es[3..], rest));
    }
    NodeTaken(b, step, s2, q, es[2], es[3..], 1, rest);
    LeafTaken(b, step, q, q, es[3], es[4..], 1, rest);
    MessageMembers(b, ANONYMOUS, es, rest, [NO_REQUEST, s1, s2, q, q], NotAStructure, step);
    LeftIsReady(b, Message(b, NO_REQUEST, NotAStructure, step).v, 0, rest);
  }

  // What the decoder gives is always proper, so no other request goes through unchanged.

  ghost predicate FlatBytes(b: seq<byte>) { exists fs :: Flat(fs) && b == EncAll(fs) }

  /** Absent, or one plain member or more. */
  ghost predicate Proper(c: InvokeCommand) { exists fs :: Carries(c, fs) }

  lemma FlatGrows(buf: seq<byte>, w: View)
    requires FlatBytes(buf) && HasCurrent(w) && Genuine(w) && FlatField(buf, w).Ok?
    ensures FlatBytes(FlatField(buf, w).value)
  {
    hide Enc, EncAll, AllWellFormed;
    var fs :| Flat(fs) && buf == EncAll(fs);
    var f := Leaf(w.cur.value.tag, w.cur.value.item.scalar);
    EncAllSnoc(fs, f);
    Cons(f, []);
    NoneWellFormed();
    assert [f] + [] == [f];
    Joined(fs, [f]);
    assert Flat(fs + [f]);
  }

  lemma NoneWellFormed()
    ensures AllWellFormed([]) && EncAll([]) == []
  {
  }

  lemma FlatDecodedIsFlat(data: seq<byte>, v: View)
    requires Within(data, v)
    ensures FlatDecoded(data, v).r.Ok? ==> FlatBytes(FlatDecoded(data, v).r.value)
  {
    NoneWellFormed();
    hide FlatField, Inside, FlatBytes, EncAll, AllWellFormed;
    assert FlatBytes([]) by { EmptyIsFlat(); }
    var keeps := (b, w) => FlatBytes(b);
    forall t, w ensures StepKeeps(data, t, w, FlatStep(), keeps) {
      if HasCurrent(w) && Genuine(w) && FlatBytes(t) && FlatStep()(t, w).r.Ok? { FlatGrows(t, w); }
    }
    InsideKeeps(data, v, [], NotEntered, FlatStep(), keeps);
  }

  lemma EmptyIsFlat()
    ensures FlatBytes([])
  {
    NoneWellFormed();
    assert Flat([]);
  }

  lemma CommandFieldIsProper(data: seq<byte>, c: InvokeCommand, v: View)
    requires Within(data, v) && Proper(c) && CommandField(data, c, v).r.Ok?
    ensures Proper(CommandField(data, c, v).r.value)
  {
    hide PathDecoded, FlatDecoded, EncAll, Flat;
    var fs :| Carries(c, fs);
    var d := CommandField(data, c, v).r.value;
    if HasCurrent(v) && NumHere(v) == 1 {
      FlatDecodedIsFlat(data, v);
      var fields := FlatDecoded(data, v).r.value;
      var gs :| Flat(gs) && fields == EncAll(gs);
      NoneEncoded(gs);
      assert Carries(d, gs);
    } else {
      assert Carries(d, fs);
    }
  }

  lemma CommandDecodedIsProper(data: seq<byte>, v: View)
    requires Within(data, v)
    ensures CommandDecoded(data, v).r.Ok? ==> Proper(CommandDecoded(data, v).r.value)
  {
    assert Proper(NO_COMMAND) by {
      NoneWellFormed();
      assert Carries(NO_COMMAND, []);
    }
    hide CommandField, Inside, Proper;
    var keeps := (c, w) => Proper(c);
    forall t, w ensures StepKeeps(data, t, w, CommandStep(data), keeps) {
      if Within(data, w) && Proper(t) && CommandStep(data)(t, w).r.Ok? { CommandFieldIsProper(data, t, w); }
    }
    InsideKeeps(data, v, NO_COMMAND, NotEntered, CommandStep(data), keeps);
  }

  ghost predicate AllProper(cs: seq<InvokeCommand>) { forall c :: c in cs ==> Proper(c) }

  lemma CommandsDecodedAreProper(data: seq<byte>, v: View)
    requires Within(data, v)
    ensures CommandsDecoded(data, v).r.Ok? ==> AllProper(CommandsDecoded(data, v).r.value)
  {
    hide CommandDecoded, Inside, Proper;
    var keeps := (cs, w) => AllProper(cs);
    forall t, w ensures StepKeeps(data, t, w, CommandsStep(data), keeps) {
      if Within(data, w) { CommandDecodedIsProper(data, w); }
    }
    InsideKeeps(data, v, [], NotEntered, CommandsStep(data), keeps);
  }

  lemma DecodedIsProper(b: seq<byte>)
    ensures RequestDecoded(b).Ok? ==> AllProper(RequestDecoded(b).value.commands)
  {
    hide CommandsDecoded, Message, Proper;
    var keeps := (q: InvokeRequest, w: View) => AllProper(q.commands);
    forall t, w ensures StepKeeps(b, t, w, RequestStep(b), keeps) {
      if Within(b, w) { CommandsDecodedAreProper(b, w); }
    }
    MessageKeeps(b, NO_REQUEST, NotAStructure, RequestStep(b), keeps);
  }

  lemma {:induction false} ProperCarry(cs: seq<InvokeCommand>) returns (fss: seq<seq<Element>>)
    requires AllProper(cs)
    ensures AllCarry(cs, fss)
  {
    hide Carries;
    if cs == [] {
      fss := [];
    } else {
      assert Proper(cs[0]);
      var fs :| Carries(cs[0], fs);
      var more := ProperCarry(cs[1..]);
      fss := [fs] + more;
    }
  }

  /**
   * A request goes through encoder and decoder unchanged, whatever follows it, if and only if the fields of
   * each command are absent or encode plain members, at least one of them.
   */
  lemma RoundTrip(q: InvokeRequest, rest: seq<byte>)
    ensures AllProper(q.commands) <==> RequestDecoded(RequestBytes(q) + rest) == Ok(q)
  {
    hide RequestBytes, RequestDecoded, AllCarry, AllProper;
    DecodedIsProper(RequestBytes(q) + rest);
    if AllProper(q.commands) {
      var fss := ProperCarry(q.commands);
      RequestReadBack(q, fss, rest);
    }
  }

  /** An empty list of fields comes back as none. */
  lemma NoFields(path: CommandPath)
    ensures var q := InvokeRequest([InvokeCommand(path, Some([]))], false, false); RequestDecoded(RequestBytes(q)) != Ok(q)
  {
    hide RequestBytes, RequestDecoded;
    var c := InvokeCommand(path, Some([]));
    var q := InvokeRequest([c], false, false);
    if Proper(c) {
      var fs :| Carries(c, fs);
      NoneEncoded(fs);
    }
    assert c in q.commands && !AllProper(q.commands);
    RoundTrip(q, []);
    assert RequestBytes(q) + [] == RequestBytes(q);
  }
}
