/** The messages of PASE (section 4.14.1 of the Matter Core Specification): encoders, decoders, and that they invert each other. */
module PaseMessages {
  import opened Bytes
  import opened TlvFormat
  import opened TlvTree
  import opened TlvReader
  import opened TlvWriter
  import opened TlvLoop
  import opened TlvWalk

  datatype ParamRequest = ParamRequest(random: seq<byte>, session: uint16, passcodeId: uint16, hasParams: bool)

  datatype PbkdfParams = PbkdfParams(iterations: uint64, salt: seq<byte>)

  datatype ParamResponse = ParamResponse(initiatorRandom: seq<byte>, responderRandom: seq<byte>, session: uint16,
                                         params: Option<PbkdfParams>)

  datatype MessageError = NotAStructure | WrongType | BadRandom | BadTlv(e: Error) | BadWrite(w: WriteError)

  predicate Storable(b: seq<byte>) { |b| < 0x1_0000_0000_0000_0000 }

  // ---------------------------------------------------------------------- parameter request

  function RequestMembers(r: ParamRequest): seq<Element> {
    [Leaf(Ctx(1), Octets(r.random)), Leaf(Ctx(2), Uint(r.session)), Leaf(Ctx(3), Uint(r.passcodeId)),
     Leaf(Ctx(4), Bool(r.hasParams))]
  }

  function RequestBytes(q: ParamRequest): seq<byte> { Enc(Node(ANONYMOUS, Structure, RequestMembers(q))) }

  function Finished(w: Result<seq<byte>, WriteError>): Result<seq<byte>, MessageError> {
    if w.Ok? then Ok(w.value) else Err(BadWrite(w.error))
  }

  method EncodeParamRequest(q: ParamRequest) returns (b: Result<seq<byte>, MessageError>)
    requires Storable(q.random)
    ensures b == Ok(RequestBytes(q))
  {
    hide EncHead, EncAll;
    var w := new Writer();
    w.Start(ANONYMOUS, Structure);
    ghost var start, es := w.buf, RequestMembers(q);
    NothingYet(start, es);
    w.PutBlob(Ctx(1), BYTES_LEN1, q.random);
    Appended(start, es, 0);
    w.PutUint(Ctx(2), q.session);
    Appended(start, es, 1);
    w.PutUint(Ctx(3), q.passcodeId);
    Appended(start, es, 2);
    w.PutBool(Ctx(4), q.hasParams);
    Appended(start, es, 3);
    w.EndContainer();
    Closed([], ANONYMOUS, Structure, es);
    var done := w.Finish();
    b := Finished(done);
  }

  // Decoding is for every input; members with other tags are passed over, and what follows the structure is not looked at.

  function RequestField(q: ParamRequest, v: View): Result<ParamRequest, MessageError> {
    if !HasCurrent(v) then Ok(q)
    else if NumHere(v) == 1 then
      if BytesHere(v).None? then Err(WrongType) else Ok(q.(random := BytesHere(v).value))
    else if NumHere(v) == 2 || NumHere(v) == 3 then
      if UintHere(v, 0x1_0000).None? then Err(WrongType)
      else if NumHere(v) == 2 then Ok(q.(session := UintHere(v, 0x1_0000).value))
      else Ok(q.(passcodeId := UintHere(v, 0x1_0000).value))
    else if NumHere(v) == 4 then
      if BoolHere(v).None? then Err(WrongType) else Ok(q.(hasParams := BoolHere(v).value))
    else Ok(q)
  }

  function RequestStep(): (ParamRequest, View) -> Done<ParamRequest, MessageError> { (q, v) => Done(RequestField(q, v), v) }

  const NO_REQUEST := ParamRequest([], 0, 0, false)

  /** The loop over the members of a request, and where it leaves the reader. */
  function RequestLoop(b: seq<byte>): Done<ParamRequest, MessageError> { Message(b, NO_REQUEST, NotAStructure, RequestStep()) }

  function RequestDecoded(b: seq<byte>): Result<ParamRequest, MessageError> {
    var d := RequestLoop(b);
    if d.r.Err? then d.r
    else if |d.r.value.random| != 32 then Err(BadRandom)
    else if d.v.Failed? then Err(BadTlv(d.v.error))
    else d.r
  }

  method DecodeRequestField(r: Reader, q: ParamRequest) returns (res: Result<ParamRequest, MessageError>)
    requires r.Valid() && HasCurrent(r.View())
    ensures res == RequestField(q, r.View())
  {
    hide ItemFields;
    var num := r.tag.num;
    if num == 1 {
      var v := BytesField(r);
      return if v.None? then Err(WrongType) else Ok(q.(random := v.value));
    }
    if num == 2 || num == 3 {
      var v := UintField(r, 0x1_0000);
      if v.None? { return Err(WrongType); }
      return Ok(if num == 2 then q.(session := v.value) else q.(passcodeId := v.value));
    }
    if num == 4 {
      var v := BoolField(r);
      return if v.None? then Err(WrongType) else Ok(q.(hasParams := v.value));
    }
    res := Ok(q);
  }

  method DecodeParamRequest(b: seq<byte>) returns (res: Result<ParamRequest, MessageError>)
    ensures res == RequestDecoded(b)
  {
    hide NextView, RequestField, Opened, ItemFields;
    var r, ok := OpenStructure(b);
    if !ok { return Err(NotAStructure); }
    var got := NO_REQUEST;
    var more := r.Next();
    while more
      invariant r.Valid() && more == HasCurrent(r.View())
      invariant Each(b, r.View(), got, RequestStep()) == RequestLoop(b)
      decreases more, |b| - r.pos
    {
      var field := DecodeRequestField(r, got);
      if field.Err? { return Err(field.error); }
      got := field.value;
      more := r.Next();
    }
    if |got.random| != 32 { return Err(BadRandom); }
    if r.err.Some? { return Err(BadTlv(r.err.value)); }
    res := Ok(got);
  }

  /** A request is read back, whatever follows it, and the reader stops right behind it. */
  lemma RequestReadBack(q: ParamRequest, rest: seq<byte>)
    requires |q.random| == 32
    ensures var b := RequestBytes(q) + rest;
            RequestDecoded(b) == Ok(q) && Left(b, RequestLoop(b).v, 0, rest)
  {
    hide Left, Enc, Message, AllWellFormed, Height, Facing, On;
    var es, b := RequestMembers(q), RequestBytes(q) + rest;
    FlatIsWellFormed(es);
    var s1 := NO_REQUEST.(random := q.random);
    var s2 := s1.(session := q.session);
    var s3 := s2.(passcodeId := q.passcodeId);
    LeafTaken(b, RequestStep(), NO_REQUEST, s1, es[0], es[1..], 1, rest);
    LeafTaken(b, RequestStep(), s1, s2, es[1], es[2..], 1, rest);
    LeafTaken(b, RequestStep(), s2, s3, es[2], es[3..], 1, rest);
    LeafTaken(b, RequestStep(), s3, q, es[3], es[4..], 1, rest);
    MessageMembers(b, ANONYMOUS, es, rest, [NO_REQUEST, s1, s2, s3, q], NotAStructure, RequestStep());
    LeftIsReady(b, RequestLoop(b).v, 0, rest);
  }

  // ---------------------------------------------------------------------- parameter response

  function ParamsMembers(p: PbkdfParams): seq<Element> {
    [Leaf(Ctx(1), Uint(p.iterations)), Leaf(Ctx(2), Octets(p.salt))]
  }

  function ResponseMembers(r: ParamResponse): seq<Element> {
    [Leaf(Ctx(1), Octets(r.initiatorRandom)), Leaf(Ctx(2), Octets(r.responderRandom)), Leaf(Ctx(3), Uint(r.session))]
    + if r.params.None? then [] else [Node(Ctx(4), Structure, ParamsMembers(r.params.value))]
  }

  function ResponseBytes(q: ParamResponse): seq<byte> { Enc(Node(ANONYMOUS, Structure, ResponseMembers(q))) }

  predicate StorableResponse(r: ParamResponse) {
    && Storable(r.initiatorRandom) && Storable(r.responderRandom)
    && (r.params.Some? ==> Storable(r.params.value.salt))
  }

  method EncodeParamResponse(q: ParamResponse) returns (b: Result<seq<byte>, MessageError>)
    requires StorableResponse(q)
    ensures b == Ok(ResponseBytes(q))
  {
    hide EncHead, EncAll;
    var w := new Writer();
    w.Start(ANONYMOUS, Structure);
    ghost var start, es := w.buf, ResponseMembers(q);
    NothingYet(start, es);
    w.PutBlob(Ctx(1), BYTES_LEN1, q.initiatorRandom);
    Appended(start, es, 0);
    w.PutBlob(Ctx(2), BYTES_LEN1, q.responderRandom);
    Appended(start, es, 1);
    w.PutUint(Ctx(3), q.session);
    Appended(start, es, 2);
    if q.params.Some? {
      EncodeParams(w, q.params.value);
      Appended(start, es, 3);
    }
    w.EndContainer();
    Closed([], ANONYMOUS, Structure, es);
    var done := w.Finish();
    b := Finished(done);
  }

  method EncodeParams(w: Writer, p: PbkdfParams)
    requires w.err == None && Storable(p.salt)
    modifies w
    ensures w.err == None && w.depth == old(w.depth)
    ensures w.buf == old(w.buf) + Enc(Node(Ctx(4), Structure, ParamsMembers(p)))
  {
    hide EncHead, EncAll;
    w.Start(Ctx(4), Structure);
    ghost var start, es := w.buf, ParamsMembers(p);
    NothingYet(start, es);
    w.PutUint(Ctx(1), p.iterations);
    Appended(start, es, 0);
    w.PutBlob(Ctx(2), BYTES_LEN1, p.salt);
    Appended(start, es, 1);
    w.EndContainer();
    Closed(old(w.buf), Ctx(4), Structure, es);
  }

  function ParamsField(p: PbkdfParams, v: View): Result<PbkdfParams, MessageError> {
    if !HasCurrent(v) then Ok(p)
    else if NumHere(v) == 1 then
      if UintHere(v, 0x1_0000_0000_0000_0000).None? then Err(WrongType)
      else Ok(p.(iterations := UintHere(v, 0x1_0000_0000_0000_0000).value))
    else if NumHere(v) == 2 then
      if BytesHere(v).None? then Err(WrongType) else Ok(p.(salt := BytesHere(v).value))
    else Ok(p)
  }

  function ParamsStep(): (PbkdfParams, View) -> Done<PbkdfParams, MessageError> { (p, v) => Done(ParamsField(p, v), v) }

  const NO_PARAMS := PbkdfParams(0, [])

  function ParamsDecoded(data: seq<byte>, v: View): (d: Done<PbkdfParams, MessageError>)
    requires Within(data, v)
    ensures Within(data, d.v) && Onward(v, d.v)
  {
    Inside(data, v, NO_PARAMS, NotAStructure, ParamsStep())
  }

  method DecodeParams(r: Reader) returns (res: Result<PbkdfParams, MessageError>)
    requires r.Valid() && HasCurrent(r.View())
    modifies r
    ensures r.Valid() && Done(res, r.View()) == ParamsDecoded(r.data, old(r.View()))
  {
    hide NextView, ItemFields;
    var ok := r.Enter();
    if !ok { return Err(NotAStructure); }
    var got := NO_PARAMS;
    var more := r.Next();
    while more
      invariant r.Valid() && more == HasCurrent(r.View())
      invariant Each(r.data, r.View(), got, ParamsStep()) == ParamsDecoded(r.data, old(r.View()))
      decreases more, |r.data| - r.pos
    {
      if r.tag.num == 1 {
        var v := UintField(r, 0x1_0000_0000_0000_0000);
        if v.None? { return Err(WrongType); }
        got := got.(iterations := v.value);
      } else if r.tag.num == 2 {
        var v := BytesField(r);
        if v.None? { return Err(WrongType); }
        got := got.(salt := v.value);
      }
      more := r.Next();
    }
    res := Ok(got);
  }

  lemma ParamsReadBack(data: seq<byte>, v: View, p: PbkdfParams, depth: nat, rest: seq<byte>)
    requires On(data, v, Node(Ctx(4), Structure, ParamsMembers(p)), depth, rest)
    ensures Within(data, v)
    ensures var d := ParamsDecoded(data, v); d.r == Ok(p) && Left(data, d.v, depth, rest)
  {
    hide Left, On, Inside, Facing;
    var es, mid := ParamsMembers(p), NO_PARAMS.(iterations := p.iterations);
    LeafTaken(data, ParamsStep(), NO_PARAMS, mid, es[0], es[1..], depth + 1, rest);
    LeafTaken(data, ParamsStep(), mid, p, es[1], es[2..], depth + 1, rest);
    InsideMembers(data, v, Node(Ctx(4), Structure, es), [NO_PARAMS, mid, p], depth, rest, NotAStructure, ParamsStep());
  }

  function ResponseField(data: seq<byte>, q: ParamResponse, v: View): (d: Done<ParamResponse, MessageError>)
    requires Within(data, v)
    ensures Within(data, d.v) && Onward(v, d.v)
  {
    if !HasCurrent(v) then Done(Ok(q), v)
    else if NumHere(v) == 1 || NumHere(v) == 2 then
      if BytesHere(v).None? then Done(Err(WrongType), v)
      else if NumHere(v) == 1 then Done(Ok(q.(initiatorRandom := BytesHere(v).value)), v)
      else Done(Ok(q.(responderRandom := BytesHere(v).value)), v)
    else if NumHere(v) == 3 then
      if UintHere(v, 0x1_0000).None? then Done(Err(WrongType), v) else Done(Ok(q.(session := UintHere(v, 0x1_0000).value)), v)
    else if NumHere(v) == 4 then
      var p := ParamsDecoded(data, v);
      Done(if p.r.Err? then Err(p.r.error) else Ok(q.(params := Some(p.r.value))), p.v)
    else Done(Ok(q), v)
  }

  function ResponseStep(data: seq<byte>): (ParamResponse, View) -> Done<ParamResponse, MessageError> {
    (q, v) => if Within(data, v) then ResponseField(data, q, v) else Done(Ok(q), v)
  }

  const NO_RESPONSE := ParamResponse([], [], 0, None)

  function ResponseDecoded(b: seq<byte>): Result<ParamResponse, MessageError> {
    var d := Message(b, NO_RESPONSE, NotAStructure, ResponseStep(b));
    if d.r.Err? then d.r else if d.v.Failed? then Err(BadTlv(d.v.error)) else d.r
  }

  method DecodeResponseField(r: Reader, q: ParamResponse) returns (res: Result<ParamResponse, MessageError>)
    requires r.Valid() && HasCurrent(r.View())
    modifies r
    ensures r.Valid() && Done(res, r.View()) == ResponseField(r.data, q, old(r.View()))
  {
    hide ItemFields, ParamsDecoded;
    var num := r.tag.num;
    if num == 1 || num == 2 {
      var v := BytesField(r);
      if v.None? { return Err(WrongType); }
      return Ok(if num == 1 then q.(initiatorRandom := v.value) else q.(responderRandom := v.value));
    }
    if num == 3 {
      var v := UintField(r, 0x1_0000);
      return if v.None? then Err(WrongType) else Ok(q.(session := v.value));
    }
    if num == 4 {
      var p := DecodeParams(r);
      return if p.Err? then Err(p.error) else Ok(q.(params := Some(p.value)));
    }
    res := Ok(q);
  }

  method DecodeParamResponse(b: seq<byte>) returns (res: Result<ParamResponse, MessageError>)
    ensures res == ResponseDecoded(b)
  {
    hide NextView, ResponseField, Opened, ItemFields;
    var r, ok := OpenStructure(b);
    if !ok { return Err(NotAStructure); }
    var got := NO_RESPONSE;
    var more := r.Next();
    while more
      invariant r.Valid() && more == HasCurrent(r.View())
      invariant Each(b, r.View(), got, ResponseStep(b)) == Message(b, NO_RESPONSE, NotAStructure, ResponseStep(b))
      decreases more, |b| - r.pos
    {
      var field := DecodeResponseField(r, got);
      if field.Err? { return Err(field.error); }
      got := field.value;
      more := r.Next();
    }
    if r.err.Some? { return Err(BadTlv(r.err.value)); }
    res := Ok(got);
  }

  lemma ResponseWellFormed(q: ParamResponse)
    requires StorableResponse(q)
    ensures AllWellFormed(ResponseMembers(q)) && Height(ResponseMembers(q)) <= 1
  {
    hide AllWellFormed, Height;
    var es := ResponseMembers(q);
    var a, b := es[..3], es[3..];
    FlatIsWellFormed(a);
    if q.params.Some? {
      FlatIsWellFormed(ParamsMembers(q.params.value));
      OneNode(b[0]);
      assert b == [b[0]];
    } else {
      FlatIsWellFormed(b);
    }
    assert es == a + b;
    Joined(a, b);
  }

  /** A response is read back, whatever follows it. */
  lemma ResponseReadBack(q: ParamResponse, rest: seq<byte>)
    requires StorableResponse(q)
    ensures ResponseDecoded(ResponseBytes(q) + rest) == Ok(q)
  {
    hide Left, Enc, Message, AllWellFormed, Height, Facing, On, ParamsDecoded, ParamsMembers;
    var es, b := ResponseMembers(q), ResponseBytes(q) + rest;
    ResponseWellFormed(q);
    var s1 := NO_RESPONSE.(initiatorRandom := q.initiatorRandom);
    var s2 := s1.(responderRandom := q.responderRandom);
    var s3 := s2.(session := q.session);
    LeafTaken(b, ResponseStep(b), NO_RESPONSE, s1, es[0], es[1..], 1, rest);
    LeafTaken(b, ResponseStep(b), s1, s2, es[1], es[2..], 1, rest);
    LeafTaken(b, ResponseStep(b), s2, s3, es[2], es[3..], 1, rest);
    if q.params.Some? {
      forall w | On(b, w, es[3], 1, Tail(es[4..], rest))
        ensures var n := ResponseStep(b)(s3, w); n.r == Ok(q) && Onward(w, n.v) && Left(b, n.v, 1, Tail(es[4..], rest))
      {
        ParamsReadBack(b, w, q.params.value, 1, Tail(es[4..], rest));
        OnIsCurrent(b, w, es[3], 1, Tail(es[4..], rest));
      }
      NodeTaken(b, ResponseStep(b), s3, q, es[3], es[4..], 1, rest);
      MessageMembers(b, ANONYMOUS, es, rest, [NO_RESPONSE, s1, s2, s3, q], NotAStructure, ResponseStep(b));
    } else {
      MessageMembers(b, ANONYMOUS, es, rest, [NO_RESPONSE, s1, s2, s3], NotAStructure, ResponseStep(b));
    }
    LeftIsReady(b, Message(b, NO_RESPONSE, NotAStructure, ResponseStep(b)).v, 0, rest);
  }

  // ---------------------------------------------------------------------- the three key exchange messages

  /** The values under the context tags 1, 2 and so on. */
  function PakeMembers(values: seq<seq<byte>>): (es: seq<Element>)
    requires |values| <= 255
    ensures |es| == |values|
    ensures forall i :: 0 <= i < |es| ==> es[i] == Leaf(Ctx(i + 1), Octets(values[i]))
  {
    seq(|values|, i requires 0 <= i < |values| => Leaf(Ctx(i + 1), Octets(values[i])))
  }

  method EncodePake(values: seq<seq<byte>>) returns (b: Result<seq<byte>, MessageError>)
    requires |values| <= 255 && forall v :: v in values ==> Storable(v)
    ensures b == Ok(Enc(Node(ANONYMOUS, Structure, PakeMembers(values))))
  {
    hide EncHead, EncAll, Storable;
    var w := new Writer();
    w.Start(ANONYMOUS, Structure);
    ghost var start, es := w.buf, PakeMembers(values);
    NothingYet(start, es);
    var i := 0;
    while i < |values|
      invariant 0 <= i <= |values| && w.err == None && w.depth == 1
      invariant w.buf == start + EncAll(es[..i])
    {
      assert Storable(values[i]);
      PutOctets(w, i + 1, values[i]);
      Appended(start, es, i);
      i := i + 1;
    }
    w.EndContainer();
    Closed([], ANONYMOUS, Structure, es);
    var done := w.Finish();
    b := Finished(done);
  }

  method PutOctets(w: Writer, tag: byte, v: seq<byte>)
    requires w.err == None && Storable(v)
    modifies w
    ensures w.err == None && w.depth == old(w.depth) && w.buf == old(w.buf) + Enc(Leaf(Ctx(tag), Octets(v)))
  {
    hide EncHead;
    w.PutBlob(Ctx(tag), BYTES_LEN1, v);
  }

  function PakeField(got: seq<seq<byte>>, v: View): Result<seq<seq<byte>>, MessageError> {
    if !HasCurrent(v) || NumHere(v) == 0 || NumHere(v) > |got| then Ok(got)
    else if BytesHere(v).None? then Err(WrongType)
    else Ok(got[NumHere(v) - 1 := BytesHere(v).value])
  }

  function PakeStep(): (seq<seq<byte>>, View) -> Done<seq<seq<byte>>, MessageError> { (got, v) => Done(PakeField(got, v), v) }

  function Blank(n: nat): (r: seq<seq<byte>>)
    ensures |r| == n && forall i :: 0 <= i < n ==> r[i] == []
  {
    seq(n, i => [])
  }

  lemma {:induction false} StillAsMany(data: seq<byte>, v: View, got: seq<seq<byte>>)
    requires Within(data, v)
    ensures var d := Each(data, v, got, PakeStep()); d.r.Ok? ==> |d.r.value| == |got|
    decreases if HasCurrent(v) then |data| - v.pos + 1 else 0
  {
    hide NextView;
    if HasCurrent(v) && PakeField(got, v).Ok? { StillAsMany(data, NextView(data, v), PakeField(got, v).value); }
  }

  lemma AsManyRead(b: seq<byte>, n: nat)
    ensures var d := Message(b, Blank(n), NotAStructure, PakeStep()); d.r.Ok? ==> |d.r.value| == n
  {
    hide NextView, Opened;
    if Opened(b).Some? { StillAsMany(b, NextView(b, Opened(b).value), Blank(n)); }
  }

  /** The last octet string under each of the tags 1 to n; a missing one is empty. */
  function PakeDecoded(b: seq<byte>, n: nat): (r: Result<seq<seq<byte>>, MessageError>)
    ensures r.Ok? ==> |r.value| == n
  {
    AsManyRead(b, n);
    var d := Message(b, Blank(n), NotAStructure, PakeStep());
    if d.r.Err? then d.r else if d.v.Failed? then Err(BadTlv(d.v.error)) else d.r
  }

  method DecodeFields(b: seq<byte>, n: nat) returns (res: Result<seq<seq<byte>>, MessageError>)
    ensures res == PakeDecoded(b, n)
  {
    hide NextView, Opened, ItemFields;
    var r, ok := OpenStructure(b);
    if !ok { return Err(NotAStructure); }
    var got := Blank(n);
    var more := r.Next();
    while more
      invariant r.Valid() && more == HasCurrent(r.View()) && |got| == n
      invariant Each(b, r.View(), got, PakeStep()) == Message(b, Blank(n), NotAStructure, PakeStep())
      decreases more, |b| - r.pos
    {
      if 1 <= r.tag.num <= n {
        var v := BytesField(r);
        if v.None? { return Err(WrongType); }
        got := got[r.tag.num - 1 := v.value];
      }
      more := r.Next();
    }
    if r.err.Some? { return Err(BadTlv(r.err.value)); }
    res := Ok(got);
  }

  ghost predicate IsPake(b: seq<byte>, values: seq<seq<byte>>) {
    && |values| <= 255 && (forall v :: v in values ==> Storable(v))
    && b == Enc(Node(ANONYMOUS, Structure, PakeMembers(values)))
  }

  lemma PakeWellFormed(b: seq<byte>, values: seq<seq<byte>>)
    requires IsPake(b, values)
    ensures |values| <= 255 && AllWellFormed(PakeMembers(values)) && Height(PakeMembers(values)) == 0
    ensures b == Enc(Node(ANONYMOUS, Structure, PakeMembers(values)))
  {
    hide Enc;
    var es := PakeMembers(values);
    forall e | e in es ensures e.Leaf? && e.tag.Canonical() && e.scalar.Fits() {
      var i :| 0 <= i < |es| && es[i] == e;
      assert Storable(values[i]);
    }
    FlatIsWellFormed(es);
  }

  /** The first k values, the others still blank. */
  function Filled(values: seq<seq<byte>>, k: nat): seq<seq<byte>>
    requires k <= |values|
  {
    values[..k] + Blank(|values| - k)
  }

  function Fillings(values: seq<seq<byte>>): (ss: seq<seq<seq<byte>>>)
    ensures |ss| == |values| + 1 && forall k :: 0 <= k <= |values| ==> ss[k] == Filled(values, k)
  {
    seq(|values| + 1, k requires 0 <= k <= |values| => Filled(values, k))
  }

  /** The values are read back. */
  lemma PakeReadBack(b: seq<byte>, values: seq<seq<byte>>)
    requires IsPake(b, values)
    ensures PakeDecoded(b, |values|) == Ok(values)
  {
    hide Left, Enc, Message, AllWellFormed, Height, Facing, On, IsPake;
    PakeWellFormed(b, values);
    var es, ss := PakeMembers(values), Fillings(values);
    forall k | 0 <= k < |es| ensures TakesMember(b, PakeStep(), ss[k], ss[k + 1], es[k], es[k + 1..], 1, []) {
      assert ss[k][k := values[k]] == ss[k + 1];
      LeafTaken(b, PakeStep(), ss[k], ss[k + 1], es[k], es[k + 1..], 1, []);
    }
    assert b == b + [] && ss[0] == Blank(|values|) && ss[|values|] == values;
    MessageMembers(b, ANONYMOUS, es, [], ss, NotAStructure, PakeStep());
    LeftIsReady(b, Message(b, Blank(|values|), NotAStructure, PakeStep()).v, 0, []);
  }
}
