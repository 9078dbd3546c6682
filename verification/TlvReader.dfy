module TlvReader {
  // The streaming decoder, and reading a container body with it.

  import opened Bytes
  import opened TlvFormat
  import opened TlvTree

  datatype Type =
    | TypeInvalid | TypeInt | TypeUint | TypeBool | TypeFloat | TypeString | TypeBytes | TypeNull
    | TypeStructure | TypeArray | TypeList
  {
    predicate Container() { TypeStructure? || TypeArray? || TypeList? }
  }

  /** What a caller can observe: the first error, or the position, depth and current element. */
  datatype View =
    | Failed(error: Error)
    | Ready(pos: nat, depth: nat, cur: Option<Current>)

  datatype Current = Current(tag: Tag, item: Item)

  /** Where reading goes on: behind the body of the current element if it is an unentered container. */
  function Resume(data: seq<byte>, pos: nat, cur: Option<Current>): (r: Result<nat, Error>)
    requires pos <= |data|
    ensures r.Ok? ==> pos <= r.value <= |data|
  {
    if cur.Some? && cur.value.item.Open? then Skip(data, pos, 1) else Ok(pos)
  }

  /** The effect of reading one head at p. */
  function HeadView(data: seq<byte>, p: nat, depth: nat): (r: View)
    requires p <= |data|
    ensures r.Ready? ==> p <= r.pos <= |data| && r.depth <= depth
    ensures r.Ready? && r.cur.Some? ==> p < r.pos && r.depth == depth
  {
    if p == |data| then
      if depth != 0 then Failed(EndedInside) else Ready(p, depth, None)
    else match HeadAt(data, p)
      case Bad(e) => Failed(e)
      case End => if depth == 0 then Failed(EndAtTop) else Ready(p + 1, depth - 1, None)
      case Elem(t, x, n) => Ready(p + n, depth, Some(Current(t, x)))
  }

  /** The effect of Next; its result tells whether there is a current element afterwards. */
  function NextView(data: seq<byte>, v: View): (r: View)
    requires v.Ready? ==> v.pos <= |data|
    ensures r.Ready? ==> v.Ready? && v.pos <= r.pos <= |data| && r.depth <= v.depth
    ensures r.Ready? && r.cur.Some? ==> v.pos < r.pos && r.depth == v.depth
  {
    match v
    case Failed(e) => v
    case Ready(pos, depth, cur) =>
      match Resume(data, pos, cur)
      case Err(e) => Failed(e)
      case Ok(p) => HeadView(data, p, depth)
  }

  predicate Enterable(v: View) {
    v.Ready? && v.cur.Some? && v.cur.value.item.Open?
  }

  /** The effect of Enter: nothing unless the current element is a container. */
  function EnterView(v: View): View {
    if !Enterable(v) then v
    else if v.depth >= MAX_DEPTH then Failed(TooDeep)
    else Ready(v.pos, v.depth + 1, None)
  }

  predicate HasCurrent(v: View) { v.Ready? && v.cur.Some? }

  class Reader {
    const data: seq<byte>
    var pos: nat
    var depth: nat
    var err: Option<Error>
    var valid: bool
    var skipPending: bool
    var typ: Type
    var tag: Tag
    var u: uint64
    var i: int64
    var f: Scalar
    var b: seq<byte>

    ghost predicate Valid()
      reads this
    {
      && pos <= |data| && depth <= MAX_DEPTH
      && f.Fits()
      && |b| < 0x1_0000_0000_0000_0000
      && (err.Some? ==> !valid)
      && (valid ==> typ != TypeInvalid && tag.Canonical() && (typ == TypeFloat ==> f.Single? || f.Double?))
      && (err == None ==> (skipPending <==> valid && typ.Container()))
    }

    /** The current element as the typed getters would return it. */
    ghost function ItemNow(): (x: Item)
      requires Valid() && typ != TypeInvalid
      reads this
      ensures x.Fits() && (x.Open? <==> typ.Container())
    {
      ItemFields(typ, u, i, f, b)
    }

    ghost function View(): View
      requires Valid()
      reads this
    {
      if err.Some? then Failed(err.value)
      else Ready(pos, depth, if valid then Some(Current(tag, ItemNow())) else None)
    }

    constructor (data: seq<byte>)
      ensures this.data == data && Valid() && View() == Ready(0, 0, None)
    {
      this.data := data;
      pos, depth, err, valid, skipPending := 0, 0, None, false, false;
      typ, tag, u, i, f, b := TypeInvalid, ANONYMOUS, 0, 0, Double(0), [];
    }

    method Fail(e: Error)
      modifies this`err, this`valid
      ensures err == (if old(err) == None then Some(e) else old(err)) && !valid
    {
      if err == None { err := Some(e); }
      valid := false;
    }

    method ReadTagBytes(tc: nat) returns (t: Tag, ok: bool)
      requires pos <= |data| && err == None && tc < 8
      modifies this`pos, this`err, this`valid
      ensures pos <= |data|
      ensures match ReadTag(tc, data[old(pos)..])
              case Ok(x) => ok && t == x.value && pos == old(pos) + x.size && err == None && valid == old(valid)
              case Err(e) => !ok && err == Some(e) && !valid
    {
      Ranges();
      t, ok := ANONYMOUS, true;
      var width := if tc == 0 then 0
                   else if tc == 1 then 1
                   else if tc == 2 || tc == 4 then 2
                   else if tc == 3 || tc == 5 then 4
                   else if tc == 6 then 6
                   else 8;
      if |data| - pos < width {
        Fail(TruncatedTag);
        return t, false;
      }
      var s := data[pos..];
      if tc == 1 {
        t := Tag(Context, 0, 0, Number(s, 1));
      } else if tc == 2 || tc == 4 {
        t := Tag(if tc == 2 then CommonProfile else ImplicitProfile, 0, 0, Number(s, 2));
      } else if tc == 3 || tc == 5 {
        t := Tag(if tc == 3 then CommonProfile else ImplicitProfile, 0, 0, Number(s, 4));
      } else if tc == 6 {
        t := Tag(FullyQualified, Number(s, 2), Number(s[2..], 2), Number(s[4..], 2));
      } else if tc == 7 {
        t := Tag(FullyQualified, Number(s, 2), Number(s[2..], 2), Number(s[4..], 4));
      }
      pos := pos + width;
    }

    /** Little-endian number of the given width, accumulated byte by byte. */
    method ReadLE(width: nat) returns (v: uint64, ok: bool)
      requires pos <= |data| && err == None && 1 <= width <= 8
      modifies this`pos, this`err, this`valid
      ensures pos <= |data|
      ensures ok <==> width <= |data| - old(pos)
      ensures ok ==> v == NumberOf(data[old(pos)..], width) && pos == old(pos) + width && err == None && valid == old(valid)
      ensures !ok ==> pos == old(pos) && err == Some(TruncatedValue) && !valid
    {
      if |data| - pos < width {
        Fail(TruncatedValue);
        return 0, false;
      }
      var acc: nat := 0;
      for j := 0 to width
        invariant pos == old(pos) && err == None && valid == old(valid)
        invariant acc == FromLe(data[pos..pos + j])
      {
        FromLeSnoc(data[pos..pos + j], data[pos + j]);
        assert data[pos..pos + j] + [data[pos + j]] == data[pos..pos + j + 1];
        acc := acc + data[pos + j] * Range(j);
      }
      assert data[pos..][..width] == data[pos..pos + width];
      SmallRange(width);
      v, ok := acc, true;
      pos := pos + width;
    }

    /** A length field and the bytes behind it. */
    method ReadBytes(width: nat)
      requires Valid() && err == None && !valid && 1 <= width <= 8
      modifies this`pos, this`err, this`valid, this`b
      ensures pos <= |data| && !valid && |b| < 0x1_0000_0000_0000_0000
      ensures match ReadBlob(data[old(pos)..], width)
              case Ok(x) => b == x.value && pos == old(pos) + x.size && err == None
              case Err(e) => err == Some(e)
    {
      var n, ok := ReadLE(width);
      if !ok { return; }
      if n > |data| - pos {
        Fail(BlobTooLong);
        return;
      }
      assert data[old(pos)..][width..width + n] == data[pos..pos + n];
      b := data[pos..pos + n];
      pos := pos + n;
    }

    method ReadValue(et: nat) returns (ok: bool)
      requires Valid() && err == None && !valid && et < 0x20
      modifies this`pos, this`err, this`valid, this`typ, this`u, this`i, this`f, this`b
      ensures pos <= |data| && !valid && f.Fits() && |b| < 0x1_0000_0000_0000_0000
      ensures match ReadItem(et, data[old(pos)..])
              case Err(e) => !ok && err == Some(e)
              case Ok(x) =>
                && ok && err == None && pos == old(pos) + x.size
                && typ != TypeInvalid && (typ == TypeFloat ==> f.Single? || f.Double?)
                && (typ.Container() <==> x.value.Open?)
                && ItemFields(typ, u, i, f, b) == x.value
    {
      hide SignExtend, NumberOf, Number, ReadBlob, Range;
      ok := true;
      if et <= 0x03 {
        var width := Width(et);
        var v;
        v, ok := ReadLE(width);
        if !ok { return; }
        i := SignExtend(v, width);
        typ := TypeInt;
      } else if et <= 0x07 {
        var v;
        v, ok := ReadLE(Width(et - UINT8));
        if !ok { return; }
        u := v;
        typ := TypeUint;
      } else if et == BOOL_FALSE || et == BOOL_TRUE {
        u := if et == BOOL_TRUE then 1 else 0;
        typ := TypeBool;
      } else if et == FLOAT32 {
        var v;
        v, ok := ReadLE(4);
        if !ok { return; }
        FourBytes(data[old(pos)..]);
        f := Single(v);
        typ := TypeFloat;
      } else if et == FLOAT64 {
        var v;
        v, ok := ReadLE(8);
        if !ok { return; }
        f := Double(v);
        typ := TypeFloat;
      } else if UTF8_LEN1 <= et <= 0x13 {
        ReadBytes(Width((et - UTF8_LEN1) % 4));
        if err.Some? { return false; }
        typ := if et <= 0x0F then TypeString else TypeBytes;
      } else if et == NULL {
        typ := TypeNull;
      } else if et == STRUCTURE {
        typ := TypeStructure;
      } else if et == ARRAY {
        typ := TypeArray;
      } else if et == LIST {
        typ := TypeList;
      } else {
        Fail(ReservedType);
        ok := false;
      }
    }

    /** Leaves out one value; only its length is read. */
    method SkipValue(et: nat) returns (ok: bool)
      requires pos <= |data| && err == None && et < 0x20
      modifies this`pos, this`err, this`valid
      ensures pos <= |data|
      ensures match ReadItem(et, data[old(pos)..])
              case Ok(x) => ok && pos == old(pos) + x.size && err == None && valid == old(valid)
              case Err(e) => !ok && err == Some(e) && !valid
    {
      hide SignExtend, NumberOf, Number, Range;
      ok := true;
      var n;
      if STRUCTURE <= et <= LIST || et == BOOL_FALSE || et == BOOL_TRUE || et == NULL {
      } else if et <= 0x03 {
        n, ok := ReadLE(Width(et));
      } else if et <= 0x07 {
        n, ok := ReadLE(Width(et - UINT8));
      } else if et == FLOAT32 {
        n, ok := ReadLE(4);
      } else if et == FLOAT64 {
        n, ok := ReadLE(8);
      } else if UTF8_LEN1 <= et <= 0x13 {
        n, ok := ReadLE(Width((et - UTF8_LEN1) % 4));
        if !ok { return; }
        if n > |data| - pos {
          Fail(BlobTooLong);
          return false;
        }
        pos := pos + n;
      } else {
        Fail(ReservedType);
        ok := false;
      }
    }

    /** Counts levels up and down until the container that was just opened is closed; no element is made. */
    method SkipContainerBody() returns (ok: bool)
      requires pos <= |data| && err == None && valid
      modifies this`pos, this`err, this`valid
      ensures pos <= |data|
      ensures match Skip(data, old(pos), 1)
              case Ok(p) => ok && pos == p && err == None && valid
              case Err(e) => !ok && err == Some(e) && !valid
    {
      hide HeadAt, ReadTag, ReadItem;
      var level := 1;
      while level > 0
        invariant pos <= |data| && err == None && valid && level <= MAX_DEPTH
        invariant Skip(data, pos, level) == Skip(data, old(pos), 1)
        decreases |data| - pos
      {
        if pos >= |data| {
          Fail(EndedInside);
          return false;
        }
        var ctl := data[pos];
        var et := ctl % 0x20;
        HeadParts(data, pos);
        pos := pos + 1;
        if et == END_OF_CONTAINER {
          level := level - 1;
          continue;
        }
        var _, tagOk := ReadTagBytes(ctl / 0x20);
        if !tagOk { return false; }
        OpensContainer(et, data[pos..]);
        if STRUCTURE <= et <= LIST {
          if level >= MAX_DEPTH {
            Fail(TooDeep);
            return false;
          }
          level := level + 1;
        } else {
          var valueOk := SkipValue(et);
          if !valueOk { return false; }
        }
      }
      ok := true;
    }

    /** Steps to the element behind the current one, leaving out what an unentered container holds. */
    method Next() returns (more: bool)
      requires Valid()
      modifies this
      ensures Valid()
      ensures View() == NextView(data, old(View()))
      ensures more == HasCurrent(View())
    {
      hide HeadView, Skip, ItemFields;
      if err.Some? { return false; }
      if valid && skipPending {
        var ok := SkipContainerBody();
        if !ok { return false; }
      }
      valid, skipPending := false, false;
      more := ReadElementHead();
    }

    /** The part of Next behind the skipping. */
    method ReadElementHead() returns (more: bool)
      requires Valid() && err == None && !valid
      modifies this
      ensures Valid()
      ensures View() == HeadView(data, old(pos), old(depth))
      ensures more == HasCurrent(View())
    {
      hide HeadAt, ReadTag, ReadItem, ItemFields;
      if pos >= |data| {
        if depth != 0 { Fail(EndedInside); }
        return false;
      }
      HeadParts(data, pos);
      var ctl := data[pos];
      var et := ctl % 0x20;
      if et == END_OF_CONTAINER {
        if depth == 0 {
          Fail(EndAtTop);
          return false;
        }
        pos := pos + 1;
        depth := depth - 1;
        return false;
      }
      pos := pos + 1;
      var t, tagOk := ReadTagBytes(ctl / 0x20);
      if !tagOk { return false; }
      tag := t;
      var valueOk := ReadValue(et);
      if !valueOk { return false; }
      valid := true;
      if typ.Container() { skipPending := true; }
      more := true;
    }

    /** Steps into the current container; false when there is none or it is too deep. */
    method Enter() returns (ok: bool)
      requires Valid()
      modifies this
      ensures Valid()
      ensures View() == EnterView(old(View()))
      ensures ok <==> Enterable(old(View())) && View().Ready?
    {
      if err.Some? { return false; }
      if !valid || !skipPending { return false; }
      if depth >= MAX_DEPTH {
        Fail(TooDeep);
        return false;
      }
      depth := depth + 1;
      valid, skipPending := false, false;
      ok := true;
    }

    /** The current scalar, taken with the getter for its type. */
    method Scalar() returns (v: Scalar)
      requires Valid() && valid && !typ.Container()
      ensures Value(v) == ItemNow()
    {
      match typ
      case TypeInt => v := Int(i);
      case TypeUint => v := Uint(u);
      case TypeBool => v := Bool(u != 0);
      case TypeFloat => v := f;
      case TypeString => v := Text(b);
      case TypeBytes => v := Octets(b);
      case TypeNull => v := Null;
    }

    /** The current element as an unsigned number; a signed one is taken when not negative. */
    method GetUint() returns (r: Option<uint64>)
      requires Valid()
      ensures r == (if valid && ItemNow().Value? then AsUint(ItemNow().scalar) else None)
    {
      if valid && typ == TypeUint { return Some(u); }
      if valid && typ == TypeInt && i >= 0 { return Some(i); }
      return None;
    }

    /** The current element as a signed number; an unsigned one is taken when it fits. */
    method GetInt() returns (r: Option<int64>)
      requires Valid()
      ensures r == (if valid && ItemNow().Value? then AsInt(ItemNow().scalar) else None)
    {
      if valid && typ == TypeInt { return Some(i); }
      if valid && typ == TypeUint && u <= 0x7FFF_FFFF_FFFF_FFFF { return Some(u); }
      return None;
    }
  }

  /** The number that a scalar holds, if it holds one. */
  function NumberIn(v: Scalar): Option<int> {
    match v
    case Int(i) => Some(i)
    case Uint(u) => Some(u)
    case _ => None
  }

  function AsUint(v: Scalar): (r: Option<uint64>)
    ensures r.Some? <==> NumberIn(v).Some? && 0 <= NumberIn(v).value < 0x1_0000_0000_0000_0000
    ensures r.Some? ==> r.value == NumberIn(v).value
  {
    match v
    case Int(i) => if i >= 0 then Some(i) else None
    case Uint(u) => Some(u)
    case _ => None
  }

  function AsInt(v: Scalar): (r: Option<int64>)
    ensures r.Some? <==> NumberIn(v).Some? && NumberIn(v).value < 0x8000_0000_0000_0000
    ensures r.Some? ==> r.value == NumberIn(v).value
  {
    match v
    case Int(i) => Some(i)
    case Uint(u) => if u <= 0x7FFF_FFFF_FFFF_FFFF then Some(u) else None
    case _ => None
  }

  function ItemFields(typ: Type, u: uint64, i: int64, f: Scalar, b: seq<byte>): Item
    requires typ != TypeInvalid
  {
    match typ
    case TypeInt => Value(Int(i))
    case TypeUint => Value(Uint(u))
    case TypeBool => Value(Bool(u != 0))
    case TypeFloat => Value(f)
    case TypeString => Value(Text(b))
    case TypeBytes => Value(Octets(b))
    case TypeNull => Value(Null)
    case TypeStructure => Open(Structure)
    case TypeArray => Open(Array)
    case TypeList => Open(List)
  }

  lemma FourBytes(s: seq<byte>)
    requires 4 <= |s|
    ensures NumberOf(s, 4) == Number(s, 4) < 0x1_0000_0000
  {
    Ranges();
  }

  /** Appending a most significant byte. */
  lemma {:induction false} FromLeSnoc(s: seq<byte>, x: byte)
    ensures FromLe(s + [x]) == FromLe(s) + x * Range(|s|)
  {
    if s == [] {
      assert s + [x] == [x];
      assert FromLe([x]) == x + 0x100 * FromLe([]);
    } else {
      assert (s + [x])[1..] == s[1..] + [x];
      FromLeSnoc(s[1..], x);
      assert x * Range(|s|) == x * (0x100 * Range(|s| - 1)) == 0x100 * (x * Range(|s| - 1));
    }
  }

  // ---------------------------------------------------------------------- reading through the interface

  /** One whole element, and the position behind it. */
  datatype Whole = Whole(element: Element, end: nat)

  /** The element that the reader stands on, with `pos` behind its head; `room` is what is left of the depth limit. */
  function WholeElement(data: seq<byte>, pos: nat, cur: Current, room: nat): (r: Result<Whole, Error>)
    requires pos <= |data|
    ensures r.Ok? ==> pos <= r.value.end <= |data|
  {
    match cur.item
    case Value(v) => Ok(Whole(Leaf(cur.tag, v), pos))
    case Open(k) =>
      if room == 0 then Err(TooDeep)
      else
        var inner :- Members(data, pos, room - 1);
        Ok(Whole(Node(cur.tag, k, inner.members), inner.end))
  }

  /** Reading the members that remain after a call of Next. */
  function FromView(data: seq<byte>, v: View, room: nat): (r: Result<Body, Error>)
    requires v.Ready? ==> v.pos <= |data|
  {
    if v.Failed? then Err(v.error)
    else if v.cur == None then Ok(Body([], v.pos))
    else
      var w :- WholeElement(data, v.pos, v.cur.value, room);
      More(w.element, Members(data, w.end, room))
  }

  /** Reading a body is calling Next and going on from what it reports. */
  lemma {:induction false} MembersByNext(data: seq<byte>, pos: nat, depth: nat, room: nat)
    requires pos <= |data| && depth > 0
    ensures Members(data, pos, room) ==
            FromView(data, NextView(data, Ready(pos, depth, None)), room)
  {
    hide HeadAt;
  }

  function Prepend(es: seq<Element>, r: Result<Body, Error>): Result<Body, Error> {
    match r
    case Err(e) => Err(e)
    case Ok(b) => Ok(Body(es + b.members, b.end))
  }

  lemma PrependNothing(r: Result<Body, Error>)
    ensures Prepend([], r) == r
  {
    if r.Ok? { assert [] + r.value.members == r.value.members; }
  }

  lemma PrependMore(es: seq<Element>, e: Element, r: Result<Body, Error>)
    ensures Prepend(es, More(e, r)) == Prepend(es + [e], r)
  {
    if r.Ok? { assert es + ([e] + r.value.members) == es + [e] + r.value.members; }
  }

  /**
   * Reads the current element, a container by entering it and reading its members. Afterwards the
   * reader stands behind the element, at the same depth.
   */
  method ReadElement(r: Reader) returns (e: Element)
    requires r.Valid() && HasCurrent(r.View())
    modifies r
    ensures r.Valid()
    ensures match WholeElement(r.data, old(r.pos), old(r.View().cur.value), MAX_DEPTH - old(r.depth))
            case Ok(w) => e == w.element && Behind(r.View(), w.end, old(r.depth))
            case Err(x) => r.View() == Failed(x)
    decreases |r.data| - r.pos, 1
  {
    hide Members;
    var t := r.tag;
    if !r.typ.Container() {
      var v := r.Scalar();
      return Leaf(t, v);
    }
    var kind := if r.typ == TypeStructure then Structure else if r.typ == TypeArray then Array else List;
    var ok := r.Enter();
    e := Node(t, kind, []);
    if !ok { return; }
    var members := ReadBody(r);
    e := Node(t, kind, members);
  }

  /** The reader is at the given place with no unentered container in the way. */
  predicate Behind(v: View, pos: nat, depth: nat) {
    v.Ready? && v.pos == pos && v.depth == depth && (v.cur.Some? ==> v.cur.value.item.Value?)
  }

  /** The reader once the current element has been read whole. */
  function Past(v: View, end: nat): (w: View)
    requires HasCurrent(v)
  {
    if v.cur.value.item.Open? then Ready(end, v.depth, None) else v
  }

  /** Reading heads never runs into the depth limit; only entering does. */
  lemma NextIsNotTooDeep(data: seq<byte>, v: View)
    requires v.Ready? && v.pos <= |data| && Behind(v, v.pos, v.depth)
    ensures NextView(data, v) != Failed(TooDeep)
  {
    hide Number, NumberOf, SignExtend;
    if v.pos < |data| { HeadParts(data, v.pos); }
  }

  /** Between two calls of Next: what the recursive reading still has to give is what is in front of the reader. */
  ghost predicate Reading(data: seq<byte>, v: View, es: seq<Element>, depth: nat, room: nat, result: Result<Body, Error>) {
    && (v.Ready? ==> v.pos <= |data| && v.depth + (if v.cur.Some? then 0 else 1) == depth)
    && result == Prepend(es, FromView(data, v, room))
  }

  lemma ReadingStarts(data: seq<byte>, pos: nat, depth: nat, room: nat)
    requires pos <= |data| && depth > 0
    ensures Reading(data, NextView(data, Ready(pos, depth, None)), [], depth, room, Members(data, pos, room))
    ensures NextView(data, Ready(pos, depth, None)) != Failed(TooDeep)
  {
    hide HeadAt, Members, WholeElement;
    MembersByNext(data, pos, depth, room);
    PrependNothing(Members(data, pos, room));
    NextIsNotTooDeep(data, Ready(pos, depth, None));
  }

  /** Once the current element has been read whole, the reading goes on behind it. */
  lemma ReadingGoesOn(data: seq<byte>, before: View, after: View, es: seq<Element>, depth: nat, room: nat, result: Result<Body, Error>)
    requires Reading(data, before, es, depth, room, result) && HasCurrent(before) && depth > 0
    requires WholeElement(data, before.pos, before.cur.value, room).Ok?
    requires Behind(after, WholeElement(data, before.pos, before.cur.value, room).value.end, depth)
    ensures after.pos <= |data|
    ensures var e := WholeElement(data, before.pos, before.cur.value, room).value.element;
            Reading(data, NextView(data, after), es + [e], depth, room, result)
    ensures NextView(data, after) != Failed(TooDeep)
  {
    hide HeadAt, Members, WholeElement;
    var whole := WholeElement(data, before.pos, before.cur.value, room).value;
    PrependMore(es, whole.element, Members(data, whole.end, room));
    NextBehind(data, after);
    NextIsNotTooDeep(data, after);
    MembersByNext(data, whole.end, depth, room);
  }

  /** A reading that fails fails as a whole. */
  lemma ReadingFails(data: seq<byte>, before: View, es: seq<Element>, depth: nat, room: nat, result: Result<Body, Error>)
    requires Reading(data, before, es, depth, room, result) && HasCurrent(before)
    requires WholeElement(data, before.pos, before.cur.value, room).Err?
    ensures result == Err(WholeElement(data, before.pos, before.cur.value, room).error)
  {
  }

  lemma ReadingEnds(data: seq<byte>, v: View, es: seq<Element>, depth: nat, room: nat, result: Result<Body, Error>)
    requires Reading(data, v, es, depth, room, result) && !HasCurrent(v)
    ensures v.Failed? ==> result == Err(v.error)
    ensures v.Ready? ==> result == Ok(Body(es, v.pos)) && depth > 0 && v == Ready(v.pos, depth - 1, None)
  {
    assert es + [] == es;
  }

  /**
   * Iterates an entered container to its end. The members come out as the recursive reading
   * defines them, the reader is back at the parent level, and an error is the one that the
   * recursive reading meets first.
   */
  method ReadBody(r: Reader) returns (es: seq<Element>)
    requires r.Valid() && r.View().Ready? && r.View().cur == None && r.depth > 0
    modifies r
    ensures r.Valid()
    ensures match Members(r.data, old(r.pos), MAX_DEPTH - old(r.depth))
            case Ok(b) => es == b.members && r.View() == Ready(b.end, old(r.depth) - 1, None)
            case Err(e) => r.View() == Failed(e)
    decreases |r.data| - r.pos, 0
  {
    hide Members, WholeElement, Resume, Reading, HeadView, ItemFields;
    ghost var depth, room, result := r.depth, MAX_DEPTH - r.depth, Members(r.data, r.pos, MAX_DEPTH - r.depth);
    es := [];
    ReadingStarts(r.data, r.pos, depth, room);
    var more := r.Next();
    while more
      invariant r.Valid() && more == HasCurrent(r.View()) && (more ==> r.pos > old(r.pos) && r.depth == depth)
      invariant Reading(r.data, r.View(), es, depth, room, result)
      decreases more, |r.data| - r.pos
    {
      ghost var before := r.View();
      var e := ReadElement(r);
      if r.err.Some? {
        ReadingFails(r.data, before, es, depth, room, result);
        return;
      }
      ReadingGoesOn(r.data, before, r.View(), es, depth, room, result);
      es := es + [e];
      more := r.Next();
    }
    ReadingEnds(r.data, r.View(), es, depth, room, result);
  }

  /** Next does not depend on the current element unless that is an unentered container. */
  lemma NextBehind(data: seq<byte>, v: View)
    requires v.Ready? && v.pos <= |data| && Behind(v, v.pos, v.depth)
    ensures NextView(data, v) == NextView(data, v.(cur := None))
  {
  }

  /**
   * An unentered container is no obstacle: where entering it and reading it to the end succeeds,
   * Next called at once reports what Next reports after the reading.
   */
  lemma SkippingRefinesReading(data: seq<byte>, v: View)
    requires Enterable(v) && v.pos <= |data| && v.depth <= MAX_DEPTH
    requires WholeElement(data, v.pos, v.cur.value, MAX_DEPTH - v.depth).Ok?
    ensures var end := WholeElement(data, v.pos, v.cur.value, MAX_DEPTH - v.depth).value.end;
            NextView(data, v) == NextView(data, Ready(end, v.depth, None))
  {
    hide HeadAt, Members, Skip;
    SkipInside(data, v.pos, v.depth);
  }
}
