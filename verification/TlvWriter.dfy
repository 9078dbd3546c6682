/** The streaming encoder: errors stick and are reported only by Finish. */
module TlvWriter {
  import opened Bytes
  import opened TlvFormat
  import opened TlvTree

  datatype WriteError = ContextTagRange | UnknownTagKind | EndWithoutOpen | LeftOpen

  /** The error state after an element with tag t was put. */
  function AfterTag(err: Option<WriteError>, t: Tag): (r: Option<WriteError>)
    ensures r == None <==> err == None && t.Writable()
  {
    if err.Some? then err
    else if t.kind == OtherKind then Some(UnknownTagKind)
    else if t.kind == Context && t.num > 0xFF then Some(ContextTagRange)
    else None
  }

  lemma HeadJoins(buf: seq<byte>, t: Tag, x: Item)
    ensures buf + [ControlByte(TagControl(t), ItemType(x))] + TagBytes(t) + ItemBytes(x) == buf + EncHead(t, x)
  {
  }

  lemma {:induction false} BlobJoins(buf: seq<byte>, t: Tag, baseType: nat, b: seq<byte>)
    requires baseType == UTF8_LEN1 || baseType == BYTES_LEN1
    ensures var code := UintCode(|b|);
            buf + [ControlByte(TagControl(t), baseType + code)] + TagBytes(t) + Le(|b|, Width(code)) + b ==
            buf + EncHead(t, Value(BlobValue(baseType, b)))
  {
    hide EncHead, TagBytes, ItemBytes, ItemType;
    BlobItem(baseType, b);
    HeadJoins(buf, t, Value(BlobValue(baseType, b)));
    var code := UintCode(|b|);
    Assoc(buf + [ControlByte(TagControl(t), baseType + code)] + TagBytes(t), Le(|b|, Width(code)), b);
  }

  /** Strings and octet strings share one layout and differ in the base element type. */
  function BlobValue(baseType: nat, b: seq<byte>): Scalar {
    if baseType == UTF8_LEN1 then Text(b) else Octets(b)
  }

  lemma {:induction false} BlobItem(baseType: nat, b: seq<byte>)
    requires baseType == UTF8_LEN1 || baseType == BYTES_LEN1
    ensures ItemType(Value(BlobValue(baseType, b))) == baseType + UintCode(|b|)
    ensures ItemBytes(Value(BlobValue(baseType, b))) == Le(|b|, Width(UintCode(|b|))) + b
  {
    hide ItemType, ItemBytes;
    if baseType == UTF8_LEN1 {
      TextItem(b);
    } else {
      OctetsItem(b);
    }
  }

  lemma TextItem(b: seq<byte>)
    ensures ItemType(Value(Text(b))) == UTF8_LEN1 + UintCode(|b|)
    ensures ItemBytes(Value(Text(b))) == Le(|b|, Width(UintCode(|b|))) + b
  {
    hide Le, Width, UintCode;
  }

  lemma OctetsItem(b: seq<byte>)
    ensures ItemType(Value(Octets(b))) == BYTES_LEN1 + UintCode(|b|)
    ensures ItemBytes(Value(Octets(b))) == Le(|b|, Width(UintCode(|b|))) + b
  {
    hide Le, Width, UintCode;
  }

  lemma Assoc(a: seq<byte>, b: seq<byte>, c: seq<byte>)
    ensures a + b + c == a + (b + c)
  {
  }

  lemma NodeJoins(buf: seq<byte>, t: Tag, k: Kind, members: seq<Element>)
    ensures buf + EncHead(t, Open(k)) + EncAll(members) + [END_OF_CONTAINER] == buf + Enc(Node(t, k, members))
  {
    hide EncHead;
  }

  class Writer {
    var buf: seq<byte>
    var depth: nat
    var err: Option<WriteError>

    constructor ()
      ensures buf == [] && depth == 0 && err == None
    {
      buf, depth, err := [], 0, None;
    }

    method Fail(e: WriteError)
      modifies this`err
      ensures err == if old(err) == None then Some(e) else old(err)
    {
      if err == None { err := Some(e); }
    }

    method Control(t: Tag, elemType: nat)
      requires elemType < 0x20
      modifies this`buf, this`err
      ensures err == AfterTag(old(err), t)
      ensures err == None ==> buf == old(buf) + [ControlByte(TagControl(t), elemType)] + TagBytes(t)
    {
      if err.Some? { return; }
      match t.kind
      case Anonymous =>
        buf := buf + [ControlByte(0, elemType)];
      case Context =>
        if t.num > 0xFF {
          Fail(ContextTagRange);
          return;
        }
        assert Le(t.num, 1) == [t.num];
        buf := buf + [ControlByte(1, elemType)] + [t.num];
      case CommonProfile =>
        if t.num <= 0xFFFF {
          buf := buf + [ControlByte(2, elemType)] + Le(t.num, 2);
        } else {
          buf := buf + [ControlByte(3, elemType)] + Le(t.num, 4);
        }
      case ImplicitProfile =>
        if t.num <= 0xFFFF {
          buf := buf + [ControlByte(4, elemType)] + Le(t.num, 2);
        } else {
          buf := buf + [ControlByte(5, elemType)] + Le(t.num, 4);
        }
      case FullyQualified =>
        if t.num <= 0xFFFF {
          buf := buf + [ControlByte(6, elemType)] + (Le(t.vendor, 2) + Le(t.profile, 2) + Le(t.num, 2));
        } else {
          buf := buf + [ControlByte(7, elemType)] + (Le(t.vendor, 2) + Le(t.profile, 2) + Le(t.num, 4));
        }
      case OtherKind =>
        Fail(UnknownTagKind);
    }

    /** Appends the low `width` bytes of v one by one. */
    method AppendLE(v: uint64, width: nat)
      modifies this`buf
      ensures buf == old(buf) + Le(v, width)
    {
      var shifted: nat := v;
      for i := 0 to width
        invariant buf + Le(shifted, width - i) == old(buf) + Le(v, width)
      {
        assert buf + Le(shifted, width - i) == (buf + [shifted % 0x100]) + Le(shifted / 0x100, width - i - 1);
        buf := buf + [shifted % 0x100];
        shifted := shifted / 0x100;
      }
    }

    method PutUint(t: Tag, v: uint64)
      modifies this`buf, this`err
      ensures err == AfterTag(old(err), t)
      ensures err == None ==> buf == old(buf) + EncHead(t, Value(Uint(v)))
    {
      var et, width;
      if v <= 0xFF {
        et, width := UINT8, 1;
      } else if v <= 0xFFFF {
        et, width := UINT8 + 1, 2;
      } else if v <= 0xFFFF_FFFF {
        et, width := UINT8 + 2, 4;
      } else {
        et, width := UINT8 + 3, 8;
      }
      Control(t, et);
      AppendLE(v, width);
      HeadJoins(old(buf), t, Value(Uint(v)));
    }

    method PutInt(t: Tag, v: int64)
      modifies this`buf, this`err
      ensures err == AfterTag(old(err), t)
      ensures err == None ==> buf == old(buf) + EncHead(t, Value(Int(v)))
    {
      var et, width;
      if -0x80 <= v <= 0x7F {
        et, width := INT8, 1;
      } else if -0x8000 <= v <= 0x7FFF {
        et, width := INT8 + 1, 2;
      } else if -0x8000_0000 <= v <= 0x7FFF_FFFF {
        et, width := INT8 + 2, 4;
      } else {
        et, width := INT8 + 3, 8;
      }
      Control(t, et);
      AppendLE(TwosComplement(v), width);
      HeadJoins(old(buf), t, Value(Int(v)));
    }

    method PutBool(t: Tag, v: bool)
      modifies this`buf, this`err
      ensures err == AfterTag(old(err), t)
      ensures err == None ==> buf == old(buf) + EncHead(t, Value(Bool(v)))
    {
      if v {
        Control(t, BOOL_TRUE);
      } else {
        Control(t, BOOL_FALSE);
      }
      HeadJoins(old(buf), t, Value(Bool(v)));
    }

    method PutFloat32(t: Tag, bits: uint32)
      modifies this`buf, this`err
      ensures err == AfterTag(old(err), t)
      ensures err == None ==> buf == old(buf) + EncHead(t, Value(Single(bits)))
    {
      Control(t, FLOAT32);
      AppendLE(bits, 4);
      HeadJoins(old(buf), t, Value(Single(bits)));
    }

    method PutFloat64(t: Tag, bits: uint64)
      modifies this`buf, this`err
      ensures err == AfterTag(old(err), t)
      ensures err == None ==> buf == old(buf) + EncHead(t, Value(Double(bits)))
    {
      Control(t, FLOAT64);
      AppendLE(bits, 8);
      HeadJoins(old(buf), t, Value(Double(bits)));
    }

    method PutBlob(t: Tag, baseType: nat, b: seq<byte>)
      requires baseType == UTF8_LEN1 || baseType == BYTES_LEN1
      requires |b| < 0x1_0000_0000_0000_0000
      modifies this`buf, this`err
      ensures err == AfterTag(old(err), t)
      ensures err == None ==>
                buf == old(buf) + EncHead(t, Value(BlobValue(baseType, b)))
    {
      var n := |b|;
      var et, lenWidth;
      if n <= 0xFF {
        et, lenWidth := baseType, 1;
      } else if n <= 0xFFFF {
        et, lenWidth := baseType + 1, 2;
      } else if n <= 0xFFFF_FFFF {
        et, lenWidth := baseType + 2, 4;
      } else {
        et, lenWidth := baseType + 3, 8;
      }
      Control(t, et);
      AppendLE(n, lenWidth);
      buf := buf + b;
      BlobJoins(old(buf), t, baseType, b);
    }

    method PutNull(t: Tag)
      modifies this`buf, this`err
      ensures err == AfterTag(old(err), t)
      ensures err == None ==> buf == old(buf) + EncHead(t, Value(Null))
    {
      Control(t, NULL);
      HeadJoins(old(buf), t, Value(Null));
    }

    /** Opens a structure, an array or a list; the depth grows even after an error. */
    method Start(t: Tag, kind: Kind)
      modifies this
      ensures err == AfterTag(old(err), t) && depth == old(depth) + 1
      ensures err == None ==> buf == old(buf) + EncHead(t, Open(kind))
    {
      match kind {
        case Structure => Control(t, STRUCTURE);
        case Array => Control(t, ARRAY);
        case List => Control(t, LIST);
      }
      HeadJoins(old(buf), t, Open(kind));
      depth := depth + 1;
    }

    method EndContainer()
      modifies this
      ensures old(err).Some? ==> err == old(err) && depth == old(depth)
      ensures old(err) == None && old(depth) == 0 ==> err == Some(EndWithoutOpen)
      ensures old(err) == None && old(depth) > 0 ==>
                err == None && depth == old(depth) - 1 && buf == old(buf) + [END_OF_CONTAINER]
    {
      if err.Some? { return; }
      if depth == 0 {
        Fail(EndWithoutOpen);
        return;
      }
      buf := buf + [END_OF_CONTAINER];
      depth := depth - 1;
    }

    /** Appends what is already encoded. */
    method Raw(b: seq<byte>)
      modifies this`buf
      ensures err == None ==> buf == old(buf) + b
      ensures err.Some? ==> buf == old(buf)
    {
      if err == None { buf := buf + b; }
    }

    /** The encoding, unless a container is open or an earlier call failed. */
    method Finish() returns (r: Result<seq<byte>, WriteError>)
      ensures r == if err.Some? then Err(err.value) else if depth != 0 then Err(LeftOpen) else Ok(buf)
    {
      if err.Some? { return Err(err.value); }
      if depth != 0 { return Err(LeftOpen); }
      return Ok(buf);
    }
  }

  /** Puts one scalar with the method for its type. */
  method PutScalar(w: Writer, t: Tag, v: Scalar)
    requires v.Fits()
    modifies w`buf, w`err
    ensures w.err == AfterTag(old(w.err), t)
    ensures w.err == None ==> w.buf == old(w.buf) + EncHead(t, Value(v))
  {
    match v
    case Int(i) => w.PutInt(t, i);
    case Uint(u) => w.PutUint(t, u);
    case Bool(b) => w.PutBool(t, b);
    case Single(bits) => w.PutFloat32(t, bits);
    case Double(bits) => w.PutFloat64(t, bits);
    case Text(b) => w.PutBlob(t, UTF8_LEN1, b);
    case Octets(b) => w.PutBlob(t, BYTES_LEN1, b);
    case Null => w.PutNull(t);
  }

  /**
   * Writes a forest of elements the way its callers do: Put for a scalar, Start, the
   * members and EndContainer for a container. The writer ends where it started, with the encoding
   * appended.
   */
  method PutAll(w: Writer, es: seq<Element>)
    requires AllWellFormed(es) && w.err == None
    modifies w
    ensures w.err == None && w.depth == old(w.depth)
    ensures w.buf == old(w.buf) + EncAll(es)
    decreases es
  {
    hide EncHead;
    if es == [] { return; }
    match es[0] {
      case Leaf(t, v) =>
        PutScalar(w, t, v);
      case Node(t, kind, members) =>
        w.Start(t, kind);
        PutAll(w, members);
        w.EndContainer();
        NodeJoins(old(w.buf), t, kind, members);
    }
    Assoc(old(w.buf), Enc(es[0]), EncAll(es[1..]));
    PutAll(w, es[1..]);
  }

  /** Encodes a document, and reading it back gives the same elements. */
  method Encode(es: seq<Element>) returns (data: seq<byte>)
    requires AllWellFormed(es)
    ensures data == EncAll(es)
    ensures Height(es) <= MAX_DEPTH ==> Document(data, 0, MAX_DEPTH) == Ok(Body(es, |data|))
  {
    var w := new Writer();
    PutAll(w, es);
    var r := w.Finish();
    data := r.value;
    if Height(es) <= MAX_DEPTH { DocumentRoundTrip(data, 0, es, MAX_DEPTH); }
  }
}
