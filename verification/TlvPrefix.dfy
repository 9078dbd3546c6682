module TlvPrefix {
  // The format is self-delimiting: whatever a reader made of the bytes up to some point, it makes of them
  // also when more bytes follow.

  import opened Bytes
  import opened TlvFormat
  import opened TlvTree
  import opened TlvReader
  import opened TlvLoop

  lemma NumberStays(s: seq<byte>, more: seq<byte>, width: nat)
    requires width <= |s|
    ensures Number(s + more, width) == Number(s, width)
    ensures 1 <= width <= 8 ==> NumberOf(s + more, width) == NumberOf(s, width)
  {
    assert (s + more)[..width] == s[..width];
  }

  lemma TagStays(tc: nat, s: seq<byte>, more: seq<byte>)
    requires tc < 8 && ReadTag(tc, s).Ok?
    ensures ReadTag(tc, s + more) == ReadTag(tc, s)
  {
    hide Number;
    var n := ReadTag(tc, s).value.size;
    if n >= 1 { NumberStays(s, more, 1); }
    if n >= 2 { NumberStays(s, more, 2); }
    if n >= 4 { NumberStays(s, more, 4); }
    if n >= 6 {
      assert (s + more)[2..] == s[2..] + more && (s + more)[4..] == s[4..] + more;
      NumberStays(s[2..], more, 2);
      NumberStays(s[4..], more, 2);
    }
    if n >= 8 { NumberStays(s[4..], more, 4); }
  }

  lemma BlobStays(s: seq<byte>, more: seq<byte>, width: nat)
    requires 1 <= width <= 8 && ReadBlob(s, width).Ok?
    ensures ReadBlob(s + more, width) == ReadBlob(s, width)
  {
    hide NumberOf;
    NumberStays(s, more, width);
    var n := NumberOf(s, width);
    assert (s + more)[width..width + n] == s[width..width + n];
  }

  lemma ItemStays(et: nat, s: seq<byte>, more: seq<byte>)
    requires et < 0x20 && ReadItem(et, s).Ok?
    ensures ReadItem(et, s + more) == ReadItem(et, s)
  {
    hide NumberOf, Number, ReadBlob, SignExtend;
    if et <= 0x07 { NumberStays(s, more, Width(et % 4)); }
    if et == FLOAT32 { NumberStays(s, more, 4); }
    if et == FLOAT64 { NumberStays(s, more, 8); }
    if 0x0C <= et <= 0x13 { BlobStays(s, more, Width(et % 4)); }
  }

  lemma HeadStays(data: seq<byte>, more: seq<byte>, p: nat)
    requires p < |data| && !HeadAt(data, p).Bad?
    ensures HeadAt(data + more, p) == HeadAt(data, p)
  {
    hide ReadTag, ReadItem;
    var s := data[p..];
    assert (data + more)[p..] == s + more && (s + more)[0] == s[0] && (s + more)[1..] == s[1..] + more;
    if s[0] % 0x20 != END_OF_CONTAINER {
      TagStays(s[0] / 0x20, s[1..], more);
      var t := ReadTag(s[0] / 0x20, s[1..]).value;
      assert (s + more)[1 + t.size..] == s[1 + t.size..] + more;
      ItemStays(s[0] % 0x20, s[1 + t.size..], more);
    }
  }

  lemma {:induction false} SkipStays(data: seq<byte>, more: seq<byte>, p: nat, level: nat)
    requires p <= |data| && Skip(data, p, level).Ok?
    ensures Skip(data + more, p, level) == Skip(data, p, level)
    decreases |data| - p
  {
    hide HeadAt;
    if level > 0 {
      HeadStays(data, more, p);
      match HeadAt(data, p)
      case End => SkipStays(data, more, p + 1, level - 1);
      case Elem(_, Value(_), n) => SkipStays(data, more, p + n, level);
      case Elem(_, Open(_), n) => SkipStays(data, more, p + n, level + 1);
    }
  }

  /** Next, where it does not report the end of the input. */
  lemma NextStays(data: seq<byte>, more: seq<byte>, v: View)
    requires Within(data, v) && NextView(data, v).Ready? && (v.depth > 0 || HasCurrent(NextView(data, v)))
    ensures NextView(data + more, v) == NextView(data, v)
  {
    hide HeadAt, Skip;
    if v.cur.Some? && v.cur.value.item.Open? { SkipStays(data, more, v.pos, 1); }
    var p := Resume(data, v.pos, v.cur).value;
    HeadStays(data, more, p);
  }

  /** A loop whose step leaves the reader where it is. */
  ghost predicate Standing<S(!new), E(!new)>(step: (S, View) -> Done<S, E>) {
    forall s, v :: step(s, v).v == v
  }

  lemma {:induction false} EachStays<S(!new), E(!new)>(data: seq<byte>, more: seq<byte>, v: View, s: S, step: (S, View) -> Done<S, E>)
    requires Within(data, v) && Standing(step) && v.Ready? && (HasCurrent(v) ==> v.depth > 0)
    requires Each(data, v, s, step).r.Ok? && Each(data, v, s, step).v.Ready?
    ensures Within(data + more, v) && Each(data + more, v, s, step) == Each(data, v, s, step)
    decreases if HasCurrent(v) then |data| - v.pos + 1 else 0
  {
    hide NextView;
    if HasCurrent(v) {
      assert step(s, v).v == v;
      var w := NextView(data, v);
      if w.Failed? {
        assert false;
      } else {
        NextStays(data, more, v);
        EachStays(data, more, w, step(s, v).r.value, step);
      }
    }
  }

  /** A message that is read without error is read the same when more bytes follow. */
  lemma MessageStays<S(!new), E(!new)>(data: seq<byte>, more: seq<byte>, s: S, notAStructure: E, step: (S, View) -> Done<S, E>)
    requires Standing(step)
    requires Message(data, s, notAStructure, step).r.Ok? && Message(data, s, notAStructure, step).v.Ready?
    ensures Message(data + more, s, notAStructure, step) == Message(data, s, notAStructure, step)
  {
    hide NextView, Each;
    NextStays(data, more, Ready(0, 0, None));
    var v := Opened(data).value;
    LoopIsReady(data, NextView(data, v), s, step);
    NextStays(data, more, v);
    EachStays(data, more, NextView(data, v), s, step);
  }

  lemma LoopIsReady<S, E>(data: seq<byte>, v: View, s: S, step: (S, View) -> Done<S, E>)
    requires Within(data, v) && Each(data, v, s, step).v.Ready?
    ensures v.Ready?
  {
  }
}
