/**
 * Iterating an encoded container: what the decoders of the typed messages rely on. A reader that faces
 * encoded members meets them one by one, whether it enters the containers among them or leaves them be.
 */
module TlvWalk {
  import opened Bytes
  import opened TlvFormat
  import opened TlvTree
  import opened TlvReader

  /** What still lies in front of the reader: these members, the end marker of their container and the rest. */
  ghost predicate Facing(data: seq<byte>, v: View, es: seq<Element>, depth: nat, rest: seq<byte>) {
    && v.Ready? && v.pos <= |data| && v.depth == depth <= MAX_DEPTH
    && AllWellFormed(es) && Height(es) <= MAX_DEPTH - depth
    && match Resume(data, v.pos, v.cur)
       case Err(_) => false
       case Ok(p) => data[p..] == EncAll(es) + [END_OF_CONTAINER] + rest
  }

  /** What lies behind the end marker. */
  ghost predicate Left(data: seq<byte>, v: View, depth: nat, rest: seq<byte>) {
    v.Ready? && v.cur == None && v.pos <= |data| && v.depth == depth && data[v.pos..] == rest
  }

  /** At the end marker the reader goes back to the level above. */
  lemma NextAtEnd(data: seq<byte>, v: View, depth: nat, rest: seq<byte>)
    requires Facing(data, v, [], depth, rest) && depth > 0
    ensures Left(data, NextView(data, v), depth - 1, rest)
  {
    var p := Resume(data, v.pos, v.cur).value;
    assert EncAll([]) + [END_OF_CONTAINER] + rest == [END_OF_CONTAINER] + rest;
    SuffixAt(data, p, [END_OF_CONTAINER], rest);
    EndAt(data, p);
  }

  /** Otherwise it stands on the first member; a container may be entered or passed over. */
  lemma NextAtMember(data: seq<byte>, v: View, es: seq<Element>, depth: nat, rest: seq<byte>)
    requires Facing(data, v, es, depth, rest) && es != []
    ensures var n, e, more := NextView(data, v), es[0], EncAll(es[1..]) + [END_OF_CONTAINER] + rest;
            && n.Ready? && n.depth == depth && n.cur == Some(Current(e.tag, ItemOf(e)))
            && Facing(data, n, es[1..], depth, rest)
            && (e.Node? ==> Facing(data, EnterView(n), e.members, depth + 1, more))
  {
    hide HeadAt, EncHead, Skip, AllWellFormed, WellFormed, Height;
    var p := Resume(data, v.pos, v.cur).value;
    var e, more := es[0], EncAll(es[1..]) + [END_OF_CONTAINER] + rest;
    assert EncAll(es) + [END_OF_CONTAINER] + rest == Enc(e) + more;
    SuffixAt(data, p, Enc(e), more);
    FirstOf(es, MAX_DEPTH - depth);
    match e
    case Leaf(t, x) =>
      HeadAtRoundTrip(data, p, t, Value(x));
    case Node(t, k, inner) =>
      NodeAhead(data, p, t, k, inner, more, depth);
  }

  lemma NodeAhead(data: seq<byte>, p: nat, t: Tag, k: Kind, inner: seq<Element>, more: seq<byte>, depth: nat)
    requires p <= |data| && data[p..] == Enc(Node(t, k, inner)) + more && t.Canonical()
    requires AllWellFormed(inner) && depth + 1 + Height(inner) <= MAX_DEPTH
    ensures var n := |EncHead(t, Open(k))|;
            && p < |data| && HeadAt(data, p) == Elem(t, Open(k), n)
            && p + n <= |data| && data[p + n..] == EncAll(inner) + [END_OF_CONTAINER] + more
            && Skip(data, p + n, 1) == Ok(p + |Enc(Node(t, k, inner))|)
            && data[p + |Enc(Node(t, k, inner))|..] == more
  {
    hide HeadAt, EncHead;
    var e := Node(t, k, inner);
    var head, body := EncHead(t, Open(k)), EncAll(inner) + [END_OF_CONTAINER];
    assert Enc(e) == head + body;
    SuffixAt(data, p, Enc(e), more);
    InnerAt(data, p, t, k, inner);
    assert Enc(e) + more == head + (body + more);
    SuffixAt(data, p, head, body + more);
    SkipIsDrain(data, p + |head|);
    MembersRoundTrip(data, p + |head|, inner, MAX_DEPTH - 1);
  }

  /** A document that starts with one container, before the first call of Next. */
  lemma Start(data: seq<byte>, t: Tag, k: Kind, es: seq<Element>, rest: seq<byte>)
    requires data == Enc(Node(t, k, es)) + rest && t.Canonical() && AllWellFormed(es) && Height(es) < MAX_DEPTH
    ensures var n := NextView(data, Ready(0, 0, None));
            && n.Ready? && n.depth == 0 && n.cur == Some(Current(t, Open(k)))
            && Facing(data, EnterView(n), es, 1, rest)
  {
    hide HeadAt, EncHead, Skip, Enc;
    assert data[0..] == data;
    NodeAhead(data, 0, t, k, es, rest, 0);
  }

  /** Behind an entered member the reader faces the members after it. */
  lemma BackFacing(data: seq<byte>, v: View, es: seq<Element>, depth: nat, rest: seq<byte>)
    requires Left(data, v, depth, EncAll(es) + [END_OF_CONTAINER] + rest) && depth <= MAX_DEPTH
    requires AllWellFormed(es) && Height(es) <= MAX_DEPTH - depth
    ensures Facing(data, v, es, depth, rest)
  {
  }

  // ---------------------------------------------------------------------- the decoders' view

  /** What lies behind the first of the members that the reader faces. */
  function Tail(es: seq<Element>, rest: seq<byte>): seq<byte> { EncAll(es) + [END_OF_CONTAINER] + rest }

  /** The reader stands on an element; if that is a container, its members are in front of it. */
  ghost predicate On(data: seq<byte>, v: View, e: Element, depth: nat, more: seq<byte>) {
    && v.Ready? && v.depth == depth && v.cur == Some(Current(e.tag, ItemOf(e)))
    && (e.Node? ==> Facing(data, EnterView(v), e.members, depth + 1, more))
  }

  /** One call of Next in front of the members es. */
  lemma Walk(data: seq<byte>, v: View, es: seq<Element>, depth: nat, rest: seq<byte>)
    requires Facing(data, v, es, depth, rest) && depth > 0
    ensures es == [] ==> Left(data, NextView(data, v), depth - 1, rest)
    ensures es != [] ==>
              && On(data, NextView(data, v), es[0], depth, Tail(es[1..], rest))
              && Facing(data, NextView(data, v), es[1..], depth, rest)
  {
    hide Facing, NextView, EnterView;
    if es == [] { NextAtEnd(data, v, depth, rest); } else { NextAtMember(data, v, es, depth, rest); }
  }

  /** Once the members of the element it stood on are read, the reader faces the members after it. */
  lemma Returned(data: seq<byte>, before: View, v: View, es: seq<Element>, depth: nat, rest: seq<byte>)
    requires Facing(data, before, es, depth, rest)
    requires Left(data, v, depth, Tail(es, rest))
    ensures Facing(data, v, es, depth, rest)
  {
    BackFacing(data, v, es, depth, rest);
  }

  lemma TakeMore<T>(s: seq<T>, k: nat)
    requires k < |s|
    ensures s[..k] + [s[k]] == s[..k + 1]
  {
  }

  // ---------------------------------------------------------------------- the encoders' view

  function Ctx(n: byte): (t: Tag)
    ensures t.Canonical() && t.Writable()
  {
    Tag(Context, 0, 0, n)
  }

  lemma NothingYet(start: seq<byte>, es: seq<Element>)
    ensures start + EncAll(es[..0]) == start
  {
  }

  /** Putting the k-th element behind those already put. */
  lemma Appended(start: seq<byte>, es: seq<Element>, k: nat)
    requires k < |es|
    ensures start + EncAll(es[..k]) + Enc(es[k]) == start + EncAll(es[..k + 1])
  {
    hide Enc, EncAll;
    EncAllSnoc(es[..k], es[k]);
    TakeMore(es, k);
    assert start + EncAll(es[..k]) + Enc(es[k]) == start + (EncAll(es[..k]) + Enc(es[k]));
  }

  /** What is in the writer when the members of a container have been put and it is closed. */
  lemma Closed(start: seq<byte>, t: Tag, k: Kind, es: seq<Element>)
    ensures start + EncHead(t, Open(k)) + EncAll(es[..|es|]) + [END_OF_CONTAINER] == start + Enc(Node(t, k, es))
    ensures start == [] ==> start + Enc(Node(t, k, es)) == Enc(Node(t, k, es))
  {
    hide EncHead;
    assert es[..|es|] == es;
    assert EncHead(t, Open(k)) + EncAll(es) + [END_OF_CONTAINER] == Enc(Node(t, k, es));
  }

  /** A flat structure of storable members is well formed and has no nesting. */
  lemma {:induction false} FlatIsWellFormed(es: seq<Element>)
    requires forall e :: e in es ==> e.Leaf? && e.tag.Canonical() && e.scalar.Fits()
    ensures AllWellFormed(es) && Height(es) == 0
  {
    if es != [] { FlatIsWellFormed(es[1..]); }
  }

  lemma OneNode(e: Element)
    requires e.Node? && e.tag.Canonical() && AllWellFormed(e.members)
    ensures AllWellFormed([e]) && Height([e]) == 1 + Height(e.members)
  {
    assert [e] == [e] + [];
    Cons(e, []);
  }

  lemma {:induction false} Joined(a: seq<Element>, b: seq<Element>)
    requires AllWellFormed(a) && AllWellFormed(b)
    ensures AllWellFormed(a + b) && Height(a + b) == Max(Height(a), Height(b))
  {
    if a == [] {
      assert a + b == b;
    } else {
      assert a == [a[0]] + a[1..] && a + b == [a[0]] + (a[1..] + b);
      Joined(a[1..], b);
      Cons(a[0], a[1..] + b);
    }
  }
}
