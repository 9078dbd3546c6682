/** The messages of CASE (section 4.14.2 of the Matter Core Specification): encoders, decoders, and that they invert each other. */
module SigmaMessages {
  import opened Bytes
  import opened PaseMessages
  import opened TlvFormat
  import opened TlvTree
  import opened TlvReader
  import opened TlvWriter
  import opened TlvLoop
  import opened TlvWalk

  /** Sigma1 and Sigma2 have one shape: a destination identifier and a key, or a key and a ciphertext. */
  datatype Sigma = Sigma(random: seq<byte>, session: uint16, third: seq<byte>, fourth: seq<byte>)

  function SigmaMembers(s: Sigma): seq<Element> {
    [Leaf(Ctx(1), Octets(s.random)), Leaf(Ctx(2), Uint(s.session)), Leaf(Ctx(3), Octets(s.third)),
     Leaf(Ctx(4), Octets(s.fourth))]
  }

  predicate StorableSigma(s: Sigma) { Storable(s.random) && Storable(s.third) && Storable(s.fourth) }

  /** The bytes of a Sigma1 or Sigma2. */
  function SigmaBytes(s: Sigma): seq<byte> { Enc(Node(ANONYMOUS, Structure, SigmaMembers(s))) }

  method EncodeSigma(s: Sigma) returns (b: Result<seq<byte>, MessageError>)
    requires StorableSigma(s)
    ensures b == Ok(SigmaBytes(s))
  {
    hide EncHead, EncAll;
    var w := new Writer();
    w.Start(ANONYMOUS, Structure);
    ghost var start, es := w.buf, SigmaMembers(s);
    NothingYet(start, es);
    w.PutBlob(Ctx(1), BYTES_LEN1, s.random);
    Appended(start, es, 0);
    w.PutUint(Ctx(2), s.session);
    Appended(start, es, 1);
    w.PutBlob(Ctx(3), BYTES_LEN1, s.third);
    Appended(start, es, 2);
    w.PutBlob(Ctx(4), BYTES_LEN1, s.fourth);
    Appended(start, es, 3);
    w.EndContainer();
    Closed([], ANONYMOUS, Structure, es);
    var done := w.Finish();
    b := Finished(done);
  }

  function SigmaField(got: Sigma, v: View): Result<Sigma, MessageError> {
    if !HasCurrent(v) then Ok(got)
    else if NumHere(v) == 1 || NumHere(v) == 3 || NumHere(v) == 4 then
      if BytesHere(v).None? then Err(WrongType)
      else if NumHere(v) == 1 then Ok(got.(random := BytesHere(v).value))
      else if NumHere(v) == 3 then Ok(got.(third := BytesHere(v).value))
      else Ok(got.(fourth := BytesHere(v).value))
    else if NumHere(v) == 2 then
      if UintHere(v, 0x1_0000).None? then Err(WrongType) else Ok(got.(session := UintHere(v, 0x1_0000).value))
    else Ok(got)
  }

  function SigmaStep(): (Sigma, View) -> Done<Sigma, MessageError> { (got, v) => Done(SigmaField(got, v), v) }

  const NO_SIGMA := Sigma([], 0, [], [])

  function SigmaDecoded(b: seq<byte>): Result<Sigma, MessageError> {
    var d := Message(b, NO_SIGMA, NotAStructure, SigmaStep());
    if d.r.Err? then d.r else if d.v.Failed? then Err(BadTlv(d.v.error)) else d.r
  }

  method DecodeSigma(b: seq<byte>) returns (res: Result<Sigma, MessageError>)
    ensures res == SigmaDecoded(b)
    ensures res.Ok? ==> StorableSigma(res.value)
  {
    hide NextView, Opened, ItemFields;
    var r, ok := OpenStructure(b);
    if !ok { return Err(NotAStructure); }
    var got := NO_SIGMA;
    var more := r.Next();
    while more
      invariant r.Valid() && more == HasCurrent(r.View()) && StorableSigma(got)
      invariant Each(b, r.View(), got, SigmaStep()) == Message(b, NO_SIGMA, NotAStructure, SigmaStep())
      decreases more, |b| - r.pos
    {
      if r.tag.num == 1 || r.tag.num == 3 || r.tag.num == 4 {
        var v := BytesField(r);
        if v.None? { return Err(WrongType); }
        got := if r.tag.num == 1 then got.(random := v.value)
               else if r.tag.num == 3 then got.(third := v.value)
               else got.(fourth := v.value);
      } else if r.tag.num == 2 {
        var v := UintField(r, 0x1_0000);
        if v.None? { return Err(WrongType); }
        got := got.(session := v.value);
      }
      more := r.Next();
    }
    if r.err.Some? { return Err(BadTlv(r.err.value)); }
    res := Ok(got);
  }

  /** A message is read back, whatever follows it. */
  lemma SigmaReadBack(s: Sigma, rest: seq<byte>)
    requires StorableSigma(s)
    ensures SigmaDecoded(SigmaBytes(s) + rest) == Ok(s)
  {
    hide Left, Enc, Message, AllWellFormed, Height, Facing, On;
    var es, b := SigmaMembers(s), SigmaBytes(s) + rest;
    FlatIsWellFormed(es);
    var s1 := NO_SIGMA.(random := s.random);
    var s2 := s1.(session := s.session);
    var s3 := s2.(third := s.third);
    LeafTaken(b, SigmaStep(), NO_SIGMA, s1, es[0], es[1..], 1, rest);
    LeafTaken(b, SigmaStep(), s1, s2, es[1], es[2..], 1, rest);
    LeafTaken(b, SigmaStep(), s2, s3, es[2], es[3..], 1, rest);
    LeafTaken(b, SigmaStep(), s3, s, es[3], es[4..], 1, rest);
    MessageMembers(b, ANONYMOUS, es, rest, [NO_SIGMA, s1, s2, s3, s], NotAStructure, SigmaStep());
    LeftIsReady(b, Message(b, NO_SIGMA, NotAStructure, SigmaStep()).v, 0, rest);
  }

  /** The plaintext of the encrypted part: certificates, the second of which may be absent, and a signature. */
  datatype Credentials = Credentials(noc: seq<byte>, icac: seq<byte>, signature: seq<byte>)

  function CredentialMembers(c: Credentials): seq<Element> {
    [Leaf(Ctx(1), Octets(c.noc))]
    + (if c.icac == [] then [] else [Leaf(Ctx(2), Octets(c.icac))])
    + [Leaf(Ctx(3), Octets(c.signature))]
  }

  predicate StorableCredentials(c: Credentials) { Storable(c.noc) && Storable(c.icac) && Storable(c.signature) }

  function CredentialBytes(c: Credentials): seq<byte> { Enc(Node(ANONYMOUS, Structure, CredentialMembers(c))) }

  method EncodeCredentials(c: Credentials) returns (b: Result<seq<byte>, MessageError>)
    requires StorableCredentials(c)
    ensures b == Ok(CredentialBytes(c))
  {
    hide EncHead, EncAll;
    var w := new Writer();
    w.Start(ANONYMOUS, Structure);
    ghost var start, es := w.buf, CredentialMembers(c);
    NothingYet(start, es);
    w.PutBlob(Ctx(1), BYTES_LEN1, c.noc);
    Appended(start, es, 0);
    if c.icac != [] {
      w.PutBlob(Ctx(2), BYTES_LEN1, c.icac);
      Appended(start, es, 1);
    }
    w.PutBlob(Ctx(3), BYTES_LEN1, c.signature);
    Appended(start, es, |es| - 1);
    w.EndContainer();
    Closed([], ANONYMOUS, Structure, es);
    var done := w.Finish();
    b := Finished(done);
  }

  function CredentialsField(got: Credentials, v: View): Result<Credentials, MessageError> {
    if !HasCurrent(v) || NumHere(v) == 0 || NumHere(v) > 3 then Ok(got)
    else if BytesHere(v).None? then Err(WrongType)
    else if NumHere(v) == 1 then Ok(got.(noc := BytesHere(v).value))
    else if NumHere(v) == 2 then Ok(got.(icac := BytesHere(v).value))
    else Ok(got.(signature := BytesHere(v).value))
  }

  function CredentialsStep(): (Credentials, View) -> Done<Credentials, MessageError> {
    (got, v) => Done(CredentialsField(got, v), v)
  }

  const NO_CREDENTIALS := Credentials([], [], [])

  function CredentialsDecoded(b: seq<byte>): Result<Credentials, MessageError> {
    var d := Message(b, NO_CREDENTIALS, NotAStructure, CredentialsStep());
    if d.r.Err? then d.r else if d.v.Failed? then Err(BadTlv(d.v.error)) else d.r
  }

  method DecodeCredentials(b: seq<byte>) returns (res: Result<Credentials, MessageError>)
    ensures res == CredentialsDecoded(b)
    ensures res.Ok? ==> StorableCredentials(res.value)
  {
    hide NextView, Opened, ItemFields;
    var r, ok := OpenStructure(b);
    if !ok { return Err(NotAStructure); }
    var got := NO_CREDENTIALS;
    var more := r.Next();
    while more
      invariant r.Valid() && more == HasCurrent(r.View()) && StorableCredentials(got)
      invariant Each(b, r.View(), got, CredentialsStep()) == Message(b, NO_CREDENTIALS, NotAStructure, CredentialsStep())
      decreases more, |b| - r.pos
    {
      if 1 <= r.tag.num <= 3 {
        var v := BytesField(r);
        if v.None? { return Err(WrongType); }
        got := if r.tag.num == 1 then got.(noc := v.value)
               else if r.tag.num == 2 then got.(icac := v.value)
               else got.(signature := v.value);
      }
      more := r.Next();
    }
    if r.err.Some? { return Err(BadTlv(r.err.value)); }
    res := Ok(got);
  }

  /** Credentials are read back, an absent certificate as an absent one. */
  lemma CredentialsReadBack(c: Credentials, rest: seq<byte>)
    requires StorableCredentials(c)
    ensures CredentialsDecoded(CredentialBytes(c) + rest) == Ok(c)
  {
    hide Left, Enc, Message, AllWellFormed, Height, Facing, On;
    var es, b := CredentialMembers(c), CredentialBytes(c) + rest;
    FlatIsWellFormed(es);
    var s1 := NO_CREDENTIALS.(noc := c.noc);
    var s2 := s1.(icac := c.icac);
    var n := |es| - 1;
    LeafTaken(b, CredentialsStep(), NO_CREDENTIALS, s1, es[0], es[1..], 1, rest);
    LeafTaken(b, CredentialsStep(), s2, c, es[n], es[n + 1..], 1, rest);
    if c.icac == [] {
      MessageMembers(b, ANONYMOUS, es, rest, [NO_CREDENTIALS, s1, c], NotAStructure, CredentialsStep());
    } else {
      LeafTaken(b, CredentialsStep(), s1, s2, es[1], es[2..], 1, rest);
      MessageMembers(b, ANONYMOUS, es, rest, [NO_CREDENTIALS, s1, s2, c], NotAStructure, CredentialsStep());
    }
    LeftIsReady(b, Message(b, NO_CREDENTIALS, NotAStructure, CredentialsStep()).v, 0, rest);
  }

  // ---------------------------------------------------------------------- what is signed

  /** A sender signs its certificates and both ephemeral keys, its own first. */
  function SignedMembers(noc: seq<byte>, icac: seq<byte>, own: seq<byte>, other: seq<byte>): seq<Element> {
    [Leaf(Ctx(1), Octets(noc))]
    + (if icac == [] then [] else [Leaf(Ctx(2), Octets(icac))])
    + [Leaf(Ctx(3), Octets(own)), Leaf(Ctx(4), Octets(other))]
  }

  function SignedBytes(noc: seq<byte>, icac: seq<byte>, own: seq<byte>, other: seq<byte>): seq<byte> {
    Enc(Node(ANONYMOUS, Structure, SignedMembers(noc, icac, own, other)))
  }

  method EncodeSigned(noc: seq<byte>, icac: seq<byte>, own: seq<byte>, other: seq<byte>)
    returns (b: Result<seq<byte>, MessageError>)
    requires Storable(noc) && Storable(icac) && Storable(own) && Storable(other)
    ensures b == Ok(SignedBytes(noc, icac, own, other))
  {
    hide EncHead, EncAll;
    var w := new Writer();
    w.Start(ANONYMOUS, Structure);
    ghost var start, es := w.buf, SignedMembers(noc, icac, own, other);
    NothingYet(start, es);
    w.PutBlob(Ctx(1), BYTES_LEN1, noc);
    Appended(start, es, 0);
    if icac != [] {
      w.PutBlob(Ctx(2), BYTES_LEN1, icac);
      Appended(start, es, 1);
    }
    w.PutBlob(Ctx(3), BYTES_LEN1, own);
    Appended(start, es, |es| - 2);
    w.PutBlob(Ctx(4), BYTES_LEN1, other);
    Appended(start, es, |es| - 1);
    w.EndContainer();
    Closed([], ANONYMOUS, Structure, es);
    var done := w.Finish();
    b := Finished(done);
  }

  /** A signature covers exactly one set of certificates and keys. */
  lemma SignedInjective(noc: seq<byte>, icac: seq<byte>, own: seq<byte>, other: seq<byte>,
                        noc': seq<byte>, icac': seq<byte>, own': seq<byte>, other': seq<byte>)
    requires Storable(noc) && Storable(icac) && Storable(own) && Storable(other)
    requires Storable(noc') && Storable(icac') && Storable(own') && Storable(other')
    requires SignedBytes(noc, icac, own, other) == SignedBytes(noc', icac', own', other')
    ensures noc == noc' && icac == icac' && own == own' && other == other'
  {
    hide Enc, EncAll, AllWellFormed, Height;
    var a, b := SignedMembers(noc, icac, own, other), SignedMembers(noc', icac', own', other');
    SameMembers(a, b);
    assert a[0] == b[0] && a[|a| - 2] == b[|b| - 2] && a[|a| - 1] == b[|b| - 1];
    if icac != [] && icac' != [] { assert a[1] == b[1]; }
  }

  lemma SameMembers(a: seq<Element>, b: seq<Element>)
    requires forall e :: e in a ==> e.Leaf? && e.tag.Canonical() && e.scalar.Fits()
    requires forall e :: e in b ==> e.Leaf? && e.tag.Canonical() && e.scalar.Fits()
    requires Enc(Node(ANONYMOUS, Structure, a)) == Enc(Node(ANONYMOUS, Structure, b))
    ensures a == b
  {
    hide Enc, Document;
    FlatIsWellFormed(a);
    FlatIsWellFormed(b);
    ReadsBack(a);
    ReadsBack(b);
  }

  lemma ReadsBack(es: seq<Element>)
    requires AllWellFormed(es) && Height(es) < MAX_DEPTH
    ensures var e := Node(ANONYMOUS, Structure, es);
            Document(Enc(e), 0, MAX_DEPTH) == Ok(Body([e], |Enc(e)|))
  {
    hide Document;
    var e := Node(ANONYMOUS, Structure, es);
    Cons(e, []);
    assert [e] + [] == [e] && EncAll([e]) == Enc(e) + EncAll([]);
    assert Enc(e)[0..] == EncAll([e]);
    DocumentRoundTrip(Enc(e), 0, [e], MAX_DEPTH);
  }
}
