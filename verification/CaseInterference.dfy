/**
 * CASE with interference: whatever is delivered in place of the messages, what an accepted Sigma2 and an
 * accepted Sigma3 say about the messages before them. Hash and key derivation are assumed not to collide on
 * the inputs at hand, and what opens under a key is assumed to have been sealed under it by an honest side.
 */
module CaseInterference {
  import opened Bytes
  import opened Case
  import opened PaseMessages
  import opened SigmaMessages

  /** What a side seals its credentials for: the responder after Sigma1, the initiator after Sigma2. */
  datatype Part =
    | Second(sigma1: seq<byte>, random: seq<byte>, eph: seq<byte>, secret: seq<byte>)
    | Third(seen: seq<byte>, secret: seq<byte>)

  function Hashed(p: Part): seq<byte> { if p.Second? then p.sigma1 else p.seen }

  function Salt<Q(!new)>(s: Suite<Q>, ipk: seq<byte>, p: Part): seq<byte> {
    if p.Second? then ipk + p.random + p.eph + s.hash(p.sigma1) else ipk + s.hash(p.seen)
  }

  function Info(p: Part): seq<byte> { if p.Second? then INFO_2 else INFO_3 }

  function NonceOf(p: Part): (n: seq<byte>)
    ensures |n| == 13
  {
    if p.Second? then NONCE_2 else NONCE_3
  }

  function KeyOf<Q(!new)>(s: Suite<Q>, ipk: seq<byte>, p: Part): seq<byte> { s.sigmaKey(p.secret, Salt(s, ipk, p), Info(p)) }

  /** Hash and key derivation do not collide on these two, hashes have one length, and so have points. */
  predicate Apart<Q(!new)>(s: Suite<Q>, ipk: seq<byte>, p: Part, q: Part) {
    && (KeyOf(s, ipk, p) == KeyOf(s, ipk, q) ==> p.secret == q.secret && Salt(s, ipk, p) == Salt(s, ipk, q) && Info(p) == Info(q))
    && (s.hash(Hashed(p)) == s.hash(Hashed(q)) ==> Hashed(p) == Hashed(q))
    && |s.hash(Hashed(p))| == |s.hash(Hashed(q))|
    && (p.Second? && q.Second? ==> |p.eph| == |q.eph|)
  }

  lemma SameTails(a: seq<byte>, b: seq<byte>, c: seq<byte>, d: seq<byte>)
    requires a + b == c + d && |b| == |d|
    ensures a == c && b == d
  {
    assert (a + b)[..|a|] == a && (c + d)[..|a|] == c;
    assert (a + b)[|a|..] == b && (c + d)[|a|..] == d;
  }

  /** One key means one secret and the same messages before. */
  lemma SamePart<Q(!new)>(s: Suite<Q>, ipk: seq<byte>, p: Part, q: Part)
    requires Apart(s, ipk, p, q) && KeyOf(s, ipk, p) == KeyOf(s, ipk, q)
    ensures p == q
  {
    assert INFO_2[5] != INFO_3[5];
    if p.Second? {
      SameTails(ipk + p.random + p.eph, s.hash(p.sigma1), ipk + q.random + q.eph, s.hash(q.sigma1));
      SameTails(ipk + p.random, p.eph, ipk + q.random, q.eph);
      SameTails(ipk, p.random, ipk, q.random);
    } else {
      SameTails(ipk, s.hash(p.seen), ipk, s.hash(q.seen));
    }
  }

  // ---------------------------------------------------------------------- what honest sides seal

  /** Credentials that an honest session sealed. */
  datatype Sealed = Sealed(part: Part, c: Credentials)

  ghost predicate Proper(log: set<Sealed>) {
    forall e :: e in log ==> StorableCredentials(e.c) && |CredentialBytes(e.c)| <= 0xFFFF
  }

  /** The bytes were sealed by one of these sessions under the key and nonce that the part is opened with. */
  ghost predicate MadeBy<Q(!new)>(s: Suite<Q>, ipk: seq<byte>, log: set<Sealed>, p: Part, b: seq<byte>)
    requires Proper(log)
  {
    exists e :: && e in log && KeyOf(s, ipk, e.part) == KeyOf(s, ipk, p) && NonceOf(e.part) == NonceOf(p)
                && b == Sealing(s, KeyOf(s, ipk, p), NonceOf(p), e.c)
  }

  ghost predicate Trusted<Q(!new)>(s: Suite<Q>, ipk: seq<byte>, log: set<Sealed>, p: Part, b: seq<byte>) {
    && Proper(log) && (forall e :: e in log ==> Apart(s, ipk, p, e.part))
    && MadeBy(s, ipk, log, p, b)
  }

  /** What opens was sealed for that very part, and it holds the credentials sealed then. */
  lemma OpenedWasMeant<Q(!new)>(s: Suite<Q>, ipk: seq<byte>, log: set<Sealed>, p: Part, b: seq<byte>, c: Credentials)
    requires Trusted(s, ipk, log, p, b) && Unsealed(s, KeyOf(s, ipk, p), NonceOf(p), b) == Ok(c)
    ensures Sealed(p, c) in log
  {
    hide KeyOf, Apart, Unsealed, Sealing, CredentialBytes, StorableCredentials;
    var e :| && e in log && KeyOf(s, ipk, e.part) == KeyOf(s, ipk, p) && NonceOf(e.part) == NonceOf(p)
             && b == Sealing(s, KeyOf(s, ipk, p), NonceOf(p), e.c);
    SamePart(s, ipk, p, e.part);
    UnsealedIsSealed(s, KeyOf(s, ipk, p), NonceOf(p), e.c);
    assert e == Sealed(p, c);
  }

  /** No two sessions of one role come to the same secret. */
  ghost predicate Fresh(log: set<Sealed>) {
    forall a, b :: a in log && b in log && a.part.Second? == b.part.Second? && a.part.secret == b.part.secret ==> a == b
  }

  // ---------------------------------------------------------------------- a run with interference

  ghost function FirstOf<Q(!new)>(i: Initiator<Q>, random: seq<byte>, x: nat): Sigma {
    Sigma(random, i.localSID, DestinationId(i.suite, i.fabric, random, i.peer), Public(i.suite, x))
  }

  /** A responder answers whatever reads as a message with a point. */
  ghost predicate Answers1<Q(!new)>(s: Suite<Q>, got1: seq<byte>) {
    SigmaDecoded(got1).Ok? && s.curve.point(SigmaDecoded(got1).value.fourth).Some?
  }

  /** An initiator answers what holds acceptable credentials of its peer, sealed for the message it sent. */
  ghost predicate Answers2<Q(!new)>(i: Initiator<Q>, m1: seq<byte>, x: nat, got2: seq<byte>) {
    && SigmaDecoded(got2).Ok?
    && var s2 := SigmaDecoded(got2).value;
       && i.suite.curve.point(s2.third).Some?
       && var p := Second(m1, s2.random, s2.third, Agreed(i.suite, x, i.suite.curve.point(s2.third).value));
          var c := Unsealed(i.suite, KeyOf(i.suite, i.fabric.ipk, p), NONCE_2, s2.fourth);
          c.Ok? && i.PeerNoc(c.value, s2.third, Public(i.suite, x)).Ok?
  }

  /** A responder accepts what holds acceptable credentials, sealed for the messages it saw and sent. */
  ghost predicate Accepts3<Q(!new)>(d: Responder<Q>, p: Part, other: seq<byte>, y: nat, got3: seq<byte>) {
    && PakeDecoded(got3, 1).Ok?
    && var c := Unsealed(d.suite, KeyOf(d.suite, d.fabric.ipk, p), NONCE_3, PakeDecoded(got3, 1).value[0]);
       c.Ok? && Accepted(d.suite, d.fabric.root, c.value, other, Public(d.suite, y)).Ok?
  }

  /** The bytes are the responder's Sigma2 after the first message. */
  ghost predicate IsSigma2<Q(!new)>(d: Responder<Q>, random: seq<byte>, y: nat, z: seq<byte>, other: seq<byte>, got1: seq<byte>,
                                    msg: seq<byte>)
    requires Compact(d.suite, d.self)
  {
    var s2 := d.SealedSigma2(random, y, z, other, got1);
    StorableSigma(s2) && msg == SigmaBytes(s2)
  }

  /** The first two messages; the bytes that reach the responder are arbitrary. */
  method Begin<Q(!new)>(i: Initiator<Q>, d: Responder<Q>, randomI: seq<byte>, randomD: seq<byte>, x: nat, y: nat, got1: seq<byte>)
    returns (m1: seq<byte>, answer: Result<seq<byte>, CaseError>)
    requires i.Valid() && d.Valid() && i.transcript == d.transcript == [] && |randomI| == 32 && |randomD| == 32
    modifies i`eph, i`transcript, d`initiatorEph, d`peerSID, d`transcript, d`eph, d`secret
    ensures i.Valid() && d.Valid() && i.eph == x && i.transcript == m1
    ensures m1 == SigmaBytes(FirstOf(i, randomI, x)) && StorableSigma(FirstOf(i, randomI, x))
    ensures answer.Ok? <==> Answers1(d.suite, got1)
    ensures answer.Ok? ==>
              && SigmaDecoded(got1).Ok? && d.peerSID == SigmaDecoded(got1).value.session
              && d.initiatorEph == SigmaDecoded(got1).value.fourth
              && d.eph == y && d.secret.Some? && d.transcript == got1 + answer.value
              && IsSigma2(d, randomD, y, d.secret.value, d.initiatorEph, got1, answer.value)
  {
    hide Sound, Compact, SigmaBytes, SigmaDecoded, CredentialBytes, SignedBytes, Sealing, Public, Agreed, Signed, StorableSigma,
         DestinationId, Key2;
    SigmaFits(i.suite, i.fabric, randomI, i.localSID, i.peer, x);
    m1 := i.Sigma1(randomI, x);
    assert [] + m1 == m1 && [] + got1 == got1;
    answer := d.HandleSigma1(got1, randomD, y);
  }

  /** An initiator that answers has opened credentials of its peer, under the key for the messages so far. */
  method TakeSigma2<Q(!new)>(i: Initiator<Q>, got2: seq<byte>)
    returns (answer: Result<seq<byte>, CaseError>, ghost p: Part, ghost c: Credentials)
    requires i.Valid()
    modifies i`sigma2, i`secret, i`transcript
    ensures i.Valid()
    ensures answer.Ok? <==> Answers2(i, old(i.transcript), i.eph, got2)
    ensures answer.Ok? ==>
              && SigmaDecoded(got2) == Ok(i.sigma2) && i.secret.Some? && i.transcript == old(i.transcript) + got2 + answer.value
              && p == Second(old(i.transcript), i.sigma2.random, i.sigma2.third, i.secret.value)
              && Unsealed(i.suite, KeyOf(i.suite, i.fabric.ipk, p), NONCE_2, i.sigma2.fourth) == Ok(c)
              && i.PeerNoc(c, i.sigma2.third, Public(i.suite, i.eph)).Ok?
  {
    hide Sound, Compact, SigmaDecoded, CredentialBytes, SignedBytes, Sealing, Unsealed, Public, Agreed, Accepted, Signed,
         StorableSigma, IsPake, Key3;
    ghost var before := i.transcript;
    answer := i.HandleSigma2(got2);
    p, c := Third([], []), Credentials([], [], []);
    if answer.Ok? {
      p := Second(before, i.sigma2.random, i.sigma2.third, i.secret.value);
      c := Unsealed(i.suite, KeyOf(i.suite, i.fabric.ipk, p), NONCE_2, i.sigma2.fourth).value;
    }
  }

  /** A responder that accepts has opened credentials under the key for both messages. */
  method TakeSigma3<Q(!new)>(d: Responder<Q>, got3: seq<byte>)
    returns (ok: bool, ghost p: Part, ghost b: seq<byte>, ghost c: Credentials)
    requires d.Valid() && d.secret.Some?
    modifies d`peerNode, d`transcript
    ensures d.Valid() && p == Third(old(d.transcript), d.secret.value)
    ensures ok <==> Accepts3(d, p, d.initiatorEph, d.eph, got3)
    ensures ok ==>
              && d.transcript == old(d.transcript) + got3 && PakeDecoded(got3, 1) == Ok([b])
              && Unsealed(d.suite, KeyOf(d.suite, d.fabric.ipk, p), NONCE_3, b) == Ok(c)
              && var noc := Accepted(d.suite, d.fabric.root, c, d.initiatorEph, Public(d.suite, d.eph));
                 noc.Ok? && d.peerNode == if NodeIn(noc.value).Some? then NodeIn(noc.value).value else 0
  {
    hide Sound, Compact, PakeDecoded, CredentialBytes, SignedBytes, Sealing, Unsealed, Public, Accepted, Signed;
    p, b, c := Third(d.transcript, d.secret.value), [], Credentials([], [], []);
    var err := d.HandleSigma3(got3);
    ok := err == None;
    if ok {
      b := PakeDecoded(got3, 1).value[0];
      assert PakeDecoded(got3, 1).value == [b];
      c := Unsealed(d.suite, KeyOf(d.suite, d.fabric.ipk, p), NONCE_3, b).value;
    }
  }

  /** What the two sessions of a run seal. */
  ghost function SealedBy<Q(!new)>(i: Initiator<Q>, d: Responder<Q>, m1: seq<byte>, got1: seq<byte>, got2: seq<byte>,
                                   randomD: seq<byte>, x: nat, y: nat): (log: set<Sealed>)
    requires i.secret.Some? && d.secret.Some?
    reads i, d
  {
    {Sealed(Second(got1, randomD, Public(d.suite, y), d.secret.value), Signed(d.suite, d.self, Public(d.suite, y), d.initiatorEph)),
     Sealed(Third(m1 + got2, i.secret.value), Signed(i.suite, i.self, Public(i.suite, x), i.sigma2.third))}
  }

  /** What the initiator opened was sealed for this very part, with acceptable credentials of its peer. */
  ghost predicate Meant2<Q(!new)>(i: Initiator<Q>, log: set<Sealed>, p: Part)
    reads i
  {
    exists c :: Sealed(p, c) in log && i.PeerNoc(c, i.sigma2.third, Public(i.suite, i.eph)).Ok?
  }

  /** What the responder opened was sealed for this very part, with acceptable credentials. */
  ghost predicate Meant3<Q(!new)>(d: Responder<Q>, log: set<Sealed>, p: Part)
    reads d
  {
    exists c :: Sealed(p, c) in log && Accepted(d.suite, d.fabric.root, c, d.initiatorEph, Public(d.suite, d.eph)).Ok?
  }

  /** Both hold the messages as the other sent them, each other's identifiers, and but for Sigma3 the same transcript. */
  ghost predicate Agree<Q(!new)>(i: Initiator<Q>, d: Responder<Q>, m1: seq<byte>, got1: seq<byte>, m2: seq<byte>, got2: seq<byte>,
                                 m3: seq<byte>, got3: seq<byte>)
    reads i, d
  {
    && got1 == m1 && got2 == m2
    && d.peerSID == i.localSID && i.sigma2.session == d.localSID
    && CertOf(d.self.noc).Some? && NodeIn(CertOf(d.self.noc).value) == Some(i.peer)
    && CertOf(i.self.noc).Some? && d.peerNode == NodeOf(i.self)
    && (got3 == m3 ==> i.transcript == d.transcript)
  }

  /** Sessions that hold one secret are the ones that sealed for each other. */
  lemma Matched(log: set<Sealed>, opened2: Sealed, opened3: Sealed, mine: Sealed, theirs: Sealed, m1: seq<byte>, got1: seq<byte>,
                m2: seq<byte>, got2: seq<byte>)
    requires Fresh(log) && {opened2, opened3, mine, theirs} <= log
    requires opened2.part.Second? && theirs.part.Second? && opened2.part.secret == theirs.part.secret
    requires opened3.part.Third? && mine.part.Third? && opened3.part.secret == mine.part.secret
    requires opened2.part.sigma1 == m1 && theirs.part.sigma1 == got1
    requires opened3.part.seen == got1 + m2 && mine.part.seen == m1 + got2
    ensures got1 == m1 && got2 == m2 && opened2 == theirs && opened3 == mine
  {
    assert opened2 == theirs && opened3 == mine;
    assert (got1 + m2)[|m1|..] == m2 && (m1 + got2)[|m1|..] == got2;
  }

  lemma AcceptedIs<Q(!new)>(s: Suite<Q>, root: Certificate.Cert, c: Credentials, own: seq<byte>, other: seq<byte>)
    ensures var r := Accepted(s, root, c, own, other); r.Ok? ==> CertOf(c.noc) == Some(r.value)
  {
    hide CertOf, Chained, SignedBytes;
  }

  lemma SignedNoc<Q(!new)>(s: Suite<Q>, self: Identity, own: seq<byte>, other: seq<byte>)
    ensures Signed(s, self, own, other).noc == self.noc
  {
  }

  lemma SessionRead(s: Sigma)
    requires StorableSigma(s)
    ensures SigmaDecoded(SigmaBytes(s)) == Ok(s)
  {
    hide SigmaDecoded, SigmaBytes;
    SigmaReadBack(s, []);
    assert SigmaBytes(s) + [] == SigmaBytes(s);
  }

  lemma Agreement<Q(!new)>(i: Initiator<Q>, d: Responder<Q>, log: set<Sealed>, p2: Part, c2: Credentials, p3: Part, c3: Credentials,
                           randomI: seq<byte>, randomD: seq<byte>, x: nat, y: nat, m1: seq<byte>, got1: seq<byte>, m2: seq<byte>,
                           got2: seq<byte>, m3: seq<byte>, got3: seq<byte>)
    requires d.Valid() && i.secret.Some? && i.secret == d.secret && i.eph == x && d.eph == y
    requires SealedBy(i, d, m1, got1, got2, randomD, x, y) <= log && Sealed(p2, c2) in log && Sealed(p3, c3) in log && Fresh(log)
    requires p2 == Second(m1, i.sigma2.random, i.sigma2.third, i.secret.value) && p3 == Third(got1 + m2, d.secret.value)
    requires i.transcript == m1 + got2 + m3 && d.transcript == got1 + m2 + got3
    requires StorableSigma(FirstOf(i, randomI, x)) && m1 == SigmaBytes(FirstOf(i, randomI, x))
    requires IsSigma2(d, randomD, y, d.secret.value, d.initiatorEph, got1, m2)
    requires SigmaDecoded(got1).Ok? && d.peerSID == SigmaDecoded(got1).value.session && SigmaDecoded(got2) == Ok(i.sigma2)
    requires i.PeerNoc(c2, i.sigma2.third, Public(i.suite, x)).Ok?
    requires var noc := Accepted(d.suite, d.fabric.root, c3, d.initiatorEph, Public(d.suite, y));
             noc.Ok? && d.peerNode == if NodeIn(noc.value).Some? then NodeIn(noc.value).value else 0
    ensures Agree(i, d, m1, got1, m2, got2, m3, got3)
  {
    hide Sound, Compact, SigmaBytes, SigmaDecoded, CredentialBytes, SignedBytes, Sealing, Public, Accepted, Signed, StorableSigma,
         Fresh, CertOf, NodeIn, FabricIn, DestinationId, Key2;
    var theirs := Sealed(Second(got1, randomD, Public(d.suite, y), d.secret.value),
                         Signed(d.suite, d.self, Public(d.suite, y), d.initiatorEph));
    var mine := Sealed(Third(m1 + got2, i.secret.value), Signed(i.suite, i.self, Public(i.suite, x), i.sigma2.third));
    Matched(log, Sealed(p2, c2), Sealed(p3, c3), mine, theirs, m1, got1, m2, got2);
    SessionRead(FirstOf(i, randomI, x));
    SessionRead(d.SealedSigma2(randomD, y, d.secret.value, d.initiatorEph, got1));
    AcceptedIs(i.suite, i.fabric.root, c2, i.sigma2.third, Public(i.suite, x));
    AcceptedIs(d.suite, d.fabric.root, c3, d.initiatorEph, Public(d.suite, y));
    SignedNoc(d.suite, d.self, Public(d.suite, y), d.initiatorEph);
    SignedNoc(i.suite, i.self, Public(i.suite, x), i.sigma2.third);
  }

  /**
   * One session of each side, with arbitrary bytes delivered in place of the three messages, beside any
   * other sessions. If both accept, some responder took the initiator's Sigma1 as it was sent, under the
   * secret that the initiator has, and named the peer; some initiator saw the responder's first two
   * messages as they were, under the responder's secret. If it is the other one of these two, which the
   * secret tells, then nothing but Sigma3 can have been changed on the way, identifiers cross over, and
   * the keys are the same once Sigma3 is.
   */
  method Interfered<Q(!new)>(i: Initiator<Q>, d: Responder<Q>, ghost others: set<Sealed>, randomI: seq<byte>, randomD: seq<byte>,
                             x: nat, y: nat, got1: seq<byte>, got2: seq<byte>, got3: seq<byte>)
    returns (done: bool, m1: seq<byte>, m2: seq<byte>, m3: seq<byte>,
             ghost second: Part, ghost third: Part, ghost b3: seq<byte>)
    requires i.Valid() && d.Valid() && i.suite == d.suite && i.fabric.ipk == d.fabric.ipk && i.transcript == d.transcript == []
    requires |randomI| == 32 && |randomD| == 32
    modifies i`eph, i`transcript, i`sigma2, i`secret
    modifies d`initiatorEph, d`peerSID, d`transcript, d`eph, d`secret, d`peerNode
    ensures i.Valid() && d.Valid() && m1 == SigmaBytes(FirstOf(i, randomI, x))
    ensures Answers1(d.suite, got1) ==>
              && d.secret.Some? && third == Third(got1 + m2, d.secret.value)
              && IsSigma2(d, randomD, y, d.secret.value, d.initiatorEph, got1, m2)
    ensures done <==> Answers1(d.suite, got1) && Answers2(i, m1, x, got2) && Accepts3(d, third, d.initiatorEph, y, got3)
    ensures done ==>
              && PakeDecoded(got3, 1) == Ok([b3])
              && i.secret.Some? && second == Second(m1, i.sigma2.random, i.sigma2.third, i.secret.value)
    ensures done ==>
              var log := others + SealedBy(i, d, m1, got1, got2, randomD, x, y);
              && (Trusted(i.suite, i.fabric.ipk, log, second, i.sigma2.fourth) ==> Meant2(i, log, second))
              && (Trusted(d.suite, d.fabric.ipk, log, third, b3) ==> Meant3(d, log, third))
    ensures done && i.secret == d.secret ==>
              var log := others + SealedBy(i, d, m1, got1, got2, randomD, x, y);
              var mine := Trusted(i.suite, i.fabric.ipk, log, second, i.sigma2.fourth);
              var theirs := Trusted(d.suite, d.fabric.ipk, log, third, b3);
              mine && theirs && Fresh(log) ==> Agree(i, d, m1, got1, m2, got2, m3, got3)
  {
    hide Sound, Compact, SigmaBytes, SigmaDecoded, CredentialBytes, SignedBytes, Sealing, Unsealed, Public, Accepted, Signed, KeyOf,
         StorableSigma, Trusted, Fresh, CertOf, NodeIn, FabricIn, DestinationId, Key2, Answers1, Answers2, Accepts3, PakeDecoded,
         Agree, IsSigma2;
    done, m2, m3, third, b3 := false, [], [], Third([], []), [];
    var answer;
    m1, answer := Begin(i, d, randomI, randomD, x, y, got1);
    second := third;
    if answer.Err? { return; }
    m2 := answer.value;
    third := Third(got1 + m2, d.secret.value);
    var last;
    ghost var c2, c3;
    last, second, c2 := TakeSigma2(i, got2);
    if last.Err? { return; }
    m3 := last.value;
    done, third, b3, c3 := TakeSigma3(d, got3);
    if done {
      ghost var log := others + SealedBy(i, d, m1, got1, got2, randomD, x, y);
      if Trusted(i.suite, i.fabric.ipk, log, second, i.sigma2.fourth) {
        OpenedWasMeant(i.suite, i.fabric.ipk, log, second, i.sigma2.fourth, c2);
      }
      if Trusted(d.suite, d.fabric.ipk, log, third, b3) {
        OpenedWasMeant(d.suite, d.fabric.ipk, log, third, b3, c3);
        if Trusted(i.suite, i.fabric.ipk, log, second, i.sigma2.fourth) && Fresh(log) && i.secret == d.secret {
          Agreement(i, d, log, second, c2, third, c3, randomI, randomD, x, y, m1, got1, m2, got2, m3, got3);
        }
      }
    }
  }
}
