module Case {
  // The CASE handshake: both sides message by message, over the real message and certificate bytes and AES-CCM
  // over any block function. Signatures and the form that a certificate is signed in, hash and key derivation
  // are parameters; random values are too.

  import opened Bytes
  import opened Ccm
  import Certificate
  import opened PaseMessages
  import opened Session
  import opened SigmaMessages
  import opened Spake2

  datatype Suite<!P(!new)> = Suite(
    curve: Curve<P>,
    secret: P -> seq<byte>,
    block: (seq<byte>, Block) -> Block,
    hash: seq<byte> -> seq<byte>,
    sigmaKey: (seq<byte>, seq<byte>, seq<byte>) -> seq<byte>,
    i2r: (seq<byte>, seq<byte>) -> seq<byte>,
    r2i: (seq<byte>, seq<byte>) -> seq<byte>,
    destination: (seq<byte>, seq<byte>) -> seq<byte>,
    publicKey: seq<byte> -> seq<byte>,
    sign: (seq<byte>, seq<byte>) -> seq<byte>,
    verify: (seq<byte>, seq<byte>, seq<byte>) -> bool,
    tbs: Certificate.Cert -> Option<seq<byte>>)

  /** The laws of the curve and of signatures, and outputs that fit a Go slice. */
  ghost predicate Sound<P(!new)>(s: Suite<P>) {
    && Lawful(s.curve)
    && (forall k, m :: s.verify(s.publicKey(k), m, s.sign(k, m)))
    && (forall p :: Storable(s.curve.bytes(p)))
    && (forall k, m :: Storable(s.destination(k, m)))
    && (forall k, m :: Storable(s.sign(k, m)))
  }

  datatype Fabric = Fabric(ipk: seq<byte>, rootKey: seq<byte>, root: Certificate.Cert, id: uint64)

  datatype Identity = Identity(noc: seq<byte>, icac: seq<byte>, opKey: seq<byte>)

  datatype CaseError =
    | BadMessage(e: MessageError) | BadPoint | NotOpened | BadCertificate | BadChain | BadSignature | WrongNode | WrongFabric
    | Incomplete

  // ---------------------------------------------------------------------- keys

  const NONCE_2: seq<byte> := [0x4E, 0x43, 0x41, 0x53, 0x45, 0x5F, 0x53, 0x69, 0x67, 0x6D, 0x61, 0x32, 0x4E]
  const NONCE_3: seq<byte> := [0x4E, 0x43, 0x41, 0x53, 0x45, 0x5F, 0x53, 0x69, 0x67, 0x6D, 0x61, 0x33, 0x4E]
  const INFO_2: seq<byte> := [0x53, 0x69, 0x67, 0x6D, 0x61, 0x32]
  const INFO_3: seq<byte> := [0x53, 0x69, 0x67, 0x6D, 0x61, 0x33]

  function ModeFor<P(!new)>(s: Suite<P>, key: seq<byte>): (m: Mode)
    ensures m.Valid() && m.nonceLen == 13 && m.tagLen == 16
  {
    Mode(13, 16, b => s.block(key, b))
  }

  /** The public half of an ephemeral key. */
  function Public<P(!new)>(s: Suite<P>, x: nat): seq<byte> { s.curve.bytes(Times(s.curve, x, s.curve.g)) }

  function Agreed<P(!new)>(s: Suite<P>, x: nat, other: P): seq<byte> { s.secret(Times(s.curve, x, other)) }

  function Key2<P(!new)>(s: Suite<P>, ipk: seq<byte>, secret: seq<byte>, random: seq<byte>, eph: seq<byte>,
                  transcript: seq<byte>)
    : seq<byte>
  {
    s.sigmaKey(secret, ipk + random + eph + s.hash(transcript), INFO_2)
  }

  function Key3<P(!new)>(s: Suite<P>, ipk: seq<byte>, secret: seq<byte>, transcript: seq<byte>): seq<byte> {
    s.sigmaKey(secret, ipk + s.hash(transcript), INFO_3)
  }

  function DestinationId<P(!new)>(s: Suite<P>, f: Fabric, random: seq<byte>, node: uint64): seq<byte> {
    s.destination(f.ipk, random + f.rootKey + Le(f.id, 8) + Le(node, 8))
  }

  /** Without collisions a destination identifier names group key, random value, root, fabric and node. */
  lemma DestinationNames<P(!new)>(s: Suite<P>, f: Fabric, random: seq<byte>, node: uint64, g: Fabric, random': seq<byte>, node': uint64)
    requires forall k, m, k', m' :: s.destination(k, m) == s.destination(k', m') ==> k == k' && m == m'
    requires |random| == |random'| && |f.rootKey| == |g.rootKey|
    requires DestinationId(s, f, random, node) == DestinationId(s, g, random', node')
    ensures f.ipk == g.ipk && random == random' && f.rootKey == g.rootKey && f.id == g.id && node == node'
  {
    hide Le, Range;
    var a, b := random + f.rootKey + Le(f.id, 8) + Le(node, 8), random' + g.rootKey + Le(g.id, 8) + Le(node', 8);
    assert a == b;
    var n, r := |random|, |f.rootKey|;
    assert random == a[..n] == b[..n] == random' && f.rootKey == a[n..n + r] == b[n..n + r] == g.rootKey;
    assert Le(f.id, 8) == a[n + r..n + r + 8] == b[n + r..n + r + 8] == Le(g.id, 8);
    assert Le(node, 8) == a[n + r + 8..] == b[n + r + 8..] == Le(node', 8);
    Ranges();
    LeInjective(f.id, g.id, 8);
    LeInjective(node, node', 8);
  }

  /** A side's credentials, signed over its own ephemeral key and the other's. */
  function Signed<P(!new)>(s: Suite<P>, self: Identity, own: seq<byte>, other: seq<byte>): Credentials {
    Credentials(self.noc, self.icac, s.sign(self.opKey, SignedBytes(self.noc, self.icac, own, other)))
  }

  /** The encrypted part holds credentials of at most 65535 bytes; sealing more is an error of the caller. */
  ghost predicate Compact<P(!new)>(s: Suite<P>, self: Identity) {
    && Storable(self.noc) && Storable(self.icac)
    && forall own, other :: |CredentialBytes(Signed(s, self, own, other))| <= 0xFFFF
  }

  function Sealing<P(!new)>(s: Suite<P>, key: seq<byte>, nonce: seq<byte>, c: Credentials): seq<byte>
    requires |nonce| == 13 && |CredentialBytes(c)| <= 0xFFFF
  {
    MaxPayloadIs(s, key);
    Seal(ModeFor(s, key), nonce, CredentialBytes(c), [])
  }

  lemma MaxPayloadIs<P(!new)>(s: Suite<P>, key: seq<byte>)
    ensures ModeFor(s, key).MaxPayload() == 0xFFFF
  {
    Ranges();
  }

  method EncryptCredentials<P(!new)>(s: Suite<P>, key: seq<byte>, nonce: seq<byte>, c: Credentials) returns (b: seq<byte>)
    requires |nonce| == 13 && |CredentialBytes(c)| <= 0xFFFF && StorableCredentials(c)
    ensures b == Sealing(s, key, nonce, c)
  {
    MaxPayloadIs(s, key);
    var plain := EncodeCredentials(c);
    var aead := new Aead(ModeFor(s, key));
    b := aead.SealTo(nonce, plain.value, []);
  }

  /** What a ciphertext holds. */
  function Unsealed<P(!new)>(s: Suite<P>, key: seq<byte>, nonce: seq<byte>, b: seq<byte>): Result<Credentials, CaseError> {
    match Open(ModeFor(s, key), nonce, b, [])
    case Err(_) => Err(NotOpened)
    case Ok(plain) =>
      match CredentialsDecoded(plain)
      case Err(e) => Err(BadMessage(e))
      case Ok(c) => Ok(c)
  }

  method DecryptCredentials<P(!new)>(s: Suite<P>, key: seq<byte>, nonce: seq<byte>, b: seq<byte>)
    returns (r: Result<Credentials, CaseError>)
    ensures r == Unsealed(s, key, nonce, b)
    ensures r.Ok? ==> StorableCredentials(r.value)
  {
    hide Open, CredentialsDecoded;
    var aead := new Aead(ModeFor(s, key));
    var plain := aead.OpenFrom(nonce, b, []);
    if plain.Err? { return Err(NotOpened); }
    var decoded := DecodeCredentials(plain.value);
    if decoded.Err? { return Err(BadMessage(decoded.error)); }
    r := Ok(decoded.value);
  }

  /** What was sealed is unsealed to the same credentials. */
  lemma UnsealedIsSealed<P(!new)>(s: Suite<P>, key: seq<byte>, nonce: seq<byte>, c: Credentials)
    requires |nonce| == 13 && |CredentialBytes(c)| <= 0xFFFF && StorableCredentials(c)
    ensures Unsealed(s, key, nonce, Sealing(s, key, nonce, c)) == Ok(c)
  {
    hide Seal, Open, CredentialsDecoded;
    MaxPayloadIs(s, key);
    OpenSeal(ModeFor(s, key), nonce, CredentialBytes(c), []);
    CredentialsReadBack(c, []);
    assert CredentialBytes(c) + [] == CredentialBytes(c);
  }

  // ---------------------------------------------------------------------- who the peer is

  function CertOf(b: seq<byte>): Option<Certificate.Cert> {
    match Certificate.CertDecoded(b)
    case Err(_) => None
    case Ok(c) => Some(c)
  }

  method ReadCert(b: seq<byte>) returns (c: Option<Certificate.Cert>)
    ensures c == CertOf(b)
  {
    hide Certificate.CertDecoded;
    var decoded := Certificate.Decode(b);
    c := if decoded.Ok? then Some(decoded.value) else None;
  }

  function NodeIn(c: Certificate.Cert): Option<uint64> { Certificate.NumberUnder(c.subject, Certificate.NODE_ID) }

  function FabricIn(c: Certificate.Cert): Option<uint64> { Certificate.NumberUnder(c.subject, Certificate.FABRIC_ID) }

  /** The certificate's signature holds over its signed form, under an uncompressed point. */
  predicate SignedBy<P(!new)>(s: Suite<P>, c: Certificate.Cert, key: seq<byte>) {
    && |key| == 65 && key[0] == 4 && |c.signature| == 64
    && s.tbs(c).Some? && s.verify(key, s.tbs(c).value, c.signature)
  }

  method VerifySignature<P(!new)>(s: Suite<P>, c: Certificate.Cert, key: seq<byte>) returns (ok: bool)
    ensures ok == SignedBy(s, c, key)
  {
    if |key| != 65 || key[0] != 4 { return false; }
    if |c.signature| != 64 { return false; }
    var tbs := s.tbs(c);
    if tbs == None { return false; }
    ok := s.verify(key, tbs.value, c.signature);
  }

  /** Each certificate is signed by the one above it, and the root by itself. */
  predicate Chained<P(!new)>(s: Suite<P>, noc: Certificate.Cert, icac: Option<Certificate.Cert>, root: Certificate.Cert) {
    && SignedBy(s, root, root.publicKey)
    && (icac.Some? ==> SignedBy(s, icac.value, root.publicKey))
    && SignedBy(s, noc, (if icac.Some? then icac.value else root).publicKey)
  }

  method VerifyChain<P(!new)>(s: Suite<P>, noc: Certificate.Cert, icac: Option<Certificate.Cert>, root: Certificate.Cert)
    returns (ok: bool)
    ensures ok == Chained(s, noc, icac, root)
  {
    hide SignedBy;
    ok := VerifySignature(s, root, root.publicKey);
    if !ok { return; }
    var issuer := root;
    if icac.Some? {
      ok := VerifySignature(s, icac.value, root.publicKey);
      if !ok { return; }
      issuer := icac.value;
    }
    ok := VerifySignature(s, noc, issuer.publicKey);
  }

  /** What a key signed passes under its public half. */
  lemma SigningChains<P(!new)>(s: Suite<P>, c: Certificate.Cert, key: seq<byte>)
    requires Sound(s) && s.tbs(c).Some? && c.signature == s.sign(key, s.tbs(c).value)
    requires |s.publicKey(key)| == 65 && s.publicKey(key)[0] == 4 && |c.signature| == 64
    ensures SignedBy(s, c, s.publicKey(key))
  {
  }

  /** The certificate of accepted credentials: it chains to the root and its key signed both ephemeral keys. */
  function Accepted<P(!new)>(s: Suite<P>, root: Certificate.Cert, c: Credentials, own: seq<byte>, other: seq<byte>)
    : Result<Certificate.Cert, CaseError>
  {
    var noc := CertOf(c.noc);
    if noc.None? || (c.icac != [] && CertOf(c.icac).None?) then Err(BadCertificate)
    else if !Chained(s, noc.value, if c.icac == [] then None else CertOf(c.icac), root) then Err(BadChain)
    else if !s.verify(noc.value.publicKey, SignedBytes(c.noc, c.icac, own, other), c.signature) then Err(BadSignature)
    else Ok(noc.value)
  }

  method Accept<P(!new)>(s: Suite<P>, root: Certificate.Cert, c: Credentials, own: seq<byte>, other: seq<byte>)
    returns (r: Result<Certificate.Cert, CaseError>)
    requires StorableCredentials(c) && Storable(own) && Storable(other)
    ensures r == Accepted(s, root, c, own, other)
    ensures r.Ok? ==> CertOf(c.noc) == Some(r.value) && Vouched(s, root, c, r.value, own, other)
  {
    AcceptedIsVouched(s, root, c, own, other);
    hide SignedBytes, CertOf, Chained, Vouched;
    var noc := ReadCert(c.noc);
    if noc == None { return Err(BadCertificate); }
    var icac := None;
    if c.icac != [] {
      icac := ReadCert(c.icac);
      if icac == None { return Err(BadCertificate); }
    }
    var chained := VerifyChain(s, noc.value, icac, root);
    if !chained { return Err(BadChain); }
    var tbs := EncodeSigned(c.noc, c.icac, own, other);
    if !s.verify(noc.value.publicKey, tbs.value, c.signature) { return Err(BadSignature); }
    r := Ok(noc.value);
  }

  /** Signatures that hold: over the certificates from the root down, and over both ephemeral keys. */
  ghost predicate Vouched<P(!new)>(s: Suite<P>, root: Certificate.Cert, c: Credentials, noc: Certificate.Cert, own: seq<byte>,
                                   other: seq<byte>)
  {
    && s.tbs(root).Some? && s.verify(root.publicKey, s.tbs(root).value, root.signature)
    && s.tbs(noc).Some?
    && (c.icac == [] ==> s.verify(root.publicKey, s.tbs(noc).value, noc.signature))
    && (c.icac != [] ==>
          && CertOf(c.icac).Some?
          && var icac := CertOf(c.icac).value;
             && s.tbs(icac).Some? && s.verify(root.publicKey, s.tbs(icac).value, icac.signature)
             && s.verify(icac.publicKey, s.tbs(noc).value, noc.signature))
    && s.verify(noc.publicKey, SignedBytes(c.noc, c.icac, own, other), c.signature)
  }

  lemma AcceptedIsVouched<P(!new)>(s: Suite<P>, root: Certificate.Cert, c: Credentials, own: seq<byte>, other: seq<byte>)
    ensures var r := Accepted(s, root, c, own, other);
            r.Ok? ==> CertOf(c.noc) == Some(r.value) && Vouched(s, root, c, r.value, own, other)
  {
    hide SignedBytes, CertOf;
  }

  /** Under this key only the messages in `made` have signatures that hold. */
  ghost predicate MadeOnly<P(!new)>(s: Suite<P>, made: set<(seq<byte>, seq<byte>)>, key: seq<byte>) {
    forall m, sig :: s.verify(key, m, sig) ==> (key, m) in made
  }

  /**
   * Where only the root's owner makes its signatures, accepted credentials were issued by it, or by an
   * intermediate authority that it appointed; where only the node makes its own, it signed both ephemeral keys.
   */
  lemma AcceptedWasIssued<P(!new)>(s: Suite<P>, root: Certificate.Cert, c: Credentials, own: seq<byte>, other: seq<byte>,
                                   made: set<(seq<byte>, seq<byte>)>)
    requires Accepted(s, root, c, own, other).Ok? && MadeOnly(s, made, root.publicKey)
    ensures CertOf(c.noc).Some? && s.tbs(CertOf(c.noc).value).Some?
    ensures c.icac == [] ==> (root.publicKey, s.tbs(CertOf(c.noc).value).value) in made
    ensures c.icac != [] ==>
              && CertOf(c.icac).Some? && s.tbs(CertOf(c.icac).value).Some?
              && (root.publicKey, s.tbs(CertOf(c.icac).value).value) in made
              && (MadeOnly(s, made, CertOf(c.icac).value.publicKey) ==>
                    (CertOf(c.icac).value.publicKey, s.tbs(CertOf(c.noc).value).value) in made)
    ensures MadeOnly(s, made, CertOf(c.noc).value.publicKey) ==>
              (CertOf(c.noc).value.publicKey, SignedBytes(c.noc, c.icac, own, other)) in made
  {
    hide SignedBytes, CertOf, Accepted;
    AcceptedIsVouched(s, root, c, own, other);
  }

  /** A certificate that the root never signed is refused, whatever it says and whoever presents it. */
  lemma NotIssuedIsRefused<P(!new)>(s: Suite<P>, root: Certificate.Cert, c: Credentials, own: seq<byte>, other: seq<byte>,
                                    made: set<(seq<byte>, seq<byte>)>)
    requires MadeOnly(s, made, root.publicKey)
    requires CertOf(c.noc).Some? && (c.icac != [] ==> CertOf(c.icac).Some?)
    requires var top := s.tbs(CertOf(if c.icac == [] then c.noc else c.icac).value);
             top.Some? ==> (root.publicKey, top.value) !in made
    ensures Accepted(s, root, c, own, other) == Err(BadChain)
  {
    hide SignedBytes, CertOf;
  }

  /** An honest node that signs in its own sessions only was in one with both these keys. */
  lemma NodeTookPart<P(!new)>(s: Suite<P>, root: Certificate.Cert, c: Credentials, own: seq<byte>, other: seq<byte>,
                              made: set<(seq<byte>, seq<byte>)>, self: Identity, sessions: set<(seq<byte>, seq<byte>)>)
    requires Accepted(s, root, c, own, other).Ok? && MadeOnly(s, made, CertOf(c.noc).value.publicKey)
    requires StorableCredentials(c) && Storable(own) && Storable(other) && Storable(self.noc) && Storable(self.icac)
    requires forall o: seq<byte>, t: seq<byte> :: (o, t) in sessions ==> Storable(o) && Storable(t)
    requires forall m: seq<byte> :: (CertOf(c.noc).value.publicKey, m) in made ==>
               exists o: seq<byte>, t: seq<byte> :: (o, t) in sessions && m == SignedBytes(self.noc, self.icac, o, t)
    ensures (own, other) in sessions && c.noc == self.noc && c.icac == self.icac
  {
    hide SignedBytes, CertOf, Accepted;
    AcceptedIsVouched(s, root, c, own, other);
    var key, m := CertOf(c.noc).value.publicKey, SignedBytes(c.noc, c.icac, own, other);
    assert (key, m) in made;
    var o: seq<byte>, t: seq<byte> :| (o, t) in sessions && m == SignedBytes(self.noc, self.icac, o, t);
    SignedInjective(c.noc, c.icac, own, other, self.noc, self.icac, o, t);
  }

  /** The credentials that a fabric issued to a node. */
  ghost predicate Issued<P(!new)>(s: Suite<P>, f: Fabric, self: Identity, node: uint64) {
    && CertOf(self.noc).Some? && CertOf(self.noc).value.publicKey == s.publicKey(self.opKey)
    && NodeIn(CertOf(self.noc).value) == Some(node) && FabricIn(CertOf(self.noc).value) == Some(f.id)
    && (self.icac != [] ==> CertOf(self.icac).Some?)
    && Chained(s, CertOf(self.noc).value, if self.icac == [] then None else CertOf(self.icac), f.root)
  }

  lemma IssuedIsAccepted<P(!new)>(s: Suite<P>, f: Fabric, self: Identity, node: uint64, own: seq<byte>, other: seq<byte>)
    requires Sound(s) && Issued(s, f, self, node)
    ensures var r := Accepted(s, f.root, Signed(s, self, own, other), own, other);
            r.Ok? && Some(r.value) == CertOf(self.noc) && NodeIn(r.value) == Some(node) && FabricIn(r.value) == Some(f.id)
  {
    hide SignedBytes, Lawful, CertOf, Chained, NodeIn, FabricIn;
  }

  // ---------------------------------------------------------------------- the initiator

  class Initiator<P(!new)> {
    const suite: Suite<P>
    const fabric: Fabric
    const self: Identity
    const peer: uint64
    const localSID: uint16
    var eph: nat
    var transcript: seq<byte>
    var secret: Option<seq<byte>>
    var sigma2: Sigma

    ghost predicate Valid()
      reads this
    {
      Sound(suite) && Compact(suite, self) && StorableSigma(sigma2)
    }

    constructor (suite: Suite<P>, fabric: Fabric, self: Identity, peer: uint64, localSID: uint16)
      requires Sound(suite) && Compact(suite, self)
      ensures this.suite == suite && this.fabric == fabric && this.self == self && this.peer == peer && this.localSID == localSID
      ensures Valid() && transcript == [] && secret == None
    {
      this.suite, this.fabric, this.self, this.peer, this.localSID := suite, fabric, self, peer, localSID;
      eph, transcript, secret, sigma2 := 0, [], None, Sigma([], 0, [], []);
    }

    method Sigma1(random: seq<byte>, x: nat) returns (msg: seq<byte>)
      requires Valid() && |random| == 32
      modifies this`eph, this`transcript
      ensures Valid() && eph == x && transcript == old(transcript) + msg
      ensures msg == SigmaBytes(Sigma(random, localSID, DestinationId(suite, fabric, random, peer), Public(suite, x)))
    {
      hide SigmaBytes;
      eph := x;
      PublicFits(suite, x);
      var encoded := EncodeSigma(Sigma(random, localSID, DestinationId(suite, fabric, random, peer), Public(suite, x)));
      msg := encoded.value;
      transcript := transcript + msg;
    }

    /** The certificate of the peer's credentials: accepted, and naming the peer and the fabric. */
    ghost function PeerNoc(c: Credentials, other: seq<byte>, own: seq<byte>): Result<Certificate.Cert, CaseError> {
      match Accepted(suite, fabric.root, c, other, own)
      case Err(e) => Err(e)
      case Ok(noc) =>
        if NodeIn(noc) != Some(peer) then Err(WrongNode)
        else if FabricIn(noc) != Some(fabric.id) then Err(WrongFabric)
        else Ok(noc)
    }

    /** The credentials in Sigma2, once the shared secret is known. */
    ghost function PeerCredentials(s2: Sigma, z: seq<byte>): Result<Credentials, CaseError>
      reads this
    {
      Unsealed(suite, Key2(suite, fabric.ipk, z, s2.random, s2.third, transcript), NONCE_2, s2.fourth)
    }

    /**
     * Opens and checks Sigma2 and answers with Sigma3. Whatever arrives, an answer is given only to
     * credentials that were accepted and name the peer and the fabric.
     */
    method HandleSigma2(msg: seq<byte>) returns (res: Result<seq<byte>, CaseError>)
      requires Valid()
      modifies this`sigma2, this`secret, this`transcript
      ensures Valid()
      ensures res.Err? ==> transcript == old(transcript)
      ensures match SigmaDecoded(msg)
              case Err(e) => res == Err(BadMessage(e)) && sigma2 == old(sigma2) && secret == old(secret)
              case Ok(s2) =>
                && sigma2 == s2
                && match suite.curve.point(s2.third)
                   case None => res == Err(BadPoint) && secret == old(secret)
                   case Some(y) =>
                     && secret == Some(Agreed(suite, eph, y))
                     && match old(PeerCredentials(s2, Agreed(suite, eph, y)))
                        case Err(e) => res == Err(e)
                        case Ok(c) =>
                          match PeerNoc(c, s2.third, Public(suite, eph))
                          case Err(e) => res == Err(e)
                          case Ok(_) =>
                            && IsSigma3(suite, self, fabric.ipk, Agreed(suite, eph, y), Public(suite, eph), s2.third,
                                        old(transcript) + msg, res)
                            && transcript == old(transcript) + msg + res.value
      ensures res.Ok? ==>
                exists c, noc ::
                  && Vouched(suite, fabric.root, c, noc, sigma2.third, Public(suite, eph)) && CertOf(c.noc) == Some(noc)
                  && NodeIn(noc) == Some(peer) && FabricIn(noc) == Some(fabric.id)
    {
      hide SigmaDecoded, Unsealed, Accepted, IsSigma3, Public, Sound, Compact, Key2, Vouched, CertOf;
      var decoded := DecodeSigma(msg);
      if decoded.Err? { return Err(BadMessage(decoded.error)); }
      sigma2 := decoded.value;
      var point := suite.curve.point(sigma2.third);
      if point == None { return Err(BadPoint); }
      var z := Agreed(suite, eph, point.value);
      secret := Some(z);
      var key := Key2(suite, fabric.ipk, z, sigma2.random, sigma2.third, transcript);
      var plain := DecryptCredentials(suite, key, NONCE_2, sigma2.fourth);
      if plain.Err? { return Err(plain.error); }
      PublicFits(suite, eph);
      var noc := Accept(suite, fabric.root, plain.value, sigma2.third, Public(suite, eph));
      if noc.Err? { return Err(noc.error); }
      var node := Certificate.FindNumber(noc.value.subject, Certificate.NODE_ID);
      if node != Some(peer) { return Err(WrongNode); }
      var id := Certificate.FindNumber(noc.value.subject, Certificate.FABRIC_ID);
      if id != Some(fabric.id) { return Err(WrongFabric); }
      transcript := transcript + msg;
      var sigma3 := BuildSigma3(z);
      transcript := transcript + sigma3;
      res := Ok(sigma3);
    }

    method BuildSigma3(z: seq<byte>) returns (msg: seq<byte>)
      requires Valid()
      ensures IsSigma3(suite, self, fabric.ipk, z, Public(suite, eph), sigma2.third, transcript, Ok(msg))
    {
      hide SigmaBytes, CredentialBytes, SignedBytes, Sealing;
      PublicFits(suite, eph);
      var tbs := EncodeSigned(self.noc, self.icac, Public(suite, eph), sigma2.third);
      var c := Credentials(self.noc, self.icac, suite.sign(self.opKey, tbs.value));
      assert c == Signed(suite, self, Public(suite, eph), sigma2.third);
      var enc3 := EncryptCredentials(suite, Key3(suite, fabric.ipk, z, transcript), NONCE_3, c);
      SealingFits(suite, Key3(suite, fabric.ipk, z, transcript), NONCE_3, c);
      var pake := EncodePake([enc3]);
      msg := pake.value;
    }

    method SecureSession() returns (res: Result<Ends, CaseError>)
      requires Valid()
      ensures secret == None ==> res == Err(Incomplete)
      ensures secret.Some? && CertOf(self.noc) == None ==> res == Err(BadCertificate)
      ensures secret.Some? && CertOf(self.noc).Some? ==>
                res == Ok(Ends(localSID, sigma2.session, NodeOf(self), peer,
                               suite.i2r(secret.value, fabric.ipk + suite.hash(transcript)),
                               suite.r2i(secret.value, fabric.ipk + suite.hash(transcript))))
    {
      if secret == None { return Err(Incomplete); }
      var noc := ReadCert(self.noc);
      if noc == None { return Err(BadCertificate); }
      var node := Certificate.FindNumber(noc.value.subject, Certificate.NODE_ID);
      var own := if node.Some? then node.value else 0;
      var salt := fabric.ipk + suite.hash(transcript);
      res := Ok(Ends(localSID, sigma2.session, own, peer, suite.i2r(secret.value, salt), suite.r2i(secret.value, salt)));
    }
  }

  /** The node of a certificate, zero if it names none. */
  function NodeOf(self: Identity): uint64
    requires CertOf(self.noc).Some?
  {
    var node := NodeIn(CertOf(self.noc).value);
    if node.Some? then node.value else 0
  }

  /** Sigma3 over a transcript: the sender's credentials, sealed. */
  ghost predicate IsSigma3<P(!new)>(s: Suite<P>, self: Identity, ipk: seq<byte>, z: seq<byte>, own: seq<byte>,
                             other: seq<byte>,
                                    transcript: seq<byte>, msg: Result<seq<byte>, CaseError>)
    requires Compact(s, self)
  {
    msg.Ok? && IsPake(msg.value, [Sealing(s, Key3(s, ipk, z, transcript), NONCE_3, Signed(s, self, own, other))])
  }

  lemma PublicFits<P(!new)>(s: Suite<P>, x: nat)
    requires Sound(s)
    ensures Storable(Public(s, x)) && forall k, m :: Storable(s.destination(k, m)) && Storable(s.sign(k, m))
  {
  }

  lemma SealingFits<P(!new)>(s: Suite<P>, key: seq<byte>, nonce: seq<byte>, c: Credentials)
    requires |nonce| == 13 && |CredentialBytes(c)| <= 0xFFFF
    ensures Storable(Sealing(s, key, nonce, c))
  {
  }

  /** A shared secret, empty as long as there is none. */
  function Known(secret: Option<seq<byte>>): seq<byte> { if secret.Some? then secret.value else [] }

  // ---------------------------------------------------------------------- the responder

  class Responder<P(!new)> {
    const suite: Suite<P>
    const fabric: Fabric
    const self: Identity
    const localSID: uint16
    var eph: nat
    var initiatorEph: seq<byte>
    var transcript: seq<byte>
    var secret: Option<seq<byte>>
    var peerSID: uint16
    var peerNode: uint64

    ghost predicate Valid()
      reads this
    {
      Sound(suite) && Compact(suite, self) && Storable(initiatorEph)
    }

    constructor (suite: Suite<P>, fabric: Fabric, self: Identity, localSID: uint16)
      requires Sound(suite) && Compact(suite, self)
      ensures this.suite == suite && this.fabric == fabric && this.self == self && this.localSID == localSID
      ensures Valid() && transcript == [] && secret == None
    {
      this.suite, this.fabric, this.self, this.localSID := suite, fabric, self, localSID;
      eph, initiatorEph, transcript, secret, peerSID, peerNode := 0, [], [], None, 0, 0;
    }

    /** Sigma2 over a transcript: the responder's credentials, signed over both keys and sealed. */
    ghost function SealedSigma2(random: seq<byte>, y: nat, z: seq<byte>, other: seq<byte>, seen: seq<byte>): Sigma
      requires Compact(suite, self)
    {
      var own := Public(suite, y);
      Sigma(random, localSID, own,
            Sealing(suite, Key2(suite, fabric.ipk, z, random, own, seen), NONCE_2, Signed(suite, self, own, other)))
    }

    /** Takes Sigma1 and answers with Sigma2. */
    method HandleSigma1(msg: seq<byte>, random: seq<byte>, y: nat) returns (res: Result<seq<byte>, CaseError>)
      requires Valid() && |random| == 32
      modifies this`initiatorEph, this`peerSID, this`transcript, this`eph, this`secret
      ensures Valid()
      ensures match SigmaDecoded(msg)
              case Err(e) =>
                && res == Err(BadMessage(e)) && initiatorEph == old(initiatorEph) && peerSID == old(peerSID)
                && transcript == old(transcript) && eph == old(eph) && secret == old(secret)
              case Ok(s1) =>
                && initiatorEph == s1.fourth && peerSID == s1.session && eph == y
                && match suite.curve.point(s1.fourth)
                   case None => res == Err(BadPoint) && transcript == old(transcript) + msg && secret == old(secret)
                   case Some(x) =>
                     var s2 := SealedSigma2(random, y, Agreed(suite, y, x), s1.fourth, old(transcript) + msg);
                     && StorableSigma(s2) && res == Ok(SigmaBytes(s2))
                     && secret == Some(Agreed(suite, y, x)) && transcript == old(transcript) + msg + res.value
    {
      hide SigmaBytes, SigmaDecoded, CredentialBytes, SignedBytes, Sealing, Public, Key2;
      var decoded := DecodeSigma(msg);
      if decoded.Err? { return Err(BadMessage(decoded.error)); }
      initiatorEph, peerSID := decoded.value.fourth, decoded.value.session;
      transcript := transcript + msg;
      eph := y;
      var point := suite.curve.point(initiatorEph);
      if point == None { return Err(BadPoint); }
      var z := Agreed(suite, y, point.value);
      secret := Some(z);
      PublicFits(suite, y);
      var tbs := EncodeSigned(self.noc, self.icac, Public(suite, y), initiatorEph);
      var c := Credentials(self.noc, self.icac, suite.sign(self.opKey, tbs.value));
      assert c == Signed(suite, self, Public(suite, y), initiatorEph);
      var key := Key2(suite, fabric.ipk, z, random, Public(suite, y), transcript);
      var enc2 := EncryptCredentials(suite, key, NONCE_2, c);
      SealingFits(suite, key, NONCE_2, c);
      var encoded := EncodeSigma(Sigma(random, localSID, Public(suite, y), enc2));
      transcript := transcript + encoded.value;
      res := Ok(encoded.value);
    }

    /** The credentials in Sigma3. */
    ghost function PeerCredentials(fields: seq<seq<byte>>): Result<Credentials, CaseError>
      requires |fields| == 1
      reads this
    {
      Unsealed(suite, Key3(suite, fabric.ipk, Known(secret), transcript), NONCE_3, fields[0])
    }

    /** Takes Sigma3; the error, if the initiator's credentials are not accepted. */
    method HandleSigma3(msg: seq<byte>) returns (err: Option<CaseError>)
      requires Valid()
      modifies this`peerNode, this`transcript
      ensures Valid()
      ensures err.Some? ==> peerNode == old(peerNode) && transcript == old(transcript)
      ensures match PakeDecoded(msg, 1)
              case Err(e) => err == Some(BadMessage(e))
              case Ok(fields) =>
                match old(PeerCredentials(fields))
                case Err(e) => err == Some(e)
                case Ok(c) =>
                  match Accepted(suite, fabric.root, c, initiatorEph, Public(suite, eph))
                  case Err(e) => err == Some(e)
                  case Ok(noc) =>
                    && err == None && transcript == old(transcript) + msg
                    && peerNode == if NodeIn(noc).Some? then NodeIn(noc).value else 0
      ensures err == None ==>
                exists c, noc ::
                  && Vouched(suite, fabric.root, c, noc, initiatorEph, Public(suite, eph)) && CertOf(c.noc) == Some(noc)
                  && peerNode == if NodeIn(noc).Some? then NodeIn(noc).value else 0
    {
      hide PakeDecoded, Unsealed, SignedBytes, Public, Key3, Accepted, Vouched, CertOf;
      var fields := DecodeFields(msg, 1);
      if fields.Err? { return Some(BadMessage(fields.error)); }
      var plain := DecryptCredentials(suite, Key3(suite, fabric.ipk, Known(secret), transcript), NONCE_3, fields.value[0]);
      if plain.Err? { return Some(plain.error); }
      PublicFits(suite, eph);
      var noc := Accept(suite, fabric.root, plain.value, initiatorEph, Public(suite, eph));
      if noc.Err? { return Some(noc.error); }
      var node := Certificate.FindNumber(noc.value.subject, Certificate.NODE_ID);
      peerNode := if node.Some? then node.value else 0;
      transcript := transcript + msg;
      err := None;
    }

    method SecureSession() returns (res: Result<Ends, CaseError>)
      requires Valid()
      ensures secret == None ==> res == Err(Incomplete)
      ensures secret.Some? && CertOf(self.noc) == None ==> res == Err(BadCertificate)
      ensures secret.Some? && CertOf(self.noc).Some? ==>
                res == Ok(Ends(localSID, peerSID, NodeOf(self), peerNode,
                               suite.r2i(secret.value, fabric.ipk + suite.hash(transcript)),
                               suite.i2r(secret.value, fabric.ipk + suite.hash(transcript))))
    {
      if secret == None { return Err(Incomplete); }
      var noc := ReadCert(self.noc);
      if noc == None { return Err(BadCertificate); }
      var node := Certificate.FindNumber(noc.value.subject, Certificate.NODE_ID);
      var own := if node.Some? then node.value else 0;
      var salt := fabric.ipk + suite.hash(transcript);
      res := Ok(Ends(localSID, peerSID, own, peerNode, suite.r2i(secret.value, salt), suite.i2r(secret.value, salt)));
    }
  }

  // ---------------------------------------------------------------------- a whole handshake

  lemma SameSecret<P(!new)>(s: Suite<P>, x: nat, y: nat)
    requires Sound(s)
    ensures s.curve.point(Public(s, x)) == Some(Times(s.curve, x, s.curve.g))
    ensures Agreed(s, x, Times(s.curve, y, s.curve.g)) == Agreed(s, y, Times(s.curve, x, s.curve.g))
  {
    hide Times, Lawful;
    Commute(s.curve, x, y, s.curve.g);
    Decodes(s.curve, Times(s.curve, x, s.curve.g));
  }

  lemma SigmaFits<P(!new)>(s: Suite<P>, f: Fabric, random: seq<byte>, session: uint16, node: uint64, x: nat)
    requires Sound(s) && |random| == 32
    ensures StorableSigma(Sigma(random, session, DestinationId(s, f, random, node), Public(s, x)))
  {
    hide Lawful;
  }

  lemma SignedFits<P(!new)>(s: Suite<P>, self: Identity, own: seq<byte>, other: seq<byte>)
    requires Sound(s) && Compact(s, self)
    ensures var c := Signed(s, self, own, other); StorableCredentials(c) && |CredentialBytes(c)| <= 0xFFFF
  {
    hide Lawful, CredentialBytes, SignedBytes;
  }

  /** The first two messages. Both sides then have the same transcript and hold each other's ephemeral key. */
  method Greet<P(!new)>(i: Initiator<P>, d: Responder<P>, randomI: seq<byte>, randomD: seq<byte>, x: nat, y: nat)
    returns (sigma2: seq<byte>, ghost s2: Sigma)
    requires i.Valid() && d.Valid() && i.suite == d.suite && i.transcript == d.transcript == []
    requires |randomI| == 32 && |randomD| == 32
    modifies i`eph, i`transcript, d`initiatorEph, d`peerSID, d`transcript, d`eph, d`secret
    ensures i.Valid() && d.Valid()
    ensures sigma2 == SigmaBytes(s2) && StorableSigma(s2) && d.peerSID == i.localSID
    ensures i.eph == x && d.eph == y && d.initiatorEph == Public(i.suite, x)
    ensures d.secret == Some(Agreed(d.suite, y, Times(d.suite.curve, x, d.suite.curve.g)))
    ensures d.transcript == i.transcript + sigma2
    ensures s2 == d.SealedSigma2(randomD, y, d.secret.value, d.initiatorEph, i.transcript)
  {
    hide Sound, Compact, SigmaBytes, SigmaDecoded, CredentialBytes, SignedBytes, Sealing, Public, Agreed, Times, Key2, Signed,
         DestinationId, StorableSigma;
    var sigma1 := i.Sigma1(randomI, x);
    SameSecret(i.suite, x, y);
    SigmaFits(i.suite, i.fabric, randomI, i.localSID, i.peer, x);
    ghost var s1 := Sigma(randomI, i.localSID, DestinationId(i.suite, i.fabric, randomI, i.peer), Public(i.suite, x));
    SigmaReadBack(s1, []);
    assert [] + sigma1 == sigma1 == sigma1 + [];
    var res := d.HandleSigma1(sigma1, randomD, y);
    sigma2 := res.value;
    s2 := d.SealedSigma2(randomD, y, d.secret.value, d.initiatorEph, i.transcript);
  }

  /** The other messages, between nodes that the fabric issued. */
  method Authenticate<P(!new)>(i: Initiator<P>, d: Responder<P>, sigma2: seq<byte>, ghost s2: Sigma, ghost randomD: seq<byte>,
                               ghost nodeI: uint64, ghost nodeD: uint64, ghost x: nat, ghost y: nat)
    requires i.Valid() && d.Valid() && i.suite == d.suite && i.fabric == d.fabric && i.peer == nodeD
    requires Issued(i.suite, i.fabric, i.self, nodeI) && Issued(d.suite, d.fabric, d.self, nodeD)
    requires sigma2 == SigmaBytes(s2) && StorableSigma(s2)
    requires i.eph == x && d.eph == y && d.initiatorEph == Public(i.suite, x)
    requires d.secret == Some(Agreed(d.suite, y, Times(d.suite.curve, x, d.suite.curve.g)))
    requires d.transcript == i.transcript + sigma2
    requires s2 == d.SealedSigma2(randomD, y, d.secret.value, d.initiatorEph, i.transcript)
    modifies i`sigma2, i`secret, i`transcript, d`peerNode, d`transcript
    ensures i.Valid() && d.Valid()
    ensures i.sigma2 == s2 && i.secret == d.secret && i.transcript == d.transcript && d.peerNode == nodeI
  {
    hide Sound, Compact, Issued, SigmaBytes, SigmaDecoded, PakeDecoded, CredentialBytes, SignedBytes, Sealing, Unsealed, Public,
         Agreed, Times, Key2, Key3, Accepted, Signed, StorableSigma, StorableCredentials, IsPake, CertOf, NodeIn, FabricIn;
    ghost var own, other := Public(i.suite, x), Public(d.suite, y);
    SameSecret(i.suite, x, y);
    SameSecret(i.suite, y, x);
    SignedFits(d.suite, d.self, other, own);
    SignedFits(i.suite, i.self, own, other);
    IssuedIsAccepted(d.suite, d.fabric, d.self, nodeD, other, own);
    IssuedIsAccepted(i.suite, i.fabric, i.self, nodeI, own, other);
    SigmaReadBack(s2, []);
    assert sigma2 + [] == sigma2;
    UnsealedIsSealed(i.suite, Key2(i.suite, i.fabric.ipk, d.secret.value, randomD, other, i.transcript), NONCE_2,
                     Signed(d.suite, d.self, other, own));
    var sigma3 := i.HandleSigma2(sigma2);
    ghost var key := Key3(d.suite, d.fabric.ipk, d.secret.value, d.transcript);
    PakeReadBack(sigma3.value, [Sealing(d.suite, key, NONCE_3, Signed(i.suite, i.self, own, other))]);
    UnsealedIsSealed(d.suite, key, NONCE_3, Signed(i.suite, i.self, own, other));
    var err := d.HandleSigma3(sigma3.value);
  }

  /**
   * Undisturbed, between two nodes of a fabric, the handshake completes on both sides: session and node
   * identifiers cross over, and each side sends under the key with which the other receives.
   */
  method HonestRun<P(!new)>(s: Suite<P>, f: Fabric, i: Identity, d: Identity, nodeI: uint64, nodeD: uint64,
                            sidI: uint16, sidD: uint16, randomI: seq<byte>, randomD: seq<byte>, x: nat, y: nat)
    returns (a: Result<Ends, CaseError>, b: Result<Ends, CaseError>)
    requires Sound(s) && Compact(s, i) && Compact(s, d) && Issued(s, f, i, nodeI) && Issued(s, f, d, nodeD)
    requires |randomI| == 32 && |randomD| == 32
    ensures a.Ok? && b.Ok?
    ensures a.value.localSID == b.value.peerSID == sidI && a.value.peerSID == b.value.localSID == sidD
    ensures a.value.localNode == b.value.peerNode == nodeI && a.value.peerNode == b.value.localNode == nodeD
    ensures a.value.sendKey == b.value.recvKey && a.value.recvKey == b.value.sendKey
  {
    hide Sound, Compact, SigmaBytes, CredentialBytes, SignedBytes, Sealing, Public, Agreed, Times, Key2, Signed, StorableSigma,
         Issued;
    IssuedNode(s, f, i, nodeI);
    IssuedNode(s, f, d, nodeD);
    var initiator := new Initiator(s, f, i, nodeD, sidI);
    var responder := new Responder(s, f, d, sidD);
    var sigma2, s2 := Greet(initiator, responder, randomI, randomD, x, y);
    Authenticate(initiator, responder, sigma2, s2, randomD, nodeI, nodeD, x, y);
    a := initiator.SecureSession();
    b := responder.SecureSession();
  }

  lemma IssuedNode<P(!new)>(s: Suite<P>, f: Fabric, self: Identity, node: uint64)
    requires Issued(s, f, self, node)
    ensures CertOf(self.noc).Some? && NodeOf(self) == node
  {
  }
}
