module Pase {
  // The PASE handshake: both sides message by message, over the real message bytes. Random values are
  // parameters, and so are hash, key derivation and MAC.

  import opened Bytes
  import opened PaseMessages
  import opened Spake2
  import opened Session
  import opened TlvLoop
  import opened TlvPrefix

  /** The curve, the primitives, the hash and the derivations. */
  datatype Suite<!P(!new)> = Suite(curve: Curve<P>, primitives: Primitives,
                                   hash: seq<byte> -> seq<byte>,
                                   pbkdf: (uint32, seq<byte>, nat) -> (nat, nat),
                                   i2r: seq<byte> -> seq<byte>, r2i: seq<byte> -> seq<byte>)

  /** Points and MACs fit a Go slice. */
  ghost predicate Sized<P(!new)>(s: Suite<P>) {
    && s.curve.order > 0
    && (forall p :: Storable(s.curve.bytes(p)))
    && (forall k, m :: Storable(s.primitives.mac(k, m)))
  }

  datatype PaseError =
    | OutOfOrder | BadMessage(e: MessageError) | NoParams | BadParams | BadPoint | NotConfirmed | WrongPasscodeId | Incomplete

  /** CHIP PAKE V1 Commissioning */
  const CONTEXT_PREFIX: seq<byte> := [0x43, 0x48, 0x49, 0x50, 0x20, 0x50, 0x41, 0x4B, 0x45, 0x20, 0x56, 0x31, 0x20,
                                      0x43, 0x6F, 0x6D, 0x6D, 0x69, 0x73, 0x73, 0x69, 0x6F, 0x6E, 0x69, 0x6E, 0x67]

  /** What both confirmations cover: the parameter messages one after the other, with no length between them. */
  function ContextHash<P(!new)>(s: Suite<P>, request: seq<byte>, response: seq<byte>): seq<byte> {
    s.hash(CONTEXT_PREFIX + request + response)
  }

  predicate GoodParams(p: PbkdfParams) {
    16 <= |p.salt| <= 32 && 1000 <= p.iterations <= 100000
  }

  /** The registration scalars of a passcode. */
  function DeriveW<P(!new)>(s: Suite<P>, passcode: uint32, p: PbkdfParams): (r: Option<(nat, nat)>)
    requires s.curve.order > 0
    ensures r.Some? <==> GoodParams(p)
    ensures r.Some? ==> r.value.0 < s.curve.order && r.value.1 < s.curve.order
  {
    if !GoodParams(p) then None
    else
      var w := s.pbkdf(passcode, p.salt, p.iterations);
      Some((w.0 % s.curve.order, w.1 % s.curve.order))
  }

  datatype Prover = Prover(w0: nat, w1: nat, x: nat)

  class Initiator<P(!new)> {
    const suite: Suite<P>
    const passcode: uint32
    const localSID: uint16
    var reqRaw: Option<seq<byte>>
    var context: seq<byte>
    var prover: Option<Prover>
    var keys: Option<Keys>
    var peerSID: uint16
    var done: bool

    ghost predicate Valid()
      reads this
    {
      Sized(suite) && (done ==> keys.Some?)
    }

    constructor (suite: Suite<P>, passcode: uint32, localSID: uint16)
      requires Sized(suite)
      ensures this.suite == suite && this.passcode == passcode && this.localSID == localSID
      ensures Valid() && reqRaw == None && prover == None && !done
    {
      this.suite, this.passcode, this.localSID := suite, passcode, localSID;
      reqRaw, context, prover, keys, peerSID, done := None, [], None, None, 0, false;
    }

    method ParamRequest(random: seq<byte>) returns (res: Result<seq<byte>, PaseError>)
      requires Valid() && |random| == 32
      modifies this`reqRaw
      ensures Valid()
      ensures res == Ok(RequestBytes(PaseMessages.ParamRequest(random, localSID, 0, false)))
      ensures reqRaw == Some(res.value)
    {
      var raw := EncodeParamRequest(PaseMessages.ParamRequest(random, localSID, 0, false));
      reqRaw := Some(raw.value);
      res := Ok(raw.value);
    }

    /** Takes the responder's parameters and answers with the prover's share. */
    method HandleParamResponse(raw: seq<byte>, x: nat) returns (res: Result<seq<byte>, PaseError>)
      requires Valid()
      modifies this`peerSID, this`prover, this`context
      ensures Valid()
      ensures res.Err? ==> prover == old(prover) && context == old(context)
      ensures match (reqRaw, ResponseDecoded(raw))
              case (None, _) => res == Err(OutOfOrder) && peerSID == old(peerSID)
              case (_, Err(e)) => res == Err(BadMessage(e)) && peerSID == old(peerSID)
              case (Some(request), Ok(q)) =>
                if q.params.None? then res == Err(NoParams) && peerSID == old(peerSID)
                else if !GoodParams(q.params.value) then res == Err(BadParams) && peerSID == q.session
                else
                  var w := DeriveW(suite, passcode, q.params.value).value;
                  && res.Ok? && IsPake(res.value, [ProverShare(suite.curve, w.0, x)])
                  && peerSID == q.session && prover == Some(Prover(w.0, w.1, x))
                  && context == ContextHash(suite, request, raw)
    {
      hide ProverShare, ResponseDecoded;
      if reqRaw == None { return Err(OutOfOrder); }
      var decoded := DecodeParamResponse(raw);
      if decoded.Err? { return Err(BadMessage(decoded.error)); }
      var resp := decoded.value;
      if resp.params == None { return Err(NoParams); }
      peerSID := resp.session;
      var w := DeriveW(suite, passcode, resp.params.value);
      if w == None { return Err(BadParams); }
      var share := ProverShare(suite.curve, w.value.0, x);
      ShareFits(suite, w.value.0, x);
      var pake1 := EncodePake([share]);
      prover := Some(Prover(w.value.0, w.value.1, x));
      context := ContextHash(suite, reqRaw.value, raw);
      res := Ok(pake1.value);
    }

    /** Takes the verifier's share and confirmation; only a confirmation that holds completes the handshake. */
    method HandlePake2(raw: seq<byte>) returns (res: Result<seq<byte>, PaseError>)
      requires Valid()
      modifies this`keys, this`done
      ensures Valid()
      ensures res.Err? ==> done == old(done) && keys == old(keys)
      ensures match (prover, PakeDecoded(raw, 2))
              case (None, _) => res == Err(OutOfOrder)
              case (_, Err(e)) => res == Err(BadMessage(e))
              case (Some(p), Ok(fields)) =>
                match ProverKeys(suite.curve, suite.primitives, p.w0, p.w1, p.x, fields[0], context)
                case None => res == Err(BadPoint)
                case Some(k) =>
                  if k.cB == fields[1] then res.Ok? && IsPake(res.value, [k.cA]) && done && keys == Some(k)
                  else res == Err(NotConfirmed)
    {
      hide ProverKeys, PakeDecoded;
      if prover == None { return Err(OutOfOrder); }
      var fields := DecodeFields(raw, 2);
      if fields.Err? { return Err(BadMessage(fields.error)); }
      var p := prover.value;
      var k := ProverKeys(suite.curve, suite.primitives, p.w0, p.w1, p.x, fields.value[0], context);
      if k == None { return Err(BadPoint); }
      if k.value.cB != fields.value[1] { return Err(NotConfirmed); }
      ProverKeysFit(suite, p, fields.value[0], context);
      var pake3 := EncodePake([k.value.cA]);
      keys, done := k, true;
      res := Ok(pake3.value);
    }

    method SecureSession() returns (res: Result<Ends, PaseError>)
      requires Valid()
      ensures res == if !done then Err(Incomplete)
                     else Ok(Ends(localSID, peerSID, 0, 0, suite.i2r(keys.value.ke), suite.r2i(keys.value.ke)))
    {
      if !done { return Err(Incomplete); }
      res := Ok(Ends(localSID, peerSID, 0, 0, suite.i2r(keys.value.ke), suite.r2i(keys.value.ke)));
    }
  }

  lemma ShareFits<P(!new)>(s: Suite<P>, w0: nat, k: nat)
    requires Sized(s)
    ensures Storable(ProverShare(s.curve, w0, k)) && Storable(VerifierShare(s.curve, w0, k))
  {
  }

  lemma ProverKeysFit<P(!new)>(s: Suite<P>, p: Prover, pB: seq<byte>, context: seq<byte>)
    requires Sized(s)
    ensures var k := ProverKeys(s.curve, s.primitives, p.w0, p.w1, p.x, pB, context);
            k.Some? ==> Storable(k.value.cA) && Storable(k.value.cB)
  {
  }

  lemma VerifierKeysFit<P(!new)>(s: Suite<P>, w0: nat, l: P, y: nat, pA: seq<byte>, context: seq<byte>)
    requires Sized(s)
    ensures var k := VerifierKeys(s.curve, s.primitives, w0, l, y, pA, context);
            k.Some? ==> Storable(k.value.cA) && Storable(k.value.cB)
  {
  }

  class Responder<P(!new)> {
    const suite: Suite<P>
    const w0: nat
    const l: seq<byte>
    const params: PbkdfParams
    const localSID: uint16
    var context: Option<seq<byte>>
    var keys: Option<Keys>
    var peerSID: uint16
    var done: bool

    ghost predicate Valid()
      reads this
    {
      Sized(suite) && Storable(params.salt) && (done ==> keys.Some?)
    }

    /** A device with the record of a passcode. */
    constructor (suite: Suite<P>, passcode: uint32, params: PbkdfParams, localSID: uint16)
      requires Sized(suite) && GoodParams(params)
      ensures this.suite == suite && this.params == params && this.localSID == localSID
      ensures var w := DeriveW(suite, passcode, params).value; w0 == w.0 && l == Record(suite.curve, w.1)
      ensures Valid() && context == None && keys == None && !done
    {
      var w := DeriveW(suite, passcode, params).value;
      this.suite, this.params, this.localSID := suite, params, localSID;
      w0, l := w.0, Record(suite.curve, w.1);
      context, keys, peerSID, done := None, None, 0, false;
    }

    method HandleParamRequest(raw: seq<byte>, random: seq<byte>) returns (res: Result<seq<byte>, PaseError>)
      requires Valid() && |random| == 32
      modifies this`peerSID, this`context
      ensures Valid()
      ensures match RequestDecoded(raw)
              case Err(e) => res == Err(BadMessage(e)) && peerSID == old(peerSID) && context == old(context)
              case Ok(q) =>
                if q.passcodeId != 0 then res == Err(WrongPasscodeId) && peerSID == old(peerSID) && context == old(context)
                else
                  && res == Ok(ResponseBytes(ParamResponse(q.random, random, localSID, Some(params))))
                  && peerSID == q.session && context == Some(ContextHash(suite, raw, res.value))
    {
      hide RequestLoop, ResponseBytes;
      var decoded := DecodeParamRequest(raw);
      if decoded.Err? { return Err(BadMessage(decoded.error)); }
      var req := decoded.value;
      if req.passcodeId != 0 { return Err(WrongPasscodeId); }
      peerSID := req.session;
      var resp := EncodeParamResponse(ParamResponse(req.random, random, localSID, Some(params)));
      context := Some(ContextHash(suite, raw, resp.value));
      res := Ok(resp.value);
    }

    method HandlePake1(raw: seq<byte>, y: nat) returns (res: Result<seq<byte>, PaseError>)
      requires Valid()
      modifies this`keys
      ensures Valid() && (res.Err? ==> keys == old(keys))
      ensures match (context, PakeDecoded(raw, 1))
              case (None, _) => res == Err(OutOfOrder)
              case (_, Err(e)) => res == Err(BadMessage(e))
              case (Some(seen), Ok(fields)) =>
                match suite.curve.point(l)
                case None => res == Err(BadPoint)
                case Some(lp) =>
                  match VerifierKeys(suite.curve, suite.primitives, w0, lp, y, fields[0], seen)
                  case None => res == Err(BadPoint)
                  case Some(k) =>
                    res.Ok? && keys == Some(k) && IsPake(res.value, [VerifierShare(suite.curve, w0, y), k.cB])
    {
      hide VerifierKeys, VerifierShare, PakeDecoded;
      if context == None { return Err(OutOfOrder); }
      var fields := DecodeFields(raw, 1);
      if fields.Err? { return Err(BadMessage(fields.error)); }
      var lp := suite.curve.point(l);
      if lp == None { return Err(BadPoint); }
      var k := VerifierKeys(suite.curve, suite.primitives, w0, lp.value, y, fields.value[0], context.value);
      if k == None { return Err(BadPoint); }
      keys := k;
      ShareFits(suite, w0, y);
      VerifierKeysFit(suite, w0, lp.value, y, fields.value[0], context.value);
      var pake2 := EncodePake([VerifierShare(suite.curve, w0, y), k.value.cB]);
      res := Ok(pake2.value);
    }

    /** The error, if the initiator's confirmation does not hold; the handshake completes in no other way. */
    method HandlePake3(raw: seq<byte>) returns (err: Option<PaseError>)
      requires Valid()
      modifies this`done
      ensures Valid() && done == (old(done) || err == None)
      ensures match (keys, PakeDecoded(raw, 1))
              case (None, _) => err == Some(OutOfOrder)
              case (_, Err(e)) => err == Some(BadMessage(e))
              case (Some(k), Ok(fields)) => err == if k.cA == fields[0] then None else Some(NotConfirmed)
    {
      hide PakeDecoded;
      if keys == None { return Some(OutOfOrder); }
      var fields := DecodeFields(raw, 1);
      if fields.Err? { return Some(BadMessage(fields.error)); }
      if keys.value.cA != fields.value[0] { return Some(NotConfirmed); }
      done := true;
      err := None;
    }

    method SecureSession() returns (res: Result<Ends, PaseError>)
      requires Valid()
      ensures res == if !done then Err(Incomplete)
                     else Ok(Ends(localSID, peerSID, 0, 0, suite.r2i(keys.value.ke), suite.i2r(keys.value.ke)))
    {
      if !done { return Err(Incomplete); }
      res := Ok(Ends(localSID, peerSID, 0, 0, suite.r2i(keys.value.ke), suite.i2r(keys.value.ke)));
    }
  }

  // ---------------------------------------------------------------------- a whole handshake

  /** The parameter messages, and the response in the hands of the initiator. */
  method Negotiate<P(!new)>(i: Initiator<P>, d: Responder<P>, randomI: seq<byte>,
                     randomR: seq<byte>) returns (response: seq<byte>)
    requires i.Valid() && d.Valid() && |randomI| == 32 && |randomR| == 32
    modifies i`reqRaw, d`peerSID, d`context
    ensures i.Valid() && d.Valid() && i.reqRaw.Some?
    ensures d.peerSID == i.localSID && d.context == Some(ContextHash(d.suite, i.reqRaw.value, response))
    ensures response == ResponseBytes(ParamResponse(randomI, randomR, d.localSID, Some(d.params)))
  {
    hide RequestLoop, ResponseBytes, RequestBytes, RequestDecoded;
    var request := i.ParamRequest(randomI);
    RequestReadBack(PaseMessages.ParamRequest(randomI, i.localSID, 0, false), []);
    assert request.value + [] == request.value;
    var res := d.HandleParamRequest(request.value, randomR);
    response := res.value;
  }

  /** The three key exchange messages, between sides that know the same passcode. */
  method Confirm<P(!new)>(i: Initiator<P>, d: Responder<P>, response: seq<byte>, ghost v: ParamResponse, x: nat, y: nat)
    requires i.Valid() && d.Valid() && i.suite == d.suite && Lawful(d.suite.curve) && i.reqRaw.Some?
    requires GoodParams(d.params) && v.params == Some(d.params) && StorableResponse(v)
    requires response == ResponseBytes(v)
    requires d.context == Some(ContextHash(d.suite, i.reqRaw.value, response))
    requires var w := DeriveW(i.suite, i.passcode, d.params).value; d.w0 == w.0 && d.l == Record(d.suite.curve, w.1)
    modifies i`peerSID, i`prover, i`context, i`keys, i`done, d`keys, d`done
    ensures i.Valid() && d.Valid() && i.done && d.done && i.keys == d.keys && i.peerSID == v.session
  {
    hide Lawful, Sized, GoodParams, DeriveW, ProverKeys, VerifierKeys, ProverShare, VerifierShare, Record, IsPake,
         ResponseBytes, ResponseDecoded, StorableResponse, PakeDecoded;
    Nontrivial(i.suite.curve);
    ghost var w := DeriveW(i.suite, i.passcode, d.params).value;
    ghost var pA, pB := ProverShare(i.suite.curve, w.0, x), VerifierShare(i.suite.curve, w.0, y);
    ResponseReadBack(v, []);
    assert response + [] == response;
    var pake1 := i.HandleParamResponse(response, x);
    KeysAgree(i.suite.curve, i.suite.primitives, w.0, w.1, x, y, i.context);
    PakeReadBack(pake1.value, [pA]);
    var pake2 := d.HandlePake1(pake1.value, y);
    ghost var keys := d.keys.value;
    PakeReadBack(pake2.value, [pB, keys.cB]);
    var pake3 := i.HandlePake2(pake2.value);
    PakeReadBack(pake3.value, [keys.cA]);
    var err := d.HandlePake3(pake3.value);
  }

  /**
   * Undisturbed and with the same passcode the handshake completes on both sides: the session
   * identifiers cross over, and each side sends under the key with which the other receives.
   */
  method HonestRun<P(!new)>(s: Suite<P>, passcode: uint32, params: PbkdfParams, sidI: uint16, sidR: uint16,
                            randomI: seq<byte>, randomR: seq<byte>, x: nat, y: nat)
    returns (a: Result<Ends, PaseError>, b: Result<Ends, PaseError>)
    requires Sized(s) && Lawful(s.curve) && GoodParams(params) && |randomI| == 32 && |randomR| == 32
    ensures a.Ok? && b.Ok?
    ensures a.value.localSID == b.value.peerSID == sidI && a.value.peerSID == b.value.localSID == sidR
    ensures a.value.sendKey == b.value.recvKey && a.value.recvKey == b.value.sendKey
  {
    hide Lawful, Sized, GoodParams, DeriveW, ProverKeys, VerifierKeys, ProverShare, VerifierShare, Record;
    var initiator := new Initiator(s, passcode, sidI);
    var responder := new Responder(s, passcode, params, sidR);
    var response := Negotiate(initiator, responder, randomI, randomR);
    Confirm(initiator, responder, response, ParamResponse(randomI, randomR, sidR, Some(params)), x, y);
    a := initiator.SecureSession();
    b := responder.SecureSession();
  }

  // ---------------------------------------------------------------------- different passcodes

  /** What the derivation makes of a passcode, modulo the order; only this part goes into the transcript. */
  function Scalar<P(!new)>(s: Suite<P>, passcode: uint32, p: PbkdfParams): nat
    requires s.curve.order > 0
  {
    s.pbkdf(passcode, p.salt, p.iterations).0 % s.curve.order
  }

  /** A confirmation that holds shows that both sides derived the same scalar from their passcodes. */
  lemma ConfirmedPasscode<P(!new)>(s: Suite<P>, mine: Seen, theirs: Seen, passcode: uint32, p: PbkdfParams, passcode': uint32,
                                   p': PbkdfParams)
    requires Lawful(s.curve) && Symbolic(s.primitives) && SizesFit(s.curve, mine) && SizesFit(s.curve, theirs)
    requires GoodParams(p) && GoodParams(p') && s.curve.order > 0
    requires mine.w0 == DeriveW(s, passcode, p).value.0 && theirs.w0 == DeriveW(s, passcode', p').value.0
    requires var a, b := Derived(s.curve, s.primitives, mine), Derived(s.curve, s.primitives, theirs);
             a.cA == b.cA || a.cB == b.cB
    ensures Scalar(s, passcode, p) == Scalar(s, passcode', p')
  {
    hide Lawful, Symbolic, SizesFit, Derived;
    ConfirmedMeansSameView(s.curve, s.primitives, mine, theirs);
    Reduced(s.pbkdf(passcode, p.salt, p.iterations).0, s.curve.order);
    Reduced(s.pbkdf(passcode', p'.salt, p'.iterations).0, s.curve.order);
  }

  lemma Reduced(v: nat, m: nat)
    requires m > 0
    ensures v % m % m == v % m
  {
  }

  /** The device's record is that of its passcode: the other scalar times the generator. */
  lemma RecordOfPasscode<P(!new)>(s: Suite<P>, passcode: uint32, p: PbkdfParams)
    requires GoodParams(p) && s.curve.order > 0
    ensures Record(s.curve, DeriveW(s, passcode, p).value.1) ==
            s.curve.bytes(Times(s.curve, s.pbkdf(passcode, p.salt, p.iterations).1 % s.curve.order, s.curve.g))
  {
    hide Times;
    Reduced(s.pbkdf(passcode, p.salt, p.iterations).1, s.curve.order);
  }

  /** Symbolic primitives over values that fit a Go slice. */
  ghost predicate Ideal<P(!new)>(s: Suite<P>) {
    && Sized(s) && Lawful(s.curve) && Symbolic(s.primitives) && s.curve.order <= Range(32)
    && forall m :: Storable(s.hash(m))
  }

  /** A view of the handshake from a side with this passcode. */
  ghost predicate ViewOf<P(!new)>(s: Suite<P>, v: Seen, passcode: uint32, p: PbkdfParams)
    requires GoodParams(p) && s.curve.order > 0
  {
    && v.w0 == DeriveW(s, passcode, p).value.0 && Storable(v.context) && Storable(v.shareP) && Storable(v.shareV)
    && (exists q :: v.shared.z == s.curve.bytes(q)) && (exists q :: v.shared.v == s.curve.bytes(q))
  }

  lemma ViewFits<P(!new)>(s: Suite<P>, v: Seen, passcode: uint32, p: PbkdfParams)
    requires Ideal(s) && GoodParams(p) && ViewOf(s, v, passcode, p)
    ensures SizesFit(s.curve, v)
  {
    hide Symbolic, Lawful, DeriveW, Range;
    var fields := Fields(s.curve, v);
    forall f | f in fields ensures |f| < 0x1_0000_0000_0000_0000 {
      assert Storable(s.curve.bytes(s.curve.m)) && Storable(s.curve.bytes(s.curve.n));
    }
  }

  /** The initiator's view on the second key exchange message, and what its keys are. */
  lemma ProverView<P(!new)>(s: Suite<P>, passcode: uint32, p: PbkdfParams, w: (nat, nat), x: nat, point: P, context: seq<byte>)
    returns (v: Seen)
    requires Ideal(s) && GoodParams(p) && DeriveW(s, passcode, p) == Some(w) && Storable(context)
    ensures ViewOf(s, v, passcode, p) && v.context == context
    ensures ProverKeys(s.curve, s.primitives, w.0, w.1, x, s.curve.bytes(point), context) == Some(Derived(s.curve, s.primitives, v))
  {
    hide Symbolic, DeriveW, Scaled, Derived;
    Decodes(s.curve, point);
    var shared := ProverFinish(s.curve, w.0, w.1, x, s.curve.bytes(point)).value;
    v := Seen(context, ProverShare(s.curve, w.0, x), s.curve.bytes(point), shared, w.0);
  }

  lemma VerifierView<P(!new)>(s: Suite<P>, passcode: uint32, p: PbkdfParams, w: (nat, nat), l: P, y: nat, point: P, context: seq<byte>)
    returns (v: Seen)
    requires Ideal(s) && GoodParams(p) && DeriveW(s, passcode, p) == Some(w) && Storable(context)
    ensures ViewOf(s, v, passcode, p) && v.context == context
    ensures VerifierKeys(s.curve, s.primitives, w.0, l, y, s.curve.bytes(point), context) == Some(Derived(s.curve, s.primitives, v))
  {
    hide Symbolic, DeriveW, Scaled, Derived;
    Decodes(s.curve, point);
    var shared := VerifierFinish(s.curve, w.0, l, y, s.curve.bytes(point)).value;
    v := Seen(context, s.curve.bytes(point), VerifierShare(s.curve, w.0, y), shared, w.0);
  }

  /** Views from passcodes with different scalars have no confirmation in common. */
  lemma ViewsApart<P(!new)>(s: Suite<P>, mine: Seen, theirs: Seen, passcode: uint32, passcode': uint32, p: PbkdfParams)
    requires Ideal(s) && GoodParams(p) && ViewOf(s, mine, passcode, p) && ViewOf(s, theirs, passcode', p)
    requires Scalar(s, passcode, p) != Scalar(s, passcode', p)
    ensures Derived(s.curve, s.primitives, mine).cB != Derived(s.curve, s.primitives, theirs).cB
    ensures Derived(s.curve, s.primitives, mine).cA != Derived(s.curve, s.primitives, theirs).cA
  {
    hide Symbolic, Lawful, Scalar, Derived, SizesFit;
    ViewFits(s, mine, passcode, p);
    ViewFits(s, theirs, passcode', p);
    var a, b := Derived(s.curve, s.primitives, mine), Derived(s.curve, s.primitives, theirs);
    if a.cA == b.cA || a.cB == b.cB { ConfirmedPasscode(s, mine, theirs, passcode, p, passcode', p); }
  }

  /** The key exchange messages between sides whose passcodes have different scalars. */
  method Mismatch<P(!new)>(i: Initiator<P>, d: Responder<P>, response: seq<byte>, ghost v: ParamResponse, ghost passcode': uint32,
                           x: nat, y: nat)
    returns (res: Result<seq<byte>, PaseError>)
    requires i.Valid() && d.Valid() && i.suite == d.suite && Ideal(d.suite) && i.reqRaw.Some?
    requires GoodParams(d.params) && v.params == Some(d.params) && StorableResponse(v)
    requires response == ResponseBytes(v)
    requires d.context == Some(ContextHash(d.suite, i.reqRaw.value, response))
    requires var w := DeriveW(d.suite, passcode', d.params).value; d.w0 == w.0 && d.l == Record(d.suite.curve, w.1)
    requires Scalar(i.suite, i.passcode, d.params) != Scalar(d.suite, passcode', d.params)
    modifies i`peerSID, i`prover, i`context, i`keys, i`done, d`keys
    ensures i.Valid() && d.Valid() && res == Err(NotConfirmed) && i.done == old(i.done)
  {
    hide Lawful, Symbolic, Sized, GoodParams, DeriveW, ProverKeys, VerifierKeys, Record, IsPake, Scalar, Scaled, Derived,
         ResponseBytes, ResponseDecoded, StorableResponse, PakeDecoded, ViewOf, Range;
    ResponseReadBack(v, []);
    assert response + [] == response;
    var pake1 := i.HandleParamResponse(response, x);
    ghost var s, p, c := i.suite, d.params, i.suite.curve;
    ghost var w, w' := DeriveW(s, i.passcode, p).value, DeriveW(s, passcode', p).value;
    ghost var pA, pB := c.add(Scaled(c, x, c.g), Scaled(c, w.0, c.m)), c.add(Scaled(c, y, c.g), Scaled(c, w'.0, c.n));
    PakeReadBack(pake1.value, [c.bytes(pA)]);
    RecordReadBack(s, w'.1);
    ghost var theirs := VerifierView(s, passcode', p, w', c.point(d.l).value, y, pA, i.context);
    var pake2 := d.HandlePake1(pake1.value, y);
    PakeReadBack(pake2.value, [c.bytes(pB), d.keys.value.cB]);
    ghost var mine := ProverView(s, i.passcode, p, w, x, pB, i.context);
    ViewsApart(s, mine, theirs, i.passcode, passcode', p);
    res := i.HandlePake2(pake2.value);
  }

  /**
   * Even with every message delivered unchanged, sides whose passcodes have different scalars do not come together: the
   * initiator finds the device's confirmation wrong, sends none of its own, and neither side completes.
   */
  method WrongPasscode<P(!new)>(s: Suite<P>, passcode: uint32, passcode': uint32, params: PbkdfParams, sidI: uint16, sidR: uint16,
                                randomI: seq<byte>, randomR: seq<byte>, x: nat, y: nat)
    returns (res: Result<seq<byte>, PaseError>, a: Result<Ends, PaseError>, b: Result<Ends, PaseError>)
    requires Ideal(s) && GoodParams(params) && |randomI| == 32 && |randomR| == 32
    requires Scalar(s, passcode, params) != Scalar(s, passcode', params)
    ensures res == Err(NotConfirmed) && a == Err(Incomplete) && b == Err(Incomplete)
  {
    hide Lawful, Symbolic, Sized, GoodParams, DeriveW, Record, Scalar, Range, ResponseBytes;
    var i := new Initiator(s, passcode, sidI);
    var d := new Responder(s, passcode', params, sidR);
    var response := Negotiate(i, d, randomI, randomR);
    res := Mismatch(i, d, response, ParamResponse(randomI, randomR, sidR, Some(params)), passcode', x, y);
    a := i.SecureSession();
    b := d.SecureSession();
  }

  lemma RecordReadBack<P(!new)>(s: Suite<P>, w1: nat)
    requires Lawful(s.curve) && s.curve.order > 0
    ensures s.curve.point(Record(s.curve, w1)).Some?
  {
    hide Scaled;
    Decodes(s.curve, Scaled(s.curve, w1, s.curve.g));
  }

  // ---------------------------------------------------------------------- an interfered handshake

  /** Nothing lies behind the one structure that a parameter request starts with. */
  predicate Exact(request: seq<byte>) {
    RequestLoop(request).v.Ready? && RequestLoop(request).v.pos == |request|
  }

  lemma StandingRequest()
    ensures Standing(RequestStep())
  {
  }

  /** No proper part of an encoded request is read without error. */
  lemma NotShorter(q: PaseMessages.ParamRequest, part: seq<byte>, more: seq<byte>)
    requires |q.random| == 32 && part + more == RequestBytes(q) && RequestDecoded(part).Ok?
    ensures more == []
  {
    hide RequestBytes, Message, Standing, RequestStep;
    StandingRequest();
    MessageStays(part, more, NO_REQUEST, NotAStructure, RequestStep());
    RequestReadBack(q, []);
    assert RequestBytes(q) + [] == RequestBytes(q);
    var v := RequestLoop(part).v;
    assert v.pos <= |part| && (part + more)[v.pos..] == [];
  }

  /** What one hash of both messages leaves open: where the request ends, but not what the device reads of it. */
  lemma JoinedMessages(q: PaseMessages.ParamRequest, response: seq<byte>, request': seq<byte>, response': seq<byte>)
    requires |q.random| == 32 && RequestDecoded(request').Ok?
    requires CONTEXT_PREFIX + RequestBytes(q) + response' == CONTEXT_PREFIX + request' + response
    ensures RequestDecoded(request') == Ok(q) && RequestBytes(q) <= request'
    ensures request' == RequestBytes(q) && response' == response <==> Exact(request')
  {
    hide RequestBytes, RequestDecoded, RequestLoop;
    var request := RequestBytes(q);
    SameJoin(request, response', request', response);
    if |request'| < |request| {
      NotShorter(q, request', request[|request'|..]);
    } else {
      RequestReadBack(q, request'[|request|..]);
    }
  }

  /**
   * What a confirmation that holds says about the parameter messages, whatever happened to them on the
   * way: the device took the initiator's request as it was meant and both sides have the same keys. The
   * messages are the same on both sides, and with them the device's session identifier, if and only if
   * the request reached the device with nothing behind its structure.
   */
  lemma ConfirmedMessages<P(!new)>(s: Suite<P>, mine: Seen, theirs: Seen, q: PaseMessages.ParamRequest, response: seq<byte>,
                                   request': seq<byte>, response': seq<byte>)
    requires Lawful(s.curve) && Symbolic(s.primitives) && SizesFit(s.curve, mine) && SizesFit(s.curve, theirs)
    requires forall a, b :: s.hash(a) == s.hash(b) ==> a == b
    requires |q.random| == 32 && RequestDecoded(request').Ok?
    requires mine.context == ContextHash(s, RequestBytes(q), response')
    requires theirs.context == ContextHash(s, request', response)
    requires var a, b := Derived(s.curve, s.primitives, mine), Derived(s.curve, s.primitives, theirs);
             a.cA == b.cA || a.cB == b.cB
    ensures Derived(s.curve, s.primitives, mine) == Derived(s.curve, s.primitives, theirs)
    ensures RequestDecoded(request') == Ok(q)
    ensures request' == RequestBytes(q) && response' == response <==> Exact(request')
  {
    hide Derived, Lawful, Symbolic, SizesFit, RequestBytes, RequestDecoded, Exact;
    ConfirmedMeansSameView(s.curve, s.primitives, mine, theirs);
    JoinedMessages(q, response, request', response');
  }

  lemma SameJoin(a: seq<byte>, b: seq<byte>, c: seq<byte>, d: seq<byte>)
    requires CONTEXT_PREFIX + a + b == CONTEXT_PREFIX + c + d
    ensures |a| <= |c| ==> c == a + c[|a|..] && b == c[|a|..] + d
    ensures |c| < |a| ==> a == c + a[|c|..]
  {
    var n := |CONTEXT_PREFIX|;
    var ab, cd := a + b, c + d;
    assert (CONTEXT_PREFIX + a + b)[n..] == ab && (CONTEXT_PREFIX + c + d)[n..] == cd;
    if |a| <= |c| {
      assert c == cd[..|c|] == ab[..|c|];
      assert c[..|a|] == ab[..|a|] == a && b == ab[|a|..] == cd[|a|..];
    } else {
      assert a == ab[..|a|] == cd[..|a|] && a[..|c|] == cd[..|c|] == c;
    }
  }

  /**
   * The other case occurs: with one response behind the request on its way to the device and before the
   * device's own response on the way back, the contexts agree and each side reads what stands first.
   */
  lemma RunTogether<P(!new)>(s: Suite<P>, q: PaseMessages.ParamRequest, first: ParamResponse, own: ParamResponse)
    requires |q.random| == 32 && StorableResponse(first)
    ensures var request, forged, response := RequestBytes(q), ResponseBytes(first), ResponseBytes(own);
            && ContextHash(s, request, forged + response) == ContextHash(s, request + forged, response)
            && RequestDecoded(request + forged) == Ok(q) && ResponseDecoded(forged + response) == Ok(first)
            && !Exact(request + forged)
  {
    hide RequestBytes, ResponseBytes, RequestDecoded, ResponseDecoded, Exact;
    ResponseIsSomething(first);
    MoreBehind(q, ResponseBytes(first));
    ResponseReadBack(first, ResponseBytes(own));
    assert CONTEXT_PREFIX + RequestBytes(q) + (ResponseBytes(first) + ResponseBytes(own)) ==
           CONTEXT_PREFIX + (RequestBytes(q) + ResponseBytes(first)) + ResponseBytes(own);
  }

  lemma ResponseIsSomething(q: ParamResponse)
    ensures ResponseBytes(q) != []
  {
  }

  /** A request with something behind it is read as the request alone. */
  lemma MoreBehind(q: PaseMessages.ParamRequest, more: seq<byte>)
    requires |q.random| == 32 && more != []
    ensures RequestDecoded(RequestBytes(q) + more) == Ok(q) && !Exact(RequestBytes(q) + more)
  {
    hide RequestBytes, RequestDecoded, RequestLoop;
    RequestReadBack(q, more);
  }
}
