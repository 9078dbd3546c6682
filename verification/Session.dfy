/**
 * Secure sessions over an ideal AEAD, and two of them talking over a network that drops,
 * duplicates, reorders and invents messages.
 */
module Session {
  import opened Bytes
  import MH = MessageHeader
  import opened Replay

  type Key = seq<byte>

  /** One use of the AEAD. */
  datatype Sealed = Sealed(key: Key, nonce: seq<byte>, aad: seq<byte>, ct: seq<byte>, plaintext: seq<byte>)

  /** What an ideal AEAD opens: exactly what was sealed under the same key, nonce and header. */
  function Opened(log: seq<Sealed>, key: Key, nonce: seq<byte>, aad: seq<byte>, ct: seq<byte>): (r: Option<seq<byte>>)
    ensures r.Some? ==> Sealed(key, nonce, aad, ct, r.value) in log
  {
    if log == [] then None
    else
      var e := log[|log| - 1];
      if e == Sealed(key, nonce, aad, ct, e.plaintext) then Some(e.plaintext)
      else Opened(log[..|log| - 1], key, nonce, aad, ct)
  }

  lemma {:induction false} OpenedComplete(log: seq<Sealed>, e: Sealed)
    requires e in log
    ensures Opened(log, e.key, e.nonce, e.aad, e.ct).Some?
    decreases |log|
  {
    if log[|log| - 1] != e {
      assert log == log[..|log| - 1] + [log[|log| - 1]];
      OpenedComplete(log[..|log| - 1], e);
    }
  }

  /** The identifiers and directional keys of one end of a session. */
  datatype Ends = Ends(localSID: uint16, peerSID: uint16, localNode: uint64, peerNode: uint64, sendKey: Key, recvKey: Key)

  /** Security flags, counter and source node, 13 bytes. */
  function Nonce(flags: byte, counter: uint32, node: uint64): (n: seq<byte>)
    ensures |n| == 13
  {
    [flags] + Le(counter, 4) + Le(node, 8)
  }

  /** A nonce determines flags, counter and node. */
  lemma NonceInjective(f: byte, c: uint32, node: uint64, f': byte, c': uint32, node': uint64)
    requires Nonce(f, c, node) == Nonce(f', c', node')
    ensures f == f' && c == c' && node == node'
  {
    hide Le;
    var n, n' := Nonce(f, c, node), Nonce(f', c', node');
    assert [f] == n[..1] == n'[..1] == [f'];
    assert Le(c, 4) == n[1..5] == n'[1..5] == Le(c', 4);
    assert Le(node, 8) == n[5..] == n'[5..] == Le(node', 8);
    Ranges();
    LeInjective(c, c', 4);
    LeInjective(node, node', 8);
  }

  function HeaderFor(s: Ends, counter: uint32): MH.Header {
    MH.Header(s.peerSID, 0, false, false, counter, s.localNode, s.localNode != 0, MH.DEST_NONE, 0, 0)
  }

  /** The encoded header of the message with this counter. */
  function AadFor(s: Ends, counter: uint32): (aad: seq<byte>)
    ensures |aad| >= 8
  {
    MH.Encode(HeaderFor(s, counter)).value
  }

  /** The result of receiving: a new message, an authenticated duplicate, or nothing. */
  datatype Received =
    | Fresh(counter: uint32, payload: seq<byte>)
    | Replayed(counter: uint32, payload: seq<byte>)
    | Rejected

  /** A frame that authenticates: its counter and payload. */
  function Authentic(s: Ends, log: seq<Sealed>, frame: seq<byte>): Option<(uint32, seq<byte>)> {
    match MH.Decode(frame)
    case Err(_) => None
    case Ok(d) =>
      if d.header.sessionID != s.localSID then None
      else
        var aad := frame[..d.size];
        match Opened(log, s.recvKey, Nonce(aad[3], d.header.counter, s.peerNode), aad, frame[d.size..])
        case None => None
        case Some(pt) => Some((d.header.counter, pt))
  }

  const EXHAUSTED := 0xFFFF_FFFF

  class IdealAead {
    var log: seq<Sealed>

    constructor ()
      ensures log == []
    {
      log := [];
    }

    /** Seals with any ciphertext whatever. */
    method Seal(key: Key, nonce: seq<byte>, plaintext: seq<byte>, aad: seq<byte>) returns (ct: seq<byte>)
      modifies this
      ensures log == old(log) + [Sealed(key, nonce, aad, ct, plaintext)]
    {
      ct := *;
      log := log + [Sealed(key, nonce, aad, ct, plaintext)];
    }
  }

  /** One end of an established session. */
  class Secure {
    const ends: Ends
    const aead: IdealAead
    const rx: ReplayWindow
    var txCounter: uint32

    constructor (ends: Ends, aead: IdealAead, txStart: uint32)
      ensures this.ends == ends && this.aead == aead && txCounter == txStart
      ensures fresh(rx) && rx.Value() == EMPTY
    {
      this.ends := ends;
      this.aead := aead;
      txCounter := txStart;
      rx := new ReplayWindow();
    }

    /** Seals a payload under the next counter, or refuses for good at the last counter. */
    method Encrypt(payload: seq<byte>) returns (frame: Option<seq<byte>>)
      modifies this, aead
      ensures old(txCounter) == EXHAUSTED ==> frame == None && txCounter == old(txCounter) && aead.log == old(aead.log)
      ensures old(txCounter) < EXHAUSTED ==>
                && frame.Some? && txCounter == old(txCounter) + 1
                && var aad := AadFor(ends, old(txCounter));
                && aad <= frame.value
                && aead.log == old(aead.log) +
                     [Sealed(ends.sendKey, Nonce(aad[3], old(txCounter), ends.localNode), aad, frame.value[|aad|..], payload)]
    {
      if txCounter == EXHAUSTED { return None; }
      var counter := txCounter;
      txCounter := txCounter + 1;
      var header := MH.EncodeHeader(HeaderFor(ends, counter));
      var aad := header.value;
      var ct := aead.Seal(ends.sendKey, Nonce(aad[3], counter, ends.localNode), payload, aad);
      assert (aad + ct)[|aad|..] == ct;
      return Some(aad + ct);
    }

    /** Authenticates a frame and checks its counter against the replay window. */
    method DecryptMsg(frame: seq<byte>) returns (r: Received)
      modifies rx
      ensures match Authentic(ends, aead.log, frame)
              case None => r == Rejected && rx.Value() == old(rx.Value())
              case Some(m) =>
                && rx.Value() == Present(old(rx.Value()), m.0).0
                && r == if Present(old(rx.Value()), m.0).1 then Fresh(m.0, m.1) else Replayed(m.0, m.1)
    {
      var decoded := MH.DecodeHeader(frame);
      if decoded.Err? { return Rejected; }
      var hdr, rest := decoded.value.0, decoded.value.1;
      if hdr.sessionID != ends.localSID { return Rejected; }
      var aad := frame[..|frame| - |rest|];
      var pt := Opened(aead.log, ends.recvKey, Nonce(aad[3], hdr.counter, ends.peerNode), aad, rest);
      if pt == None { return Rejected; }
      var ok := rx.Accept(hdr.counter);
      r := if ok then Fresh(hdr.counter, pt.value) else Replayed(hdr.counter, pt.value);
    }
  }
}
