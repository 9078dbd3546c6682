module Network {
  // Two ends of a session over a network that drops, duplicates, reorders and invents messages.
  // Every run of sends and deliveries is covered; a delivery may carry any bytes.

  import opened Bytes
  import MH = MessageHeader
  import opened Replay
  import opened Session

  /**
   * One end: its next counter, the counters of authentic messages in the order they were presented
   * to its replay window, and what it returned without an error.
   */
  datatype End = End(ends: Ends, tx: uint32, presented: seq<uint32>, delivered: seq<(uint32, seq<byte>)>)

  datatype Net = Net(a: End, b: End, log: seq<Sealed>)

  datatype Action =
    | Send(fromA: bool, payload: seq<byte>, ct: seq<byte>)
    | Deliver(toA: bool, frame: seq<byte>)

  function Message(s: Ends, counter: uint32, payload: seq<byte>, ct: seq<byte>): Sealed {
    var aad := AadFor(s, counter);
    Sealed(s.sendKey, Nonce(aad[3], counter, s.localNode), aad, ct, payload)
  }

  function Receive(e: End, log: seq<Sealed>, frame: seq<byte>): End {
    match Authentic(e.ends, log, frame)
    case None => e
    case Some(m) =>
      End(e.ends, e.tx, e.presented + [m.0],
          if Present(Run(e.presented).w, m.0).1 then e.delivered + [m] else e.delivered)
  }

  /** The sender's log entry and new counter; nothing at the last counter. */
  function Do(net: Net, act: Action): Net {
    match act
    case Send(fromA, payload, ct) =>
      var e := if fromA then net.a else net.b;
      if e.tx == EXHAUSTED then net
      else
        var log := net.log + [Message(e.ends, e.tx, payload, ct)];
        if fromA then Net(e.(tx := e.tx + 1), net.b, log) else Net(net.a, e.(tx := e.tx + 1), log)
    case Deliver(toA, frame) =>
      if toA then net.(a := Receive(net.a, net.log, frame)) else net.(b := Receive(net.b, net.log, frame))
  }

  function Exec(net: Net, acts: seq<Action>): Net {
    if acts == [] then net else Do(Exec(net, acts[..|acts| - 1]), acts[|acts| - 1])
  }

  /** Crossed session ids, nodes and keys, with different keys for the two directions. */
  predicate Peers(a: Ends, b: Ends) {
    && a.localSID == b.peerSID && b.localSID == a.peerSID
    && a.localNode == b.peerNode && b.localNode == a.peerNode
    && a.sendKey == b.recvKey && b.sendKey == a.recvKey
    && a.sendKey != b.sendKey
  }

  predicate Established(net: Net) {
    && Peers(net.a.ends, net.b.ends) && net.log == []
    && net.a.presented == [] && net.b.presented == []
    && net.a.delivered == [] && net.b.delivered == []
  }

  // ---------------------------------------------------------------------- the invariant

  /** The entry is e's message with counter c. */
  predicate IsMessage(s: Ends, e: Sealed, c: uint32) {
    e == Message(s, c, e.plaintext, e.ct)
  }

  ghost predicate SentBefore(e: End, entry: Sealed) {
    exists c: uint32 :: c < e.tx && IsMessage(e.ends, entry, c)
  }

  /** Everything under e's key is one of its messages, with a counter it has used. */
  ghost predicate LogOf(e: End, log: seq<Sealed>) {
    forall i :: 0 <= i < |log| && log[i].key == e.ends.sendKey ==> SentBefore(e, log[i])
  }

  ghost predicate NoncesDiffer(log: seq<Sealed>) {
    forall i, k :: 0 <= i < k < |log| && log[i].key == log[k].key ==> log[i].nonce != log[k].nonce
  }

  /** The peer sent this payload under this counter. */
  ghost predicate WasSent(peer: Ends, log: seq<Sealed>, m: (uint32, seq<byte>)) {
    exists e :: e in log && IsMessage(peer, e, m.0) && e.plaintext == m.1
  }

  function Counters(ms: seq<(uint32, seq<byte>)>): (cs: seq<uint32>)
    ensures |cs| == |ms|
  {
    if ms == [] then [] else Counters(ms[..|ms| - 1]) + [ms[|ms| - 1].0]
  }

  ghost predicate InboxOf(e: End, peer: Ends, log: seq<Sealed>) {
    && (forall i :: 0 <= i < |e.delivered| ==> WasSent(peer, log, e.delivered[i]))
    && Counters(e.delivered) == Run(e.presented).accepted
  }

  ghost predicate Safe(net: Net) {
    && Peers(net.a.ends, net.b.ends)
    && (forall i :: 0 <= i < |net.log| ==> net.log[i].key in {net.a.ends.sendKey, net.b.ends.sendKey})
    && LogOf(net.a, net.log) && LogOf(net.b, net.log)
    && NoncesDiffer(net.log)
    && InboxOf(net.a, net.b.ends, net.log) && InboxOf(net.b, net.a.ends, net.log)
  }

  lemma SendKeeps(e: End, log: seq<Sealed>, payload: seq<byte>, ct: seq<byte>)
    requires LogOf(e, log) && NoncesDiffer(log) && e.tx < EXHAUSTED
    ensures var log' := log + [Message(e.ends, e.tx, payload, ct)];
            LogOf(e.(tx := e.tx + 1), log') && NoncesDiffer(log')
  {
    var entry := Message(e.ends, e.tx, payload, ct);
    var log' := log + [entry];
    var e' := e.(tx := e.tx + 1);
    forall i | 0 <= i < |log'| && log'[i].key == e.ends.sendKey ensures SentBefore(e', log'[i]) {
      if i < |log| {
        assert SentBefore(e, log[i]);
        var c: uint32 :| c < e.tx && IsMessage(e.ends, log[i], c);
        assert c < e'.tx;
      } else {
        assert IsMessage(e.ends, entry, e.tx);
      }
    }
    forall i | 0 <= i < |log| && log[i].key == entry.key ensures log[i].nonce != entry.nonce {
      assert SentBefore(e, log[i]);
      var c: uint32 :| c < e.tx && IsMessage(e.ends, log[i], c);
      if log[i].nonce == entry.nonce {
        NonceInjective(log[i].aad[3], c, e.ends.localNode, entry.aad[3], e.tx, e.ends.localNode);
      }
    }
  }

  /** The other end's part of the log is untouched. */
  lemma OtherKeeps(e: End, log: seq<Sealed>, entry: Sealed)
    requires LogOf(e, log) && entry.key != e.ends.sendKey
    ensures LogOf(e, log + [entry])
  {
    forall i | 0 <= i < |log + [entry]| && (log + [entry])[i].key == e.ends.sendKey
      ensures SentBefore(e, (log + [entry])[i])
    {
      assert SentBefore(e, log[i]);
    }
  }

  lemma InboxKeeps(e: End, peer: Ends, log: seq<Sealed>, entry: Sealed)
    requires InboxOf(e, peer, log)
    ensures InboxOf(e, peer, log + [entry])
  {
    forall i | 0 <= i < |e.delivered| ensures WasSent(peer, log + [entry], e.delivered[i]) {
      assert WasSent(peer, log, e.delivered[i]);
      var s :| s in log && IsMessage(peer, s, e.delivered[i].0) && s.plaintext == e.delivered[i].1;
      assert s in log + [entry];
    }
  }

  /** A frame that authenticates is a message of the peer, under the counter it shows. */
  lemma AuthenticWasSent(e: End, peer: End, log: seq<Sealed>, frame: seq<byte>)
    requires Peers(e.ends, peer.ends) && LogOf(peer, log) && Authentic(e.ends, log, frame).Some?
    ensures WasSent(peer.ends, log, Authentic(e.ends, log, frame).value)
  {
    var d := MH.Decode(frame).value;
    var aad, c := frame[..d.size], d.header.counter;
    var nonce := Nonce(aad[3], c, e.ends.peerNode);
    var pt := Opened(log, e.ends.recvKey, nonce, aad, frame[d.size..]).value;
    var entry := Sealed(e.ends.recvKey, nonce, aad, frame[d.size..], pt);
    assert entry in log;
    var i :| 0 <= i < |log| && log[i] == entry;
    assert SentBefore(peer, log[i]);
    var c': uint32 :| c' < peer.tx && IsMessage(peer.ends, entry, c');
    NonceInjective(aad[3], c, e.ends.peerNode, entry.aad[3], c', peer.ends.localNode);
  }

  lemma {:induction false} ReceiveKeeps(e: End, peer: End, log: seq<Sealed>, frame: seq<byte>)
    requires Peers(e.ends, peer.ends) && LogOf(peer, log) && InboxOf(e, peer.ends, log)
    ensures InboxOf(Receive(e, log, frame), peer.ends, log)
  {
    hide WasSent, LogOf, Authentic, Present;
    var e' := Receive(e, log, frame);
    match Authentic(e.ends, log, frame)
    case None =>
    case Some(m) =>
      AuthenticWasSent(e, peer, log, frame);
      assert e'.presented[..|e'.presented| - 1] == e.presented;
      if Present(Run(e.presented).w, m.0).1 {
        assert e'.delivered[..|e'.delivered| - 1] == e.delivered;
      }
  }

  lemma {:induction false} SendKeepsSafe(net: Net, fromA: bool, payload: seq<byte>, ct: seq<byte>)
    requires Safe(net)
    ensures Safe(Do(net, Send(fromA, payload, ct)))
  {
    hide InboxOf, LogOf, NoncesDiffer;
    var e, other := if fromA then net.a else net.b, if fromA then net.b else net.a;
    if e.tx < EXHAUSTED {
      var entry := Message(e.ends, e.tx, payload, ct);
      SendKeeps(e, net.log, payload, ct);
      OtherKeeps(other, net.log, entry);
      InboxKeeps(e, other.ends, net.log, entry);
      InboxKeeps(other, e.ends, net.log, entry);
      InboxOnly(e, e.(tx := e.tx + 1), other.ends, net.log + [entry]);
    }
  }

  lemma InboxOnly(e: End, e': End, peer: Ends, log: seq<Sealed>)
    requires InboxOf(e, peer, log) && e'.presented == e.presented && e'.delivered == e.delivered
    ensures InboxOf(e', peer, log)
  {
  }

  lemma LogOnly(e: End, e': End, log: seq<Sealed>)
    requires LogOf(e, log) && e'.ends == e.ends && e'.tx == e.tx
    ensures LogOf(e', log)
  {
    forall i | 0 <= i < |log| && log[i].key == e.ends.sendKey ensures SentBefore(e', log[i]) {
      assert SentBefore(e, log[i]);
    }
  }

  lemma DoKeeps(net: Net, act: Action)
    requires Safe(net)
    ensures Safe(Do(net, act))
  {
    hide InboxOf, LogOf, NoncesDiffer, Authentic;
    match act
    case Send(fromA, payload, ct) =>
      SendKeepsSafe(net, fromA, payload, ct);
    case Deliver(true, frame) =>
      ReceiveKeeps(net.a, net.b, net.log, frame);
      LogOnly(net.a, Receive(net.a, net.log, frame), net.log);
    case Deliver(false, frame) =>
      ReceiveKeeps(net.b, net.a, net.log, frame);
      LogOnly(net.b, Receive(net.b, net.log, frame), net.log);
  }

  /** Whatever the network does, no key sees a nonce twice and only what the peer sent is returned. */
  lemma {:induction false} AlwaysSafe(net: Net, acts: seq<Action>)
    requires Established(net)
    ensures Safe(Exec(net, acts))
    decreases |acts|
  {
    if acts != [] {
      AlwaysSafe(net, acts[..|acts| - 1]);
      DoKeeps(Exec(net, acts[..|acts| - 1]), acts[|acts| - 1]);
    }
  }

  // ---------------------------------------------------------------------- consequences, for either end

  function At(net: Net, atA: bool): End { if atA then net.a else net.b }

  lemma SafeInbox(net: Net, atA: bool)
    requires Safe(net)
    ensures InboxOf(At(net, atA), At(net, !atA).ends, net.log) && LogOf(At(net, !atA), net.log) && NoncesDiffer(net.log)
    ensures Peers(At(net, atA).ends, At(net, !atA).ends)
  {
    hide InboxOf, LogOf, NoncesDiffer;
  }

  /** An end returns a counter at most twice, and at most once while no displaced counter comes back. */
  lemma {:induction false} DeliveredAtMostTwice(net: Net, acts: seq<Action>, atA: bool, c: uint32)
    requires Established(net)
    ensures var e := At(Exec(net, acts), atA);
            && Times(Counters(e.delivered), c) <= 2
            && (!PresentsDisplaced(e.presented) ==> Times(Counters(e.delivered), c) <= 1)
  {
    var n := Exec(net, acts);
    AlwaysSafe(net, acts);
    SafeInbox(n, atA);
    AcceptedAtMostTwice(At(n, atA).presented);
    OnceUnlessDisplaced(At(n, atA).presented);
  }

  /** Messages of one counter that were sent are one message. */
  lemma OneMessage(peer: Ends, log: seq<Sealed>, x: (uint32, seq<byte>), y: (uint32, seq<byte>))
    requires NoncesDiffer(log) && WasSent(peer, log, x) && WasSent(peer, log, y) && x.0 == y.0
    ensures x == y
  {
    var e :| e in log && IsMessage(peer, e, x.0) && e.plaintext == x.1;
    var f :| f in log && IsMessage(peer, f, y.0) && f.plaintext == y.1;
    var p :| 0 <= p < |log| && log[p] == e;
    var q :| 0 <= q < |log| && log[q] == f;
    assert e.key == f.key && e.nonce == f.nonce;
    assert p == q;
  }

  /** Two messages returned under one counter carry the same payload. */
  lemma {:induction false} SameCounterSamePayload(net: Net, acts: seq<Action>, atA: bool, i: nat, k: nat)
    requires Established(net)
    requires var e := At(Exec(net, acts), atA);
             i < |e.delivered| && k < |e.delivered| && e.delivered[i].0 == e.delivered[k].0
    ensures At(Exec(net, acts), atA).delivered[i] == At(Exec(net, acts), atA).delivered[k]
  {
    var n := Exec(net, acts);
    AlwaysSafe(net, acts);
    SafeInbox(n, atA);
    hide Safe, WasSent, LogOf, NoncesDiffer, Exec;
    OneMessage(At(n, !atA).ends, n.log, At(n, atA).delivered[i], At(n, atA).delivered[k]);
  }

  /** The counter of an end only grows, and once exhausted it stays so: later sends change nothing. */
  lemma {:induction false} ExhaustedForever(net: Net, acts: seq<Action>, atA: bool)
    ensures At(Exec(net, acts), atA).tx >= At(net, atA).tx
    ensures At(net, atA).tx == EXHAUSTED ==> At(Exec(net, acts), atA).tx == EXHAUSTED
    ensures forall payload: seq<byte>, ct: seq<byte> ::
              At(net, atA).tx == EXHAUSTED ==> Do(Exec(net, acts), Send(atA, payload, ct)) == Exec(net, acts)
    decreases |acts|
  {
    if acts != [] { ExhaustedForever(net, acts[..|acts| - 1], atA); }
  }

  /**
   * A message that the peer sent authenticates when its frame arrives unchanged, and it is returned
   * unless its counter was accepted before or is more than 32 below the highest accepted one.
   */
  lemma {:induction false} GenuineIsDelivered(net: Net, acts: seq<Action>, atA: bool, i: nat)
    requires Established(net)
    requires i < |Exec(net, acts).log| && Exec(net, acts).log[i].key == At(net, !atA).ends.sendKey
    ensures var n, me := Exec(net, acts), At(Exec(net, acts), atA);
            var e := n.log[i];
            exists c: uint32 ::
              && IsMessage(At(n, !atA).ends, e, c)
              && Authentic(me.ends, n.log, e.aad + e.ct) == Some((c, e.plaintext))
              && (c !in Run(me.presented).accepted && c + 32 >= Run(me.presented).w.max ==>
                    Receive(me, n.log, e.aad + e.ct).delivered == me.delivered + [(c, e.plaintext)])
  {
    var n, me, peer := Exec(net, acts), At(Exec(net, acts), atA), At(Exec(net, acts), !atA);
    var e := n.log[i];
    AlwaysSafe(net, acts);
    EndsStay(net, acts);
    SafeInbox(n, atA);
    hide Safe;
    assert SentBefore(peer, e);
    var c: uint32 :| c < peer.tx && IsMessage(peer.ends, e, c);
    GenuineAuthenticates(me.ends, peer.ends, n.log, i, c);
    Decision(me.presented, c);
  }

  lemma GenuineAuthenticates(a: Ends, b: Ends, log: seq<Sealed>, i: nat, c: uint32)
    requires Peers(a, b) && NoncesDiffer(log) && i < |log| && IsMessage(b, log[i], c)
    ensures Authentic(a, log, log[i].aad + log[i].ct) == Some((c, log[i].plaintext))
  {
    var e := log[i];
    MH.RoundTrip(HeaderFor(b, c), e.ct);
    assert (e.aad + e.ct)[..|e.aad|] == e.aad && (e.aad + e.ct)[|e.aad|..] == e.ct;
    OpenedComplete(log, e);
    var pt := Opened(log, e.key, e.nonce, e.aad, e.ct).value;
    var k :| 0 <= k < |log| && log[k] == Sealed(e.key, e.nonce, e.aad, e.ct, pt);
    assert k == i;
  }

  lemma {:induction false} EndsStay(net: Net, acts: seq<Action>)
    ensures Exec(net, acts).a.ends == net.a.ends && Exec(net, acts).b.ends == net.b.ends
    decreases |acts|
  {
    if acts != [] { EndsStay(net, acts[..|acts| - 1]); }
  }

  // ---------------------------------------------------------------------- the two objects

  /** Two session objects over one AEAD are in the state of the ends. */
  ghost predicate Mirrors(net: Net, a: Secure, b: Secure)
    reads a, b, a.aead, a.rx, b.rx
  {
    && a != b && a.aead == b.aead && a.rx != b.rx && a.aead.log == net.log
    && a.ends == net.a.ends && a.txCounter == net.a.tx && a.rx.Value() == Run(net.a.presented).w
    && b.ends == net.b.ends && b.txCounter == net.b.tx && b.rx.Value() == Run(net.b.presented).w
  }

  /** What an application does with the two objects: it gives one a payload, or bytes that arrived. */
  datatype Order = Transmit(fromA: bool, payload: seq<byte>) | Arrive(toA: bool, frame: seq<byte>)

  method Transmitted(a: Secure, b: Secure, ghost net: Net, fromA: bool, payload: seq<byte>)
    returns (frame: Option<seq<byte>>, ghost ct: seq<byte>)
    requires Mirrors(net, a, b)
    modifies a, b, a.aead
    ensures Mirrors(Do(net, Send(fromA, payload, ct)), a, b)
    ensures var e := At(net, fromA); frame == if e.tx == EXHAUSTED then None else Some(AadFor(e.ends, e.tx) + ct)
  {
    hide AadFor, Nonce, Run;
    var s := if fromA then a else b;
    frame := s.Encrypt(payload);
    ghost var aad := AadFor(s.ends, At(net, fromA).tx);
    ct := if frame.Some? then frame.value[|aad|..] else [];
    assert frame.Some? ==> frame.value == aad + ct;
  }

  method Arrived(a: Secure, b: Secure, ghost net: Net, toA: bool, frame: seq<byte>) returns (r: Received)
    requires Mirrors(net, a, b)
    modifies a.rx, b.rx
    ensures Mirrors(Do(net, Deliver(toA, frame)), a, b)
    ensures At(Do(net, Deliver(toA, frame)), toA).delivered ==
            At(net, toA).delivered + if r.Fresh? then [(r.counter, r.payload)] else []
  {
    hide Authentic, Present;
    var s := if toA then a else b;
    r := s.DecryptMsg(frame);
    ghost var e := At(net, toA);
    if Authentic(e.ends, net.log, frame).Some? {
      OneMorePresented(e.presented, Authentic(e.ends, net.log, frame).value.0);
    }
  }

  lemma OneMorePresented(presented: seq<uint32>, c: uint32)
    ensures Run(presented + [c]).w == Present(Run(presented).w, c).0
  {
    assert (presented + [c])[..|presented|] == presented;
  }

  /** Whatever is done with the two objects is a run of the network, and so all of the above holds of it. */
  method Perform(a: Secure, b: Secure, ghost net: Net, orders: seq<Order>)
    returns (ghost acts: seq<Action>, got: seq<(bool, Received)>)
    requires Mirrors(net, a, b)
    modifies a, b, a.aead, a.rx, b.rx
    ensures |acts| == |orders| && Mirrors(Exec(net, acts), a, b)
    ensures At(Exec(net, acts), true).delivered == net.a.delivered + FreshOf(got, true)
    ensures At(Exec(net, acts), false).delivered == net.b.delivered + FreshOf(got, false)
  {
    hide Mirrors, Do;
    acts, got := [], [];
    var i := 0;
    while i < |orders|
      invariant 0 <= i <= |orders| && |acts| == i && Mirrors(Exec(net, acts), a, b)
      invariant At(Exec(net, acts), true).delivered == net.a.delivered + FreshOf(got, true)
      invariant At(Exec(net, acts), false).delivered == net.b.delivered + FreshOf(got, false)
    {
      ghost var now := Exec(net, acts);
      match orders[i] {
        case Transmit(fromA, payload) =>
          var _, ct := Transmitted(a, b, now, fromA, payload);
          SendsNothingBack(now, fromA, payload, ct);
          OneMoreAct(net, acts, Send(fromA, payload, ct));
          acts := acts + [Send(fromA, payload, ct)];
        case Arrive(toA, frame) =>
          var r := Arrived(a, b, now, toA, frame);
          OtherInbox(now, toA, frame);
          OneMoreAct(net, acts, Deliver(toA, frame));
          OneMoreFresh(got, toA, r);
          acts := acts + [Deliver(toA, frame)];
          got := got + [(toA, r)];
      }
      i := i + 1;
    }
  }

  /** The new messages that one side returned, in order. */
  function FreshOf(got: seq<(bool, Received)>, atA: bool): seq<(uint32, seq<byte>)> {
    if got == [] then []
    else
      var last := got[|got| - 1];
      FreshOf(got[..|got| - 1], atA) + if last.0 == atA && last.1.Fresh? then [(last.1.counter, last.1.payload)] else []
  }

  lemma OneMoreFresh(got: seq<(bool, Received)>, toA: bool, r: Received)
    ensures FreshOf(got + [(toA, r)], toA) == FreshOf(got, toA) + if r.Fresh? then [(r.counter, r.payload)] else []
    ensures FreshOf(got + [(toA, r)], !toA) == FreshOf(got, !toA)
  {
    assert (got + [(toA, r)])[..|got|] == got;
  }

  lemma OneMoreAct(net: Net, acts: seq<Action>, act: Action)
    ensures Exec(net, acts + [act]) == Do(Exec(net, acts), act)
  {
    hide Do;
    assert (acts + [act])[..|acts|] == acts;
  }

  lemma SendsNothingBack(net: Net, fromA: bool, payload: seq<byte>, ct: seq<byte>)
    ensures At(Do(net, Send(fromA, payload, ct)), true).delivered == net.a.delivered
    ensures At(Do(net, Send(fromA, payload, ct)), false).delivered == net.b.delivered
  {
  }

  lemma OtherInbox(net: Net, toA: bool, frame: seq<byte>)
    ensures At(Do(net, Deliver(toA, frame)), !toA) == At(net, !toA)
  {
  }
}
