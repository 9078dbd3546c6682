module Mrp {
  // Reliable exchanges over UDP (section 4.12 of the Matter Core Specification): waiting for the reply to
  // a message that was sent, and sending it again on silence or when the peer repeats itself.
  //
  // Everything that happens to one wait is a parameter: whether the caller gave up, what the session made
  // of what arrived, and whether sending works. The theorems hold for every such course of events.

  import opened Bytes
  import PH = ProtoHeader
  import opened Session

  const MAX_RETRANSMITS := 4
  const INITIAL_INTERVAL := 400
  const INTERVAL_CEILING := 3200
  const MAX_MESSAGES := 64

  const SECURE_CHANNEL := 0
  const STANDALONE_ACK := 0x10

  /** Milliseconds to wait after so many retransmissions: doubling up to the ceiling. */
  function Interval(n: nat): (iv: nat)
    ensures INITIAL_INTERVAL <= iv <= INTERVAL_CEILING
  {
    if n == 0 then INITIAL_INTERVAL
    else if 2 * Interval(n - 1) > INTERVAL_CEILING then INTERVAL_CEILING
    else 2 * Interval(n - 1)
  }

  lemma {:induction false} CeilingStays(n: nat, m: nat)
    requires n <= m && Interval(n) == INTERVAL_CEILING
    ensures Interval(m) == INTERVAL_CEILING
  {
    if n < m { CeilingStays(n, m - 1); }
  }

  lemma FirstIntervals()
    ensures Interval(1) == 800 && Interval(2) == 1600 && Interval(3) == INTERVAL_CEILING
  {
    assert Interval(2) == 1600;
  }

  method MrpInterval(retransmits: nat) returns (iv: nat)
    ensures iv == Interval(retransmits)
  {
    FirstIntervals();
    iv := INITIAL_INTERVAL;
    var i := 0;
    while i < retransmits && iv < INTERVAL_CEILING
      invariant 0 <= i <= retransmits && i <= 3 && iv == Interval(i)
    {
      iv := iv * 2;
      i := i + 1;
    }
    // Three doublings reach the ceiling exactly, so there is nothing to cut off.
    assert iv <= INTERVAL_CEILING;
    if i < retransmits { CeilingStays(i, retransmits); }
  }

  // ---------------------------------------------------------------------- one wait

  datatype MrpError = Cancelled | TooManyMessages | NoResponse | SendFailed | TransportFailed | BadFrame | BadHeader

  datatype Message = Message(header: PH.Header, counter: uint32, payload: seq<byte>)

  datatype Receipt = Decrypted(r: Received) | DeadlineExceeded | TransportError

  /** What one wait yields: `cancelled` before it, `cancelledSince` after it; `sent` is whether sending then works. */
  datatype Turn = Turn(cancelled: bool, receipt: Receipt, cancelledSince: bool, sent: bool)

  type Course = nat -> Turn

  datatype Arrival = New(m: Message) | Duplicate(m: Message) | Silence | Broken(e: MrpError)

  function Parsed(counter: uint32, payload: seq<byte>, isNew: bool): Arrival {
    match PH.Decoded(payload)
    case Err(_) => Broken(BadHeader)
    case Ok(h) =>
      var m := Message(h.0, counter, payload[h.1..]);
      if isNew then New(m) else Duplicate(m)
  }

  function Arrived(receipt: Receipt): Arrival {
    match receipt
    case DeadlineExceeded => Silence
    case TransportError => Broken(TransportFailed)
    case Decrypted(r) =>
      match r
      case Rejected => Broken(BadFrame)
      case Fresh(counter, payload) => Parsed(counter, payload, true)
      case Replayed(counter, payload) => Parsed(counter, payload, false)
  }

  method RecvMsg(receipt: Receipt) returns (a: Arrival)
    ensures a == Arrived(receipt)
  {
    if receipt.DeadlineExceeded? { return Silence; }
    if receipt.TransportError? { return Broken(TransportFailed); }
    var r := receipt.r;
    if r.Rejected? { return Broken(BadFrame); }
    var h := PH.Decode(r.payload);
    if h.Err? { return Broken(BadHeader); }
    var m := Message(h.value.0, r.counter, h.value.1);
    a := if r.Fresh? then New(m) else Duplicate(m);
  }

  predicate IsStandaloneAck(h: PH.Header) {
    h.protocol == SECURE_CHANNEL && h.opcode == STANDALONE_ACK
  }

  predicate IsReply(a: Arrival, id: uint16) {
    a.New? && !IsStandaloneAck(a.m.header) && a.m.header.exchange == id
  }

  /** Our last frame once more, or an acknowledgement: a header with nothing behind it. */
  datatype Send = Again | Ack(header: PH.Header)

  /** In the exchange of the message, with the roles turned round. */
  function AckFor(m: Message): Send {
    Ack(PH.Header(!m.header.initiator, false, STANDALONE_ACK, m.header.exchange, SECURE_CHANNEL, 0, false, m.counter, true))
  }

  /** What an arrival that is not the reply is answered with. */
  function Answer(a: Arrival, id: uint16): (r: seq<Send>)
    ensures |r| <= 1
  {
    match a
    case Silence => [Again]
    case Duplicate(m) => if m.header.exchange == id then [Again] else [AckFor(m)]
    case New(m) => if IsStandaloneAck(m.header) || m.header.exchange == id then [] else [AckFor(m)]
    case Broken(_) => []
  }

  // ---------------------------------------------------------------------- the exchange

  /** How many of the first n waits met silence. */
  function Silences(c: Course, n: nat): (r: nat)
    ensures r <= n
  {
    if n == 0 then 0 else Silences(c, n - 1) + if Arrived(c(n - 1).receipt).Silence? then 1 else 0
  }

  /** Everything sent in answer to the first n waits. */
  function Answers(c: Course, id: uint16, n: nat): seq<Send> {
    if n == 0 then [] else Answers(c, id, n - 1) + Answer(Arrived(c(n - 1).receipt), id)
  }

  /** The time spent in those of the first n waits that met silence. */
  function SilentTime(c: Course, n: nat): nat {
    if n == 0 then 0
    else SilentTime(c, n - 1) + if Arrived(c(n - 1).receipt).Silence? then Interval(Silences(c, n - 1)) else 0
  }

  lemma NoWaits(c: Course, id: uint16)
    ensures Silences(c, 0) == 0 && Answers(c, id, 0) == [] && SilentTime(c, 0) == 0
  {
  }

  lemma OneMoreWait(c: Course, id: uint16, n: nat)
    ensures var a := Arrived(c(n).receipt);
            && Answers(c, id, n + 1) == Answers(c, id, n) + Answer(a, id)
            && Silences(c, n + 1) == Silences(c, n) + (if a.Silence? then 1 else 0)
            && SilentTime(c, n + 1) == SilentTime(c, n) + (if a.Silence? then Interval(Silences(c, n)) else 0)
  {
  }

  /** The exchange goes on after the n-th wait. */
  predicate Passes(c: Course, id: uint16, n: nat) {
    var a := Arrived(c(n).receipt);
    && !c(n).cancelled && n <= MAX_MESSAGES && !a.Broken? && !IsReply(a, id)
    && (Answer(a, id) != [] ==> c(n).sent)
    && (a.Silence? ==> !c(n).cancelledSince && Silences(c, n) < MAX_RETRANSMITS)
  }

  ghost predicate Stops(c: Course, id: uint16, n: nat) {
    !Passes(c, id, n) && forall i: nat :: i < n ==> Passes(c, id, i)
  }

  /** The outcome of an exchange that stops at the n-th wait. */
  function Final(c: Course, id: uint16, n: nat): Result<Message, MrpError> {
    var a := Arrived(c(n).receipt);
    if c(n).cancelled then Err(Cancelled)
    else if n > MAX_MESSAGES then Err(TooManyMessages)
    else
      match a
      case Silence =>
        Err(if c(n).cancelledSince then Cancelled
            else if Silences(c, n) >= MAX_RETRANSMITS then NoResponse
            else SendFailed)
      case Duplicate(_) => Err(SendFailed)
      case New(m) => if IsReply(a, id) then Ok(m) else Err(SendFailed)
      case Broken(e) => Err(if c(n).cancelledSince then Cancelled else e)
  }

  class Exchange {
    var sends: seq<Send>
    var silentTime: nat

    constructor ()
      ensures sends == [] && silentTime == 0
    {
      sends, silentTime := [], 0;
    }

    /** Waits for the next message of the peer in the exchange; n is the number of the wait that ended it. */
    method ExchangeRT(c: Course, id: uint16) returns (r: Result<Message, MrpError>, n: nat)
      modifies this
      ensures Stops(c, id, n) && r == Final(c, id, n)
      ensures sends == old(sends) + Answers(c, id, n)
      ensures silentTime == old(silentTime)
                + SilentTime(c, if c(n).cancelled || n > MAX_MESSAGES then n else n + 1)
    {
      hide Arrived, Interval, IsStandaloneAck, Silences, Answers, SilentTime;
      var retransmits := 0;
      n := 0;
      NoWaits(c, id);
      while true
        invariant forall i: nat :: i < n ==> Passes(c, id, i)
        invariant n <= MAX_MESSAGES + 1 && retransmits == Silences(c, n)
        invariant sends == old(sends) + Answers(c, id, n)
        invariant silentTime == old(silentTime) + SilentTime(c, n)
        decreases MAX_MESSAGES + 1 - n
      {
        var turn := c(n);
        OneMoreWait(c, id, n);
        if turn.cancelled { return Err(Cancelled), n; }
        if n > MAX_MESSAGES { return Err(TooManyMessages), n; }
        var wait := MrpInterval(retransmits);
        var a := RecvMsg(turn.receipt);
        if a.Silence? { silentTime := silentTime + wait; }
        match a {
          case Duplicate(m) =>
            if !turn.sent { return Err(SendFailed), n; }
            sends := sends + [if m.header.exchange == id then Again else AckFor(m)];
          case Silence =>
            if turn.cancelledSince { return Err(Cancelled), n; }
            if retransmits >= MAX_RETRANSMITS { return Err(NoResponse), n; }
            if !turn.sent { return Err(SendFailed), n; }
            sends := sends + [Again];
            retransmits := retransmits + 1;
          case Broken(e) =>
            return Err(if turn.cancelledSince then Cancelled else e), n;
          case New(m) =>
            if !IsStandaloneAck(m.header) {
              if m.header.exchange == id { return Ok(m), n; }
              if !turn.sent { return Err(SendFailed), n; }
              sends := sends + [AckFor(m)];
            }
        }
        n := n + 1;
      }
    }
  }

  // ---------------------------------------------------------------------- what an exchange keeps

  lemma StopsOnce(c: Course, id: uint16, m: nat, n: nat)
    requires Stops(c, id, m) && Stops(c, id, n)
    ensures m == n
  {
  }

  /**
   * The exchange succeeds exactly with the first new message of the peer in it that is not a mere
   * acknowledgement, provided nothing stopped it before: within 65 waits, at most four of them silent.
   */
  lemma ReplyIsTheFirst(c: Course, id: uint16, n: nat, m: Message)
    requires Stops(c, id, n)
    ensures Final(c, id, n) == Ok(m) <==>
              exists k: nat ::
                && k <= MAX_MESSAGES && !c(k).cancelled
                && Arrived(c(k).receipt) == New(m) && IsReply(New(m), id)
                && forall i: nat :: i < k ==> Passes(c, id, i)
  {
    if Final(c, id, n) == Ok(m) {
      assert Arrived(c(n).receipt) == New(m) && IsReply(New(m), id);
    }
    forall k: nat | && k <= MAX_MESSAGES && !c(k).cancelled
                    && Arrived(c(k).receipt) == New(m) && IsReply(New(m), id)
                    && forall i: nat :: i < k ==> Passes(c, id, i)
      ensures Final(c, id, n) == Ok(m)
    {
      StopsOnce(c, id, k, n);
    }
  }

  /** The time of so many silent waits in a row. */
  function Waits(k: nat): nat { if k == 0 then 0 else Waits(k - 1) + Interval(k - 1) }

  lemma {:induction false} SilentTimeIsWaits(c: Course, n: nat)
    ensures SilentTime(c, n) == Waits(Silences(c, n))
  {
    if n > 0 { SilentTimeIsWaits(c, n - 1); }
  }

  lemma {:induction false} WaitsGrow(j: nat, k: nat)
    requires j <= k
    ensures Waits(j) <= Waits(k)
  {
    if j < k { WaitsGrow(j, k - 1); }
  }

  lemma FiveWaits()
    ensures Waits(5) == 9200
  {
    assert Interval(2) == 1600;
    assert Interval(4) == 3200;
    assert Waits(2) == 1200;
    assert Waits(4) == 6000;
  }

  lemma {:induction false} FewSilences(c: Course, id: uint16, n: nat)
    requires forall i: nat :: i < n ==> Passes(c, id, i)
    ensures Silences(c, n) <= MAX_RETRANSMITS && n <= MAX_MESSAGES + 1
  {
    if n > 0 {
      FewSilences(c, id, n - 1);
      assert Passes(c, id, n - 1);
    }
  }

  lemma {:induction false} FewAnswers(c: Course, id: uint16, n: nat)
    ensures |Answers(c, id, n)| <= n
  {
    hide Arrived, Answer;
    if n > 0 { FewAnswers(c, id, n - 1); }
  }

  lemma SilentTimeIsBounded(c: Course, n: nat)
    requires Silences(c, n) <= MAX_RETRANSMITS + 1
    ensures SilentTime(c, n) <= 9200
    ensures Silences(c, n) == MAX_RETRANSMITS + 1 ==> SilentTime(c, n) == 9200
  {
    hide Arrived, Waits, SilentTime, Silences;
    SilentTimeIsWaits(c, n);
    WaitsGrow(Silences(c, n), 5);
    FiveWaits();
  }

  /** No course of events keeps an exchange going for long, or makes it send much. */
  lemma ExchangeIsBounded(c: Course, id: uint16, n: nat)
    requires Stops(c, id, n)
    ensures n <= MAX_MESSAGES + 1 && |Answers(c, id, n)| <= MAX_MESSAGES + 1
    ensures Silences(c, n) <= MAX_RETRANSMITS
    ensures SilentTime(c, n + 1) <= 9200
    ensures Final(c, id, n) == Err(NoResponse) ==> SilentTime(c, n + 1) == 9200
  {
    hide Arrived, SilentTime, Silences, Answers, IsReply;
    FewSilences(c, id, n);
    FewAnswers(c, id, n);
    OneMoreWait(c, id, n);
    SilentTimeIsBounded(c, n + 1);
    NoOtherSilence(c(n).receipt);
  }

  /** Only a missed deadline is reported as no response; other failures have errors of their own. */
  lemma NoOtherSilence(receipt: Receipt)
    ensures Arrived(receipt).Broken? ==> Arrived(receipt).e != NoResponse
  {
  }

  // ---------------------------------------------------------------------- the exchange by its receipts

  /** The message that was received, new or once more. */
  function MessageIn(r: Receipt): Option<Message> {
    if !r.Decrypted? || r.r.Rejected? then None
    else match PH.Decoded(r.r.payload)
      case Err(_) => None
      case Ok(h) => Some(Message(h.0, r.r.counter, r.r.payload[h.1..]))
  }

  ghost predicate IsRepeat(r: Receipt) { MessageIn(r).Some? && r.r.Replayed? }

  ghost predicate IsNew(r: Receipt) { MessageIn(r).Some? && r.r.Fresh? }

  /** A mere acknowledgement: opcode 0x10 of the secure channel. */
  predicate IsMereAck(m: Message) { m.header.protocol == 0 && m.header.opcode == 0x10 }

  ghost function SilentWaits(c: Course, n: nat): set<nat> { set i: nat | i < n && c(i).receipt == DeadlineExceeded }

  ghost predicate RepeatHere(r: Receipt, id: uint16) { IsRepeat(r) && MessageIn(r).value.header.exchange == id }

  ghost function RepeatsHere(c: Course, id: uint16, n: nat): set<nat> {
    set i: nat | i < n && RepeatHere(c(i).receipt, id)
  }

  /** What is acknowledged by itself: repeats and new messages of other exchanges, but no acknowledgements. */
  ghost predicate Owed(r: Receipt, id: uint16) {
    && (IsRepeat(r) || (IsNew(r) && !IsMereAck(MessageIn(r).value)))
    && MessageIn(r).value.header.exchange != id
  }

  /** The waits among the first n that are owed one, in order. */
  ghost function OwedAt(c: Course, id: uint16, n: nat): seq<nat> {
    if n == 0 then [] else OwedAt(c, id, n - 1) + if Owed(c(n - 1).receipt, id) then [n - 1] else []
  }

  lemma {:induction false} OwedAtIs(c: Course, id: uint16, n: nat)
    ensures var ws := OwedAt(c, id, n);
            && (forall i: nat :: i in ws <==> i < n && Owed(c(i).receipt, id))
            && forall j, k :: 0 <= j < k < |ws| ==> ws[j] < ws[k]
  {
    hide Owed;
    if n > 0 {
      OwedAtIs(c, id, n - 1);
      var before := OwedAt(c, id, n - 1);
      assert forall j :: 0 <= j < |before| ==> before[j] in before;
    }
  }

  function Resends(s: seq<Send>): nat { if s == [] then 0 else Resends(s[..|s| - 1]) + if s[|s| - 1].Again? then 1 else 0 }

  function Acks(s: seq<Send>): seq<Send> {
    if s == [] then [] else Acks(s[..|s| - 1]) + if s[|s| - 1].Again? then [] else [s[|s| - 1]]
  }

  lemma OneMoreSend(s: seq<Send>, x: Send)
    ensures Resends(s + [x]) == Resends(s) + (if x.Again? then 1 else 0)
    ensures Acks(s + [x]) == Acks(s) + if x.Again? then [] else [x]
  {
    assert (s + [x])[..|s|] == s;
  }

  /** The acknowledgement of the message that a receipt brings. */
  function AckOf(r: Receipt): Send {
    if MessageIn(r) == None then Again
    else
      var m := MessageIn(r).value;
      Ack(PH.Header(!m.header.initiator, false, 0x10, m.header.exchange, 0, 0, false, m.counter, true))
  }

  /** What one receipt is answered with. */
  lemma AnswerByReceipt(r: Receipt, id: uint16)
    ensures var a := Answer(Arrived(r), id);
            && (a == [Again] <==> r == DeadlineExceeded || RepeatHere(r, id))
            && !(r == DeadlineExceeded && RepeatHere(r, id))
            && (a == [] || a == [Again] || (Owed(r, id) && a == [AckOf(r)]))
            && (Owed(r, id) ==> a == [AckOf(r)] && a != [Again])
  {
  }

  lemma Growing(c: Course, id: uint16, n: nat)
    ensures SilentWaits(c, n + 1) == SilentWaits(c, n) + (if c(n).receipt == DeadlineExceeded then {n} else {})
    ensures RepeatsHere(c, id, n + 1) == RepeatsHere(c, id, n) + (if RepeatHere(c(n).receipt, id) then {n} else {})
    ensures n !in SilentWaits(c, n) && n !in RepeatsHere(c, id, n)
  {
  }

  lemma NothingReceived(c: Course, id: uint16)
    ensures SilentWaits(c, 0) == {} && RepeatsHere(c, id, 0) == {}
  {
  }

  /** The frame is sent again exactly once for each silent wait and for each repeat in this exchange. */
  lemma {:induction false} ResendsByReceipts(c: Course, id: uint16, n: nat)
    ensures Resends(Answers(c, id, n)) == |SilentWaits(c, n)| + |RepeatsHere(c, id, n)|
  {
    hide Arrived, Answer, SilentWaits, RepeatsHere, RepeatHere, Owed, Resends, Acks, OwedAt;
    if n > 0 {
      ResendsByReceipts(c, id, n - 1);
      Growing(c, id, n - 1);
      AnswerByReceipt(c(n - 1).receipt, id);
      AnswerCounts(Answers(c, id, n - 1), Answer(Arrived(c(n - 1).receipt), id));
    } else {
      NothingReceived(c, id);
      NothingSent();
    }
  }

  lemma NothingSent()
    ensures Resends([]) == 0 && Acks([]) == []
  {
  }

  lemma AnswerCounts(before: seq<Send>, a: seq<Send>)
    requires |a| <= 1
    ensures Resends(before + a) == Resends(before) + (if a == [Again] then 1 else 0)
    ensures Acks(before + a) == Acks(before) + (if a == [Again] then [] else a)
  {
    hide Resends, Acks;
    if a == [] {
      assert before + a == before && Acks(before) + a == Acks(before);
    } else {
      assert a == [a[0]];
      OneMoreSend(before, a[0]);
    }
  }

  /**
   * Acknowledged are exactly the messages that are owed it, in order, each in its own exchange with the
   * roles turned round and the counter of the peer.
   */
  lemma {:induction false} AcksByReceipts(c: Course, id: uint16, n: nat)
    ensures |Acks(Answers(c, id, n))| == |OwedAt(c, id, n)|
    ensures forall j :: 0 <= j < |OwedAt(c, id, n)| ==> Acks(Answers(c, id, n))[j] == AckOf(c(OwedAt(c, id, n)[j]).receipt)
  {
    hide Arrived, Answer, SilentWaits, RepeatsHere, RepeatHere, Owed, Resends, Acks, AckOf;
    if n > 0 {
      AcksByReceipts(c, id, n - 1);
      AnswerByReceipt(c(n - 1).receipt, id);
      AnswerCounts(Answers(c, id, n - 1), Answer(Arrived(c(n - 1).receipt), id));
    } else {
      NothingSent();
    }
  }

  lemma SilentReceipt(r: Receipt)
    ensures Arrived(r).Silence? <==> r == DeadlineExceeded
  {
  }

  lemma OneMoreSilence(c: Course, n: nat)
    ensures Silences(c, n + 1) - Silences(c, n) == |SilentWaits(c, n + 1)| - |SilentWaits(c, n)|
  {
    hide Arrived, SilentWaits, RepeatsHere;
    SilentReceipt(c(n).receipt);
    Growing(c, 0, n);
  }

  lemma {:induction false} SilencesAreWaits(c: Course, n: nat)
    ensures Silences(c, n) == |SilentWaits(c, n)|
  {
    hide Arrived, SilentWaits, Silences;
    if n > 0 {
      SilencesAreWaits(c, n - 1);
      OneMoreSilence(c, n - 1);
    } else {
      NoWaits(c, 0);
      NothingReceived(c, 0);
    }
  }

  /** A reply: a new message of the peer in the exchange that is no mere acknowledgement. */
  ghost predicate IsReplyReceipt(r: Receipt, id: uint16, m: Message) {
    IsNew(r) && MessageIn(r) == Some(m) && !IsMereAck(m) && m.header.exchange == id
  }

  /**
   * How an exchange ends, in terms of what was received: with a reply, which no earlier receipt was; after
   * four silent waits with a fifth; after 65 waits; or because the caller gave up, sending failed or
   * something arrived that cannot be read.
   */
  lemma EndsByReceipts(c: Course, id: uint16, n: nat)
    requires Stops(c, id, n)
    ensures forall m :: Final(c, id, n) == Ok(m) <==> n <= 64 && !c(n).cancelled && IsReplyReceipt(c(n).receipt, id, m)
    ensures forall i: nat, m :: i < n ==> !IsReplyReceipt(c(i).receipt, id, m)
    ensures Final(c, id, n) == Err(NoResponse) <==>
            n <= 64 && !c(n).cancelled && c(n).receipt == DeadlineExceeded && !c(n).cancelledSince && |SilentWaits(c, n)| == 4
    ensures Final(c, id, n) == Err(TooManyMessages) <==> n == 65 && !c(n).cancelled
    ensures Final(c, id, n) == Err(Cancelled) ==> c(n).cancelled || c(n).cancelledSince
    ensures Final(c, id, n) == Err(SendFailed) ==> !c(n).sent && (forall m :: !IsReplyReceipt(c(n).receipt, id, m))
    ensures n <= 65 && |SilentWaits(c, n)| <= 4
  {
    SilencesAreWaits(c, n);
    FewSilences(c, id, n);
    forall i: nat, m | i < n ensures !IsReplyReceipt(c(i).receipt, id, m) {
      assert Passes(c, id, i);
    }
  }
}
