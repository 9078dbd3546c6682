module AshConn {
  // The reading side of an ASH connection: chunks of bytes in, decoded frames out.

  import opened Words
  import opened Bytes
  import opened AshFrame

  /**
   * What the framing loop has done: the partial frame, the frames it decoded in order, the next
   * expected sequence number and the bytes written as acknowledgements.
   */
  datatype Reading = Reading(buf: seq<Octet>, frames: seq<Frame>, rxSeq: Octet, written: seq<Octet>)

  /** The number in the three low bits. */
  function Low3(n: Octet): (v: nat)
    ensures v < 8
  {
    (if n[0] then 1 else 0) + (if n[1] then 2 else 0) + (if n[2] then 4 else 0)
  }

  /** (n + 1) & 7 */
  function NextSeq(n: Octet): (r: Octet)
    ensures Low3(r) == (Low3(n) + 1) % 8 && forall i :: 3 <= i < 8 ==> !r[i]
  {
    if !n[0] then [true, n[1], n[2], false, false, false, false, false]
    else if !n[1] then [false, true, n[2], false, false, false, false, false]
    else [false, false, !n[2], false, false, false, false, false]
  }

  /** The effect of a frame body: undecodable ones are dropped, data frames are acknowledged. */
  function Dispatched(s: Reading, raw: seq<Octet>): Reading {
    match Decode(raw)
    case Err(_) => s
    case Ok(f) =>
      var heard := s.(frames := s.frames + [f]);
      if f.Data? then heard.(rxSeq := NextSeq(f.frmNum), written := s.written + Build(SentAck(NextSeq(f.frmNum))))
      else heard
  }

  function Byte(s: Reading, b: Octet): Reading {
    if b == CANCEL then s.(buf := [])
    else if b == FLAG then (if s.buf == [] then s else Dispatched(s, s.buf).(buf := []))
    else s.(buf := s.buf + [b])
  }

  function Scan(s: Reading, data: seq<Octet>): Reading
    decreases |data|
  {
    if data == [] then s else Scan(Byte(s, data[0]), data[1..])
  }

  class Conn {
    var buf: seq<Octet>
    var frames: seq<Frame>
    var rxSeq: Octet
    var written: seq<Octet>

    ghost function Value(): Reading
      reads this
    {
      Reading(buf, frames, rxSeq, written)
    }

    constructor ()
      ensures Value() == Reading([], [], Zeros(8), [])
    {
      buf, frames, rxSeq, written := [], [], Zeros(8), [];
    }

    method Dispatch(raw: seq<Octet>)
      modifies this
      ensures Value() == Dispatched(old(Value()), raw)
    {
      hide Decode, Build, NextSeq;
      var r := Decode(raw);
      if r.Err? { return; }
      var f := r.value;
      frames := frames + [f];
      if f.Data? {
        rxSeq := NextSeq(f.frmNum);
        written := written + Build(SentAck(rxSeq));
      }
    }

    /** The framing loop over one chunk. */
    method Read(chunk: seq<Octet>)
      modifies this
      ensures Value() == Scan(old(Value()), chunk)
    {
      hide Dispatched;
      for i := 0 to |chunk|
        invariant Scan(Value(), chunk[i..]) == Scan(old(Value()), chunk)
      {
        assert chunk[i..][1..] == chunk[i + 1..];
        var b := chunk[i];
        if b == CANCEL {
          buf := [];
        } else if b == FLAG {
          if |buf| > 0 {
            Dispatch(buf);
            buf := [];
          }
        } else {
          buf := buf + [b];
        }
      }
    }

    /** The bytes arrive in chunks of any sizes. */
    method ReadAll(chunks: seq<seq<Octet>>)
      modifies this
      ensures Value() == Scan(old(Value()), Joined(chunks))
    {
      hide Scan;
      ScanNothing(Value());
      for i := 0 to |chunks|
        invariant Value() == Scan(old(Value()), Joined(chunks[..i]))
      {
        ScanAppend(old(Value()), Joined(chunks[..i]), chunks[i]);
        Read(chunks[i]);
        assert chunks[..i + 1][..i] == chunks[..i];
      }
      assert chunks[..|chunks|] == chunks;
    }
  }

  function Joined(chunks: seq<seq<Octet>>): seq<Octet> {
    if chunks == [] then [] else Joined(chunks[..|chunks| - 1]) + chunks[|chunks| - 1]
  }

  lemma ScanNothing(s: Reading)
    ensures Scan(s, []) == s
  {
  }

  lemma {:induction false} ScanAppend(s: Reading, a: seq<Octet>, b: seq<Octet>)
    ensures Scan(s, a + b) == Scan(Scan(s, a), b)
    decreases |a|
  {
    hide Byte;
    if a == [] {
      assert a + b == b;
    } else {
      assert (a + b)[1..] == a[1..] + b;
      ScanAppend(Byte(s, a[0]), a[1..], b);
    }
  }

  /** Plain bytes only pile up. */
  lemma {:induction false} ScanPlain(s: Reading, data: seq<Octet>)
    requires FLAG !in data && CANCEL !in data
    ensures Scan(s, data) == s.(buf := s.buf + data)
    decreases |data|
  {
    if data == [] {
      assert s.buf + data == s.buf;
    } else {
      ScanPlain(s.(buf := s.buf + [data[0]]), data[1..]);
      assert s.buf + [data[0]] + data[1..] == s.buf + data;
    }
  }

  lemma ScanByte(s: Reading, b: Octet)
    ensures Scan(s, [b]) == Byte(s, b)
  {
    hide Byte;
    var one: seq<Octet>, none: seq<Octet> := [b], [];
    assert one[1..] == none;
    assert Scan(s, one) == Scan(Byte(s, b), none);
  }

  lemma FlagIsNotCancel()
    ensures FLAG != CANCEL
  {
    assert FLAG[2] && !CANCEL[2];
  }

  /** The number behind the last data frame, from the number before all of them. */
  function Awaited(rxSeq: Octet, fs: seq<Frame>): Octet {
    if fs == [] then rxSeq
    else if fs[|fs| - 1].Data? then NextSeq(fs[|fs| - 1].frmNum)
    else Awaited(rxSeq, fs[..|fs| - 1])
  }

  /** One acknowledgement for each data frame, in their order, with the number that follows the frame's. */
  function Acknowledgements(fs: seq<Frame>): seq<Octet> {
    if fs == [] then []
    else
      var f := fs[|fs| - 1];
      Acknowledgements(fs[..|fs| - 1]) + if f.Data? then AckOf(NextSeq(f.frmNum)) else []
  }

  function AckOf(n: Octet): seq<Octet> { Encode([[n[0], n[1], n[2], false, false, false, false, true]]) }

  lemma BuiltAck(n: Octet)
    ensures Build(SentAck(n)) == AckOf(n)
  {
    hide Encode, And, Or;
    BuiltBody(SentAck(n), n);
  }

  /** The state after the frames: heard in order, and the data frames among them acknowledged. */
  function Heard(s: Reading, fs: seq<Frame>): Reading {
    Reading([], s.frames + fs, Awaited(s.rxSeq, fs), s.written + Acknowledgements(fs))
  }

  lemma {:induction false} ScanFrame(s: Reading, f: Frame, version: Octet)
    requires s.buf == [] && Numbered(f)
    ensures Scan(s, Encode(FrameBody(f, version))) == Dispatched(s, Stuff(Checked(FrameBody(f, version)))).(buf := [])
  {
    hide Dispatched, Crc16, FrameBody;
    var body := FrameBody(f, version);
    var raw := Stuff(Checked(body));
    StuffedIsPlain(Checked(body));
    assert Framing(FLAG) && Framing(CANCEL);
    ScanAppend(s, raw, [FLAG]);
    ScanPlain(s, raw);
    assert s.buf + raw == raw;
    ScanByte(s.(buf := raw), FLAG);
    FlagIsNotCancel();
    StuffNotEmpty(Checked(body));
    SameBut(s, raw);
  }

  /** The partial frame has no part in what a frame does. */
  lemma SameBut(s: Reading, raw: seq<Octet>)
    ensures Dispatched(s.(buf := raw), raw).(buf := []) == Dispatched(s, raw).(buf := [])
  {
    hide Decode, Build, NextSeq;
  }

  lemma StuffNotEmpty(data: seq<Octet>)
    requires data != []
    ensures Stuff(data) != []
  {
  }

  function Wire(fs: seq<Frame>, version: Octet): seq<Octet> {
    if fs == [] then [] else Wire(fs[..|fs| - 1], version) + Encode(FrameBody(fs[|fs| - 1], version))
  }

  predicate AllNumbered(fs: seq<Frame>) { forall f :: f in fs ==> Numbered(f) }

  /** Frames of either side, one after the other, are heard in order with all their fields and acknowledged. */
  lemma {:induction false} ScanFrames(s: Reading, fs: seq<Frame>, version: Octet)
    requires s.buf == [] && AllNumbered(fs)
    ensures Scan(s, Wire(fs, version)) == Heard(s, fs)
    decreases |fs|
  {
    hide Scan, Encode, FrameBody, Numbered, NextSeq, AckOf;
    if fs == [] {
      ScanNothing(s);
    } else {
      var init, f := fs[..|fs| - 1], fs[|fs| - 1];
      ScanFrames(s, init, version);
      ScanAppend(s, Wire(init, version), Encode(FrameBody(f, version)));
      assert init + [f] == fs;
      ScanOneMore(s, init, f, version);
    }
  }

  lemma ScanOneMore(s: Reading, init: seq<Frame>, f: Frame, version: Octet)
    requires Numbered(f)
    ensures Scan(Heard(s, init), Encode(FrameBody(f, version))) == Heard(s, init + [f])
  {
    hide Scan, FrameBody, Numbered, Decode, Dispatched, Crc16, Awaited, Acknowledgements;
    ScanFrame(Heard(s, init), f, version);
    FrameDecodes(f, version);
    HeardOneMore(s, init, f, Stuff(Checked(FrameBody(f, version))));
  }

  lemma HeardOneMore(s: Reading, init: seq<Frame>, f: Frame, raw: seq<Octet>)
    requires Decode(raw) == Ok(f)
    ensures Dispatched(Heard(s, init), raw).(buf := []) == Heard(s, init + [f])
  {
    hide Decode, Build, NextSeq, AckOf;
    var fs := init + [f];
    assert fs[..|fs| - 1] == init;
    if f.Data? { BuiltAck(NextSeq(f.frmNum)); }
  }

  /**
   * Whatever partial frame and flag-free noise came before, after a cancel byte the frames on the
   * line are decoded exactly, in order, with all their fields, however the bytes are chunked.
   */
  lemma FramesAfterCancel(s: Reading, noise: seq<Octet>, fs: seq<Frame>, version: Octet, chunks: seq<seq<Octet>>)
    requires FLAG !in noise && AllNumbered(fs)
    requires Joined(chunks) == noise + [CANCEL] + Wire(fs, version)
    ensures Scan(s, Joined(chunks)) == Heard(s, fs)
  {
    hide Scan, Heard;
    ScanAppend(s, noise + [CANCEL], Wire(fs, version));
    ScanAppend(s, noise, [CANCEL]);
    NoiseIsSilent(s, noise);
    ScanByte(Scan(s, noise), CANCEL);
    ScanFrames(Scan(s, noise).(buf := []), fs, version);
    HeardIgnores(s, Scan(s, noise).buf, fs);
  }

  lemma HeardIgnores(s: Reading, buf: seq<Octet>, fs: seq<Frame>)
    ensures Heard(s.(buf := []), fs) == Heard(s, fs) && Heard(s.(buf := buf).(buf := []), fs) == Heard(s, fs)
  {
  }

  lemma {:induction false} NoiseIsSilent(s: Reading, noise: seq<Octet>)
    requires FLAG !in noise
    ensures Scan(s, noise) == s.(buf := Scan(s, noise).buf)
    decreases |noise|
  {
    if noise != [] { NoiseIsSilent(Byte(s, noise[0]), noise[1..]); }
  }
}
