/** Grid Protocol framing: `GridEncodeFrame` and `GridParseFrames` (`device/grid_protocol.go`) and
    the serial read loop that carries the remainder (`device/provider_serial_linux.go`). */
module GridFraming {
  import opened Prelude

  const STX: byte := 0x02
  const ETX: byte := 0x03

  datatype Message = Message(raw: seq<byte>, payload: seq<byte>)

  datatype Parsed = Parsed(messages: seq<Message>, rest: seq<byte>)

  /** `GridEncodeFrame`. */
  function Encode(payload: seq<byte>): seq<byte> {
    [STX] + payload + [ETX]
  }

  function MessageOf(payload: seq<byte>): Message {
    Message(Encode(payload), payload)
  }

  // ---- the reference: one byte at a time ----

  datatype Mode = Idle | InFrame(payload: seq<byte>)

  datatype Scanned = Scanned(messages: seq<Message>, mode: Mode)

  /** What one more byte does to a receiver. */
  ghost function Accept(s: Scanned, b: byte): Scanned {
    match s.mode
    case Idle => if b == STX then s.(mode := InFrame([])) else s
    case InFrame(p) =>
      if b == ETX then Scanned(s.messages + [MessageOf(p)], Idle) else s.(mode := InFrame(p + [b]))
  }

  ghost function Scan(s: Scanned, data: seq<byte>): Scanned {
    if data == [] then s else Accept(Scan(s, data[..|data| - 1]), data[|data| - 1])
  }

  /** The bytes a receiver still has to keep: an opened frame with what it holds so far. */
  ghost function Pending(m: Mode): seq<byte> {
    match m
    case Idle => []
    case InFrame(p) => [STX] + p
  }

  lemma {:induction false} ScanAppend(s: Scanned, a: seq<byte>, b: seq<byte>)
    ensures Scan(s, a + b) == Scan(Scan(s, a), b)
  {
    if b == [] {
      assert a + b == a;
    } else {
      var n := |b| - 1;
      assert (a + b)[..|a + b| - 1] == a + b[..n];
      ScanAppend(s, a, b[..n]);
    }
  }

  lemma {:induction false} ScanGarbage(s: Scanned, g: seq<byte>)
    requires s.mode.Idle? && STX !in g
    ensures Scan(s, g) == s
  {
    if g != [] { ScanGarbage(s, g[..|g| - 1]); }
  }

  lemma {:induction false} ScanPayload(s: Scanned, p: seq<byte>)
    requires s.mode.InFrame? && ETX !in p
    ensures Scan(s, p) == s.(mode := InFrame(s.mode.payload + p))
  {
    if p == [] {
      assert s.mode.payload + p == s.mode.payload;
    } else {
      var n := |p| - 1;
      ScanPayload(s, p[..n]);
      assert s.mode.payload + p == (s.mode.payload + p[..n]) + [p[n]];
    }
  }

  lemma ScanOpen(s: Scanned, g: seq<byte>, p: seq<byte>)
    requires s.mode.Idle? && STX !in g && ETX !in p
    ensures Scan(s, g + [STX] + p) == s.(mode := InFrame(p))
  {
    ScanGarbage(s, g);
    ScanAppend(s, g, [STX]);
    assert [STX][..0] == [];
    assert Scan(s, [STX]) == Accept(Scan(s, [STX][..0]), STX);
    ScanAppend(s, g + [STX], p);
    ScanPayload(s.(mode := InFrame([])), p);
    assert [] + p == p;
  }

  /** Garbage and then a complete frame deliver exactly the payload. */
  lemma ScanFrame(s: Scanned, g: seq<byte>, p: seq<byte>)
    requires s.mode.Idle? && STX !in g && ETX !in p
    ensures Scan(s, g + Encode(p)) == Scanned(s.messages + [MessageOf(p)], Idle)
  {
    ScanOpen(s, g, p);
    assert g + Encode(p) == (g + [STX] + p) + [ETX];
    ScanAppend(s, g + [STX] + p, [ETX]);
    assert [ETX][..0] == [];
    assert Scan(s.(mode := InFrame(p)), [ETX]) == Accept(Scan(s.(mode := InFrame(p)), [ETX][..0]), ETX);
  }

  /** Messages found later do not depend on those found before. */
  lemma {:induction false} ScanShift(earlier: seq<Message>, s: Scanned, data: seq<byte>)
    ensures Scan(Scanned(earlier + s.messages, s.mode), data) ==
            Scanned(earlier + Scan(s, data).messages, Scan(s, data).mode)
  {
    if data != [] {
      var n := |data| - 1;
      ScanShift(earlier, s, data[..n]);
      var t := Scan(s, data[..n]);
      if t.mode.InFrame? && data[n] == ETX {
        assert (earlier + t.messages) + [MessageOf(t.mode.payload)] == earlier + (t.messages + [MessageOf(t.mode.payload)]);
      }
    }
  }

  /** An opened frame is never holding an ETX. */
  lemma {:induction false} OpenFrameHasNoEtx(s: Scanned, data: seq<byte>)
    requires s.mode.InFrame? ==> ETX !in s.mode.payload
    ensures Scan(s, data).mode.InFrame? ==> ETX !in Scan(s, data).mode.payload
  {
    if data != [] { OpenFrameHasNoEtx(s, data[..|data| - 1]); }
  }

  /** Re-reading the kept bytes brings the receiver back to where it was. */
  lemma Resume(m: Mode)
    requires m.InFrame? ==> ETX !in m.payload
    ensures Scan(Scanned([], Idle), Pending(m)) == Scanned([], m)
  {
    if m.InFrame? {
      ScanOpen(Scanned([], Idle), [], m.payload);
      assert [] + [STX] + m.payload == Pending(m);
    }
  }

  // ---- the parser ----

  /** `bytes.IndexByte`, with the length standing for "not found". */
  function Find(data: seq<byte>, b: byte): (i: nat)
    ensures i <= |data| && b !in data[..i]
    ensures i < |data| <==> b in data
    ensures i < |data| ==> data[i] == b
  {
    if data == [] || data[0] == b then 0 else 1 + Find(data[1..], b)
  }

  method IndexByte(data: seq<byte>, b: byte) returns (i: int)
    ensures i == if b in data then Find(data, b) else -1
  {
    var k := 0;
    while k < |data| && data[k] != b
      invariant k <= |data| && Find(data, b) == k + Find(data[k..], b)
    {
      assert data[k..][1..] == data[k + 1..];
      k := k + 1;
    }
    return if k < |data| then k else -1;
  }

  ghost function Parse(data: seq<byte>): Parsed {
    var s := Scan(Scanned([], Idle), data);
    Parsed(s.messages, Pending(s.mode))
  }

  lemma CutAtStart(data: seq<byte>, start: nat)
    requires start < |data|
    ensures data == data[..start] + [data[start]] + data[start + 1..] && data[start..] == [data[start]] + data[start + 1..]
  {
  }

  lemma CutAroundFrame(data: seq<byte>, start: nat, end: nat)
    requires start < end < |data| && data[start] == STX && data[end] == ETX
    ensures data[start..end + 1] == Encode(data[start + 1..end])
    ensures data == (data[..start] + Encode(data[start + 1..end])) + data[end + 1..]
  {
  }

  lemma UnfinishedFrame(messages: seq<Message>, data: seq<byte>, start: nat)
    requires start < |data| && data[start] == STX && STX !in data[..start] && ETX !in data[start + 1..]
    ensures var s := Scan(Scanned(messages, Idle), data); s.messages == messages && Pending(s.mode) == data[start..]
  {
    ScanOpen(Scanned(messages, Idle), data[..start], data[start + 1..]);
    CutAtStart(data, start);
  }

  lemma FinishedFrame(messages: seq<Message>, data: seq<byte>, start: nat, end: nat)
    requires start < end < |data| && data[start] == STX && data[end] == ETX
    requires STX !in data[..start] && ETX !in data[start + 1..end]
    ensures Scan(Scanned(messages, Idle), data) ==
            Scan(Scanned(messages + [Message(data[start..end + 1], data[start + 1..end])], Idle), data[end + 1..])
  {
    var payload := data[start + 1..end];
    ScanFrame(Scanned(messages, Idle), data[..start], payload);
    CutAroundFrame(data, start, end);
    ScanAppend(Scanned(messages, Idle), data[..start] + Encode(payload), data[end + 1..]);
  }

  /** `GridParseFrames`: the searching loop finds what the byte-at-a-time receiver finds. */
  method ParseFrames(input: seq<byte>) returns (result: Parsed)
    ensures result == Parse(input)
  {
    var data, messages := input, [];
    while true
      invariant Scan(Scanned([], Idle), input) == Scan(Scanned(messages, Idle), data)
      decreases |data|
    {
      var start := IndexByte(data, STX);
      if start == -1 {
        ScanGarbage(Scanned(messages, Idle), data);
        return Parsed(messages, []);
      }
      var offset := IndexByte(data[start + 1..], ETX);
      if offset == -1 {
        UnfinishedFrame(messages, data, start);
        return Parsed(messages, data[start..]);
      }
      var end := offset + start + 1;
      assert data[start + 1..end] == data[start + 1..][..offset];
      FinishedFrame(messages, data, start, end);
      messages := messages + [Message(data[start..end + 1], data[start + 1..end])];
      data := data[end + 1..];
    }
  }

  // ---- streams ----

  /** Splitting a stream: parsing the first part, then the kept bytes together with the second,
      gives the messages and the remainder of the whole. */
  lemma SplitAnywhere(a: seq<byte>, b: seq<byte>)
    ensures Parse(a + b) == Parsed(Parse(a).messages + Parse(Parse(a).rest + b).messages,
                                   Parse(Parse(a).rest + b).rest)
  {
    var idle := Scanned([], Idle);
    var s := Scan(idle, a);
    OpenFrameHasNoEtx(idle, a);
    Resume(s.mode);
    ScanAppend(idle, a, b);
    ScanAppend(idle, Pending(s.mode), b);
    ScanShift(s.messages, Scanned([], s.mode), b);
    assert s.messages + [] == s.messages;
  }

  ghost function Concat(chunks: seq<seq<byte>>): seq<byte> {
    if chunks == [] then [] else Concat(chunks[..|chunks| - 1]) + chunks[|chunks| - 1]
  }

  /** The read loop: each chunk is appended to what was kept and parsed. */
  ghost function Feed(chunks: seq<seq<byte>>): Parsed {
    if chunks == [] then Parsed([], [])
    else
      var before := Feed(chunks[..|chunks| - 1]);
      var now := Parse(before.rest + chunks[|chunks| - 1]);
      Parsed(before.messages + now.messages, now.rest)
  }

  /** However a stream is cut into reads, the loop delivers what one parse of the whole delivers. */
  lemma {:induction false} ChunkingIrrelevant(chunks: seq<seq<byte>>)
    ensures Feed(chunks) == Parse(Concat(chunks))
  {
    if chunks != [] {
      var n := |chunks| - 1;
      ChunkingIrrelevant(chunks[..n]);
      SplitAnywhere(Concat(chunks[..n]), chunks[n]);
    }
  }

  // ---- round trips ----

  /** Frames separated by garbage. */
  ghost function Stream(garbage: seq<seq<byte>>, payloads: seq<seq<byte>>): seq<byte>
    requires |garbage| == |payloads|
  {
    if payloads == [] then []
    else
      var n := |payloads| - 1;
      Stream(garbage[..n], payloads[..n]) + (garbage[n] + Encode(payloads[n]))
  }

  ghost function Messages(payloads: seq<seq<byte>>): seq<Message> {
    if payloads == [] then [] else Messages(payloads[..|payloads| - 1]) + [MessageOf(payloads[|payloads| - 1])]
  }

  lemma {:induction false} MessagesAt(payloads: seq<seq<byte>>, i: nat)
    requires i < |payloads|
    ensures |Messages(payloads)| == |payloads| && Messages(payloads)[i] == Message([0x02] + payloads[i] + [0x03], payloads[i])
  {
    var n := |payloads| - 1;
    if n > 0 { MessagesAt(payloads[..n], if i < n then i else 0); }
  }

  lemma {:induction false} StreamScans(garbage: seq<seq<byte>>, payloads: seq<seq<byte>>)
    requires |garbage| == |payloads|
    requires forall i :: 0 <= i < |payloads| ==> STX !in garbage[i] && ETX !in payloads[i]
    ensures Scan(Scanned([], Idle), Stream(garbage, payloads)) == Scanned(Messages(payloads), Idle)
  {
    if payloads != [] {
      var n := |payloads| - 1;
      StreamScans(garbage[..n], payloads[..n]);
      ScanAppend(Scanned([], Idle), Stream(garbage[..n], payloads[..n]), garbage[n] + Encode(payloads[n]));
      ScanFrame(Scanned(Messages(payloads[..n]), Idle), garbage[n], payloads[n]);
    }
  }

  /** Payloads without ETX, separated and followed by STX-free garbage, parse back exactly, and
      nothing is kept. */
  lemma RoundTrip(garbage: seq<seq<byte>>, payloads: seq<seq<byte>>, tail: seq<byte>)
    requires |garbage| == |payloads| && 0x02 !in tail
    requires forall i :: 0 <= i < |payloads| ==> 0x02 !in garbage[i] && 0x03 !in payloads[i]
    ensures Parse(Stream(garbage, payloads) + tail) == Parsed(Messages(payloads), [])
    ensures |Messages(payloads)| == |payloads|
    ensures forall i :: 0 <= i < |payloads| ==>
              Messages(payloads)[i] == Message([0x02] + payloads[i] + [0x03], payloads[i])
  {
    forall i | 0 <= i < |payloads|
      ensures |Messages(payloads)| == |payloads| && Messages(payloads)[i] == Message([0x02] + payloads[i] + [0x03], payloads[i])
    {
      MessagesAt(payloads, i);
    }
    StreamScans(garbage, payloads);
    ScanAppend(Scanned([], Idle), Stream(garbage, payloads), tail);
    ScanGarbage(Scanned(Messages(payloads), Idle), tail);
  }

  lemma EncodeSplits(p: seq<byte>, i: nat)
    requires i < |p| && p[i] == ETX
    ensures Encode(p) == ([] + Encode(p[..i])) + (p[i + 1..] + [ETX])
  {
  }

  /** With an ETX inside, the first message found is cut short at it. */
  lemma CutAtFirstEtx(p: seq<byte>)
    requires ETX in p
    ensures Parse(Encode(p)).messages != [] && Parse(Encode(p)).messages[0] == MessageOf(p[..Find(p, ETX)])
  {
    var i, idle := Find(p, ETX), Scanned([], Idle);
    var tail := p[i + 1..] + [ETX];
    ScanFrame(idle, [], p[..i]);
    EncodeSplits(p, i);
    ScanAppend(idle, [] + Encode(p[..i]), tail);
    ScanShift([MessageOf(p[..i])], idle, tail);
    assert [MessageOf(p[..i])] + [] == [] + [MessageOf(p[..i])];
  }

  /** A single frame parses back to its payload exactly when the payload has no ETX; the encoder
      does not check this. */
  lemma FrameRoundTripsExactlyWithoutEtx(p: seq<byte>)
    ensures Encode(p) == [0x02] + p + [0x03]
    ensures Parse(Encode(p)) == Parsed([Message([0x02] + p + [0x03], p)], []) <==> 0x03 !in p
  {
    if ETX in p {
      CutAtFirstEtx(p);
      assert |p[..Find(p, ETX)]| < |p|;
    } else {
      ScanFrame(Scanned([], Idle), [], p);
      assert [] + Encode(p) == Encode(p);
    }
  }

  /** The serial connection: `readBuf` is all it remembers of the stream. */
  class Connection {
    var readBuf: seq<byte>
    ghost var received: seq<byte>
    ghost var delivered: seq<Message>

    ghost predicate Valid()
      reads this
    {
      Parse(received) == Parsed(delivered, readBuf)
    }

    constructor ()
      ensures Valid() && received == [] && delivered == []
    {
      readBuf, received, delivered := [], [], [];
    }

    /** One successful read. */
    method OnRead(chunk: seq<byte>) returns (messages: seq<Message>)
      requires Valid()
      modifies this
      ensures Valid() && received == old(received) + chunk && delivered == old(delivered) + messages
    {
      SplitAnywhere(received, chunk);
      readBuf := readBuf + chunk;
      var parsed := ParseFrames(readBuf);
      messages, readBuf := parsed.messages, parsed.rest;
      received, delivered := received + chunk, delivered + messages;
    }
  }
}
