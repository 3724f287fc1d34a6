/** MIDI decoding in two implementations: the buffer parser `parseMIDIBytes`
    (`device/midi_parse.go`) and the byte-at-a-time ALSA reader (`device/provider_linux.go`). */
module Midi {
  import opened Prelude

  datatype Event =
    | NoteEvent(channel: nat, note: nat, velocity: nat, pressed: bool)
    | ControlEvent(channel: nat, controller: nat, value: nat)
    | ProgramEvent(channel: nat, program: nat)
    | BendEvent(channel: nat, bend: int)
    | SysExEvent(data: seq<byte>)

  // ---- bit operations on bytes ----

  /** `b & 0xF0`, spelled out for the status bytes. */
  function HighNibble(b: byte): byte {
    if b < 0x80 then b - b % 16
    else if b < 0x90 then 0x80 else if b < 0xA0 then 0x90 else if b < 0xB0 then 0xA0 else if b < 0xC0 then 0xB0
    else if b < 0xD0 then 0xC0 else if b < 0xE0 then 0xD0 else if b < 0xF0 then 0xE0 else 0xF0
  }

  /** `b & 0x0F`. */
  function LowNibble(b: byte): byte { b - HighNibble(b) }

  /** `b & 0x7F`. */
  function Low7(b: byte): byte { if b < 0x80 then b else b - 0x80 }

  lemma MasksAreRemainders(b: byte)
    ensures HighNibble(b) == b - b % 16 && LowNibble(b) == b % 16 && Low7(b) == b % 128
  {
  }

  /** Bitwise or of two naturals. */
  function BitOr(a: nat, b: nat): nat {
    if a == 0 && b == 0 then 0
    else (if a % 2 == 1 || b % 2 == 1 then 1 else 0) + 2 * BitOr(a / 2, b / 2)
  }

  function Pow2(k: nat): nat {
    if k == 0 then 1 else 2 * Pow2(k - 1)
  }

  lemma {:induction false} OrWithZero(m: nat)
    ensures BitOr(m, 0) == m
  {
    if m > 0 { OrWithZero(m / 2); }
  }

  /** Or-ing below the shifted bits is adding. */
  lemma {:induction false} OrIsSum(m: nat, low: nat, k: nat)
    requires low < Pow2(k)
    ensures BitOr(m * Pow2(k), low) == m * Pow2(k) + low
  {
    if k == 0 {
      OrWithZero(m);
    } else {
      var half := m * Pow2(k - 1);
      assert m * Pow2(k) == 2 * half;
      OrIsSum(m, low / 2, k - 1);
    }
  }

  /** `(msb << 7) | lsb - 8192`, where Go groups the two operators from the left. */
  function PitchBend(lsb: byte, msb: byte): int {
    BitOr(Low7(msb) * 128, Low7(lsb)) - 8192
  }

  /** The 14-bit bend is 128 msb + lsb - 8192 and covers -8192..8191. */
  lemma PitchBendValue(lsb: byte, msb: byte)
    ensures PitchBend(lsb, msb) == 128 * Low7(msb) + Low7(lsb) - 8192
    ensures -8192 <= PitchBend(lsb, msb) <= 8191
  {
    assert Pow2(7) == 128;
    OrIsSum(Low7(msb), Low7(lsb), 7);
  }

  // ---- channel messages, common to both decoders ----

  function NoteOf(status: byte, d1: byte, d2: byte): Event {
    NoteEvent(LowNibble(status), Low7(d1), Low7(d2), HighNibble(status) == 0x90 && Low7(d2) > 0)
  }

  function ControlOf(status: byte, d1: byte, d2: byte): Event {
    ControlEvent(LowNibble(status), Low7(d1), Low7(d2))
  }

  function BendOf(status: byte, d1: byte, d2: byte): Event {
    BendEvent(LowNibble(status), PitchBend(d1, d2))
  }

  function TwoByteEvent(status: byte, d1: byte, d2: byte): Event {
    if HighNibble(status) == 0xB0 then ControlOf(status, d1, d2)
    else if HighNibble(status) == 0xE0 then BendOf(status, d1, d2)
    else NoteOf(status, d1, d2)
  }

  predicate TakesTwo(status: byte) {
    HighNibble(status) == 0x90 || HighNibble(status) == 0x80 || HighNibble(status) == 0xB0 || HighNibble(status) == 0xE0
  }

  /** Length of the leading run of data bytes. */
  function DataRun(data: seq<byte>): (k: nat)
    ensures k <= |data| && (k < |data| ==> data[k] >= 0x80)
    ensures forall i :: 0 <= i < k ==> data[i] < 0x80
  {
    if data == [] || data[0] >= 0x80 then 0 else 1 + DataRun(data[1..])
  }

  lemma {:induction false} RunOf(d: seq<byte>, rest: seq<byte>)
    requires forall i :: 0 <= i < |d| ==> d[i] < 0x80
    requires rest != [] && rest[0] >= 0x80
    ensures DataRun(d + rest) == |d|
  {
    if d == [] {
      assert d + rest == rest;
    } else {
      assert (d + rest)[1..] == d[1..] + rest;
      RunOf(d[1..], rest);
    }
  }

  lemma {:induction false} RunEndsAt(data: seq<byte>, k: nat)
    requires k <= |data| && (k < |data| ==> data[k] >= 0x80)
    requires forall i :: 0 <= i < k ==> data[i] < 0x80
    ensures DataRun(data) == k
  {
    if k > 0 { RunEndsAt(data[1..], k - 1); }
  }

  lemma TakeOneMore(data: seq<byte>, k: nat)
    requires k < |data|
    ensures [0xF0] + data[..k] + [data[k]] == [0xF0] + data[..k + 1]
  {
  }

  // ---- the buffer parser ----

  /** How many bytes one turn of the parser consumes. */
  function Taken(data: seq<byte>): (k: nat)
    requires data != []
    ensures 0 < k <= |data|
  {
    var b, run := data[0], DataRun(data[1..]);
    if TakesTwo(b) then if |data| < 3 then |data| else 3
    else if HighNibble(b) == 0xC0 || HighNibble(b) == 0xD0 then if |data| < 2 then |data| else 2
    else if b == 0xF0 then if 1 + run < |data| && data[1 + run] == 0xF7 then run + 2 else run + 1
    else 1
  }

  /** The event, if any, of one turn of the parser. */
  function Emitted(data: seq<byte>): seq<Event>
    requires data != []
  {
    var b := data[0];
    if TakesTwo(b) then if |data| < 3 then [] else [TwoByteEvent(b, data[1], data[2])]
    else if HighNibble(b) == 0xC0 then if |data| < 2 then [] else [ProgramEvent(LowNibble(b), Low7(data[1]))]
    else if b == 0xF0 then [SysExEvent(data[..Taken(data)])]
    else []
  }

  function Decode(data: seq<byte>): seq<Event> {
    if data == [] then [] else Emitted(data) + Decode(data[Taken(data)..])
  }

  /** One turn of the loop at index `i`: the events to append and the next index, which a channel
      pressure at the very end puts one past `n`. */
  method ParseTurn(buf: array<byte>, i: nat, n: nat) returns (events: seq<Event>, next: nat)
    requires i < n <= buf.Length
    ensures events == Emitted(buf[i..n])
    ensures if next <= n then next == i + Taken(buf[i..n]) else Taken(buf[i..n]) == n - i
  {
    var b := buf[i];
    var kind, channel, remaining := HighNibble(b), LowNibble(b), n - i - 1;
    ghost var data := buf[i..n];
    assert data[0] == b && (remaining >= 1 ==> data[1] == buf[i + 1]) && (remaining >= 2 ==> data[2] == buf[i + 2]);
    if b < 0x80 { return [], i + 1; }
    if kind == 0x90 || kind == 0x80 {
      if remaining < 2 { return [], n; }
      var velocity := Low7(buf[i + 2]);
      return [NoteEvent(channel, Low7(buf[i + 1]), velocity, kind == 0x90 && velocity > 0)], i + 3;
    } else if kind == 0xB0 {
      if remaining < 2 { return [], n; }
      return [ControlEvent(channel, Low7(buf[i + 1]), Low7(buf[i + 2]))], i + 3;
    } else if kind == 0xC0 {
      if remaining < 1 { return [], n; }
      return [ProgramEvent(channel, Low7(buf[i + 1]))], i + 2;
    } else if kind == 0xD0 {
      return [], i + 2;
    } else if kind == 0xE0 {
      if remaining < 2 { return [], n; }
      return [BendEvent(channel, PitchBend(buf[i + 1], buf[i + 2]))], i + 3;
    } else if b == 0xF0 {
      events, next := ParseSysEx(buf, i, n);
    } else {
      return [], i + 1;
    }
  }

  method ParseSysEx(buf: array<byte>, start: nat, n: nat) returns (events: seq<Event>, next: nat)
    requires start < n <= buf.Length && buf[start] == 0xF0
    ensures events == Emitted(buf[start..n]) && next == start + Taken(buf[start..n])
  {
    next := SysExEnd(buf, start, n);
    ghost var data := buf[start..n];
    SysExParse(data);
    events := [SysExEvent(buf[start..next])];
    assert data[..next - start] == buf[start..next];
  }

  /** The index behind a SysEx: past its data bytes, and past the terminator if that comes next. */
  method SysExEnd(buf: array<byte>, start: nat, n: nat) returns (i: nat)
    requires start < n <= buf.Length
    ensures start < i <= n
    ensures var data := buf[start..n];
            var run := DataRun(data[1..]);
            i - start == if 1 + run < |data| && data[1 + run] == 0xF7 then run + 2 else run + 1
  {
    i := SkipData(buf, start + 1, n);
    assert buf[start..n][1..] == buf[start + 1..n];
    if i < n && buf[i] == 0xF7 { i := i + 1; }
  }

  lemma SysExParse(data: seq<byte>)
    requires data != [] && data[0] == 0xF0
    ensures var run := DataRun(data[1..]);
            && Taken(data) == (if 1 + run < |data| && data[1 + run] == 0xF7 then run + 2 else run + 1)
            && Emitted(data) == [SysExEvent(data[..Taken(data)])]
  {
  }

  /** `parseMIDIBytes`. The result depends on the first `n` bytes only. */
  method ParseBytes(buf: array<byte>, n: nat) returns (events: seq<Event>)
    requires n <= buf.Length
    ensures events == Decode(buf[..n])
  {
    events := [];
    var i := 0;
    ghost var left := buf[..n];
    while i < n
      invariant i <= n ==> left == buf[i..n]
      invariant i > n ==> left == []
      invariant events + Decode(left) == Decode(buf[..n])
    {
      var out, next := ParseTurn(buf, i, n);
      AfterTurn(events, left);
      NextSlice(buf[..], i, n, Taken(left));
      events, i, left := events + out, next, left[Taken(left)..];
    }
  }

  lemma NextSlice(all: seq<byte>, i: nat, n: nat, k: nat)
    requires i + k <= n <= |all|
    ensures all[i..n][k..] == all[i + k..n]
  {
  }

  lemma AfterTurn(events: seq<Event>, data: seq<byte>)
    requires data != []
    ensures (events + Emitted(data)) + Decode(data[Taken(data)..]) == events + Decode(data)
  {
  }

  /** The inner loop over the data bytes of a SysEx. */
  method SkipData(buf: array<byte>, from: nat, n: nat) returns (i: nat)
    requires from <= n <= buf.Length
    ensures i == from + DataRun(buf[from..n]) && i <= n
  {
    i := from;
    while i < n && buf[i] < 0x80
      invariant from <= i <= n && DataRun(buf[from..n]) == (i - from) + DataRun(buf[i..n])
    {
      assert buf[i..n][1..] == buf[i + 1..n];
      i := i + 1;
    }
  }

  // ---- the ALSA reader ----

  /** What one pass of the reader's loop does: events, remaining source, the last two bytes of the
      reused buffer, and whether the source ended in the middle. */
  datatype Turn = Turn(events: seq<Event>, rest: seq<byte>, s1: byte, s2: byte, ended: bool)

  /** One pass on a byte source that serves every read in full while it can; `s1` and `s2` are what
      the three-byte buffer still holds from before. */
  function ReadTurn(data: seq<byte>, s1: byte, s2: byte): (t: Turn)
    requires data != []
    ensures |t.rest| < |data|
  {
    var b, run := data[0], DataRun(data[1..]);
    if b >= 0x80 && TakesTwo(b) then
      if |data| == 1 then Turn([], [], s1, s2, true)
      else if |data| == 2 then Turn([TwoByteEvent(b, data[1], s2)], [], data[1], s2, false)
      else Turn([TwoByteEvent(b, data[1], data[2])], data[3..], data[1], data[2], false)
    else if HighNibble(b) == 0xC0 then
      if |data| == 1 then Turn([], [], s1, s2, true)
      else Turn([ProgramEvent(LowNibble(b), Low7(data[1]))], data[2..], data[1], s2, false)
    else if b == 0xF0 then
      if run + 1 == |data| then Turn([], [], s1, s2, true)
      else Turn([SysExEvent(data[..run + 2])], data[run + 2..], s1, s2, false)
    else Turn([], data[1..], s1, s2, false)
  }

  function Read(data: seq<byte>, s1: byte, s2: byte): seq<Event>
    decreases |data|
  {
    if data == [] then []
    else
      var t := ReadTurn(data, s1, s2);
      if t.ended then [] else t.events + Read(t.rest, t.s1, t.s2)
  }

  /** A turn at a status byte with two data bytes, in the terms of the bytes behind it. */
  lemma TwoByteTurn(data: seq<byte>, s1: byte, s2: byte)
    requires data != [] && data[0] >= 0x80 && TakesTwo(data[0])
    ensures var rest, t := data[1..], ReadTurn(data, s1, s2);
            && t.ended == (rest == [])
            && (|rest| == 1 ==> t == Turn([TwoByteEvent(data[0], rest[0], s2)], rest[1..], rest[0], s2, false))
            && (|rest| >= 2 ==> t == Turn([TwoByteEvent(data[0], rest[0], rest[1])], rest[2..], rest[0], rest[1], false))
  {
  }

  lemma ReadUnfolds(events: seq<Event>, data: seq<byte>, s1: byte, s2: byte)
    requires data != []
    ensures var t := ReadTurn(data, s1, s2);
            events + Read(data, s1, s2) ==
            if t.ended then events else (events + t.events) + Read(t.rest, t.s1, t.s2)
  {
  }

  lemma SysExTurn(data: seq<byte>, s1: byte, s2: byte)
    requires data != [] && data[0] == 0xF0
    ensures var run, t := DataRun(data[1..]), ReadTurn(data, s1, s2);
            && t.ended == (run == |data[1..]|)
            && (!t.ended ==> t == Turn([SysExEvent([0xF0] + data[1..][..run + 1])], data[1..][run + 1..], s1, s2, false))
  {
    var run := DataRun(data[1..]);
    if run < |data[1..]| {
      assert data[..run + 2] == [0xF0] + data[1..][..run + 1] && data[run + 2..] == data[1..][run + 1..];
    }
  }

  /** The serial side of the reader: what is left of the byte source, and the reused buffer. */
  class Reader {
    var source: seq<byte>
    const buf: array<byte>

    constructor (source: seq<byte>)
      ensures this.source == source && fresh(buf) && buf.Length == 3 && buf[..] == [0, 0, 0]
    {
      this.source := source;
      buf := new byte[3](_ => 0);
    }

    /** `fd.Read(buf[from:to])`: an error at the end of the source, otherwise as much as there is. */
    method Fill(from: nat, to: nat) returns (ok: bool)
      requires buf.Length == 3 && from < to <= 3
      modifies this`source, buf
      ensures ok == (old(source) != [])
      ensures !ok ==> source == old(source) && buf[..] == old(buf[..])
      ensures ok ==> var k := if |old(source)| < to - from then |old(source)| else to - from;
                     source == old(source)[k..] &&
                     forall i :: 0 <= i < 3 ==> buf[i] == if from <= i < from + k then old(source)[i - from] else old(buf[i])
    {
      if source == [] { return false; }
      var k := if |source| < to - from then |source| else to - from;
      for i := 0 to k
        invariant source == old(source)
        invariant forall j :: 0 <= j < 3 ==> buf[j] == if from <= j < from + i then source[j - from] else old(buf[j])
      {
        buf[from + i] := source[i];
      }
      source := source[k..];
      return true;
    }

    /** Collects a SysEx after its first byte; not complete when the source ends first. */
    method CollectSysEx() returns (complete: bool, data: seq<byte>)
      modifies this`source
      ensures complete == (DataRun(old(source)) < |old(source)|)
      ensures complete ==> var k := DataRun(old(source)) + 1;
                           data == [0xF0] + old(source)[..k] && source == old(source)[k..]
    {
      var bytes, k := source, 0;
      data := [0xF0];
      while k < |bytes|
        invariant k <= |bytes| && bytes == old(source) && data == [0xF0] + bytes[..k]
        invariant forall i :: 0 <= i < k ==> bytes[i] < 0x80
      {
        var b := bytes[k];
        data := data + [b];
        TakeOneMore(bytes, k);
        if b >= 0x80 {
          RunEndsAt(bytes, k);
          source := bytes[k + 1..];
          return true, data;
        }
        k := k + 1;
      }
      RunEndsAt(bytes, k);
      source := [];
      complete := false;
    }

    /** One pass of `readLoop` after its first byte has been found to be there. */
    method OnePass() returns (events: seq<Event>, ended: bool)
      requires buf.Length == 3 && source != []
      modifies this, buf
      ensures var t := ReadTurn(old(source), old(buf[1]), old(buf[2]));
              ended == t.ended && (!ended ==> events == t.events && source == t.rest && buf[1] == t.s1 && buf[2] == t.s2)
    {
      var _ := Fill(0, 1);
      var status, ok := buf[0], true;
      if status < 0x80 { return [], false; }
      if TakesTwo(status) {
        TwoByteTurn(old(source), old(buf[1]), old(buf[2]));
        ok := Fill(1, 3);
        return [TwoByteEvent(status, buf[1], buf[2])], !ok;
      } else if HighNibble(status) == 0xC0 {
        ok := Fill(1, 2);
        return [ProgramEvent(LowNibble(status), Low7(buf[1]))], !ok;
      } else if status == 0xF0 {
        SysExTurn(old(source), old(buf[1]), old(buf[2]));
        var complete, sysex := CollectSysEx();
        return [SysExEvent(sysex)], !complete;
      } else {
        return [], false;
      }
    }

    /** `readLoop`, run until the source ends. */
    method ReadLoop() returns (events: seq<Event>)
      requires buf.Length == 3
      modifies this, buf
      ensures events == Read(old(source), old(buf[1]), old(buf[2]))
    {
      events := [];
      ghost var all := Read(source, buf[1], buf[2]);
      while source != []
        invariant events + Read(source, buf[1], buf[2]) == all
        decreases |source|
      {
        ReadUnfolds(events, source, buf[1], buf[2]);
        var out, ended := OnePass();
        if ended { return; }
        events := events + out;
      }
    }
  }

  // ---- complete messages ----

  datatype Message =
    | Note(on: bool, channel: nat, note: nat, velocity: nat)
    | Control(channel: nat, controller: nat, value: nat)
    | Program(channel: nat, program: nat)
    | Bend(channel: nat, lsb: nat, msb: nat)
    | Pressure(channel: nat, amount: nat)
    | KeyPressure(channel: nat, note: nat, amount: nat)
    | SysEx(data: seq<nat>)
    | System(status: nat, data: seq<nat>)

  ghost predicate AllData(s: seq<nat>) {
    forall i :: 0 <= i < |s| ==> s[i] < 128
  }

  ghost predicate WellFormed(m: Message) {
    match m
    case Note(_, c, n, v) => c < 16 && n < 128 && v < 128
    case Control(c, n, v) => c < 16 && n < 128 && v < 128
    case Program(c, p) => c < 16 && p < 128
    case Bend(c, l, h) => c < 16 && l < 128 && h < 128
    case Pressure(c, a) => c < 16 && a < 128
    case KeyPressure(c, n, a) => c < 16 && n < 128 && a < 128
    case SysEx(data) => AllData(data)
    case System(status, data) => 0xF0 < status < 256 && AllData(data)
  }

  ghost function Bytes(m: Message): seq<byte>
    requires WellFormed(m)
  {
    match m
    case Note(on, c, n, v) => [(if on then 0x90 else 0x80) + c, n, v]
    case Control(c, n, v) => [0xB0 + c, n, v]
    case Program(c, p) => [0xC0 + c, p]
    case Bend(c, l, h) => [0xE0 + c, l, h]
    case Pressure(c, a) => [0xD0 + c, a]
    case KeyPressure(c, n, a) => [0xA0 + c, n, a]
    case SysEx(data) => [0xF0] + AsBytes(data) + [0xF7]
    case System(status, data) => [status] + AsBytes(data)
  }

  ghost function AsBytes(s: seq<nat>): (r: seq<byte>)
    requires AllData(s)
    ensures |r| == |s| && forall i :: 0 <= i < |s| ==> r[i] == s[i] && r[i] < 0x80
  {
    seq(|s|, i requires 0 <= i < |s| => s[i])
  }

  /** What a listener should hear. */
  ghost function Heard(m: Message): seq<Event>
    requires WellFormed(m)
  {
    match m
    case Note(on, c, n, v) => [NoteEvent(c, n, v, on && v > 0)]
    case Control(c, n, v) => [ControlEvent(c, n, v)]
    case Program(c, p) => [ProgramEvent(c, p)]
    case Bend(c, l, h) => [BendEvent(c, 128 * h + l - 8192)]
    case SysEx(data) => [SysExEvent(Bytes(m))]
    case _ => []
  }

  ghost function AllBytes(ms: seq<Message>): seq<byte>
    requires forall m :: m in ms ==> WellFormed(m)
  {
    if ms == [] then [] else Bytes(ms[0]) + AllBytes(ms[1..])
  }

  ghost function AllHeard(ms: seq<Message>): seq<Event>
    requires forall m :: m in ms ==> WellFormed(m)
  {
    if ms == [] then [] else Heard(ms[0]) + AllHeard(ms[1..])
  }

  lemma {:induction false} ParserSkipsData(d: seq<byte>, rest: seq<byte>)
    requires forall i :: 0 <= i < |d| ==> d[i] < 0x80
    ensures Decode(d + rest) == Decode(rest)
  {
    if d == [] {
      assert d + rest == rest;
    } else {
      assert (d + rest)[1..] == d[1..] + rest;
      ParserSkipsData(d[1..], rest);
    }
  }

  lemma {:induction false} ReaderSkipsData(d: seq<byte>, rest: seq<byte>, s1: byte, s2: byte)
    requires forall i :: 0 <= i < |d| ==> d[i] < 0x80
    ensures Read(d + rest, s1, s2) == Read(rest, s1, s2)
  {
    if d == [] {
      assert d + rest == rest;
    } else {
      assert (d + rest)[1..] == d[1..] + rest;
      ReaderSkipsData(d[1..], rest, s1, s2);
    }
  }

  lemma SysExDecodes(d: seq<byte>, rest: seq<byte>, s1: byte, s2: byte)
    requires forall i :: 0 <= i < |d| ==> d[i] < 0x80
    ensures var frame := [0xF0] + d + [0xF7];
            Decode(frame + rest) == [SysExEvent(frame)] + Decode(rest) &&
            Read(frame + rest, s1, s2) == [SysExEvent(frame)] + Read(rest, s1, s2)
  {
    var frame := [0xF0] + d + [0xF7];
    var data := frame + rest;
    assert data[1..] == d + ([0xF7] + rest);
    RunOf(d, [0xF7] + rest);
    assert data[..|d| + 2] == frame && data[|d| + 2..] == rest;
    assert data[|d| + 1] == 0xF7;
  }

  lemma ThreeBytesDecode(status: byte, d1: byte, d2: byte, rest: seq<byte>, s1: byte, s2: byte)
    requires status >= 0x80 && TakesTwo(status)
    ensures Decode([status, d1, d2] + rest) == [TwoByteEvent(status, d1, d2)] + Decode(rest)
    ensures Read([status, d1, d2] + rest, s1, s2) == [TwoByteEvent(status, d1, d2)] + Read(rest, d1, d2)
  {
    assert ([status, d1, d2] + rest)[3..] == rest;
  }

  lemma ProgramDecodes(status: byte, p: byte, rest: seq<byte>, s1: byte, s2: byte)
    requires HighNibble(status) == 0xC0
    ensures Decode([status, p] + rest) == [ProgramEvent(LowNibble(status), Low7(p))] + Decode(rest)
    ensures Read([status, p] + rest, s1, s2) == [ProgramEvent(LowNibble(status), Low7(p))] + Read(rest, p, s2)
  {
    assert ([status, p] + rest)[2..] == rest;
  }

  lemma SilentTurn(data: seq<byte>, s1: byte, s2: byte)
    requires data != [] && (data[0] > 0xF0 || HighNibble(data[0]) == 0xA0)
    ensures Decode(data) == Decode(data[1..]) && Read(data, s1, s2) == Read(data[1..], s1, s2)
  {
  }

  /** Status bytes that neither decoder reports, followed by their data. */
  lemma SilentDecodes(data: seq<byte>, d: seq<byte>, rest: seq<byte>, s1: byte, s2: byte)
    requires data != [] && (data[0] > 0xF0 || HighNibble(data[0]) == 0xA0) && data[1..] == d + rest
    requires forall i :: 0 <= i < |d| ==> d[i] < 0x80
    ensures Decode(data) == Decode(rest) && Read(data, s1, s2) == Read(rest, s1, s2)
  {
    SilentTurn(data, s1, s2);
    ParserSkipsData(d, rest);
    ReaderSkipsData(d, rest, s1, s2);
  }

  lemma TailOfFrame(status: byte, d: seq<byte>, rest: seq<byte>)
    ensures ([status] + d + rest)[1..] == d + rest && ([status] + d + rest)[0] == status
  {
  }

  lemma PressureDecodes(status: byte, a: byte, rest: seq<byte>, s1: byte, s2: byte)
    requires HighNibble(status) == 0xD0 && a < 0x80
    ensures Decode([status, a] + rest) == Decode(rest) && Read([status, a] + rest, s1, s2) == Read(rest, s1, s2)
  {
    var data := [status, a] + rest;
    assert data[2..] == rest && data[1..] == [a] + rest;
    ReaderSkipsData([a], rest, s1, s2);
  }

  lemma Nibbles(kind: byte, c: nat)
    requires kind in {0x80, 0x90, 0xA0, 0xB0, 0xC0, 0xD0, 0xE0} && c < 16
    ensures HighNibble(kind + c) == kind && LowNibble(kind + c) == c
  {
  }

  lemma NoteHeard(on: bool, c: nat, n: nat, v: nat)
    requires c < 16 && n < 128 && v < 128
    ensures var status := (if on then 0x90 else 0x80) + c;
            TakesTwo(status) && TwoByteEvent(status, n, v) == NoteEvent(c, n, v, on && v > 0)
  {
    Nibbles(if on then 0x90 else 0x80, c);
  }

  lemma ControlHeard(c: nat, n: nat, v: nat)
    requires c < 16 && n < 128 && v < 128
    ensures TakesTwo(0xB0 + c) && TwoByteEvent(0xB0 + c, n, v) == ControlEvent(c, n, v)
  {
    Nibbles(0xB0, c);
  }

  lemma BendHeard(c: nat, l: nat, h: nat)
    requires c < 16 && l < 128 && h < 128
    ensures TakesTwo(0xE0 + c) && TwoByteEvent(0xE0 + c, l, h) == BendEvent(c, 128 * h + l - 8192)
  {
    Nibbles(0xE0, c);
    PitchBendValue(l, h);
  }

  lemma VoiceEvent(m: Message)
    requires WellFormed(m) && (m.Note? || m.Control? || m.Bend?)
    ensures var b := Bytes(m);
            |b| == 3 && b[0] >= 0x80 && TakesTwo(b[0]) && Heard(m) == [TwoByteEvent(b[0], b[1], b[2])]
  {
    match m
    case Note(on, c, n, v) => NoteHeard(on, c, n, v);
    case Control(c, n, v) => ControlHeard(c, n, v);
    case Bend(c, l, h) => BendHeard(c, l, h);
  }

  lemma VoiceDecodes(m: Message, rest: seq<byte>, s1: byte, s2: byte)
    requires WellFormed(m) && (m.Note? || m.Control? || m.Bend?)
    ensures Decode(Bytes(m) + rest) == Heard(m) + Decode(rest)
    ensures |Bytes(m)| == 3
    ensures Read(Bytes(m) + rest, s1, s2) == Heard(m) + Read(rest, Bytes(m)[1], Bytes(m)[2])
  {
    VoiceEvent(m);
    ghost var b := Bytes(m);
    ThreeBytesDecode(b[0], b[1], b[2], rest, s1, s2);
    assert b == [b[0], b[1], b[2]];
  }

  lemma QuietDecodes(m: Message, rest: seq<byte>, s1: byte, s2: byte)
    requires WellFormed(m) && (m.KeyPressure? || m.System?)
    ensures Decode(Bytes(m) + rest) == Decode(rest) && Read(Bytes(m) + rest, s1, s2) == Read(rest, s1, s2)
  {
    if m.KeyPressure? {
      Nibbles(0xA0, m.channel);
      assert Bytes(m) == [0xA0 + m.channel] + [m.note, m.amount];
      TailOfFrame(0xA0 + m.channel, [m.note, m.amount], rest);
      SilentDecodes(Bytes(m) + rest, [m.note, m.amount], rest, s1, s2);
    } else {
      TailOfFrame(m.status, AsBytes(m.data), rest);
      SilentDecodes(Bytes(m) + rest, AsBytes(m.data), rest, s1, s2);
    }
  }

  lemma PressureMessageDecodes(m: Message, rest: seq<byte>, s1: byte, s2: byte)
    requires WellFormed(m) && m.Pressure?
    ensures Decode(Bytes(m) + rest) == Decode(rest) && Read(Bytes(m) + rest, s1, s2) == Read(rest, s1, s2)
  {
    Nibbles(0xD0, m.channel);
    PressureDecodes(0xD0 + m.channel, m.amount, rest, s1, s2);
  }

  lemma OtherDecodes(m: Message, rest: seq<byte>, s1: byte, s2: byte)
    requires WellFormed(m) && (m.Pressure? || m.KeyPressure? || m.SysEx? || m.System?)
    ensures Decode(Bytes(m) + rest) == Heard(m) + Decode(rest)
    ensures Read(Bytes(m) + rest, s1, s2) == Heard(m) + Read(rest, s1, s2)
  {
    if m.SysEx? {
      SysExDecodes(AsBytes(m.data), rest, s1, s2);
    } else if m.Pressure? {
      PressureMessageDecodes(m, rest, s1, s2);
    } else {
      QuietDecodes(m, rest, s1, s2);
    }
  }

  lemma ProgramMessageDecodes(m: Message, rest: seq<byte>, s1: byte, s2: byte)
    requires m.Program? && WellFormed(m)
    ensures Decode(Bytes(m) + rest) == Heard(m) + Decode(rest)
    ensures Read(Bytes(m) + rest, s1, s2) == Heard(m) + Read(rest, m.program, s2)
  {
    Nibbles(0xC0, m.channel);
    ProgramDecodes(0xC0 + m.channel, m.program, rest, s1, s2);
  }

  /** A message in front adds its own events and leaves the decoding of the rest alone; the reader's
      buffer then holds `t1` and `t2`. */
  lemma MessageDecodes(m: Message, rest: seq<byte>, s1: byte, s2: byte) returns (t1: byte, t2: byte)
    requires WellFormed(m)
    ensures Decode(Bytes(m) + rest) == Heard(m) + Decode(rest)
    ensures Read(Bytes(m) + rest, s1, s2) == Heard(m) + Read(rest, t1, t2)
  {
    if m.Note? || m.Control? || m.Bend? {
      VoiceDecodes(m, rest, s1, s2);
      t1, t2 := Bytes(m)[1], Bytes(m)[2];
    } else if m.Program? {
      ProgramMessageDecodes(m, rest, s1, s2);
      t1, t2 := m.program, s2;
    } else {
      OtherDecodes(m, rest, s1, s2);
      t1, t2 := s1, s2;
    }
  }

  /** For every sequence of complete messages both decoders yield exactly the messages' events in
      order, whatever the reader's buffer held before. */
  lemma {:induction false} BothDecodersAgree(ms: seq<Message>, s1: byte, s2: byte)
    requires forall m :: m in ms ==> WellFormed(m)
    ensures Decode(AllBytes(ms)) == AllHeard(ms)
    ensures Read(AllBytes(ms), s1, s2) == AllHeard(ms)
  {
    if ms != [] {
      var rest := AllBytes(ms[1..]);
      var t1, t2 := MessageDecodes(ms[0], rest, s1, s2);
      BothDecodersAgree(ms[1..], t1, t2);
    }
  }

  // ---- arbitrary bytes: exactly where the decoders part ----

  /** A two-byte message cut off by the end of the bytes after its first data byte. */
  ghost predicate CutOff(data: seq<byte>) {
    |data| == 2 && TakesTwo(data[0])
  }

  /** A SysEx cut off by the end of the bytes. */
  ghost predicate OpenSysEx(data: seq<byte>) {
    data != [] && data[0] == 0xF0 && DataRun(data[1..]) + 1 == |data|
  }

  /** A SysEx ended by a status byte other than its terminator. */
  ghost predicate BrokenSysEx(data: seq<byte>) {
    data != [] && data[0] == 0xF0 && var run := DataRun(data[1..]); run + 1 < |data| && data[run + 1] != 0xF7
  }

  ghost predicate Fragment(data: seq<byte>) {
    CutOff(data) || OpenSysEx(data) || BrokenSysEx(data)
  }

  /** A status byte that starts a reported message. */
  predicate Sounding(b: byte) {
    TakesTwo(b) || HighNibble(b) == 0xC0 || b == 0xF0
  }

  /** A channel pressure whose value is missing, so that the next message follows at once. */
  ghost predicate StolenStatus(data: seq<byte>) {
    |data| >= 2 && HighNibble(data[0]) == 0xD0 && Sounding(data[1])
  }

  /** No turn of the parser starts at a fragment. Stray data, running status and status bytes inside
      the data of a note are all allowed. */
  ghost predicate Whole(data: seq<byte>)
    decreases |data|
  {
    data == [] || (!Fragment(data) && Whole(data[Taken(data)..]))
  }

  /** No turn of the parser starts at a channel pressure without its value. */
  ghost predicate NoneStolen(data: seq<byte>)
    decreases |data|
  {
    data == [] || (!StolenStatus(data) && NoneStolen(data[Taken(data)..]))
  }

  lemma ReaderSkipsOne(data: seq<byte>, s1: byte, s2: byte)
    requires data != [] && !Sounding(data[0])
    ensures Read(data, s1, s2) == Read(data[1..], s1, s2)
  {
  }

  lemma PressureTurn(data: seq<byte>, s1: byte, s2: byte)
    requires data != [] && HighNibble(data[0]) == 0xD0 && !StolenStatus(data)
    ensures Emitted(data) == [] && Read(data, s1, s2) == Read(data[Taken(data)..], s1, s2)
  {
    ReaderSkipsOne(data, s1, s2);
    if |data| >= 2 {
      ReaderSkipsOne(data[1..], s1, s2);
      assert data[1..][1..] == data[2..];
    }
  }

  lemma SysExTurnAgrees(data: seq<byte>, s1: byte, s2: byte)
    requires data != [] && data[0] == 0xF0 && !Fragment(data)
    ensures Read(data, s1, s2) == Emitted(data) + Read(data[Taken(data)..], s1, s2)
  {
    var run := DataRun(data[1..]);
    assert run + 1 < |data| && data[run + 1] == 0xF7;
  }

  lemma VoiceTurnAgrees(data: seq<byte>, s1: byte, s2: byte) returns (t1: byte, t2: byte)
    requires data != [] && (TakesTwo(data[0]) || HighNibble(data[0]) == 0xC0) && !CutOff(data)
    ensures Read(data, s1, s2) == Emitted(data) + Read(data[Taken(data)..], t1, t2)
  {
    var t := ReadTurn(data, s1, s2);
    t1, t2 := t.s1, t.s2;
    if t.ended { assert data[Taken(data)..] == []; }
  }

  /** A turn that starts at neither reports the same event in both decoders and leaves them at the
      same place. */
  lemma TurnAgrees(data: seq<byte>, s1: byte, s2: byte) returns (t1: byte, t2: byte)
    requires data != [] && !Fragment(data) && !StolenStatus(data)
    ensures Read(data, s1, s2) == Emitted(data) + Read(data[Taken(data)..], t1, t2)
  {
    t1, t2 := s1, s2;
    if TakesTwo(data[0]) || HighNibble(data[0]) == 0xC0 {
      t1, t2 := VoiceTurnAgrees(data, s1, s2);
    } else if data[0] == 0xF0 {
      SysExTurnAgrees(data, s1, s2);
    } else {
      QuietTurnAgrees(data, s1, s2);
    }
  }

  lemma QuietTurnAgrees(data: seq<byte>, s1: byte, s2: byte)
    requires data != [] && !Sounding(data[0]) && !StolenStatus(data)
    ensures Read(data, s1, s2) == Emitted(data) + Read(data[Taken(data)..], s1, s2)
  {
    var rest := Read(data[Taken(data)..], s1, s2);
    assert [] + rest == rest;
    if HighNibble(data[0]) == 0xD0 {
      PressureTurn(data, s1, s2);
    } else {
      ReaderSkipsOne(data, s1, s2);
      ParserSkipsOne(data);
    }
  }

  lemma ParserSkipsOne(data: seq<byte>)
    requires data != [] && !Sounding(data[0]) && HighNibble(data[0]) != 0xD0
    ensures Taken(data) == 1 && Emitted(data) == []
  {
  }

  /** A cut-off message is dropped by the parser and completed with a stale byte by the reader. */
  lemma CutOffDiffers(data: seq<byte>, s1: byte, stale: byte)
    requires CutOff(data)
    ensures Decode(data) == [] && Read(data, s1, stale) == [TwoByteEvent(data[0], data[1], stale)]
  {
    assert data[2..] == [];
  }

  /** A SysEx cut off by the end is reported by the parser and dropped by the reader. */
  lemma OpenSysExDiffers(data: seq<byte>, s1: byte, s2: byte)
    requires OpenSysEx(data)
    ensures Decode(data) == [SysExEvent(data)] && Read(data, s1, s2) == []
  {
    assert Taken(data) == |data| && data[..|data|] == data;
    assert Decode(data) == Emitted(data) + Decode(data[|data|..]);
  }

  /** The status byte that breaks a SysEx is left for decoding by the parser and swallowed into the
      SysEx by the reader. */
  lemma BrokenSysExDiffers(data: seq<byte>, s1: byte, s2: byte)
    requires BrokenSysEx(data)
    ensures var run := DataRun(data[1..]);
            && Decode(data) == [SysExEvent(data[..run + 1])] + Decode(data[run + 1..])
            && Read(data, s1, s2) == [SysExEvent(data[..run + 2])] + Read(data[run + 2..], s1, s2)
  {
    SysExParse(data);
    BrokenSysExRead(data, s1, s2);
  }

  lemma BrokenSysExRead(data: seq<byte>, s1: byte, s2: byte)
    requires BrokenSysEx(data)
    ensures var run := DataRun(data[1..]); Read(data, s1, s2) == [SysExEvent(data[..run + 2])] + Read(data[run + 2..], s1, s2)
  {
    SysExTurn(data, s1, s2);
    var run := DataRun(data[1..]);
    assert [0xF0] + data[1..][..run + 1] == data[..run + 2] && data[1..][run + 1..] == data[run + 2..];
  }

  lemma FragmentDiffers(data: seq<byte>, s1: byte, s2: byte)
    requires Fragment(data)
    ensures Decode(data) != Read(data, s1, s2)
  {
    if CutOff(data) {
      CutOffDiffers(data, s1, s2);
    } else if OpenSysEx(data) {
      OpenSysExDiffers(data, s1, s2);
    } else {
      BrokenSysExDiffers(data, s1, s2);
      var run := DataRun(data[1..]);
      assert |data[..run + 1]| != |data[..run + 2]|;
      assert Decode(data)[0] == SysExEvent(data[..run + 1]) && Read(data, s1, s2)[0] == SysExEvent(data[..run + 2]);
    }
  }

  lemma SameFront<T>(front: seq<T>, a: seq<T>, b: seq<T>)
    ensures front + a == front + b <==> a == b
  {
    if front + a == front + b {
      assert a == (front + a)[|front|..] && b == (front + b)[|front|..];
    }
  }

  /** Agreement on arbitrary bytes: where no channel pressure lacks its value, both decoders report
      the same events if and only if no turn starts at a fragment, whatever the reader's buffer held. */
  lemma {:induction false} AgreeExactlyWhenWhole(data: seq<byte>, s1: byte, s2: byte)
    requires NoneStolen(data)
    ensures Decode(data) == Read(data, s1, s2) <==> Whole(data)
    decreases |data|
  {
    if data != [] {
      if Fragment(data) {
        FragmentDiffers(data, s1, s2);
      } else {
        var rest := data[Taken(data)..];
        var t1, t2 := TurnAgrees(data, s1, s2);
        AgreeExactlyWhenWhole(rest, t1, t2);
        SameFront(Emitted(data), Decode(rest), Read(rest, t1, t2));
      }
    }
  }

  /** At a channel pressure without its value the parser drops the next status byte and the reader
      decodes from it. */
  lemma StolenStatusShifts(data: seq<byte>, s1: byte, s2: byte)
    requires StolenStatus(data)
    ensures Decode(data) == Decode(data[2..]) && Read(data, s1, s2) == Read(data[1..], s1, s2)
  {
    ReaderSkipsOne(data, s1, s2);
  }

  lemma StolenNoteLost(status: byte, n: byte, v: byte)
    requires StolenStatus([0xD0, status, n, v]) && n < 0x80 && v < 0x80
    ensures Decode([0xD0, status, n, v]) == []
  {
    var data := [0xD0, status, n, v];
    StolenStatusShifts(data, 0, 0);
    assert data[2..] == [n, v] + [];
    ParserSkipsData([n, v], []);
  }

  lemma StolenNoteRead(status: byte, n: byte, v: byte, s1: byte, s2: byte)
    requires StolenStatus([0xD0, status, n, v]) && TakesTwo(status)
    ensures Read([0xD0, status, n, v], s1, s2) == [TwoByteEvent(status, n, v)]
  {
    var data := [0xD0, status, n, v];
    StolenStatusShifts(data, s1, s2);
    assert data[1..] == [status, n, v] + [];
    ThreeBytesDecode(status, n, v, [], s1, s2);
  }

  /** Usually the events differ then: a note after such a pressure is lost to the parser. */
  lemma StolenNoteDiffers(channel: nat, n: byte, v: byte, s1: byte, s2: byte)
    requires channel < 16 && n < 0x80 && v < 0x80
    ensures StolenStatus([0xD0, 0x90 + channel, n, v]) && Decode([0xD0, 0x90 + channel, n, v]) == []
    ensures Read([0xD0, 0x90 + channel, n, v], s1, s2) == [NoteEvent(channel, n, v, v > 0)]
  {
    NoteHeard(true, channel, n, v);
    StolenNoteLost(0x90 + channel, n, v);
    StolenNoteRead(0x90 + channel, n, v, s1, s2);
  }

  /** But they can agree by coincidence: two notes that share bytes. */
  lemma StolenNoteMayAgree(s1: byte, s2: byte)
    ensures StolenStatus([0xD0, 0x90, 0x90, 0x10, 0x10])
    ensures Decode([0xD0, 0x90, 0x90, 0x10, 0x10]) == Read([0xD0, 0x90, 0x90, 0x10, 0x10], s1, s2)
  {
    var data: seq<byte> := [0xD0, 0x90, 0x90, 0x10, 0x10];
    StolenStatusShifts(data, s1, s2);
    assert data[2..] == [0x90, 0x10, 0x10] + [] && data[1..] == [0x90, 0x90, 0x10] + [0x10];
    ThreeBytesDecode(0x90, 0x10, 0x10, [], s1, s2);
    ThreeBytesDecode(0x90, 0x90, 0x10, [0x10], s1, s2);
    assert [0x10] == [0x10] + [];
    ReaderSkipsData([0x10], [], 0x90, 0x10);
    assert Low7(0x90) == 0x10;
  }
}
