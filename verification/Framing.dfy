/**
 Message framing between the client library and the daemon: a 16-byte header
 and a payload, moved over a socket that may deliver or accept any part of
 what was asked for, be interrupted, time out, close or fail.
 */
module Framing {
  import opened Word32

  type byte = x: int | 0 <= x < 0x100
  type half = x: int | 0 <= x < 0x1_0000

  const MAGIC: word := 0x4f525350
  const VERSION: half := 9
  const HEADER_BYTES: nat := 16

  // -------------------------------------------------------------------- headers

  datatype Header = Header(magic: word, version: half, kind: half, sequence: word, payloadBytes: word)

  datatype Frame = Frame(kind: half, sequence: word, payload: seq<byte>)

  function HalfBytes(x: half): (b: seq<byte>)
    ensures |b| == 2
  {
    [x % 0x100, x / 0x100]
  }

  function WordBytes(x: word): (b: seq<byte>)
    ensures |b| == 4
  {
    HalfBytes(x % 0x1_0000) + HalfBytes(x / 0x1_0000)
  }

  function HalfAt(b: seq<byte>, i: nat): half
    requires i + 2 <= |b|
  {
    var low: int, high: int := b[i], b[i + 1];
    low + 0x100 * high
  }

  function WordAt(b: seq<byte>, i: nat): word
    requires i + 4 <= |b|
  {
    var low: int, high: int := HalfAt(b, i), HalfAt(b, i + 2);
    low + 0x1_0000 * high
  }

  /** The header as the bytes of its record, least significant byte first. */
  function HeaderBytes(h: Header): (b: seq<byte>)
    ensures |b| == HEADER_BYTES
  {
    WordBytes(h.magic) + HalfBytes(h.version) + HalfBytes(h.kind)
    + WordBytes(h.sequence) + WordBytes(h.payloadBytes)
  }

  function HeaderAt(b: seq<byte>): Header
    requires |b| == HEADER_BYTES
  {
    Header(WordAt(b, 0), HalfAt(b, 4), HalfAt(b, 6), WordAt(b, 8), WordAt(b, 12))
  }

  lemma HalfRoundTrip(before: seq<byte>, x: half, after: seq<byte>)
    ensures HalfAt(before + HalfBytes(x) + after, |before|) == x
  {
    var s := before + HalfBytes(x) + after;
    assert s[|before|] == x % 0x100 && s[|before| + 1] == x / 0x100;
  }

  lemma WordRoundTrip(before: seq<byte>, x: word, after: seq<byte>)
    ensures WordAt(before + WordBytes(x) + after, |before|) == x
  {
    var low, high := HalfBytes(x % 0x1_0000), HalfBytes(x / 0x1_0000);
    var s := before + WordBytes(x) + after;
    assert s == before + low + (high + after) == (before + low) + high + after;
    HalfRoundTrip(before, x % 0x1_0000, high + after);
    HalfRoundTrip(before + low, x / 0x1_0000, after);
  }

  /** Decoding the bytes of a header gives the header back. */
  lemma HeaderRoundTrip(h: Header)
    ensures HeaderAt(HeaderBytes(h)) == h
  {
    var m, v, k := WordBytes(h.magic), HalfBytes(h.version), HalfBytes(h.kind);
    var s, p := WordBytes(h.sequence), WordBytes(h.payloadBytes);
    var b := HeaderBytes(h);
    assert b == [] + m + (v + k + s + p) == m + v + (k + s + p) == (m + v) + k + (s + p);
    assert b == (m + v + k) + s + p == (m + v + k + s) + p + [];
    WordRoundTrip([], h.magic, v + k + s + p);
    HalfRoundTrip(m, h.version, k + s + p);
    HalfRoundTrip(m + v, h.kind, s + p);
    WordRoundTrip(m + v + k, h.sequence, p);
    WordRoundTrip(m + v + k + s, h.payloadBytes, []);
  }

  predicate Sendable(f: Frame) {
    |f.payload| < MODULUS
  }

  function HeaderOf(f: Frame): Header
    requires Sendable(f)
  {
    Header(MAGIC, VERSION, f.kind, f.sequence, |f.payload|)
  }

  function Encode(f: Frame): seq<byte>
    requires Sendable(f)
  {
    HeaderBytes(HeaderOf(f)) + f.payload
  }

  // ------------------------------------------------------------------ transfers

  /** What one read or write call does: move 1 + n bytes if it can, or not move any. */
  datatype Attempt = Move(n: nat) | Interrupted | TimedOut | Closed | Broken

  datatype Result = Ok | Timeout | Error

  /** How a transfer ended, how many bytes it moved, and the attempts left to later calls. */
  datatype Transfer = Transfer(result: Result, moved: nat, rest: seq<Attempt>)

  function Min(a: nat, b: nat): nat {
    if a < b then a else b
  }

  /** Bytes moved by an attempt: never more than wanted or available. */
  function Granted(a: Attempt, wanted: nat, available: nat): nat {
    if a.Move? then Min(a.n + 1, Min(wanted, available)) else 0
  }

  /**
   `transfer_exact` under a script of attempts: interruptions are retried, and
   only a read that has not moved a byte yet may end in a timeout. A read finds
   nothing to move as a timeout; a script that has run out is a closed socket.
   */
  function Drive(script: seq<Attempt>, wanted: nat, available: nat, moved: nat, writing: bool): (t: Transfer)
    ensures t.result.Ok? ==> t.moved == moved + wanted
    ensures t.result.Timeout? ==> t.moved == moved == 0 && wanted > 0 && !writing
    ensures t.result.Error? ==> moved <= t.moved < moved + wanted
    ensures t.moved <= moved + available
    decreases |script|
  {
    if wanted == 0 then Transfer(Ok, moved, script)
    else if script == [] then Transfer(Error, moved, [])
    else
      var a, rest := script[0], script[1..];
      var k := Granted(a, wanted, available);
      if k > 0 then Drive(rest, wanted - k, available - k, moved + k, writing)
      else if a.Interrupted? then Drive(rest, wanted, available, moved, writing)
      else if (a.TimedOut? || a.Move?) && !writing && moved == 0 then Transfer(Timeout, moved, rest)
      else Transfer(Error, moved, rest)
  }

  /** Attempts that all move bytes or are interrupted. */
  predicate Smooth(script: seq<Attempt>) {
    script == [] || ((script[0].Move? || script[0].Interrupted?) && Smooth(script[1..]))
  }

  function Moves(script: seq<Attempt>): nat {
    if script == [] then 0 else Moves(script[1..]) + if script[0].Move? then 1 else 0
  }

  /** Interruptions and short transfers alone never make a transfer fail. */
  lemma {:induction false} SmoothSucceeds(script: seq<Attempt>, wanted: nat, available: nat, moved: nat, writing: bool)
    requires Smooth(script) && Moves(script) >= wanted && available >= wanted
    ensures var t := Drive(script, wanted, available, moved, writing);
            t.result.Ok? && Smooth(t.rest) && Moves(t.rest) >= Moves(script) - wanted
    decreases |script|
  {
    if wanted > 0 {
      var rest, k := script[1..], Granted(script[0], wanted, available);
      SmoothSucceeds(rest, wanted - k, available - k, moved + k, writing);
      assert Drive(script, wanted, available, moved, writing)
          == Drive(rest, wanted - k, available - k, moved + k, writing);
    }
  }

  // ------------------------------------------------------------------- receiving

  datatype Received = Got(header: Header, payload: seq<byte>) | NoFrame | Failed

  /** A receive's outcome, the bytes left in the socket, and the attempts left. */
  datatype Reception = Reception(received: Received, incoming: seq<byte>, script: seq<Attempt>)

  function Receive(incoming: seq<byte>, capacity: nat, script: seq<Attempt>): Reception {
    var h := Drive(script, HEADER_BYTES, |incoming|, 0, false);
    if h.result.Timeout? then Reception(NoFrame, incoming[h.moved..], h.rest)
    else if h.result.Error? then Reception(Failed, incoming[h.moved..], h.rest)
    else ReceivePayload(HeaderAt(incoming[..h.moved]), incoming[h.moved..], capacity, h.rest)
  }

  function ReceivePayload(header: Header, incoming: seq<byte>, capacity: nat, script: seq<Attempt>): Reception {
    if header.magic != MAGIC || header.version != VERSION || header.payloadBytes > capacity
    then Reception(Failed, incoming, script)
    else
      var p := Drive(script, header.payloadBytes, |incoming|, 0, false);
      Reception(if p.result.Ok? then Got(header, incoming[..p.moved]) else Failed,
                incoming[p.moved..], p.rest)
  }

  /** A receive that reports a timeout has consumed nothing, whatever the bytes. */
  lemma TimeoutConsumesNothing(incoming: seq<byte>, capacity: nat, script: seq<Attempt>)
    requires Receive(incoming, capacity, script).received.NoFrame?
    ensures Receive(incoming, capacity, script).incoming == incoming
  {
  }

  /**
   What a successful receive has checked, whatever the bytes: they begin with a header
   of this protocol and version whose payload fits the buffer, and exactly that header
   and payload were consumed and returned.
   */
  lemma ReceiveChecks(incoming: seq<byte>, capacity: nat, script: seq<Attempt>)
    requires Receive(incoming, capacity, script).received.Got?
    ensures var r := Receive(incoming, capacity, script);
            var h, n := r.received.header, |r.received.payload|;
            && h.magic == MAGIC && h.version == VERSION && h.payloadBytes == n <= capacity
            && HEADER_BYTES + n <= |incoming|
            && h == HeaderAt(incoming[..HEADER_BYTES])
            && r.received.payload == incoming[HEADER_BYTES..HEADER_BYTES + n]
            && r.incoming == incoming[HEADER_BYTES + n..]
  {
  }

  /** On the bytes of a frame a successful receive returns that frame and no byte more. */
  lemma ReceiveFrame(f: Frame, after: seq<byte>, capacity: nat, script: seq<Attempt>)
    requires Sendable(f)
    ensures var r := Receive(Encode(f) + after, capacity, script);
            r.received.Got? ==> r.received == Got(HeaderOf(f), f.payload) && r.incoming == after
  {
    var h, body := HeaderBytes(HeaderOf(f)), f.payload + after;
    var incoming := Encode(f) + after;
    assert incoming == h + body;
    var t := Drive(script, HEADER_BYTES, |incoming|, 0, false);
    if t.result.Ok? {
      assert incoming[..HEADER_BYTES] == h && incoming[HEADER_BYTES..] == body;
      HeaderRoundTrip(HeaderOf(f));
      assert body[..|f.payload|] == f.payload && body[|f.payload|..] == after;
    }
  }

  /** Interruptions and short reads alone never lose a frame the buffer can hold. */
  lemma SmoothReceive(f: Frame, after: seq<byte>, capacity: nat, script: seq<Attempt>)
    requires Sendable(f) && |f.payload| <= capacity
    requires Smooth(script) && Moves(script) >= |Encode(f)|
    ensures var r := Receive(Encode(f) + after, capacity, script);
            && r.received == Got(HeaderOf(f), f.payload) && r.incoming == after
            && Smooth(r.script) && Moves(r.script) >= Moves(script) - |Encode(f)|
  {
    var h, body := HeaderBytes(HeaderOf(f)), f.payload + after;
    var incoming := Encode(f) + after;
    assert incoming == h + body;
    assert incoming[..HEADER_BYTES] == h && incoming[HEADER_BYTES..] == body;
    SmoothSucceeds(script, HEADER_BYTES, |incoming|, 0, false);
    HeaderRoundTrip(HeaderOf(f));
    SmoothSucceeds(Drive(script, HEADER_BYTES, |incoming|, 0, false).rest, |f.payload|, |body|, 0, false);
    ReceiveFrame(f, after, capacity, script);
  }

  /** A frame that was not sent whole is never received. */
  lemma ReceivePartial(f: Frame, part: seq<byte>, capacity: nat, script: seq<Attempt>)
    requires Sendable(f) && part < Encode(f)
    ensures !Receive(part, capacity, script).received.Got?
  {
    var h := HeaderBytes(HeaderOf(f));
    var t := Drive(script, HEADER_BYTES, |part|, 0, false);
    if t.result.Ok? {
      assert part[..HEADER_BYTES] == Encode(f)[..HEADER_BYTES] == h;
      HeaderRoundTrip(HeaderOf(f));
    }
  }

  // ------------------------------------------------------------- whole sessions

  ghost predicate AllSendable(frames: seq<Frame>) {
    forall k :: 0 <= k < |frames| ==> Sendable(frames[k])
  }

  /** The byte stream of frames sent one after the other. */
  function Wire(frames: seq<Frame>): seq<byte>
    requires AllSendable(frames)
  {
    if frames == [] then [] else Encode(frames[0]) + Wire(frames[1..])
  }

  /** The message that a successful receive hands to its caller. */
  function AsFrame(r: Received): Frame
    requires r.Got?
  {
    Frame(r.header.kind, r.header.sequence, r.payload)
  }

  /** The frames obtained by receives with the given capacities, until one fails. */
  function Session(incoming: seq<byte>, capacities: seq<nat>, script: seq<Attempt>): seq<Frame>
    decreases |capacities|
  {
    if capacities == [] then []
    else
      var r := Receive(incoming, capacities[0], script);
      if r.received.Failed? then []
      else
        (if r.received.Got? then [AsFrame(r.received)] else [])
        + Session(r.incoming, capacities[1..], r.script)
  }

  /** The stream ends inside a frame, or exactly after one. */
  ghost predicate CutShort(part: seq<byte>) {
    part == [] || exists f :: Sendable(f) && part < Encode(f)
  }

  lemma NothingWhole(part: seq<byte>, capacity: nat, script: seq<Attempt>)
    requires CutShort(part)
    ensures !Receive(part, capacity, script).received.Got?
  {
    if part != [] {
      var f :| Sendable(f) && part < Encode(f);
      ReceivePartial(f, part, capacity, script);
    }
  }

  lemma WireSplits(frames: seq<Frame>, part: seq<byte>)
    requires AllSendable(frames) && frames != []
    ensures Wire(frames) + part == Encode(frames[0]) + (Wire(frames[1..]) + part)
    ensures |Wire(frames)| == |Encode(frames[0])| + |Wire(frames[1..])|
  {
    Regroup(Encode(frames[0]), Wire(frames[1..]), part);
  }

  lemma Regroup(a: seq<byte>, b: seq<byte>, c: seq<byte>)
    ensures (a + b) + c == a + (b + c)
  {
  }

  /** A receive from the stream of a session takes its first frame or nothing. */
  lemma ReceiveNext(frames: seq<Frame>, part: seq<byte>, capacity: nat, script: seq<Attempt>)
    requires AllSendable(frames) && CutShort(part)
    ensures var r := Receive(Wire(frames) + part, capacity, script);
            match r.received
            case Failed => true
            case NoFrame => r.incoming == Wire(frames) + part
            case Got(_, _) =>
              && frames != []
              && AsFrame(r.received) == frames[0]
              && r.incoming == Wire(frames[1..]) + part
  {
    if frames == [] {
      assert Wire(frames) + part == part;
      NothingWhole(part, capacity, script);
    } else {
      WireSplits(frames, part);
      ReceiveFrame(frames[0], Wire(frames[1..]) + part, capacity, script);
    }
  }

  /**
   For every sequence of frames sent, the last one possibly cut short, every
   splitting of the bytes into partial reads, interruptions and timeouts and
   every sequence of receives: until a receive fails, the frames obtained are
   exactly the first frames sent, in order and unchanged.
   */
  lemma {:induction false} FramesInOrder(
    frames: seq<Frame>, part: seq<byte>, capacities: seq<nat>, script: seq<Attempt>)
    requires AllSendable(frames) && CutShort(part)
    ensures Session(Wire(frames) + part, capacities, script) <= frames
    decreases |capacities|
  {
    if capacities != [] {
      var r := Receive(Wire(frames) + part, capacities[0], script);
      ReceiveNext(frames, part, capacities[0], script);
      match r.received
      case Failed =>
      case NoFrame =>
        FramesInOrder(frames, part, capacities[1..], r.script);
        assert Session(Wire(frames) + part, capacities, script)
            == Session(r.incoming, capacities[1..], r.script);
      case Got(_, _) =>
        var later := Session(r.incoming, capacities[1..], r.script);
        FramesInOrder(frames[1..], part, capacities[1..], r.script);
        assert Session(Wire(frames) + part, capacities, script) == [frames[0]] + later;
        PrefixGrows(frames, later);
    }
  }

  lemma PrefixGrows(frames: seq<Frame>, later: seq<Frame>)
    requires frames != [] && later <= frames[1..]
    ensures [frames[0]] + later <= frames
  {
  }

  lemma SmoothNext(frames: seq<Frame>, part: seq<byte>, capacity: nat, script: seq<Attempt>)
    requires AllSendable(frames) && frames != [] && |frames[0].payload| <= capacity
    requires Smooth(script) && Moves(script) >= |Wire(frames)|
    ensures var r := Receive(Wire(frames) + part, capacity, script);
            && r.received.Got? && AsFrame(r.received) == frames[0]
            && r.incoming == Wire(frames[1..]) + part
            && Smooth(r.script) && Moves(r.script) >= |Wire(frames[1..])|
  {
    WireSplits(frames, part);
    SmoothReceive(frames[0], Wire(frames[1..]) + part, capacity, script);
  }

  /** Each buffer can hold the payload of its frame. */
  ghost predicate Fits(frames: seq<Frame>, capacities: seq<nat>) {
    |capacities| == |frames| && forall k :: 0 <= k < |frames| ==> |frames[k].payload| <= capacities[k]
  }

  /**
   If every attempt moves a byte or is interrupted and every buffer can hold its
   frame, the session obtains all frames sent.
   */
  lemma {:induction false} AllFramesArrive(
    frames: seq<Frame>, part: seq<byte>, capacities: seq<nat>, script: seq<Attempt>)
    requires AllSendable(frames) && CutShort(part) && Fits(frames, capacities)
    requires Smooth(script) && Moves(script) >= |Wire(frames)|
    ensures Session(Wire(frames) + part, capacities, script) == frames
  {
    if frames != [] {
      var r := Receive(Wire(frames) + part, capacities[0], script);
      SmoothNext(frames, part, capacities[0], script);
      assert Fits(frames[1..], capacities[1..]);
      AllFramesArrive(frames[1..], part, capacities[1..], r.script);
    }
  }

  // --------------------------------------------------------------------- sockets

  /** One end of a connected socket: bytes not read yet, bytes written, and the attempts to come. */
  class Socket {
    var incoming: seq<byte>
    var outgoing: seq<byte>
    var script: seq<Attempt>

    constructor (bytes: seq<byte>, attempts: seq<Attempt>)
      ensures incoming == bytes && outgoing == [] && script == attempts
    {
      incoming, outgoing, script := bytes, [], attempts;
    }

    method NextAttempt() returns (a: Attempt)
      modifies this`script
      ensures old(script) == [] ==> a == Closed && script == []
      ensures old(script) != [] ==> a == old(script)[0] && script == old(script)[1..]
    {
      if script == [] {
        a := Closed;
      } else {
        a, script := script[0], script[1..];
      }
    }

    /** `transfer_exact` when reading: on success `data` fills the caller's buffer. */
    method ReadExact(count: nat) returns (result: Result, data: seq<byte>)
      modifies this`incoming, this`script
      ensures var t := Drive(old(script), count, |old(incoming)|, 0, false);
              result == t.result && script == t.rest && |data| == t.moved
      ensures data + incoming == old(incoming)
    {
      ghost var t := Drive(script, count, |incoming|, 0, false);
      var bytes := count;
      data := [];
      while bytes != 0
        invariant |data| + bytes == count
        invariant data + incoming == old(incoming)
        invariant Drive(script, bytes, |incoming|, |data|, false) == t
        decreases |script|, bytes
      {
        var a := NextAttempt();
        var k := Granted(a, bytes, |incoming|);
        if k == 0 {
          if a.Interrupted? {
            continue;
          }
          if |data| == 0 && (a.TimedOut? || a.Move?) {
            return Timeout, data;
          }
          return Error, data;
        }
        data, incoming, bytes := data + incoming[..k], incoming[k..], bytes - k;
      }
      return Ok, data;
    }

    /** `transfer_exact` when writing. */
    method WriteExact(data: seq<byte>) returns (result: Result)
      modifies this`outgoing, this`script
      ensures var t := Drive(old(script), |data|, |data|, 0, true);
              result == t.result && script == t.rest && outgoing == old(outgoing) + data[..t.moved]
    {
      ghost var t := Drive(script, |data|, |data|, 0, true);
      var sent := 0;
      while sent != |data|
        invariant 0 <= sent <= |data|
        invariant outgoing == old(outgoing) + data[..sent]
        invariant Drive(script, |data| - sent, |data| - sent, sent, true) == t
        decreases |script|, |data| - sent
      {
        var a := NextAttempt();
        var k := Granted(a, |data| - sent, |data| - sent);
        if k == 0 {
          if a.Interrupted? {
            continue;
          }
          return Error;
        }
        assert data[..sent] + data[sent..sent + k] == data[..sent + k];
        outgoing, sent := outgoing + data[sent..sent + k], sent + k;
      }
      return Ok;
    }

    /** `openrsp_client_send`: success appends exactly the frame, failure less than the frame. */
    method SendFrame(f: Frame) returns (ok: bool)
      requires Sendable(f)
      modifies this`outgoing, this`script
      ensures ok ==> outgoing == old(outgoing) + Encode(f)
      ensures !ok ==> exists part :: part < Encode(f) && outgoing == old(outgoing) + part
      ensures Smooth(old(script)) && Moves(old(script)) >= |Encode(f)| ==> ok
    {
      var h := HeaderBytes(HeaderOf(f));
      if Smooth(script) && Moves(script) >= |Encode(f)| {
        SmoothSucceeds(script, |h|, |h|, 0, true);
      }
      var result := WriteExact(h);
      if !result.Ok? {
        ghost var t := Drive(old(script), |h|, |h|, 0, true);
        assert h[..t.moved] < Encode(f);
        return false;
      }
      assert h[..|h|] == h;
      if |f.payload| == 0 {
        assert Encode(f) == h;
        return true;
      }
      if Smooth(old(script)) && Moves(old(script)) >= |Encode(f)| {
        SmoothSucceeds(script, |f.payload|, |f.payload|, 0, true);
      }
      ghost var t := Drive(script, |f.payload|, |f.payload|, 0, true);
      result := WriteExact(f.payload);
      assert outgoing == old(outgoing) + (h + f.payload[..t.moved]);
      if result.Ok? {
        assert f.payload[..t.moved] == f.payload;
      } else {
        assert h + f.payload[..t.moved] < Encode(f);
      }
      return result.Ok?;
    }

    /** `openrsp_client_receive`. */
    method ReceiveFrom(capacity: nat) returns (received: Received)
      modifies this`incoming, this`script
      ensures Reception(received, incoming, script) == Receive(old(incoming), capacity, old(script))
    {
      var result, header := ReadExact(HEADER_BYTES);
      assert incoming == old(incoming)[|header|..] && header == old(incoming)[..|header|];
      if result.Timeout? {
        return NoFrame;
      }
      if result.Error? {
        return Failed;
      }
      var h := HeaderAt(header);
      if h.magic != MAGIC || h.version != VERSION || h.payloadBytes > capacity {
        return Failed;
      }
      ghost var body := incoming;
      var payload: seq<byte> := [];
      if h.payloadBytes != 0 {
        result, payload := ReadExact(h.payloadBytes);
        assert incoming == body[|payload|..] && payload == body[..|payload|];
        if !result.Ok? {
          return Failed;
        }
      }
      return Got(h, payload);
    }
  }
}
