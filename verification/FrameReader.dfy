/** The data-socket reader: framed packets out of a byte stream that arrives in arbitrary pieces. */
module FrameReader {
  import opened RmpConfig

  type byte = x: int | 0 <= x < 256

  const START: byte := 0x24
  const MAX_PAYLOAD: nat := 4096
  const STATE_PACKET: byte := 3

  // ----- what a byte stream means

  function PayloadSize(lo: byte, hi: byte): nat { lo + 256 * hi }

  predicate ValidSize(n: nat) { 0 < n <= MAX_PAYLOAD }

  /** The type-3 payloads in a stream; a frame that is not complete yet delivers nothing. */
  function Parse(s: seq<byte>): seq<seq<byte>>
    decreases |s|
  {
    if s == [] then []
    else if s[0] != START then Parse(s[1..])
    else if |s| < 4 then []
    else
      var n := PayloadSize(s[1], s[2]);
      if !ValidSize(n) then Parse(s[4..])
      else if |s| < 4 + n then []
      else (if s[3] == STATE_PACKET then [s[4..4 + n]] else []) + Parse(s[4 + n..])
  }

  datatype Frame = Frame(kind: byte, payload: seq<byte>)

  predicate Sendable(f: Frame) { ValidSize(|f.payload|) }

  function Encode(f: Frame): seq<byte>
    requires Sendable(f)
  {
    [START, |f.payload| % 256, |f.payload| / 256, f.kind] + f.payload
  }

  /** Frames, each preceded by bytes that are not a start byte, and a tail of such bytes. */
  function EncodeAll(gaps: seq<seq<byte>>, frames: seq<Frame>): seq<byte>
    requires |gaps| == |frames| + 1 && forall i | 0 <= i < |frames| :: Sendable(frames[i])
    decreases |frames|
  {
    if frames == [] then gaps[0] else gaps[0] + Encode(frames[0]) + EncodeAll(gaps[1..], frames[1..])
  }

  function StatePayloads(frames: seq<Frame>): seq<seq<byte>> {
    if frames == [] then []
    else (if frames[0].kind == STATE_PACKET then [frames[0].payload] else []) + StatePayloads(frames[1..])
  }

  lemma {:induction false} SkipGap(gap: seq<byte>, rest: seq<byte>)
    requires START !in gap
    ensures Parse(gap + rest) == Parse(rest)
  {
    if gap == [] {
      assert gap + rest == rest;
    } else {
      SkipGap(gap[1..], rest);
      assert (gap + rest)[1..] == gap[1..] + rest;
    }
  }

  /** A complete frame is read whole, start bytes inside its payload included. */
  lemma ParseFrame(f: Frame, rest: seq<byte>)
    requires Sendable(f)
    ensures Parse(Encode(f) + rest) == (if f.kind == STATE_PACKET then [f.payload] else []) + Parse(rest)
  {
    var s, n := Encode(f) + rest, |f.payload|;
    assert s[1] == n % 256 && s[2] == n / 256 && s[3] == f.kind;
    assert PayloadSize(s[1], s[2]) == n;
    assert s[4..4 + n] == f.payload && s[4 + n..] == rest;
  }

  /** The stream of any frames with valid payload lengths, separated by any bytes other than the start byte,
      delivers exactly the state payloads, in order. */
  lemma {:induction false} ParseEncoded(gaps: seq<seq<byte>>, frames: seq<Frame>)
    requires |gaps| == |frames| + 1 && forall i | 0 <= i < |frames| :: Sendable(frames[i])
    requires forall i | 0 <= i < |gaps| :: START !in gaps[i]
    ensures Parse(EncodeAll(gaps, frames)) == StatePayloads(frames)
    decreases |frames|
  {
    hide Parse, Encode;
    if frames == [] {
      SkipGap(gaps[0], []);
      assert gaps[0] + [] == gaps[0];
      EmptyStream();
    } else {
      ParseEncoded(gaps[1..], frames[1..]);
      var rest := EncodeAll(gaps[1..], frames[1..]);
      SkipGap(gaps[0], Encode(frames[0]) + rest);
      assert gaps[0] + Encode(frames[0]) + rest == gaps[0] + (Encode(frames[0]) + rest);
      ParseFrame(frames[0], rest);
    }
  }

  lemma EmptyStream()
    ensures Parse([]) == []
  {
  }

  /** A header with an impossible length costs its four bytes and nothing else. */
  lemma BadHeader(lo: byte, hi: byte, kind: byte, rest: seq<byte>)
    requires !ValidSize(PayloadSize(lo, hi))
    ensures Parse([START, lo, hi, kind] + rest) == Parse(rest)
  {
    var s := [START, lo, hi, kind] + rest;
    assert s[4..] == rest;
  }

  /** What has been delivered stays delivered when more bytes arrive. */
  lemma {:induction false} ParseMonotone(s: seq<byte>, more: seq<byte>)
    ensures Parse(s) <= Parse(s + more)
    decreases |s|
  {
    if s == [] {
    } else if s[0] != START {
      ParseMonotone(s[1..], more);
      assert (s + more)[1..] == s[1..] + more;
    } else if |s| >= 4 {
      var n := PayloadSize(s[1], s[2]);
      hide PayloadSize;
      if !ValidSize(n) {
        ParseMonotone(s[4..], more);
        assert (s + more)[4..] == s[4..] + more;
      } else if |s| >= 4 + n {
        ParseMonotone(s[4 + n..], more);
        FirstFrame(s, more, n);
        FirstFrame(s, [], n);
        assert s + [] == s && s[4 + n..] + [] == s[4 + n..];
      }
    }
  }

  lemma FirstFrame(s: seq<byte>, more: seq<byte>, n: nat)
    requires |s| >= 4 && s[0] == START && n == PayloadSize(s[1], s[2]) && ValidSize(n) && |s| >= 4 + n
    ensures Parse(s + more) == (if s[3] == STATE_PACKET then [s[4..4 + n]] else []) + Parse(s[4 + n..] + more)
  {
    assert (s + more)[4 + n..] == s[4 + n..] + more && (s + more)[4..4 + n] == s[4..4 + n];
  }

  /** Whatever part of an encoded stream has been taken, the delivered payloads are the first state payloads,
      and all of them once the stream has been taken whole. */
  lemma DeliveredInOrder(gaps: seq<seq<byte>>, frames: seq<Frame>, taken: seq<byte>, rest: seq<byte>)
    requires |gaps| == |frames| + 1 && forall i | 0 <= i < |frames| :: Sendable(frames[i])
    requires forall i | 0 <= i < |gaps| :: START !in gaps[i]
    requires taken + rest == EncodeAll(gaps, frames)
    ensures Parse(taken) <= StatePayloads(frames)
    ensures rest == [] ==> Parse(taken) == StatePayloads(frames)
  {
    hide Parse;
    ParseEncoded(gaps, frames);
    ParseMonotone(taken, rest);
    if rest == [] { assert taken + rest == taken; }
  }

  /** When enough bytes arrive before the end, in pieces of any sizes with any number of retries between them, what the
      reader delivers is all the state payloads, in order. */
  lemma AllDelivered(gaps: seq<seq<byte>>, frames: seq<Frame>, script: seq<Event>, taken: seq<byte>, rest: seq<byte>)
    requires |gaps| == |frames| + 1 && forall i | 0 <= i < |frames| :: Sendable(frames[i])
    requires forall i | 0 <= i < |gaps| :: START !in gaps[i]
    requires taken + rest == EncodeAll(gaps, frames) && |taken| == Left(script, taken + rest)
    ensures Parse(taken) <= StatePayloads(frames)
    ensures Arriving(script) >= |EncodeAll(gaps, frames)| ==> Parse(taken) == StatePayloads(frames)
  {
    hide Parse, EncodeAll;
    DeliveredInOrder(gaps, frames, taken, rest);
    assert |taken + rest| == |taken| + |rest|;
  }

  // ----- the socket

  /** What the next `recv` meets: `n` bytes that have arrived, a retryable error, the peer's close, a hard error, or
      the client being stopped meanwhile. */
  datatype Event = Chunk(n: nat) | Retry | Close | Fail | Stop

  datatype Pass = Skipped | Delivered(payload: seq<byte>) | Ended

  datatype Received = Bytes(data: seq<byte>) | TryAgain | Closed | Broken

  /** The bytes that arrive before the connection ends or the client is stopped. */
  function Arriving(script: seq<Event>): nat {
    if script == [] then 0
    else
      match script[0]
      case Chunk(n) => n + Arriving(script[1..])
      case Retry => Arriving(script[1..])
      case _ => 0
  }

  /** How much of the stream there still is to take. */
  function Left(script: seq<Event>, stream: seq<byte>): nat {
    if Arriving(script) < |stream| then Arriving(script) else |stream|
  }

  /** Bounds the reads a script allows. */
  function Reads(script: seq<Event>): nat {
    if script == [] then 0 else (if script[0].Chunk? then script[0].n else 0) + 1 + Reads(script[1..])
  }

  class DataSocket {
    var stream: seq<byte>
    var script: seq<Event>
    var running: bool
    var connected: bool
    ghost var taken: seq<byte>

    constructor (bytes: seq<byte>, events: seq<Event>)
      ensures stream == bytes && script == events && running && connected && taken == []
    {
      stream, script, running, connected, taken := bytes, events, true, true, [];
    }

    /** `recv`: a short read of at most `limit` of the bytes that have arrived, the others waiting for the next one; a
        silent stream times out. The connection ends only when nothing is left to take. */
    method Recv(limit: nat) returns (r: Received)
      requires limit > 0
      modifies this
      ensures connected == old(connected)
      ensures r.Bytes? ==> 0 < |r.data| <= limit && old(stream) == r.data + stream && taken == old(taken) + r.data
      ensures !r.Bytes? ==> stream == old(stream) && taken == old(taken)
      ensures Reads(script) <= old(Reads(script)) && (r.Bytes? || r.TryAgain? ==> Reads(script) < old(Reads(script)))
      ensures r.Bytes? ==> running == old(running) && Left(script, stream) == old(Left(script, stream)) - |r.data|
      ensures r.TryAgain? && running ==> old(running) && Left(script, stream) == old(Left(script, stream))
      ensures r.Closed? || r.Broken? || (old(running) && !running) ==> old(Left(script, stream)) == 0
    {
      if script == [] {
        return Closed;
      }
      var event := script[0];
      script := script[1..];
      match event {
        case Chunk(n) =>
          var count := if n < limit then n else limit;
          if |stream| < count { count := |stream|; }
          if count == 0 {
            return TryAgain;
          }
          if count < n { script := [Chunk(n - count)] + script; }
          var data := stream[..count];
          stream := stream[count..];
          taken := taken + data;
          return Bytes(data);
        case Retry => return TryAgain;
        case Close => return Closed;
        case Fail => return Broken;
        case Stop =>
          running := false;
          return TryAgain;
      }
    }

    method RecvByte() returns (r: Option<byte>)
      modifies this
      ensures connected == old(connected)
      ensures r.Some? ==> old(stream) == [r.value] + stream && taken == old(taken) + [r.value] && Reads(script) < old(Reads(script))
      ensures r.Some? ==> running && Left(script, stream) == old(Left(script, stream)) - 1
      ensures r.None? ==> stream == old(stream) && taken == old(taken)
      ensures r.None? && old(running && connected) ==> old(Left(script, stream)) == 0
    {
      while running && connected
        invariant stream == old(stream) && taken == old(taken) && connected == old(connected) && Reads(script) <= old(Reads(script))
        invariant if running then Left(script, stream) == old(Left(script, stream)) else old(running) ==> old(Left(script, stream)) == 0
        decreases Reads(script)
      {
        var got := Recv(1);
        match got {
          case Bytes(data) =>
            assert data == [data[0]];
            return Some(data[0]);
          case TryAgain =>
          case Closed => return None;
          case Broken => return None;
        }
      }
      return None;
    }

    /** `recv_exact`: the whole length out of however many short reads, or nothing. */
    method RecvExact(length: nat) returns (r: Option<seq<byte>>, ghost part: seq<byte>)
      modifies this
      ensures connected == old(connected) && Reads(script) <= old(Reads(script))
      ensures old(stream) == part + stream && taken == old(taken) + part
      ensures if r.Some? then part == r.value && |part| == length else |part| < length
      ensures old(running && connected) ==>
        if r.Some? then running && Left(script, stream) == old(Left(script, stream)) - length else old(Left(script, stream)) == |part|
    {
      var buffer: seq<byte> := [];
      while |buffer| < length && running && connected
        invariant |buffer| <= length && old(stream) == buffer + stream && taken == old(taken) + buffer
        invariant connected == old(connected) && Reads(script) <= old(Reads(script))
        invariant if running then Left(script, stream) == old(Left(script, stream)) - |buffer|
                  else old(running) ==> |buffer| < length && old(Left(script, stream)) == |buffer|
        decreases Reads(script)
      {
        var got := Recv(length - |buffer|);
        match got {
          case Bytes(data) =>
            assert buffer + (data + stream) == (buffer + data) + stream;
            assert old(taken) + (buffer + data) == old(taken) + buffer + data;
            buffer := buffer + data;
          case TryAgain =>
          case Closed => return None, buffer;
          case Broken => return None, buffer;
        }
      }
      if |buffer| == length {
        return Some(buffer), buffer;
      }
      return None, buffer;
    }

    /** One pass of the loop: a byte that starts nothing, a header that is skipped, a packet, or the end. */
    method ReadNext() returns (r: Pass)
      requires Splits(taken)
      modifies this
      ensures old(taken) + old(stream) == taken + stream
      ensures Parse(taken) == Parse(old(taken)) + (if r.Delivered? then [r.payload] else [])
      ensures !r.Ended? ==> Splits(taken) && connected == old(connected) && Reads(script) < old(Reads(script))
      ensures old(running && connected) ==>
        if r.Ended? then |taken| == old(|taken| + Left(script, stream))
        else running && |taken| + Left(script, stream) == old(|taken| + Left(script, stream))
    {
      hide Parse, Splits, PayloadSize, ValidSize, Left, Reads;
      ghost var before, all := taken, stream;
      ghost var part;
      var start := RecvByte();
      if start.None? {
        return Ended;
      }
      assert before + ([start.value] + stream) == before + [start.value] + stream;
      if start.value != START {
        OtherByte(before, start.value);
        return Skipped;
      }
      var header;
      header, part := RecvExact(3);
      assert before + [START] + part == before + ([START] + part);
      assert before + [START] + (part + stream) == before + [START] + part + stream;
      if header.None? {
        ShortHeader(before, part);
        return Ended;
      }
      ghost var head := [START] + header.value;
      var size := PayloadSize(header.value[0], header.value[1]);
      if !ValidSize(size) {
        SkippedHeader(before, head);
        return Skipped;
      }
      var payload;
      payload, part := RecvExact(size);
      assert before + head + part == before + (head + part);
      assert before + head + (part + stream) == before + head + part + stream;
      if payload.None? {
        ShortPayload(before, head, part);
        return Ended;
      }
      ReadPacket(before, head, payload.value);
      return if header.value[2] == STATE_PACKET then Delivered(payload.value) else Skipped;
    }

    /** `read_data_loop`: however the bytes are split and whenever the connection ends, the delivered payloads
        are those of the bytes taken so far, and a running client takes every byte that arrives before the end. */
    method ReadDataLoop() returns (delivered: seq<seq<byte>>)
      requires taken == []
      modifies this
      ensures old(stream) == taken + stream
      ensures delivered == Parse(taken)
      ensures old(running && connected) ==> |taken| == old(Left(script, stream))
    {
      hide Parse, Splits, Left, Reads;
      delivered := [];
      NothingRead();
      while running && connected
        invariant old(stream) == taken + stream && delivered == Parse(taken) && Splits(taken)
        invariant old(running && connected) ==> running && connected && |taken| + Left(script, stream) == old(Left(script, stream))
        decreases Reads(script)
      {
        var next := ReadNext();
        match next {
          case Skipped => assert delivered + [] == delivered;
          case Delivered(payload) => delivered := delivered + [payload];
          case Ended =>
            assert delivered + [] == delivered;
            if running { connected := false; }
            return;
        }
      }
    }
  }

  /** After these bytes the reader is between packets: what follows is parsed on its own. */
  ghost predicate Splits(before: seq<byte>) { forall rest :: Parse(before + rest) == Parse(before) + Parse(rest) }

  lemma SplitsAt(before: seq<byte>, rest: seq<byte>)
    requires Splits(before)
    ensures Parse(before + rest) == Parse(before) + Parse(rest)
  {
  }

  lemma NothingRead()
    ensures Parse([]) == [] && Splits([])
  {
    hide Parse;
    EmptyStream();
    forall rest
      ensures Parse([] + rest) == Parse([]) + Parse(rest)
    {
      assert [] + rest == rest;
    }
  }

  /** A packet the loop has read to its end. */
  ghost predicate Whole(p: seq<byte>) { forall rest :: Parse(p + rest) == Parse(p) + Parse(rest) }

  lemma Completed(before: seq<byte>, packet: seq<byte>)
    requires Splits(before) && Whole(packet)
    ensures Parse(before + packet) == Parse(before) + Parse(packet) && Splits(before + packet)
  {
    hide Parse;
    SplitsAt(before, packet);
    forall rest
      ensures Parse(before + packet + rest) == Parse(before + packet) + Parse(rest)
    {
      assert before + packet + rest == before + (packet + rest);
      SplitsAt(before, packet + rest);
      assert Parse(packet + rest) == Parse(packet) + Parse(rest);
    }
  }

  lemma OtherByte(before: seq<byte>, x: byte)
    requires Splits(before) && x != START
    ensures Parse(before + [x]) == Parse(before) && Splits(before + [x])
  {
    hide Splits;
    EmptyStream();
    assert [x][1..] == [];
    forall rest
      ensures Parse([x] + rest) == Parse([x]) + Parse(rest)
    {
      assert ([x] + rest)[1..] == rest;
    }
    Completed(before, [x]);
  }

  lemma SkippedHeader(before: seq<byte>, head: seq<byte>)
    requires Splits(before) && |head| == 4 && head[0] == START && !ValidSize(PayloadSize(head[1], head[2]))
    ensures Parse(before + head) == Parse(before) && Splits(before + head)
  {
    hide Splits, PayloadSize, ValidSize;
    EmptyStream();
    assert head[4..] == [];
    forall rest
      ensures Parse(head + rest) == Parse(head) + Parse(rest)
    {
      assert (head + rest)[4..] == rest;
    }
    Completed(before, head);
  }

  lemma ReadPacket(before: seq<byte>, head: seq<byte>, payload: seq<byte>)
    requires Splits(before) && |head| == 4 && head[0] == START && ValidSize(PayloadSize(head[1], head[2]))
    requires |payload| == PayloadSize(head[1], head[2])
    ensures Parse(before + (head + payload)) == Parse(before) + (if head[3] == STATE_PACKET then [payload] else [])
    ensures Splits(before + (head + payload))
  {
    hide Splits, PayloadSize, ValidSize, Parse;
    EmptyStream();
    var p, n := head + payload, |payload|;
    assert p[4..4 + n] == payload && p[4 + n..] == [];
    assert p[0] == START && p[1] == head[1] && p[2] == head[2] && p[3] == head[3];
    var found := if head[3] == STATE_PACKET then [payload] else [];
    FirstFrame(p, [], n);
    assert p + [] == p && [] + [] == p[4 + n..] && found + [] == found;
    assert Parse(p) == found;
    forall rest
      ensures Parse(p + rest) == Parse(p) + Parse(rest)
    {
      FirstFrame(p, rest, n);
      assert p[4 + n..] + rest == rest;
    }
    Completed(before, p);
  }

  /** A packet cut short delivers nothing. */
  lemma ShortHeader(before: seq<byte>, part: seq<byte>)
    requires Splits(before) && |part| < 3
    ensures Parse(before + ([START] + part)) == Parse(before)
  {
    hide Splits;
    SplitsAt(before, [START] + part);
  }

  lemma ShortPayload(before: seq<byte>, head: seq<byte>, part: seq<byte>)
    requires Splits(before) && |head| == 4 && head[0] == START && ValidSize(PayloadSize(head[1], head[2]))
    requires |part| < PayloadSize(head[1], head[2])
    ensures Parse(before + (head + part)) == Parse(before)
  {
    hide Splits, PayloadSize, ValidSize;
    SplitsAt(before, head + part);
  }
}
