/** HTTP/2 by re-parsing (cmd/karaxys-capture/h2.go): the whole buffer of each side is framed
    again on every drain, and each stream that has become complete is emitted once. */
module Http2 {
  import opened HttpTokens

  // ---- Frames (section 4.1 of RFC 9113) --------------------------------------------

  const FRAME_HEADER: nat := 9
  const MAX_FRAME: nat := 0x10_0000
  const DATA: byte := 0
  const HEADERS: byte := 1

  datatype Frame = Frame(kind: byte, flags: byte, id: nat, payload: Bytes) {
    /** HEADERS or DATA on a stream of its own; id 0 is the connection. */
    predicate Carries() {
      id != 0 && (kind == DATA || kind == HEADERS)
    }

    predicate Ends() {
      Carries() && flags as int % 2 == 1
    }
  }

  datatype Field = Field(name: string, value: string)
  datatype Decoded = Failed | Fields(fields: seq<Field>)

  /** The library's part: whether a frame is acceptable after the earlier ones, its payload
      without padding and priority, and header decompression (RFC 7541), whose table depends on the
      earlier fragments. */
  datatype Codec = Codec(
    accepts: (seq<Frame>, Frame) -> bool,
    content: Frame -> Bytes,
    decode: (seq<Bytes>, Bytes) -> Decoded)

  function Length(b: Bytes): (n: nat)
    requires |b| >= FRAME_HEADER
  {
    b[0] as nat * 0x1_0000 + b[1] as nat * 0x100 + b[2] as nat
  }

  /** The reserved bit of the stream identifier is ignored. */
  function StreamId(b: Bytes): (n: nat)
    requires |b| >= FRAME_HEADER
  {
    (b[5] as nat % 128) * 0x100_0000 + b[6] as nat * 0x1_0000 + b[7] as nat * 0x100 + b[8] as nat
  }

  predicate WholeFrame(b: Bytes) {
    |b| >= FRAME_HEADER && Length(b) <= MAX_FRAME && |b| >= FRAME_HEADER + Length(b)
  }

  function FirstFrame(b: Bytes): Frame
    requires WholeFrame(b)
  {
    Frame(b[3], b[4], StreamId(b), b[FRAME_HEADER..FRAME_HEADER + Length(b)])
  }

  /** The frames read from a buffer, after the frames in seen. A part of a frame, a frame too
      long and a frame the library refuses all end the reading. */
  function FramesAfter(codec: Codec, seen: seq<Frame>, b: Bytes): (fs: seq<Frame>)
    decreases |b|
  {
    if !WholeFrame(b) || !codec.accepts(seen, FirstFrame(b)) then seen
    else FramesAfter(codec, seen + [FirstFrame(b)], b[FRAME_HEADER + Length(b)..])
  }

  function Frames(codec: Codec, b: Bytes): seq<Frame> {
    FramesAfter(codec, [], b)
  }

  // ---- Frames as a sender writes them ---------------------------------------------------

  predicate Sendable(f: Frame) {
    f.id < 0x8000_0000 && |f.payload| <= MAX_FRAME
  }

  /** The wire form: 24-bit length, type, flags, and 31 bits of stream identifier. */
  function Wire(f: Frame): (b: Bytes)
    requires Sendable(f)
    ensures |b| == FRAME_HEADER + |f.payload|
  {
    var n := |f.payload|;
    [(n / 0x1_0000) as byte, (n / 0x100 % 0x100) as byte, (n % 0x100) as byte, f.kind, f.flags,
     (f.id / 0x100_0000) as byte, (f.id / 0x1_0000 % 0x100) as byte, (f.id / 0x100 % 0x100) as byte, (f.id % 0x100) as byte]
    + f.payload
  }

  function WireAll(fs: seq<Frame>): Bytes
    requires forall i :: 0 <= i < |fs| ==> Sendable(fs[i])
  {
    if |fs| == 0 then [] else Wire(fs[0]) + WireAll(fs[1..])
  }

  lemma {:induction false} FourBytes(x: nat)
    requires x < 0x1_0000_0000
    ensures x / 0x100_0000 * 0x100_0000 + x / 0x1_0000 % 0x100 * 0x1_0000 + x / 0x100 % 0x100 * 0x100 + x % 0x100 == x
    ensures x < 0x100_0000 ==> x / 0x100_0000 == 0 && x / 0x1_0000 < 0x100 && x / 0x1_0000 % 0x100 == x / 0x1_0000
    ensures x < 0x8000_0000 ==> x / 0x100_0000 % 128 == x / 0x100_0000
  {
  }

  lemma {:induction false} FirstFrameOfWire(f: Frame, rest: Bytes)
    requires Sendable(f)
    ensures var b := Wire(f) + rest;
            WholeFrame(b) && FirstFrame(b) == f && b[FRAME_HEADER + Length(b)..] == rest
  {
    var b := Wire(f) + rest;
    FourBytes(|f.payload|);
    FourBytes(f.id);
    assert Length(b) == |f.payload|;
    assert StreamId(b) == f.id;
    assert b[FRAME_HEADER..FRAME_HEADER + |f.payload|] == f.payload;
    assert b[FRAME_HEADER + |f.payload|..] == rest;
  }

  predicate Accepted(codec: Codec, seen: seq<Frame>, fs: seq<Frame>) {
    forall i :: 0 <= i < |fs| ==> codec.accepts(seen + fs[..i], fs[i])
  }

  /** The reader gives back the frames a sender wrote, whatever part of a next frame follows. */
  lemma {:induction false} FramesOfWire(codec: Codec, seen: seq<Frame>, fs: seq<Frame>, rest: Bytes)
    requires forall i :: 0 <= i < |fs| ==> Sendable(fs[i])
    requires Accepted(codec, seen, fs) && !WholeFrame(rest)
    ensures FramesAfter(codec, seen, WireAll(fs) + rest) == seen + fs
    decreases |fs|
  {
    hide Wire, WholeFrame, FirstFrame, Length, Accepted;
    if |fs| == 0 {
      assert WireAll(fs) + rest == rest && seen + fs == seen;
    } else {
      var f, tail := fs[0], fs[1..];
      AcceptedTail(codec, seen, fs);
      FramesOfWire(codec, seen + [f], tail, rest);
      FirstFrameOfWire(f, WireAll(tail) + rest);
      assert WireAll(fs) + rest == Wire(f) + (WireAll(tail) + rest);
      assert (seen + [f]) + tail == seen + fs;
    }
  }

  lemma {:induction false} AcceptedTail(codec: Codec, seen: seq<Frame>, fs: seq<Frame>)
    requires |fs| > 0 && Accepted(codec, seen, fs)
    ensures codec.accepts(seen, fs[0]) && Accepted(codec, seen + [fs[0]], fs[1..])
  {
    assert seen + fs[..0] == seen;
    var f, tail := fs[0], fs[1..];
    forall i | 0 <= i < |tail| ensures codec.accepts((seen + [f]) + tail[..i], tail[i]) {
      assert (seen + [f]) + tail[..i] == seen + fs[..i + 1];
    }
  }

  // ---- One direction of the streams ---------------------------------------------------

  datatype Side = Side(headers: seq<Field>, body: Bytes, done: bool)

  const NEW_SIDE := Side([], [], false)

  /** The header fragments given to the decoder. */
  function Fragments(codec: Codec, fs: seq<Frame>): seq<Bytes> {
    if |fs| == 0 then []
    else
      var f := fs[|fs| - 1];
      if f.Carries() && f.kind == HEADERS then Fragments(codec, fs[..|fs| - 1]) + [codec.content(f)]
      else Fragments(codec, fs[..|fs| - 1])
  }

  function SideOf(sides: map<nat, Side>, id: nat): Side {
    if id in sides then sides[id] else NEW_SIDE
  }

  /** What one frame does to the side of its own stream. A fragment that does not decode
      leaves the stream as it was, even when the frame ends it. */
  function Extend(codec: Codec, fragments: seq<Bytes>, s: Side, f: Frame): Side {
    if !f.Carries() then s
    else if f.kind == DATA then Side(s.headers, s.body + codec.content(f), s.done || f.Ends())
    else
      match codec.decode(fragments, codec.content(f))
      case Failed => s
      case Fields(fields) => Side(s.headers + fields, s.body, s.done || f.Ends())
  }

  function Sides(codec: Codec, fs: seq<Frame>): map<nat, Side> {
    if |fs| == 0 then map[]
    else
      var front, f := fs[..|fs| - 1], fs[|fs| - 1];
      var before := Sides(codec, front);
      if f.id == 0 then before
      else before[f.id := Extend(codec, Fragments(codec, front), SideOf(before, f.id), f)]
  }

  /** A reference for one stream: the contents of its DATA frames, in order. */
  function DataOf(codec: Codec, fs: seq<Frame>, id: nat): Bytes {
    if |fs| == 0 then []
    else
      var front, f := fs[..|fs| - 1], fs[|fs| - 1];
      if f.id == id && f.Carries() && f.kind == DATA then DataOf(codec, front, id) + codec.content(f)
      else DataOf(codec, front, id)
  }

  /** Its header fields: those of its HEADERS frames that decode, in order. */
  function FieldsOf(codec: Codec, fs: seq<Frame>, id: nat): seq<Field> {
    if |fs| == 0 then []
    else
      var front, f := fs[..|fs| - 1], fs[|fs| - 1];
      var d := codec.decode(Fragments(codec, front), codec.content(f));
      if f.id == id && f.Carries() && f.kind == HEADERS && d.Fields? then FieldsOf(codec, front, id) + d.fields
      else FieldsOf(codec, front, id)
  }

  /** A frame at i ends the stream: DATA, or HEADERS that decode. */
  predicate EndsAt(codec: Codec, fs: seq<Frame>, id: nat, i: nat)
    requires i < |fs|
  {
    && fs[i].id == id && fs[i].Ends()
    && (fs[i].kind == DATA || codec.decode(Fragments(codec, fs[..i]), codec.content(fs[i])).Fields?)
  }

  /** What the parser keeps of a stream is its own frames' fields and bytes, and it is done exactly
      when one of them ended it. */
  lemma {:induction false} SideIsOwnFrames(codec: Codec, fs: seq<Frame>, id: nat)
    requires id != 0
    ensures var s := SideOf(Sides(codec, fs), id);
            && s.headers == FieldsOf(codec, fs, id) && s.body == DataOf(codec, fs, id)
            && (s.done <==> exists i :: 0 <= i < |fs| && EndsAt(codec, fs, id, i))
            && (id in Sides(codec, fs) <==> exists i :: 0 <= i < |fs| && fs[i].id == id)
    decreases |fs|
  {
    if |fs| > 0 {
      var front, f := fs[..|fs| - 1], fs[|fs| - 1];
      SideIsOwnFrames(codec, front, id);
      forall i: nat | i < |front| ensures EndsAt(codec, front, id, i) <==> EndsAt(codec, fs, id, i) {
        assert front[..i] == fs[..i];
      }
      assert forall i: nat :: i < |front| ==> front[i] == fs[i];
      assert EndsAt(codec, fs, id, |front|) <==>
             f.id == id && f.Ends() && (f.kind == DATA || codec.decode(Fragments(codec, front), codec.content(f)).Fields?);
    }
  }

  // ---- Complete streams ------------------------------------------------------------------

  datatype Exchange = Exchange(request: Side, response: Side)

  /** The streams complete in both directions, with their contents. */
  function Complete(codec: Codec, req: Bytes, resp: Bytes): map<nat, Exchange> {
    var r, s := Sides(codec, Frames(codec, req)), Sides(codec, Frames(codec, resp));
    map id | id in r && id in s && r[id].done && s[id].done :: Exchange(r[id], s[id])
  }

  /** One of the frames ends the stream. */
  ghost predicate Ended(codec: Codec, fs: seq<Frame>, id: nat) {
    exists i: nat :: i < |fs| && EndsAt(codec, fs, id, i)
  }

  /** Request and response of stream id are what the frames fs of the one side and gs of the other carry on it. */
  predicate IsExchange(codec: Codec, fs: seq<Frame>, gs: seq<Frame>, id: nat, x: Exchange) {
    && x.request.headers == FieldsOf(codec, fs, id) && x.request.body == DataOf(codec, fs, id)
    && x.response.headers == FieldsOf(codec, gs, id) && x.response.body == DataOf(codec, gs, id)
  }

  /** A stream is complete exactly when a frame of each buffer ends it, and its request is then what the frames
      of the request buffer carry on it, its response what those of the response buffer do. */
  lemma {:induction false} CompleteIsOwnFrames(codec: Codec, req: Bytes, resp: Bytes, id: nat)
    ensures var fs, gs, all := Frames(codec, req), Frames(codec, resp), Complete(codec, req, resp);
            && (id in all <==> Ended(codec, fs, id) && Ended(codec, gs, id))
            && (id in all ==> IsExchange(codec, fs, gs, id, all[id]))
  {
    hide Frames, Sides, FieldsOf, DataOf;
    var fs, gs := Frames(codec, req), Frames(codec, resp);
    if id == 0 {
      NoneOnTheConnection(codec, fs);
    } else {
      SideIsOwnFrames(codec, fs, id);
      SideIsOwnFrames(codec, gs, id);
    }
  }

  lemma {:induction false} NoneOnTheConnection(codec: Codec, fs: seq<Frame>)
    ensures 0 !in Sides(codec, fs) && !Ended(codec, fs, 0)
    decreases |fs|
  {
    if |fs| > 0 {
      NoneOnTheConnection(codec, fs[..|fs| - 1]);
    }
  }

  // ---- The flags, and one exchange from its bytes -------------------------------------------

  /** Of the flags of sections 6.1 and 6.2 of RFC 9113 only END_STREAM ends a stream, whichever others are set. */
  lemma {:induction false} EndStreamIsItsFlag(f: Frame, endStream: bool, endHeaders: bool, padded: bool, priority: bool)
    requires f.flags as int == (if endStream then 0x1 else 0) + (if endHeaders then 0x4 else 0)
                             + (if padded then 0x8 else 0) + (if priority then 0x20 else 0)
    ensures f.Ends() <==> endStream && f.Carries()
  {
  }

  /** A header frame as its bytes: 24-bit length, type, flags, reserved bit and 31-bit stream, highest byte first. */
  lemma {:induction false} FrameIsItsBytes(b: Bytes)
    requires |b| >= 9 + 0x102 && b[..9] == [0, 1, 2, 1, 5, 0x83, 4, 5, 6]
    ensures WholeFrame(b) && FirstFrame(b) == Frame(HEADERS, 5, 0x3040506, b[9..9 + 0x102])
  {
    assert forall i :: 0 <= i < 9 ==> b[i] == b[..9][i];
  }

  /** A frame of more than 2^20 bytes ends the reading, however much of it is there. */
  lemma {:induction false} LongFrameEndsReading(codec: Codec, seen: seq<Frame>, b: Bytes)
    requires |b| >= 9 && Length(b) > 1048576
    ensures FramesAfter(codec, seen, b) == seen
  {
  }

  lemma {:induction false} FramesWritten(codec: Codec, fs: seq<Frame>)
    requires (forall i :: 0 <= i < |fs| ==> Sendable(fs[i])) && Accepted(codec, [], fs)
    ensures Frames(codec, WireAll(fs)) == fs
  {
    hide Accepted, WireAll;
    FramesOfWire(codec, [], fs, []);
    assert WireAll(fs) + [] == WireAll(fs) && [] + fs == fs;
  }

  /** A request in one HEADERS frame and its response in HEADERS and two DATA frames: complete with the last of
      them, the request from the request buffer, the response from the other, its body in order. */
  lemma {:induction false} ExchangeOnTheWire(codec: Codec, q: Frame, h: Frame, d: Frame, e: Frame, asked: seq<Field>, answered: seq<Field>)
    requires q.kind == HEADERS && h.kind == HEADERS && d.kind == DATA && e.kind == DATA
    requires q.id == h.id == d.id == e.id != 0 && q.Ends() && !h.Ends() && !d.Ends() && e.Ends()
    requires Sendable(q) && Sendable(h) && Sendable(d) && Sendable(e)
    requires Accepted(codec, [], [q]) && Accepted(codec, [], [h, d]) && Accepted(codec, [], [h, d, e])
    requires codec.decode([], codec.content(q)) == Fields(asked) && codec.decode([], codec.content(h)) == Fields(answered)
    ensures Complete(codec, WireAll([q]), WireAll([h, d])) == map[]
    ensures Complete(codec, WireAll([q]), WireAll([h, d, e]))
         == map[q.id := Exchange(Side(asked, [], true), Side(answered, codec.content(d) + codec.content(e), true))]
  {
    hide Accepted, Wire, WireAll, Frames, Sides;
    FramesWritten(codec, [q]);
    FramesWritten(codec, [h, d]);
    FramesWritten(codec, [h, d, e]);
    FirstOfSides(codec, q, asked);
    FirstOfSides(codec, h, answered);
    DataOnSide(codec, [h], d);
    DataOnSide(codec, [h, d], e);
    assert [h] + [d] == [h, d] && [h, d] + [e] == [h, d, e];
    assert [] + codec.content(d) == codec.content(d);
  }

  lemma {:induction false} DataOnSide(codec: Codec, fs: seq<Frame>, f: Frame)
    requires f.kind == DATA && f.id != 0
    ensures var s := SideOf(Sides(codec, fs), f.id);
            Sides(codec, fs + [f]) == Sides(codec, fs)[f.id := Side(s.headers, s.body + codec.content(f), s.done || f.Ends())]
  {
    assert (fs + [f])[..|fs|] == fs;
  }

  lemma {:induction false} FirstOfSides(codec: Codec, h: Frame, fields: seq<Field>)
    requires h.kind == HEADERS && h.id != 0 && codec.decode([], codec.content(h)) == Fields(fields)
    ensures Sides(codec, [h]) == map[h.id := Side(fields, [], h.Ends())]
  {
    assert [h][..0] == [] && [] + fields == fields;
    assert Sides(codec, []) == map[] && Fragments(codec, []) == [];
  }

  /** The decoder is one for the whole buffer: a second header block, of any stream, is decoded with the first one
      in its table, and fields of the same stream follow each other. */
  lemma {:induction false} DecoderRemembers(codec: Codec, h: Frame, t: Frame, first: seq<Field>, second: seq<Field>)
    requires h.kind == HEADERS && t.kind == HEADERS && h.id != 0 && t.id != 0
    requires codec.decode([], codec.content(h)) == Fields(first)
    requires codec.decode([codec.content(h)], codec.content(t)) == Fields(second)
    ensures SideOf(Sides(codec, [h, t]), t.id).headers == if t.id == h.id then first + second else second
  {
    FirstOfSides(codec, h, first);
    assert [h, t][..1] == [h] && [h][..0] == [] && [] + [codec.content(h)] == [codec.content(h)];
    assert Fragments(codec, [h]) == [codec.content(h)];
    assert [] + second == second;
  }

  /** A header block that does not decode leaves its stream as it was, even when its frame ends it. */
  lemma {:induction false} UndecodedChangesNothing(codec: Codec, fs: seq<Frame>, h: Frame)
    requires h.kind == HEADERS && h.id != 0 && codec.decode(Fragments(codec, fs), codec.content(h)).Failed?
    ensures SideOf(Sides(codec, fs + [h]), h.id) == SideOf(Sides(codec, fs), h.id)
  {
    assert (fs + [h])[..|fs|] == fs;
  }

  // ---- Re-parsing a longer buffer ----------------------------------------------------------

  lemma {:induction false} FramesKeepSeen(codec: Codec, seen: seq<Frame>, b: Bytes)
    ensures seen <= FramesAfter(codec, seen, b)
    decreases |b|
  {
    if WholeFrame(b) && codec.accepts(seen, FirstFrame(b)) {
      FramesKeepSeen(codec, seen + [FirstFrame(b)], b[FRAME_HEADER + Length(b)..]);
    }
  }

  /** Frames parsed from a prefix are a prefix of the frames parsed later. */
  lemma {:induction false} FramesGrow(codec: Codec, seen: seq<Frame>, b: Bytes, x: Bytes)
    ensures FramesAfter(codec, seen, b) <= FramesAfter(codec, seen, b + x)
    decreases |b|
  {
    if WholeFrame(b) {
      var n := FRAME_HEADER + Length(b);
      assert (b + x)[..n] == b[..n] && (b + x)[n..] == b[n..] + x;
      assert FirstFrame(b + x) == FirstFrame(b);
      if codec.accepts(seen, FirstFrame(b)) {
        FramesGrow(codec, seen + [FirstFrame(b)], b[n..], x);
      }
    } else {
      FramesKeepSeen(codec, seen, b + x);
    }
  }

  /** Nothing that carries content follows the end of a stream (section 5.1 of RFC 9113). */
  predicate WellFormed(fs: seq<Frame>) {
    forall i, j :: 0 <= i < j < |fs| && fs[i].Ends() && fs[j].Carries() ==> fs[i].id != fs[j].id
  }

  /** A stream that is done has been ended by one of its frames. */
  lemma {:induction false} DoneWasEnded(codec: Codec, fs: seq<Frame>, id: nat) returns (i: nat)
    requires SideOf(Sides(codec, fs), id).done
    ensures i < |fs| && fs[i].Ends() && fs[i].id == id
    decreases |fs|
  {
    var front, f := fs[..|fs| - 1], fs[|fs| - 1];
    if f.Ends() && f.id == id {
      i := |fs| - 1;
    } else {
      i := DoneWasEnded(codec, front, id);
    }
  }

  /** A stream that is done stays done, and in well-formed frames its content is final. */
  lemma {:induction false} DoneStaysDone(codec: Codec, fs: seq<Frame>, gs: seq<Frame>, id: nat)
    requires fs <= gs && SideOf(Sides(codec, fs), id).done
    ensures id in Sides(codec, gs) && Sides(codec, gs)[id].done
    ensures WellFormed(gs) ==> Sides(codec, gs)[id] == Sides(codec, fs)[id]
    decreases |gs|
  {
    if |gs| == |fs| {
      assert gs == fs;
    } else {
      var front, g := gs[..|gs| - 1], gs[|gs| - 1];
      DoneStaysDone(codec, fs, front, id);
      if WellFormed(gs) && g.id == id {
        var i := DoneWasEnded(codec, front, id);
        assert front[i] == gs[i] && !g.Carries();
      }
    }
  }

  ghost predicate WellFormedStream(codec: Codec, b: Bytes) {
    WellFormed(Frames(codec, b))
  }

  /** Complete streams stay complete as bytes arrive, and keep their contents. */
  lemma {:induction false} CompleteGrows(codec: Codec, req: Bytes, resp: Bytes, x: Bytes, y: Bytes, id: nat)
    requires id in Complete(codec, req, resp)
    ensures id in Complete(codec, req + x, resp + y)
    ensures WellFormedStream(codec, req + x) && WellFormedStream(codec, resp + y) ==>
              Complete(codec, req + x, resp + y)[id] == Complete(codec, req, resp)[id]
  {
    FramesGrow(codec, [], req, x);
    FramesGrow(codec, [], resp, y);
    DoneStaysDone(codec, Frames(codec, req), Frames(codec, req + x), id);
    DoneStaysDone(codec, Frames(codec, resp), Frames(codec, resp + y), id);
  }

  lemma {:induction false} PrefixIsWellFormed(codec: Codec, b: Bytes, x: Bytes)
    requires WellFormedStream(codec, b + x)
    ensures WellFormedStream(codec, b)
  {
    FramesGrow(codec, [], b, x);
  }

  /** Without well-formedness the content can still change after the stream was complete: DATA
      after the end of the stream is added to the body. */
  lemma {:induction false} LateDataChangesContent(codec: Codec, fs: seq<Frame>, f: Frame)
    requires SideOf(Sides(codec, fs), f.id).done && f.Carries() && f.kind == DATA && codec.content(f) != []
    ensures Sides(codec, fs + [f])[f.id] != Sides(codec, fs)[f.id]
    ensures !WellFormed(fs + [f])
  {
    assert (fs + [f])[..|fs|] == fs;
    var i := DoneWasEnded(codec, fs, f.id);
    assert (fs + [f])[i] == fs[i] && (fs + [f])[|fs|] == f;
  }

  // ---- The loops of the source --------------------------------------------------------------

  /** The streams of a drain, both directions in one record as the source keeps them. */
  datatype Stream = Stream(request: Side, response: Side)

  predicate IsComplete(s: Stream) {
    s.request.done && s.response.done
  }

  /** One side of the streams map, for the streams known. */
  ghost predicate Shows(streams: map<nat, Stream>, r: map<nat, Side>, s: map<nat, Side>) {
    && streams.Keys == r.Keys + s.Keys
    && forall id :: id in streams ==> streams[id] == Stream(SideOf(r, id), SideOf(s, id))
  }

  lemma {:induction false} ShowsOneMore(codec: Codec, streams: map<nat, Stream>, fs: seq<Frame>, f: Frame, other: map<nat, Side>, isRequest: bool)
    requires f.id != 0
    requires if isRequest then Shows(streams, Sides(codec, fs), other) else Shows(streams, other, Sides(codec, fs))
    ensures var was := if f.id in streams then streams[f.id] else Stream(NEW_SIDE, NEW_SIDE);
            var side := Extend(codec, Fragments(codec, fs), if isRequest then was.request else was.response, f);
            var now := streams[f.id := if isRequest then was.(request := side) else was.(response := side)];
            if isRequest then Shows(now, Sides(codec, fs + [f]), other) else Shows(now, other, Sides(codec, fs + [f]))
  {
    assert (fs + [f])[..|fs|] == fs;
  }

  /** parseHTTP2Frames: one pass over a buffer, updating one side of the streams. */
  method ParseFrames(codec: Codec, buffer: Bytes, streams: map<nat, Stream>, isRequest: bool, ghost other: map<nat, Side>)
    returns (now: map<nat, Stream>)
    requires if isRequest then Shows(streams, map[], other) else Shows(streams, other, map[])
    ensures var sides := Sides(codec, Frames(codec, buffer));
            if isRequest then Shows(now, sides, other) else Shows(now, other, sides)
  {
    now := streams;
    var seen, fragments, rest := [], [], buffer;
    while WholeFrame(rest) && codec.accepts(seen, FirstFrame(rest))
      invariant Frames(codec, buffer) == FramesAfter(codec, seen, rest)
      invariant fragments == Fragments(codec, seen)
      invariant if isRequest then Shows(now, Sides(codec, seen), other) else Shows(now, other, Sides(codec, seen))
      decreases |rest|
    {
      var f := FirstFrame(rest);
      rest := rest[FRAME_HEADER + Length(rest)..];
      assert (seen + [f])[..|seen|] == seen;
      if f.id != 0 {
        ShowsOneMore(codec, now, seen, f, other, isRequest);
        var stream := if f.id in now then now[f.id] else Stream(NEW_SIDE, NEW_SIDE);
        var side := Extend(codec, fragments, if isRequest then stream.request else stream.response, f);
        now := now[f.id := if isRequest then stream.(request := side) else stream.(response := side)];
        if f.Carries() && f.kind == HEADERS {
          fragments := fragments + [codec.content(f)];
        }
      }
      seen := seen + [f];
    }
  }
}
