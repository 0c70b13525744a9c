/** Where the bytes of a stream go: each chunk is routed by the tokens it shows, and only then by its
    direction (cmd/worker/processing.go). What that means for a stream as it was written, whatever
    chunks it came in. */
module Routing {
  import opened Words
  import opened HttpTokens
  import opened Session
  import opened Reassembly

  // ---- Streams and their chunks ----------------------------------------------------------

  function ChunkOf(p: Bytes, d: Direction, ssl: bool): Event
    requires 0 < |p| < TWO32
  {
    Event(DataEvent, NO_META, 1, 3, 1, 0, d, ssl, |p|, p, NO_LOSS)
  }

  predicate IsChunk(e: Event, d: Direction) {
    e.eventType == DataEvent && e.direction == d && |Payload(e)| > 0
  }

  function Written(es: seq<Event>): Bytes {
    if |es| == 0 then [] else Written(es[..|es| - 1]) + Payload(es[|es| - 1])
  }

  /** es is the stream w, read or written, in some chunks. */
  ghost predicate Chunking(es: seq<Event>, d: Direction, w: Bytes) {
    Written(es) == w && forall i :: 0 <= i < |es| ==> IsChunk(es[i], d)
  }

  /** The tokens that draw a chunk away from the side of its direction. */
  function Foreign(d: Direction): seq<Bytes> {
    if d == Read then STATUS else METHODS
  }

  function OwnStream(es: seq<Event>, d: Direction): Bytes {
    if d == Read then RequestStream(es) else ResponseStream(es)
  }

  function OtherStream(es: seq<Event>, d: Direction): Bytes {
    if d == Read then ResponseStream(es) else RequestStream(es)
  }

  lemma {:induction false} WrittenJoin(es: seq<Event>, fs: seq<Event>)
    ensures Written(es + fs) == Written(es) + Written(fs)
    decreases |fs|
  {
    hide Payload;
    if |fs| == 0 {
      assert es + fs == es;
    } else {
      var all, front := es + fs, fs[..|fs| - 1];
      WrittenJoin(es, front);
      assert all[..|all| - 1] == es + front && all[|all| - 1] == fs[|fs| - 1];
      Associates(Written(es), Written(front), Payload(fs[|fs| - 1]));
    }
  }

  lemma {:induction false} RequestsJoin(es: seq<Event>, fs: seq<Event>)
    ensures RequestStream(es + fs) == RequestStream(es) + RequestStream(fs)
    decreases |fs|
  {
    hide RequestBytes;
    if |fs| == 0 {
      assert es + fs == es;
    } else {
      var all, front := es + fs, fs[..|fs| - 1];
      RequestsJoin(es, front);
      assert all[..|all| - 1] == es + front && all[|all| - 1] == fs[|fs| - 1];
      Associates(RequestStream(es), RequestStream(front), RequestBytes(fs[|fs| - 1]));
    }
  }

  lemma {:induction false} ResponsesJoin(es: seq<Event>, fs: seq<Event>)
    ensures ResponseStream(es + fs) == ResponseStream(es) + ResponseStream(fs)
    decreases |fs|
  {
    hide ResponseBytes;
    if |fs| == 0 {
      assert es + fs == es;
    } else {
      var all, front := es + fs, fs[..|fs| - 1];
      ResponsesJoin(es, front);
      assert all[..|all| - 1] == es + front && all[|all| - 1] == fs[|fs| - 1];
      Associates(ResponseStream(es), ResponseStream(front), ResponseBytes(fs[|fs| - 1]));
    }
  }

  lemma {:induction false} Associates<T>(a: seq<T>, b: seq<T>, c: seq<T>)
    ensures a + (b + c) == (a + b) + c
  {
  }

  lemma {:induction false} StreamsJoin(es: seq<Event>, fs: seq<Event>)
    ensures Written(es + fs) == Written(es) + Written(fs)
    ensures RequestStream(es + fs) == RequestStream(es) + RequestStream(fs)
    ensures ResponseStream(es + fs) == ResponseStream(es) + ResponseStream(fs)
  {
    WrittenJoin(es, fs);
    RequestsJoin(es, fs);
    ResponsesJoin(es, fs);
  }

  lemma {:induction false} StreamsOfOne(e: Event)
    ensures Written([e]) == Payload(e)
    ensures RequestStream([e]) == RequestBytes(e) && ResponseStream([e]) == ResponseBytes(e)
  {
    assert [e][..0] == [];
  }

  /** The finest chunking: one byte a chunk. */
  function BytesOf(w: Bytes, d: Direction, ssl: bool): seq<Event> {
    if |w| == 0 then [] else BytesOf(w[..|w| - 1], d, ssl) + [ChunkOf([w[|w| - 1]], d, ssl)]
  }

  lemma {:induction false} ByteShowsNothing(b: byte, d: Direction, ssl: bool)
    ensures var e := ChunkOf([b], d, ssl);
            Payload(e) == [b] && CarriesBytes(e) && (RoutesToRequest(e) <==> d == Read)
  {
    assert forall k, j: nat :: 0 <= k < |METHODS| ==> !At([b], j, METHODS[k]) by {
      forall k, j: nat | 0 <= k < |METHODS| ensures !At([b], j, METHODS[k]) {
        MethodsShape(k);
      }
    }
    assert First(METHODS, [b]) == -1 && First(STATUS, [b]) == -1;
  }

  lemma {:induction false} ByteGoesByDirection(b: byte, d: Direction, ssl: bool)
    ensures var e := ChunkOf([b], d, ssl);
            && RequestBytes(e) == (if d == Read then [b] else [])
            && ResponseBytes(e) == (if d == Read then [] else [b])
            && Payload(e) == [b] && IsChunk(e, d)
  {
    ByteShowsNothing(b, d, ssl);
  }

  lemma {:induction false} BytesOfIsChunking(w: Bytes, d: Direction, ssl: bool)
    ensures Chunking(BytesOf(w, d, ssl), d, w)
    ensures OwnStream(BytesOf(w, d, ssl), d) == w && OtherStream(BytesOf(w, d, ssl), d) == []
    decreases |w|
  {
    hide RequestBytes, ResponseBytes, Payload, IsChunk, ChunkOf, RequestStream, ResponseStream, Written;
    StreamsOfNone();
    if |w| > 0 {
      var front, e := BytesOf(w[..|w| - 1], d, ssl), ChunkOf([w[|w| - 1]], d, ssl);
      BytesOfIsChunking(w[..|w| - 1], d, ssl);
      ByteGoesByDirection(w[|w| - 1], d, ssl);
      StreamsOfOne(e);
      StreamsJoin(front, [e]);
      assert w == w[..|w| - 1] + [w[|w| - 1]];
    }
  }

  lemma {:induction false} StreamsOfNone()
    ensures Written([]) == [] && RequestStream([]) == [] && ResponseStream([]) == []
  {
  }

  // ---- When a stream stays on its side ------------------------------------------------------

  lemma {:induction false} FrontDecidesClass(p: Bytes)
    ensures MarkAt(STATUS, p, 0) ==> ClassifyPayload(p) == ResponsePayload
    ensures MarkAt(METHODS, p, 0) && !MarkAt(STATUS, p, 0) ==> ClassifyPayload(p) == RequestPayload
  {
    if MarkAt(STATUS, p, 0) {
      FirstIs(STATUS, p, 0);
    } else if MarkAt(METHODS, p, 0) {
      FirstIs(METHODS, p, 0);
    }
  }

  /** A stream without a token has none in any part. */
  lemma {:induction false} PartsWithout(toks: seq<Bytes>, a: Bytes, b: Bytes)
    requires First(toks, a + b) == -1
    ensures First(toks, a) == -1 && First(toks, b) == -1
  {
    if First(toks, a) >= 0 {
      MarkAtGrows(toks, a, b, First(toks, a));
    }
    if First(toks, b) >= 0 {
      assert (a + b)[|a|..] == b;
      MarkAtSuffix(toks, a + b, |a|, |a| + First(toks, b));
    }
  }

  lemma {:induction false} NothingStrays(es: seq<Event>, d: Direction, w: Bytes)
    requires Chunking(es, d, w) && First(Foreign(d), w) == -1
    ensures OtherStream(es, d) == []
    decreases |es|
  {
    if |es| > 0 {
      var front, e := es[..|es| - 1], es[|es| - 1];
      PartsWithout(Foreign(d), Written(front), Payload(e));
      NothingStrays(front, d, Written(front));
    }
  }

  lemma {:induction false} MethodStarts(k: nat)
    requires k < |METHODS|
    ensures METHODS[k][0] > 2 && (|METHODS[k]| >= |HTTP1| ==> METHODS[k][0] != HTTP1[0])
  {
  }

  /** A method token is not the start of a status line. */
  lemma {:induction false} MethodIsNoStatus(k: nat)
    requires k < |METHODS|
    ensures !MarkAt(STATUS, METHODS[k], 0)
  {
    MethodStarts(k);
    SameFront(METHODS[k], HTTP1);
    assert STATUS == [HTTP1];
  }

  lemma {:induction false} SameFront(p: Bytes, q: Bytes)
    requires |p| > 0 && |q| > 0
    ensures At(p, 0, q) ==> |p| >= |q| && p[0] == q[0]
  {
    assert At(p, 0, q) ==> p[..|q|][0] == p[0];
  }

  /** A chunk that is just a token of the other side goes there. */
  lemma {:induction false} TokenStrays(d: Direction, k: nat)
    requires k < |Foreign(d)|
    ensures 0 < |Foreign(d)[k]| < TWO32
    ensures OtherStream([ChunkOf(Foreign(d)[k], d, false)], d) == Foreign(d)[k]
  {
    var p := Foreign(d)[k];
    if d == Write {
      MethodsShape(k);
      MethodIsNoStatus(k);
    }
    assert At(p, 0, Foreign(d)[k]);
    TokenChunkRoutes(p);
    StreamsOfOne(ChunkOf(p, d, false));
  }

  /** A chunking that cuts out w[i..j] as a chunk of its own. */
  function CutOut(w: Bytes, i: nat, j: nat, d: Direction): seq<Event>
    requires i < j <= |w| && j - i < TWO32
  {
    BytesOf(w[..i], d, false) + ([ChunkOf(w[i..j], d, false)] + BytesOf(w[j..], d, false))
  }

  lemma {:induction false} CutOutIsChunking(w: Bytes, i: nat, j: nat, d: Direction)
    requires i < j <= |w| && j - i < TWO32
    ensures Chunking(CutOut(w, i, j, d), d, w)
    ensures var e := ChunkOf(w[i..j], d, false);
            && OwnStream(CutOut(w, i, j, d), d) == w[..i] + (OwnStream([e], d) + w[j..])
            && OtherStream(CutOut(w, i, j, d), d) == OtherStream([e], d)
  {
    hide RequestStream, ResponseStream, Written, CarriesBytes, RoutesToRequest;
    var a, e, b := BytesOf(w[..i], d, false), ChunkOf(w[i..j], d, false), BytesOf(w[j..], d, false);
    BytesOfIsChunking(w[..i], d, false);
    BytesOfIsChunking(w[j..], d, false);
    StreamsJoin([e], b);
    StreamsJoin(a, [e] + b);
    StreamsOfOne(e);
    assert Payload(e) == w[i..j];
    assert w[..i] + (w[i..j] + w[j..]) == w;
    assert [] + (OtherStream([e], d) + []) == OtherStream([e], d);
  }

  /** Whatever the chunks, no byte of a written stream is taken for a request exactly when no method
      token stands anywhere in it; and of a stream read, none for a response exactly when no status
      token does. */
  lemma {:induction false} NothingStraysIff(w: Bytes, d: Direction)
    ensures (forall es :: Chunking(es, d, w) ==> OtherStream(es, d) == []) <==> First(Foreign(d), w) == -1
  {
    hide OtherStream, Chunking;
    if First(Foreign(d), w) == -1 {
      forall es | Chunking(es, d, w) ensures OtherStream(es, d) == [] {
        NothingStrays(es, d, w);
      }
    } else {
      var es := StrayingChunks(w, d);
    }
  }

  lemma {:induction false} StrayingChunks(w: Bytes, d: Direction) returns (es: seq<Event>)
    requires First(Foreign(d), w) >= 0
    ensures Chunking(es, d, w) && OtherStream(es, d) != []
  {
    var i := First(Foreign(d), w);
    var k :| 0 <= k < |Foreign(d)| && At(w, i, Foreign(d)[k]);
    TokenStrays(d, k);
    var j := i + |Foreign(d)[k]|;
    assert w[i..j] == Foreign(d)[k];
    es := CutOut(w, i, j, d);
    CutOutIsChunking(w, i, j, d);
  }

  // ---- Counter noise ---------------------------------------------------------------------------

  /** Eight bytes of w that would be dropped as a chunk of their own. */
  predicate NoiseAt(w: Bytes, j: nat) {
    j + 8 <= |w| && IsCounterNoise(w[j..j + 8])
  }

  lemma {:induction false} NothingIsLost(es: seq<Event>, d: Direction, w: Bytes)
    requires Chunking(es, d, w) && First(Foreign(d), w) == -1 && forall j: nat :: !NoiseAt(w, j)
    ensures OwnStream(es, d) == w
    decreases |es|
  {
    if |es| > 0 {
      var front, e := es[..|es| - 1], es[|es| - 1];
      var v, p := Written(front), Payload(e);
      PartsWithout(Foreign(d), v, p);
      forall j: nat ensures !NoiseAt(v, j) {
        assert j + 8 <= |v| ==> w[j..j + 8] == v[j..j + 8];
        assert !NoiseAt(w, j);
      }
      NothingIsLost(front, d, v);
      assert !NoiseAt(w, |v|) && w[|v|..] == p;
    }
  }

  lemma {:induction false} StreamsAreWritten(es: seq<Event>)
    ensures |RequestStream(es)| + |ResponseStream(es)| <= |Written(es)|
    decreases |es|
  {
    if |es| > 0 {
      StreamsAreWritten(es[..|es| - 1]);
    }
  }

  lemma {:induction false} NoiseIsLost(w: Bytes, d: Direction, j: nat) returns (es: seq<Event>)
    requires NoiseAt(w, j)
    ensures Chunking(es, d, w) && |OwnStream(es, d)| == |w| - 8
  {
    var e := ChunkOf(w[j..j + 8], d, false);
    es := CutOut(w, j, j + 8, d);
    CutOutIsChunking(w, j, j + 8, d);
    StreamsOfOne(e);
    assert Payload(e) == w[j..j + 8];
  }

  lemma {:induction false} StrayedIsMissing(es: seq<Event>, d: Direction, w: Bytes)
    requires Chunking(es, d, w) && OtherStream(es, d) != []
    ensures |OwnStream(es, d)| < |w|
  {
    StreamsAreWritten(es);
  }

  /** The whole stream reaches its own side in every chunking exactly when, besides, no eight bytes of
      it look like a counter. */
  lemma {:induction false} WholeStreamStaysIff(w: Bytes, d: Direction)
    ensures (forall es :: Chunking(es, d, w) ==> OwnStream(es, d) == w)
       <==> First(Foreign(d), w) == -1 && forall j: nat :: !NoiseAt(w, j)
  {
    hide OtherStream, OwnStream, Chunking, NoiseAt, Foreign;
    if First(Foreign(d), w) >= 0 {
      var es := StrayingChunks(w, d);
      StrayedIsMissing(es, d, w);
    } else if j: nat :| NoiseAt(w, j) {
      var es := NoiseIsLost(w, d, j);
    } else {
      forall es | Chunking(es, d, w) ensures OwnStream(es, d) == w {
        NothingIsLost(es, d, w);
      }
    }
  }

  /** An instance: a response whose body quotes a method goes whole to the response side, but its body
      alone, arriving as a chunk of its own, is taken for a request. */
  lemma {:induction false} RoutingDependsOnChunks(head: Bytes, body: Bytes)
    requires MarkAt(STATUS, head, 0) && MarkAt(METHODS, body, 0) && !MarkAt(STATUS, body, 0)
    requires |head| + |body| < TWO32 && |head| > 0 && |body| > 0
    ensures ResponseStream([ChunkOf(head + body, Write, false)]) == head + body
    ensures var both := [ChunkOf(head, Write, false), ChunkOf(body, Write, false)];
            RequestStream(both) == body && ResponseStream(both) == head
  {
    hide RequestStream, ResponseStream, ClassifyPayload;
    MarkAtGrows(STATUS, head, body, 0);
    TokenChunkRoutes(head + body);
    TokenChunkRoutes(head);
    TokenChunkRoutes(body);
    StreamsOfOne(ChunkOf(head + body, Write, false));
    StreamsOfOne(ChunkOf(head, Write, false));
    StreamsOfOne(ChunkOf(body, Write, false));
    StreamsJoin([ChunkOf(head, Write, false)], [ChunkOf(body, Write, false)]);
    assert [ChunkOf(head, Write, false)] + [ChunkOf(body, Write, false)] == [ChunkOf(head, Write, false), ChunkOf(body, Write, false)];
  }

  /** A chunk that begins with a token goes where the token says, and is never noise. */
  lemma {:induction false} TokenChunkRoutes(p: Bytes)
    requires 0 < |p| < TWO32
    ensures forall d, ssl :: MarkAt(STATUS, p, 0) ==>
              RequestBytes(ChunkOf(p, d, ssl)) == [] && ResponseBytes(ChunkOf(p, d, ssl)) == p
    ensures forall d, ssl :: MarkAt(METHODS, p, 0) && !MarkAt(STATUS, p, 0) ==>
              RequestBytes(ChunkOf(p, d, ssl)) == p && ResponseBytes(ChunkOf(p, d, ssl)) == []
  {
    FrontDecidesClass(p);
    if MarkAt(STATUS, p, 0) || MarkAt(METHODS, p, 0) {
      TokenIsNoNoise(p);
    }
    forall d, ssl ensures Payload(ChunkOf(p, d, ssl)) == p {
    }
  }

  lemma {:induction false} TokenIsNoNoise(p: Bytes)
    requires MarkAt(STATUS, p, 0) || MarkAt(METHODS, p, 0)
    ensures !IsCounterNoise(p)
  {
    if MarkAt(STATUS, p, 0) {
      assert p[..7] == HTTP1 && p[0] == HTTP1[0];
    } else {
      var k :| 0 <= k < |METHODS| && At(p, 0, METHODS[k]);
      MethodsShape(k);
      assert p[0] == p[..|METHODS[k]|][0] == METHODS[k][0] > 2;
    }
  }
}
