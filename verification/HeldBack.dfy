/** HTTP/1 in the capture binary: while the request buffer may still become the HTTP/2 preface nothing is
    drained. When that happens to a stream, when it happens whatever the chunks, and when it makes two
    captures of the same streams differ (cmd/karaxys-capture/process.go). */
module HeldBack {
  import opened Words
  import opened HttpTokens
  import opened HttpParsing
  import opened Drain
  import opened Session
  import opened Reassembly
  import opened Routing
  import opened Capture
  import opened TlsSwitch
  import opened H2Sessions
  import opened Cuts
  import opened HeldRuns
  import C = CaptureReassembly

  // ---- The flush of a closed session ---------------------------------------------------------------------

  /** Both loops once more, now with responses that only the end of the connection delimits. */
  function Flush(engine: Engine, c: Contents): Contents {
    var requests := Loop(engine.requests, c.req);
    var rs := c.waiting + requests.messages;
    AnswerLoopCounts(engine.responses(true), c.resp, rs);
    C.Found(c, requests, AnswerLoop(engine.responses(true), c.resp, rs))
  }

  lemma {:induction false} CloseIsFlush(cfg: CaptureConfig, c: Contents)
    requires !c.h2
    ensures DrainContent(cfg, c, true) == if IsPrefaceCandidate(c.req) then c else Flush(cfg.base.engine, c)
  {
  }

  lemma {:induction false} FlushSays(engine: Engine, c: Contents, ssl: bool)
    ensures c.pairs <= Flush(engine, c).pairs
    ensures Flush(engine, c.(ssl := ssl)).pairs == Flush(engine, c).pairs
    ensures c.waiting == [] && Loop(engine.requests, c.req).messages == [] ==> Flush(engine, c).pairs == c.pairs
  {
    hide Loop;
  }

  /** The start of a preface is no request: nothing is due then, not even at the close. */
  lemma {:induction false} NothingDue(engine: Engine, r: Bytes, s: Bytes, ssl: bool)
    requires Good(engine, r, s) && IsPart(r)
    ensures Flush(engine, WholeDrain(engine, r, s, ssl)).pairs == []
  {
    hide Loop, StableStreams, IgnoresPreface, IsPart;
    NothingCut(engine, r);
    IgnoredCut(engine, r, 0);
    var w := WholeDrain(engine, r, s, ssl);
    assert w.waiting == [] && w.pairs == [];
    LoopSettles(engine.requests, r);
    FlushSays(engine, w, ssl);
  }

  // ---- What a capture says, and when it is the same for all chunks ------------------------------------------

  /** The pairs a session has said, or will have said once it is closed. */
  function Said(cfg: CaptureConfig, es: seq<Event>, close: bool): seq<(Request, Response)> {
    var w := Capture.Run(cfg, es);
    Exchanges((if close then DrainStream(cfg, w, true) else w).out)
  }

  ghost predicate Held(cfg: CaptureConfig, es: seq<Event>) {
    IsPrefaceCandidate(Capture.Run(cfg, es).stream.core.reqData)
  }

  lemma {:induction false} RunOnSteps(cfg: CaptureConfig, es: seq<Event>)
    ensures Said(cfg, es, false) == Steps(cfg, es).pairs
    ensures Said(cfg, es, true) == DrainContent(cfg, Steps(cfg, es), true).pairs
    ensures Held(cfg, es) <==> IsPrefaceCandidate(Steps(cfg, es).req)
  {
    hide Capture.Run, Steps, DrainContent, DrainStream, IsPrefaceCandidate;
    RunIsSteps(cfg, es);
    DrainIsOnContents(cfg, Capture.Run(cfg, es), true);
  }

  /** A capture that says the same whatever chunks r and s came in, and however they were interleaved. */
  ghost predicate Decided(cfg: CaptureConfig, ssl: bool, r: Bytes, s: Bytes, close: bool) {
    forall es, fs :: Feeds(es, ssl, r, s) && Feeds(fs, ssl, r, s) ==> Said(cfg, es, close) == Said(cfg, fs, close)
  }

  lemma {:induction false} HeldSays(cfg: CaptureConfig, es: seq<Event>, ssl: bool, r: Bytes, s: Bytes)
    requires Feeds(es, ssl, r, s) && Plain(cfg, r, s)
    ensures Held(cfg, es) ==> Said(cfg, es, true) == Said(cfg, es, false)
    ensures !Held(cfg, es) ==> Said(cfg, es, false) == WholeDrain(cfg.base.engine, r, s, ssl).pairs
    ensures !Held(cfg, es) ==> Said(cfg, es, true) == Flush(cfg.base.engine, WholeDrain(cfg.base.engine, r, s, ssl)).pairs
    ensures Said(cfg, es, false) <= WholeDrain(cfg.base.engine, r, s, ssl).pairs
    ensures Said(cfg, es, false) <= Said(cfg, es, true)
  {
    hide Steps, C.Since, Feeds, Plain, WholeDrain, Said, Held, DrainContent, IsPrefaceCandidate, Flush, CutLeaves;
    RunOnSteps(cfg, es);
    RunSays(cfg, es, ssl, r, s);
    var k, m := RunAgrees(cfg, es, ssl, r, s);
    var c := Steps(cfg, es);
    CloseIsFlush(cfg, c);
    FlushSays(cfg.base.engine, c, ssl);
    if !IsPrefaceCandidate(c.req) {
      UnheldIsWhole(cfg, es, ssl, r, s);
    }
  }

  /** Never held unless some cut leaves the start of a preface. */
  lemma {:induction false} HeldNeedsCut(cfg: CaptureConfig, es: seq<Event>, ssl: bool, r: Bytes, s: Bytes)
    requires Feeds(es, ssl, r, s) && Plain(cfg, r, s) && Held(cfg, es)
    ensures CanBeHeld(cfg.base.engine, r)
  {
    hide Steps, C.Since, Feeds, Plain, Held, IsPrefaceCandidate, CutLeaves;
    RunOnSteps(cfg, es);
    var k, m := RunAgrees(cfg, es, ssl, r, s);
  }

  lemma {:induction false} StartOfPreface(cfg: CaptureConfig, es: seq<Event>, ssl: bool, r: Bytes, s: Bytes)
    requires Feeds(es, ssl, r, s) && Plain(cfg, r, s) && IsPart(r)
    ensures Steps(cfg, es).req == r
  {
    hide Steps, HasPreface;
    PlainCut(cfg, r, s);
    PrefaceSplits(cfg, es, ssl);
  }

  /** Held whatever the chunks: the whole stream is the start of a preface, or leaves one. */
  lemma {:induction false} AlwaysHeld(cfg: CaptureConfig, es: seq<Event>, ssl: bool, r: Bytes, s: Bytes)
    requires Feeds(es, ssl, r, s) && Plain(cfg, r, s)
    requires IsPrefaceCandidate(r) || IsPrefaceCandidate(Left(cfg.base.engine, r))
    ensures Held(cfg, es)
  {
    hide Steps, Plain, Held, IsPrefaceCandidate, HasPreface, Left, CutLeaves, Feeds, IsPart;
    RunOnSteps(cfg, es);
    if IsPrefaceCandidate(r) {
      NothingCut(cfg.base.engine, r);
      HeldCut(cfg, r, s, 0);
      StartOfPreface(cfg, es, ssl, r, s);
    } else {
      WholeCut(cfg.base.engine, r);
      HeldCut(cfg, r, s, |r|);
      CutBuffer(cfg, es, ssl, r, s);
    }
  }

  // ---- The exact conditions ----------------------------------------------------------------------------------

  /** In the source's own loops, on streams within the limit that keep the session to HTTP/1, and in which
      the library keeps what it has recognised. */
  ghost predicate Source(cfg: CaptureConfig, lib: Library, r: Bytes, s: Bytes) {
    && cfg.base.engine == EngineOf(lib) && KeepsStreams(lib, r, s)
    && NoRequestPreface(EngineOf(lib), r) && NoResponsePreface(EngineOf(lib), r, s)
    && |r| <= cfg.base.maxStreamBytes && |s| <= cfg.base.maxStreamBytes
  }

  lemma {:induction false} SourceIsPlain(cfg: CaptureConfig, lib: Library, r: Bytes, s: Bytes)
    requires Source(cfg, lib, r, s)
    ensures cfg.base.engine == EngineOf(lib) && Plain(cfg, r, s)
  {
    hide KeepsStreams, Good, EngineOf, NoRequestPreface, NoResponsePreface;
    SourceIsGood(lib, r, s);
  }

  /** Some capture of r and s ends with its request buffer held back exactly when some cut of r leaves the
      start of a preface; every one does exactly when r is such a start or leaves one. */
  lemma {:induction false} HeldIff(cfg: CaptureConfig, lib: Library, ssl: bool, r: Bytes, s: Bytes)
    requires Source(cfg, lib, r, s)
    ensures (exists es :: Feeds(es, ssl, r, s) && Held(cfg, es)) <==> CanBeHeld(EngineOf(lib), r)
    ensures (forall es :: Feeds(es, ssl, r, s) ==> Held(cfg, es))
       <==> IsPrefaceCandidate(r) || IsPrefaceCandidate(Left(EngineOf(lib), r))
  {
    hide Feeds, Plain, Held, IsPrefaceCandidate, CanBeHeld, Left, Steps, Source, EngineOf;
    SourceIsPlain(cfg, lib, r, s);
    forall es | Feeds(es, ssl, r, s) ensures Held(cfg, es) ==> CanBeHeld(EngineOf(lib), r) {
      if Held(cfg, es) {
        HeldNeedsCut(cfg, es, ssl, r, s);
      }
    }
    if CanBeHeld(EngineOf(lib), r) {
      var es := HeldRun(cfg, ssl, r, s);
      RunOnSteps(cfg, es);
    }
    if IsPrefaceCandidate(r) || IsPrefaceCandidate(Left(EngineOf(lib), r)) {
      forall es | Feeds(es, ssl, r, s) ensures Held(cfg, es) {
        AlwaysHeld(cfg, es, ssl, r, s);
      }
    } else {
      var es := SomeUnheld(cfg, ssl, r, s);
    }
  }

  lemma {:induction false} SomeUnheld(cfg: CaptureConfig, ssl: bool, r: Bytes, s: Bytes) returns (es: seq<Event>)
    requires Plain(cfg, r, s)
    requires !IsPrefaceCandidate(r) && !IsPrefaceCandidate(Left(cfg.base.engine, r))
    ensures Feeds(es, ssl, r, s) && !Held(cfg, es)
  {
    hide Feeds, Plain, Held, IsPrefaceCandidate, CanBeHeld, Left, Steps;
    if CanBeHeld(cfg.base.engine, r) {
      es := LateRun(cfg, ssl, r, s);
      RunOnSteps(cfg, es);
    } else {
      es := EagerRun(cfg, ssl, r, s);
      if Held(cfg, es) {
        HeldNeedsCut(cfg, es, ssl, r, s);
      }
    }
  }

  /** A stream that cannot be held back: every capture, and every flush, is that of the whole streams. */
  lemma {:induction false} UnheldStreamsAgree(cfg: CaptureConfig, lib: Library, ssl: bool, r: Bytes, s: Bytes, es: seq<Event>)
    requires Source(cfg, lib, r, s) && Feeds(es, ssl, r, s) && !CanBeHeld(EngineOf(lib), r)
    ensures ContentsOf(Capture.Run(cfg, es)).(ssl := ssl) == WholeDrain(EngineOf(lib), r, s, ssl)
    ensures Said(cfg, es, true) == Flush(EngineOf(lib), WholeDrain(EngineOf(lib), r, s, ssl)).pairs
  {
    hide Feeds, Plain, Held, IsPrefaceCandidate, CanBeHeld, Steps, Source, EngineOf, WholeDrain, Flush, Capture.Run, Said;
    SourceIsPlain(cfg, lib, r, s);
    RunOnSteps(cfg, es);
    RunIsSteps(cfg, es);
    if Held(cfg, es) {
      HeldNeedsCut(cfg, es, ssl, r, s);
    }
    HeldSays(cfg, es, ssl, r, s);
    UnheldIsWhole(cfg, es, ssl, r, s);
  }

  /** All captures of the same two streams say the same pairs exactly when the request stream cannot be
      held back, or no answer is due. */
  lemma {:induction false} DecidedIff(cfg: CaptureConfig, lib: Library, ssl: bool, r: Bytes, s: Bytes)
    requires Source(cfg, lib, r, s)
    ensures Decided(cfg, ssl, r, s, false)
       <==> !CanBeHeld(EngineOf(lib), r) || WholeDrain(EngineOf(lib), r, s, ssl).pairs == []
  {
    hide Feeds, Plain, Held, IsPrefaceCandidate, CanBeHeld, Steps, Source, EngineOf, WholeDrain, Flush, Said;
    SourceIsPlain(cfg, lib, r, s);
    if CanBeHeld(EngineOf(lib), r) {
      var h := HeldRun(cfg, ssl, r, s);
      var e := EagerRun(cfg, ssl, r, s);
      RunOnSteps(cfg, h);
      RunOnSteps(cfg, e);
      assert Decided(cfg, ssl, r, s, false) ==> Said(cfg, h, false) == Said(cfg, e, false);
    }
    forall es | Feeds(es, ssl, r, s)
      ensures !CanBeHeld(EngineOf(lib), r) ==> Said(cfg, es, false) == WholeDrain(EngineOf(lib), r, s, ssl).pairs
      ensures Said(cfg, es, false) <= WholeDrain(EngineOf(lib), r, s, ssl).pairs
    {
      HeldSays(cfg, es, ssl, r, s);
      if Held(cfg, es) {
        HeldNeedsCut(cfg, es, ssl, r, s);
      }
    }
  }

  /** No answer is due before the close and, unless the stream is held back always, none at the close. */
  predicate SaysNothing(engine: Engine, r: Bytes, s: Bytes, ssl: bool) {
    var w := WholeDrain(engine, r, s, ssl);
    w.pairs == [] && (IsPrefaceCandidate(Left(engine, r)) || Flush(engine, w).pairs == [])
  }

  /** After the flush of a closed session they say the same exactly when the request stream cannot be held
      back, or no answer is due before the close and, unless it is held back always, none at the close. */
  lemma {:induction false} ClosedDecidedIff(cfg: CaptureConfig, lib: Library, ssl: bool, r: Bytes, s: Bytes)
    requires Source(cfg, lib, r, s)
    ensures Decided(cfg, ssl, r, s, true)
       <==> !CanBeHeld(EngineOf(lib), r) || SaysNothing(EngineOf(lib), r, s, ssl)
  {
    hide Feeds, Plain, Held, IsPrefaceCandidate, CanBeHeld, Steps, Source, EngineOf, WholeDrain, Flush, Said;
    SourceIsPlain(cfg, lib, r, s);
    if CanBeHeld(EngineOf(lib), r) {
      if Decided(cfg, ssl, r, s, true) {
        DecidedSaysNothing(cfg, ssl, r, s);
      }
      forall es | Feeds(es, ssl, r, s)
        ensures SaysNothing(EngineOf(lib), r, s, ssl) ==> Said(cfg, es, true) == []
      {
        HeldSays(cfg, es, ssl, r, s);
        if IsPrefaceCandidate(Left(EngineOf(lib), r)) {
          AlwaysHeld(cfg, es, ssl, r, s);
        }
      }
    } else {
      forall es | Feeds(es, ssl, r, s)
        ensures Said(cfg, es, true) == Flush(EngineOf(lib), WholeDrain(EngineOf(lib), r, s, ssl)).pairs
      {
        UnheldStreamsAgree(cfg, lib, ssl, r, s, es);
      }
    }
  }

  /** If all flushed captures agree on a stream that can be held back, then on nothing. */
  lemma {:induction false} DecidedSaysNothing(cfg: CaptureConfig, ssl: bool, r: Bytes, s: Bytes)
    requires Plain(cfg, r, s) && CanBeHeld(cfg.base.engine, r) && Decided(cfg, ssl, r, s, true)
    ensures SaysNothing(cfg.base.engine, r, s, ssl)
  {
    hide Feeds, Plain, Held, IsPrefaceCandidate, CanBeHeld, Steps, WholeDrain, Flush, Said, Left;
    var h := HeldRun(cfg, ssl, r, s);
    RunOnSteps(cfg, h);
    HeldSays(cfg, h, ssl, r, s);
    var e := EagerRun(cfg, ssl, r, s);
    RunOnSteps(cfg, e);
    HeldSays(cfg, e, ssl, r, s);
    assert Said(cfg, e, true) == Said(cfg, h, true) == [];
    if IsPrefaceCandidate(r) {
      WholeIsPart(cfg, r, s);
      NothingDue(cfg.base.engine, r, s, ssl);
    } else if !IsPrefaceCandidate(Left(cfg.base.engine, r)) {
      var l := LateRun(cfg, ssl, r, s);
      RunOnSteps(cfg, l);
      HeldSays(cfg, l, ssl, r, s);
      assert Said(cfg, l, true) == Said(cfg, h, true);
    }
  }

  lemma {:induction false} WholeIsPart(cfg: CaptureConfig, r: Bytes, s: Bytes)
    requires Plain(cfg, r, s) && IsPrefaceCandidate(r)
    ensures IsPart(r) && Good(cfg.base.engine, r, s)
  {
    hide HasPreface, IsPrefaceCandidate, IsPart, CutLeaves, Good;
    NothingCut(cfg.base.engine, r);
    CandidateIsPart(r);
  }

  // ---- Over the switch to plaintext ------------------------------------------------------------------------

  /** Any session says what was said before its switch, and then what its counting events say; so the
      conditions above decide every session by the streams of those. */
  lemma {:induction false} SaidAcrossSwitch(cfg: CaptureConfig, es: seq<Event>, close: bool)
    ensures Uniform(Counted(es), |PlaintextOf(es)| > 0)
    ensures Said(cfg, es, close) == Earlier(cfg, es).pairs + Said(cfg, Counted(es), close)
  {
    hide Said, Steps, DrainContent, Uniform;
    RunOnSteps(cfg, es);
    RunOnSteps(cfg, Counted(es));
    RunIsCounted(cfg, es);
    DrainAfter(cfg, Earlier(cfg, es), Steps(cfg, Counted(es)), true);
  }

  // ---- One such capture -------------------------------------------------------------------------------------

  lemma {:induction false} MethodsAndStatus(k: nat)
    requires k < |METHODS|
    ensures METHODS[k][0] != HTTP1[0] || METHODS[k][1] != HTTP1[1]
    ensures METHODS[k][0] != PREFACE[0] || METHODS[k][1] != PREFACE[1]
  {
  }

  lemma {:induction false} OtherFront(d: Bytes, tok: Bytes)
    requires |d| > 1 && |tok| > 1 && (d[0] != tok[0] || d[1] != tok[1])
    ensures !At(d, 0, tok)
  {
    assert |tok| <= |d| ==> d[0..0 + |tok|][0] == d[0] && d[0..0 + |tok|][1] == d[1];
  }

  lemma {:induction false} OtherThanPreface(d: Bytes)
    requires |d| > 1 && (d[0] != PREFACE[0] || d[1] != PREFACE[1])
    ensures !IsPrefaceCandidate(d) && !HasPreface(d)
  {
    OtherFront(d, PREFACE);
    assert |d| < |PREFACE| ==> PREFACE[..|d|][0] == PREFACE[0] && PREFACE[..|d|][1] == PREFACE[1];
  }

  /** What starts with a method starts neither with a status line nor with the preface. */
  lemma {:induction false} MethodStartsNoOther(h: Bytes)
    requires MarkAt(METHODS, h, 0)
    ensures |h| > 1 && !MarkAt(STATUS, h, 0) && !IsPrefaceCandidate(h) && !HasPreface(h)
  {
    hide IsPrefaceCandidate, HasPreface;
    var k :| 0 <= k < |METHODS| && At(h, 0, METHODS[k]);
    MethodsShape(k);
    MethodsAndStatus(k);
    AtEach(h, 0, METHODS[k], 0);
    AtEach(h, 0, METHODS[k], 1);
    OtherFront(h, HTTP1);
    OtherThanPreface(h);
  }

  lemma {:induction false} StatusStartsNoPreface(p: Bytes)
    requires MarkAt(STATUS, p, 0)
    ensures |p| > 0 && !HasPreface(p)
  {
    AtEach(p, 0, HTTP1, 0);
    assert |p| >= |PREFACE| ==> p[..|PREFACE|][0] == p[0];
  }

  /** h begins with a method, and the library reads it to its end as the request q. */
  predicate IsRequest(lib: Library, h: Bytes, q: Request) {
    MarkAt(METHODS, h, 0) && ParseOneRequest(lib, h) == Ready(q, |h|)
  }

  /** p begins with a status line, and the library reads it to its end as the response a to q. */
  predicate IsResponse(lib: Library, q: Request, p: Bytes, a: Response) {
    MarkAt(STATUS, p, 0) && ParseOneResponse(lib, p, q, false) == Ready(a, |p|)
  }

  lemma {:induction false} TakesAll<T>(scan: Scanner<T>, d: Bytes, m: T)
    requires scan(d) == Scan(0, Ready(m, |d|))
    ensures Loop(scan, d) == Drained([], [m], 0, |d|) && Loop(scan, []) == Drained([], [], 0, 0)
  {
    assert Fits([], scan([]));
    assert d[0 + |d|..] == [];
    assert [m] + [] == [m];
  }

  lemma {:induction false} NothingAnswers<Q, T>(scanFor: Q -> Scanner<T>, q: Q)
    ensures AnswerLoop(scanFor, [], [q]) == Answered(Drained([], [], 0, 0), [q])
  {
    assert Fits([], scanFor(q)([]));
  }

  lemma {:induction false} AnswersAll<Q, T>(scanFor: Q -> Scanner<T>, d: Bytes, q: Q, m: T)
    requires scanFor(q)(d) == Scan(0, Ready(m, |d|))
    ensures AnswerLoop(scanFor, d, [q]) == Answered(Drained([], [m], 0, |d|), [])
  {
    assert d[0 + |d|..] == [] && [q][1..] == [];
    assert [m] + [] == [m];
  }

  lemma {:induction false} MarkedScan<T>(toks: seq<Bytes>, parse: Parser<T>, d: Bytes)
    requires MarkAt(toks, d, 0)
    ensures ScanFor(toks, parse)(d) == Scan(0, parse(d))
  {
    SyncKeepsMarkedBuffer(toks, d);
  }

  /** What the loops of the source make of the two messages, alone or together. */
  lemma {:induction false} RequestDrains(lib: Library, h: Bytes, q: Request)
    requires IsRequest(lib, h, q)
    ensures Loop(EngineOf(lib).requests, h) == Drained([], [q], 0, |h|)
    ensures Loop(EngineOf(lib).requests, []) == Drained([], [], 0, 0)
    ensures AnswerLoop(EngineOf(lib).responses(false), [], [q]) == Answered(Drained([], [], 0, 0), [q])
  {
    hide MarkAt, ParseOneRequest, ScanFor, Loop, AnswerLoop;
    MarkedScan(METHODS, RequestParser(lib), h);
    TakesAll(EngineOf(lib).requests, h, q);
    NothingAnswers(EngineOf(lib).responses(false), q);
  }

  lemma {:induction false} ResponseDrains(lib: Library, q: Request, p: Bytes, a: Response)
    requires IsResponse(lib, q, p, a)
    ensures AnswerLoop(EngineOf(lib).responses(false), p, [q]) == Answered(Drained([], [a], 0, |p|), [])
  {
    hide MarkAt, ParseOneResponse, ScanFor, AnswerLoop;
    MarkedScan(STATUS, ResponseParser(lib, q, false), p);
    AnswersAll(EngineOf(lib).responses(false), p, q, a);
  }

  function AfterRequest(q: Request, ssl: bool): Contents {
    NOTHING.(ssl := ssl, waiting := [q])
  }

  function AfterResponse(q: Request, a: Response, ssl: bool): Contents {
    NOTHING.(ssl := ssl, pairs := [(q, a)])
  }

  lemma {:induction false} RequestChunk(h: Bytes, ssl: bool)
    requires MarkAt(METHODS, h, 0) && |h| < TWO32
    ensures var e := ChunkOf(h, Read, ssl); CarriesBytes(e) && RequestBytes(e) == h && ResponseBytes(e) == [] && e.ssl == ssl
    ensures |h| > 0 && !IsPrefaceCandidate(h) && !HasPreface(h)
  {
    hide MarkAt, ClassifyPayload, IsPrefaceCandidate, HasPreface;
    MethodStartsNoOther(h);
    TokenChunkRoutes(h);
  }

  lemma {:induction false} ResponseChunk(p: Bytes, ssl: bool)
    requires MarkAt(STATUS, p, 0) && |p| < TWO32
    ensures var e := ChunkOf(p, Write, ssl); CarriesBytes(e) && RequestBytes(e) == [] && ResponseBytes(e) == p && e.ssl == ssl
    ensures |p| > 0 && !HasPreface(p)
  {
    hide MarkAt, ClassifyPayload, HasPreface;
    StatusStartsNoPreface(p);
    TokenChunkRoutes(p);
  }

  lemma {:induction false} EmptyHasNone()
    ensures !HasPreface([])
  {
  }

  lemma {:induction false} RequestStep(cfg: CaptureConfig, lib: Library, h: Bytes, q: Request, ssl: bool)
    requires cfg.base.engine == EngineOf(lib) && IsRequest(lib, h, q) && 0 < |h| <= cfg.base.maxStreamBytes < TWO32
    ensures Step(cfg, NOTHING, ChunkOf(h, Read, ssl)) == AfterRequest(q, ssl)
  {
    hide Step, Loop, AnswerLoop, EngineOf, MarkAt, ParseOneRequest, ChunkOf, CarriesBytes, RequestBytes, ResponseBytes, IsPrefaceCandidate, HasPreface;
    var e := ChunkOf(h, Read, ssl);
    RequestChunk(h, ssl);
    RequestDrains(lib, h, q);
    EmptyHasNone();
    assert NOTHING.req + h == h && NOTHING.resp + [] == [];
    StaysHttp1(cfg, NOTHING, e);
    C.Http1Step(cfg, NOTHING, e);
    assert [] + [q] == [q];
    assert NOTHING.pairs + [] == [];
  }

  lemma {:induction false} HoldingSteps(cfg: CaptureConfig, q: Request, p: Bytes, ssl: bool)
    requires MarkAt(STATUS, p, 0) && 0 < |p| <= cfg.base.maxStreamBytes < TWO32
    ensures Step(cfg, Step(cfg, AfterRequest(q, ssl), ChunkOf([80], Read, ssl)), ChunkOf(p, Write, ssl))
         == AfterRequest(q, ssl).(req := [80], resp := p)
    ensures IsPrefaceCandidate([80])
  {
    hide Step, MarkAt, ChunkOf, CarriesBytes, RequestBytes, ResponseBytes, C.DrainNow;
    ResponseChunk(p, ssl);
    ByteIsRead(80, ssl);
    assert PREFACE[..1] == [80];
    var c, e, f := AfterRequest(q, ssl), ChunkOf([80], Read, ssl), ChunkOf(p, Write, ssl);
    assert c.req + [80] == [80] && c.resp + [] == [];
    StaysHttp1(cfg, c, e);
    C.Http1Step(cfg, c, e);
    var d := c.(req := [80]);
    assert d.req + [] == [80] && d.resp + p == p;
    HeldStep(cfg, d, f);
  }

  lemma {:induction false} ResponseStep(cfg: CaptureConfig, lib: Library, h: Bytes, q: Request, p: Bytes, a: Response, ssl: bool)
    requires cfg.base.engine == EngineOf(lib) && IsRequest(lib, h, q) && IsResponse(lib, q, p, a)
    requires 0 < |p| <= cfg.base.maxStreamBytes < TWO32
    ensures Step(cfg, AfterRequest(q, ssl), ChunkOf(p, Write, ssl)) == AfterResponse(q, a, ssl)
  {
    hide Step, Loop, AnswerLoop, EngineOf, MarkAt, ParseOneRequest, ParseOneResponse, ChunkOf, CarriesBytes, RequestBytes, ResponseBytes, HasPreface;
    ResponseChunk(p, ssl);
    RequestDrains(lib, h, q);
    ResponseDrains(lib, q, p, a);
    EmptyHasNone();
    var c, e := AfterRequest(q, ssl), ChunkOf(p, Write, ssl);
    assert c.req + [] == [] && c.resp + p == p;
    StaysHttp1(cfg, c, e);
    C.Http1Step(cfg, c, e);
    assert [q] + [] == [q];
    assert c.pairs + Pairs([q], [a]) == [(q, a)];
  }

  lemma {:induction false} StepsOfTwo(cfg: CaptureConfig, d: Event, e: Event)
    ensures Steps(cfg, [d, e]) == Step(cfg, Step(cfg, NOTHING, d), e)
  {
    hide Step;
    assert [d, e][..1] == [d] && [d][..0] == [];
    assert Steps(cfg, [d]) == Step(cfg, NOTHING, d);
  }

  lemma {:induction false} StepsOfThree(cfg: CaptureConfig, d: Event, e: Event, f: Event)
    ensures Steps(cfg, [d, e, f]) == Step(cfg, Step(cfg, Step(cfg, NOTHING, d), e), f)
  {
    hide Step;
    assert [d, e, f][..2] == [d, e];
    StepsOfTwo(cfg, d, e);
  }

  /** A request, then the first byte of the next one, a POST or PUT say, then the response: it is not
      answered, not even when the session is closed. Without that byte it is. */
  lemma {:induction false} OneByteHoldsBack(cfg: CaptureConfig, lib: Library, h: Bytes, q: Request, p: Bytes, a: Response, ssl: bool)
    requires cfg.base.engine == EngineOf(lib) && IsRequest(lib, h, q) && IsResponse(lib, q, p, a)
    requires 0 < |h| <= cfg.base.maxStreamBytes < TWO32 && 0 < |p| <= cfg.base.maxStreamBytes
    ensures var request, next, response := ChunkOf(h, Read, ssl), ChunkOf([80], Read, ssl), ChunkOf(p, Write, ssl);
            && Said(cfg, [request, next, response], false) == Said(cfg, [request, next, response], true) == []
            && Said(cfg, [request, response], false) == Said(cfg, [request, response], true) == [(q, a)]
  {
    hide Said, Step, Steps, Source, EngineOf, ChunkOf, Loop, AnswerLoop, DrainContent, IsPrefaceCandidate, ParseOneRequest, ParseOneResponse;
    var request, next, response := ChunkOf(h, Read, ssl), ChunkOf([80], Read, ssl), ChunkOf(p, Write, ssl);
    RunOnSteps(cfg, [request, next, response]);
    RunOnSteps(cfg, [request, response]);
    StepsOfTwo(cfg, request, response);
    StepsOfThree(cfg, request, next, response);
    RequestStep(cfg, lib, h, q, ssl);
    HoldingSteps(cfg, q, p, ssl);
    ResponseStep(cfg, lib, h, q, p, a, ssl);
    CloseIsFlush(cfg, AfterRequest(q, ssl).(req := [80], resp := p));
    CloseIsFlush(cfg, AfterResponse(q, a, ssl));
    RequestDrains(lib, h, q);
    FlushSays(EngineOf(lib), AfterResponse(q, a, ssl), ssl);
  }
}
