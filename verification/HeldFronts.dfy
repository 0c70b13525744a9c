/** Streams that go on with the HTTP/2 preface behind a part of them: what the library makes of that part
    decides, whatever it would make of the preface itself (cmd/karaxys-capture/process.go). */
module HeldFronts {
  import opened Words
  import opened HttpTokens
  import opened HttpParsing
  import opened Drain
  import opened Session
  import opened Reassembly
  import opened Routing
  import opened Capture
  import opened TlsSwitch
  import opened H2Sessions
  import opened Cuts
  import opened HeldRuns
  import opened HeldBack
  import C = CaptureReassembly

  // ---- The part before the preface ---------------------------------------------------------------------------

  lemma {:induction false} NothingKept<Q(!new), T(!new)>(toks: seq<Bytes>, parseFor: Q -> Parser<T>, waiting: seq<Q>)
    requires forall q :: parseFor(q)([]).NotReady?
    ensures AnswersKeptOn(toks, parseFor, [], waiting)
  {
    hide First;
    var none: Bytes := [];
    forall j, k | 0 <= j <= k <= |none| ensures AnswersKept(toks, parseFor, none[..j], none[j..k], waiting) {
      assert none[..j] == [] && none[j..k] == [] && Sync(toks, []).bytes == [];
    }
  }

  lemma {:induction false} NoResponseInNothing(lib: Library)
    ensures forall q :: ResponseParser(lib, q, false)([]).NotReady?
  {
  }

  /** Before any response there is nothing to ask about responses. */
  lemma {:induction false} KeptAlone(lib: Library, w: Bytes)
    requires KeepsRequests(lib, w)
    ensures KeepsStreams(lib, w, [])
  {
    hide KeepsRequests, AnswersKeptOn, Loop, EngineOf, ResponseParser;
    NoResponseInNothing(lib);
    NothingKept(STATUS, (q: Request) => ResponseParser(lib, q, false), Loop(EngineOf(lib).requests, w).messages);
  }

  lemma {:induction false} ShortHasNone(engine: Engine, r: Bytes, s: Bytes)
    requires |s| < |PREFACE|
    ensures NoResponsePreface(engine, r, s)
  {
    hide AnswersLeave;
    forall j: nat, m: nat | j <= |r| && m <= |s| ensures !HasPreface(AnswersLeave(engine, r, s, j, m)) {
      AnswersGrow(engine, r, s, [], [], j, m);
    }
  }

  lemma {:induction false} FrontIsPlain(cfg: CaptureConfig, lib: Library, w: Bytes)
    requires cfg.base.engine == EngineOf(lib) && KeepsRequests(lib, w)
    requires NoRequestPreface(EngineOf(lib), w) && |w| <= cfg.base.maxStreamBytes
    ensures Plain(cfg, w, [])
  {
    hide KeepsRequests, KeepsStreams, Good, NoRequestPreface, NoResponsePreface, EngineOf;
    KeptAlone(lib, w);
    SourceIsGood(lib, w, []);
    ShortHasNone(EngineOf(lib), w, []);
  }

  // ---- What the condition on streams leaves open -----------------------------------------------------------

  /** Held back at the end with nothing said, before and after the close: what the library would make of the
      start of the preface, or of any later cut of it, does not matter. */
  lemma {:induction false} HeldWhateverFollows(cfg: CaptureConfig, lib: Library, ssl: bool, r: Bytes, s: Bytes, k: nat) returns (es: seq<Event>)
    requires cfg.base.engine == EngineOf(lib) && k <= |r| <= cfg.base.maxStreamBytes && |s| <= cfg.base.maxStreamBytes
    requires KeepsRequests(lib, r[..k]) && NoRequestPreface(EngineOf(lib), r[..k]) && !HasPreface(s)
    requires IsPart(CutLeaves(EngineOf(lib), r, k)) && |CutLeaves(EngineOf(lib), r, k)| > 0
    ensures Feeds(es, ssl, r, s) && Held(cfg, es) && Said(cfg, es, false) == [] && Said(cfg, es, true) == []
  {
    hide Steps, Plain, Feeds, KeepsRequests, NoRequestPreface, EngineOf, CutLeaves, HasPreface, Held, Said, DrainContent;
    FrontIsPlain(cfg, lib, r[..k]);
    es := HeldBehind(cfg, ssl, r, s, k);
    PartIsCandidate(CutLeaves(cfg.base.engine, r, k));
    RunOnSteps(cfg, es);
    CloseIsFlush(cfg, Steps(cfg, es));
  }

  lemma {:induction false} PartIsCandidate(d: Bytes)
    requires IsPart(d) && |d| > 0
    ensures IsPrefaceCandidate(d)
  {
  }

  lemma {:induction false} StepSaysMore(cfg: CaptureConfig, c: Contents, e: Event)
    ensures c.pairs <= Step(cfg, c, e).pairs
  {
    hide Loop, AnswerLoop, Due;
  }

  lemma {:induction false} StepsSayMore(cfg: CaptureConfig, es: seq<Event>, fs: seq<Event>)
    ensures Steps(cfg, es).pairs <= Steps(cfg, es + fs).pairs
    decreases |fs|
  {
    hide Step, Steps;
    if |fs| == 0 {
      assert es + fs == es;
    } else {
      StepsGoOn(cfg, es, fs);
      StepsSayMore(cfg, es, fs[..|fs| - 1]);
      StepSaysMore(cfg, Steps(cfg, es + fs[..|fs| - 1]), fs[|fs| - 1]);
    }
  }

  lemma {:induction false} SaysAtLeast(cfg: CaptureConfig, es: seq<Event>, fs: seq<Event>, close: bool)
    ensures Steps(cfg, es).pairs <= Said(cfg, es + fs, close)
  {
    hide Steps, Said, Loop, AnswerLoop, Due;
    StepsSayMore(cfg, es, fs);
    RunOnSteps(cfg, es + fs);
  }

  /** Streams that go on with the preface behind an answered part are never decided, before the close or
      after it, for a library that keeps what it has recognised in that part. */
  lemma {:induction false} AnsweredFrontIsUndecided(cfg: CaptureConfig, lib: Library, ssl: bool, r: Bytes, s: Bytes, k: nat, close: bool)
    requires k <= |r| <= cfg.base.maxStreamBytes && Source(cfg, lib, r[..k], s)
    requires IsPart(CutLeaves(EngineOf(lib), r, k)) && |CutLeaves(EngineOf(lib), r, k)| > 0
    requires WholeDrain(EngineOf(lib), r[..k], s, ssl).pairs != []
    ensures !Decided(cfg, ssl, r, s, close)
  {
    hide Steps, Plain, Feeds, KeepsRequests, NoRequestPreface, EngineOf, CutLeaves, HasPreface, IsPart, Held, Said, WholeDrain, KeepsStreams, NoResponsePreface;
    SourceIsPlain(cfg, lib, r[..k], s);
    StreamsKeepRequests(lib, r[..k], s);
    WholeResponses(EngineOf(lib), r[..k], s);
    var h := HeldWhateverFollows(cfg, lib, ssl, r, s, k);
    var e := EagerRun(cfg, ssl, r[..k], s);
    var fs := BytesOf(r[k..], Read, ssl);
    BytesFeed(r[k..], Read, ssl);
    FeedsJoin(e, fs, ssl, r[..k], s, r[k..], []);
    Rejoin(r, k, k);
    assert s + [] == s;
    SaysAtLeast(cfg, e, fs, close);
    assert Said(cfg, h, close) == [] && Said(cfg, e + fs, close) != [];
  }

  // ---- A request that nobody sent ---------------------------------------------------------------------------

  /** "I * HTTP/2.0" and a blank line: the last 16 of the first 18 bytes of the preface. */
  const PHANTOM: Bytes := PREFACE[2..18]

  lemma {:induction false} PhantomIsTail(n: nat)
    requires n == PROBE_WINDOW + 2
    ensures IsPart(PREFACE[..n]) && Tail(PREFACE[..n]) == PHANTOM && |PHANTOM| == PROBE_WINDOW
  {
    assert PREFACE[..n][n - PROBE_WINDOW..] == PREFACE[2..n];
  }

  lemma {:induction false} SourceFindsNothing(lib: Library, r: Bytes, k: nat)
    requires KeepsRequests(lib, r) && k <= |r| && IsPart(CutLeaves(EngineOf(lib), r, k))
    ensures ParseOneRequest(lib, Tail(CutLeaves(EngineOf(lib), r, k))).NotReady?
  {
    hide First, IsPart, Loop, Tail, KeptOn, ScanFor, SyncSafe, ParseOneRequest;
    MethodsAreSyncSafe();
    NoMethodInPreface(CutLeaves(EngineOf(lib), r, k));
    CutFindsNothing(METHODS, RequestParser(lib), r, k);
  }

  lemma {:induction false} HeldTwoMore(engine: Engine, r: Bytes, t: nat)
    requires HeldSince(engine, r, t) && t >= 2
    ensures t <= |r|
    ensures CutLeaves(engine, r[..|r| - t + 2], |r| - t) == PREFACE[..PROBE_WINDOW + 2]
  {
    hide Left;
    var k, n := |r| - t, PROBE_WINDOW + 2;
    Rejoin(r, k, k + 2);
    assert r[k..][..2] == r[k..k + 2] == PREFACE[PROBE_WINDOW..n];
    assert PREFACE[..PROBE_WINDOW] + PREFACE[PROBE_WINDOW..n] == PREFACE[..n];
  }

  lemma {:induction false} PhantomCut(lib: Library, r: Bytes, k: nat)
    requires KeepsRequests(lib, r) && k <= |r| && CutLeaves(EngineOf(lib), r, k) == PREFACE[..PROBE_WINDOW + 2]
    ensures ParseOneRequest(lib, PHANTOM).NotReady?
  {
    hide Tail, KeepsRequests, EngineOf, CutLeaves, ParseOneRequest, IsPart;
    PhantomIsTail(PROBE_WINDOW + 2);
    SourceFindsNothing(lib, r, k);
  }

  /** A library that reads those 16 bytes as a request keeps no stream in which 18 bytes of the preface, or
      more, are held back: for it a stream of the conditions above can be held with 17 bytes at most. */
  lemma {:induction false} PhantomIsNotKept(lib: Library, r: Bytes, t: nat)
    requires ParseOneRequest(lib, PHANTOM).Ready? && KeepsRequests(lib, r) && t >= 2
    ensures !HeldSince(EngineOf(lib), r, t)
  {
    hide KeepsRequests, EngineOf, CutLeaves, ParseOneRequest, HeldSince;
    if HeldSince(EngineOf(lib), r, t) {
      HeldTwoMore(EngineOf(lib), r, t);
      KeepsFront(lib, r, |r| - t + 2);
      PhantomCut(lib, r[..|r| - t + 2], |r| - t);
    }
  }

  /** The 18 bytes that end with the phantom. */
  const EIGHTEEN: Bytes := PREFACE[..18]

  lemma {:induction false} TakesTwo<T>(scan: Scanner<T>, d: Bytes, x: Bytes, m: T, n: T, skipped: nat)
    requires 0 < |d| && skipped < |x|
    requires scan(d + x) == Scan(0, Ready(m, |d|)) && scan(x) == Scan(skipped, Ready(n, |x| - skipped))
    ensures Loop(scan, d + x).messages == [m, n] && Loop(scan, d + x).rest == []
  {
    assert (d + x)[0 + |d|..] == x && x[skipped + (|x| - skipped)..] == [];
    assert Fits([], scan([]));
    assert Loop(scan, x).messages == [n] && Loop(scan, x).rest == [];
  }

  lemma {:induction false} SkippedScan(toks: seq<Bytes>, parse: Parser<Request>, d: Bytes)
    requires First(toks, d) == -1
    ensures ScanFor(toks, parse)(d) == Scan(|d| - |Tail(d)|, parse(Tail(d)))
  {
    assert Sync(toks, d) == Synced(Tail(d), |d| - |Tail(d)|);
  }

  /** The request loop makes a request of h, trims two bytes of the preface, and makes one of the rest. */
  lemma {:induction false} PhantomDrains(lib: Library, h: Bytes, q: Request, p: Request)
    requires MarkAt(METHODS, h, 0) && 0 < |h|
    requires ParseOneRequest(lib, h + EIGHTEEN) == Ready(q, |h|) && ParseOneRequest(lib, PHANTOM) == Ready(p, |PHANTOM|)
    ensures Loop(EngineOf(lib).requests, h + EIGHTEEN).messages == [q, p] && Loop(EngineOf(lib).requests, h + EIGHTEEN).rest == []
  {
    hide MarkAt, First, Tail, ParseOneRequest, ScanFor, Loop, IsPart;
    PhantomIsTail(PROBE_WINDOW + 2);
    NoMethodInPreface(EIGHTEEN);
    SkippedScan(METHODS, RequestParser(lib), EIGHTEEN);
    MarkAtGrows(METHODS, h, EIGHTEEN, 0);
    MarkedScan(METHODS, RequestParser(lib), h + EIGHTEEN);
    TakesTwo(EngineOf(lib).requests, h, EIGHTEEN, q, p, 2);
  }

  lemma {:induction false} NoneAnswered(engine: Engine, c: Contents, rs: seq<Request>)
    requires c.resp == [] && Loop(engine.requests, c.req).messages == rs && Loop(engine.requests, c.req).rest == []
    ensures C.DrainNow(engine, c) == c.(req := [], waiting := c.waiting + rs)
  {
    hide Loop;
    var all := c.waiting + rs;
    assert |all| > 0 ==> Fits([], engine.responses(false)(all[0])([]));
    assert c.pairs + [] == c.pairs;
  }

  lemma {:induction false} PhantomStep(cfg: CaptureConfig, lib: Library, h: Bytes, q: Request, p: Request, ssl: bool)
    requires cfg.base.engine == EngineOf(lib) && MarkAt(METHODS, h, 0) && 0 < |h| && |h + EIGHTEEN| <= cfg.base.maxStreamBytes < TWO32
    requires ParseOneRequest(lib, h + EIGHTEEN) == Ready(q, |h|) && ParseOneRequest(lib, PHANTOM) == Ready(p, |PHANTOM|)
    ensures Step(cfg, NOTHING, ChunkOf(h + EIGHTEEN, Read, ssl)) == NOTHING.(ssl := ssl, waiting := [q, p])
    ensures RequestBytes(ChunkOf(h + EIGHTEEN, Read, ssl)) == h + EIGHTEEN
  {
    hide Step, Loop, EngineOf, MarkAt, ParseOneRequest, ChunkOf, CarriesBytes, RequestBytes, ResponseBytes, IsPrefaceCandidate, HasPreface, C.DrainNow;
    var e := ChunkOf(h + EIGHTEEN, Read, ssl);
    MarkAtGrows(METHODS, h, EIGHTEEN, 0);
    RequestChunk(h + EIGHTEEN, ssl);
    PhantomDrains(lib, h, q, p);
    EmptyHasNone();
    assert NOTHING.req + (h + EIGHTEEN) == h + EIGHTEEN && NOTHING.resp + [] == [];
    StaysHttp1(cfg, NOTHING, e);
    C.Http1Step(cfg, NOTHING, e);
    var g := C.Grow(NOTHING.(ssl := ssl), h + EIGHTEEN, []);
    NoneAnswered(EngineOf(lib), g, [q, p]);
  }

  lemma {:induction false} EighteenHeld(cfg: CaptureConfig, c: Contents, ssl: bool)
    requires c.ssl == ssl && !c.h2 && c.req == [] && c.resp == [] && |EIGHTEEN| <= cfg.base.maxStreamBytes
    ensures Step(cfg, c, ChunkOf(EIGHTEEN, Read, ssl)) == c.(req := EIGHTEEN)
    ensures RequestBytes(ChunkOf(EIGHTEEN, Read, ssl)) == EIGHTEEN && IsPrefaceCandidate(EIGHTEEN)
  {
    hide Step, First, ChunkOf, CarriesBytes, RequestBytes, ResponseBytes, C.DrainNow;
    var e := ChunkOf(EIGHTEEN, Read, ssl);
    PieceShowsNothing(PREFACE[0], 1, |EIGHTEEN|);
    assert [PREFACE[0]] + PREFACE[1..|EIGHTEEN|] == EIGHTEEN == PREFACE[..|EIGHTEEN|];
    PieceIsRequest(EIGHTEEN, ssl);
    assert c.req + EIGHTEEN == EIGHTEEN && c.resp + [] == [];
    StaysHttp1(cfg, c, e);
    C.Http1Step(cfg, c, e);
  }

  /** A request and 18 bytes of the preface: as one chunk the loop makes a second request of the preface, which
      nobody sent and the next response will answer; as two chunks the preface is held back. */
  lemma {:induction false} PhantomRequest(cfg: CaptureConfig, lib: Library, h: Bytes, q: Request, p: Request, ssl: bool)
    requires cfg.base.engine == EngineOf(lib) && IsRequest(lib, h, q) && 0 < |h| && |h + EIGHTEEN| <= cfg.base.maxStreamBytes < TWO32
    requires ParseOneRequest(lib, h + EIGHTEEN) == Ready(q, |h|) && ParseOneRequest(lib, PHANTOM) == Ready(p, |PHANTOM|)
    ensures var one, two := [ChunkOf(h + EIGHTEEN, Read, ssl)], [ChunkOf(h, Read, ssl), ChunkOf(EIGHTEEN, Read, ssl)];
            var c, d := ContentsOf(Capture.Run(cfg, one)), ContentsOf(Capture.Run(cfg, two));
            && RequestStream(one) == RequestStream(two)
            && c.waiting == [q, p] && c.req == []
            && d.waiting == [q] && d.req == EIGHTEEN && IsPrefaceCandidate(d.req)
  {
    hide Step, Steps, Capture.Run, ContentsOf, MarkAt, ParseOneRequest, EngineOf, ChunkOf, RequestStream, ResponseStream, RequestBytes, ResponseBytes, CarriesBytes, IsPrefaceCandidate;
    var one, d, e := ChunkOf(h + EIGHTEEN, Read, ssl), ChunkOf(h, Read, ssl), ChunkOf(EIGHTEEN, Read, ssl);
    RunIsSteps(cfg, [one]);
    RunIsSteps(cfg, [d, e]);
    PhantomStep(cfg, lib, h, q, p, ssl);
    StepsOfOne(cfg, one);
    RequestStep(cfg, lib, h, q, ssl);
    EighteenHeld(cfg, AfterRequest(q, ssl), ssl);
    StepsOfTwo(cfg, d, e);
    RequestChunk(h, ssl);
    StreamsOfOne(one);
    RequestsOfTwo(d, e);
  }

  lemma {:induction false} RequestsOfTwo(d: Event, e: Event)
    ensures RequestStream([d, e]) == RequestBytes(d) + RequestBytes(e)
  {
    hide RequestStream, RequestBytes, ResponseStream, ResponseBytes;
    StreamsOfOne(d);
    StreamsOfOne(e);
    RequestsJoin([d], [e]);
    assert [d] + [e] == [d, e];
  }

  lemma {:induction false} StepsOfOne(cfg: CaptureConfig, e: Event)
    ensures Steps(cfg, [e]) == Step(cfg, NOTHING, e)
  {
    hide Step;
    assert [e][..0] == [];
  }
}
