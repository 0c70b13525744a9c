/** Sessions that change to HTTP/2 in the middle: a preface on the response side, and one inside a request
    stream, with the exact streams on which some capture changes the mode (cmd/karaxys-capture/process.go). */
module ModeChange {
  import opened Words
  import opened HttpTokens
  import opened HttpParsing
  import opened Drain
  import opened Session
  import opened Reassembly
  import opened Routing
  import opened Capture
  import opened TlsSwitch
  import opened H2Sessions
  import opened Cuts
  import opened HeldRuns
  import C = CaptureReassembly
  import opened HeldBack
  import opened HeldFronts

  // ---- A preface on the response side ------------------------------------------------------------------------

  lemma {:induction false} NoRequestsBefore(engine: Engine, r: Bytes, x: Bytes)
    requires LoopForetells(engine.requests, r, x) && Loop(engine.requests, r + x).messages == []
    ensures Loop(engine.requests, r).messages == []
  {
    hide LoopForetells, Loop;
    LoopComposes(engine.requests, r, x);
  }

  lemma {:induction false} WholeKeepsResponses(engine: Engine, r: Bytes, s: Bytes, ssl: bool)
    requires Loop(engine.requests, r).messages == []
    ensures WholeDrain(engine, r, s, ssl).resp == s
  {
  }

  /** With no request to answer, not a byte of the response side is trimmed. */
  lemma {:induction false} ResponsesKept(cfg: CaptureConfig, es: seq<Event>, ssl: bool, r: Bytes, s: Bytes)
    requires Feeds(es, ssl, r, s) && Plain(cfg, r, s)
    requires Loop(cfg.base.engine.requests, r).messages == []
    ensures Steps(cfg, es).resp == s && !Steps(cfg, es).h2
  {
    hide Steps, C.Since, Feeds, Plain, C.DrainNow, IsPrefaceCandidate, CutLeaves, Loop;
    var k, m := RunAgrees(cfg, es, ssl, r, s);
    WholeKeepsResponses(cfg.base.engine, r, s, ssl);
    DrainNowLeavesEnds(cfg.base.engine, Steps(cfg, es).(ssl := ssl));
  }

  lemma {:induction false} ResponsePrefaceStep(cfg: CaptureConfig, c: Contents, e: Event)
    requires CarriesBytes(e) && FlagIs(c, e.ssl) && HasPreface(c.resp + ResponseBytes(e))
    requires |c.req + RequestBytes(e)| <= cfg.base.maxStreamBytes && |c.resp + ResponseBytes(e)| <= cfg.base.maxStreamBytes
    ensures Step(cfg, c, e).h2
  {
    hide DrainContent;
    assert SwitchContent(c, e) == c.(ssl := e.ssl);
    H2DrainIsH2(cfg, c.(ssl := e.ssl, req := c.req + RequestBytes(e), resp := c.resp + ResponseBytes(e), h2 := true));
  }

  /** However a preface on the response side is split: while the request side holds no request, the mode
      changes with the event that brings its 24th byte, and every byte before that is kept. */
  lemma {:induction false} ResponsePrefaceSplits(cfg: CaptureConfig, es: seq<Event>, ssl: bool)
    requires Good(cfg.base.engine, RequestStream(es), ResponseStream(es)) && Uniform(es, ssl)
    requires var r, s := RequestStream(es), ResponseStream(es);
             && NoRequestPreface(cfg.base.engine, r) && Loop(cfg.base.engine.requests, r).messages == [] && StartsAsPreface(s)
             && |r| <= cfg.base.maxStreamBytes && |s| <= cfg.base.maxStreamBytes
    ensures Steps(cfg, es).h2 <==> |ResponseStream(es)| >= |PREFACE|
    ensures |ResponseStream(es)| < |PREFACE| ==> Steps(cfg, es).resp == ResponseStream(es)
    decreases |es|
  {
    hide Step, Steps, StableStreams, SettledEngine, IgnoresPreface, NoRequestPreface, NoResponsePreface, Loop, LoopForetells, AnswersForetell, Uniform, RequestBytes, ResponseBytes, HasPreface, C.Since;
    if |ResponseStream(es)| < |PREFACE| {
      ShortHasNone(cfg.base.engine, RequestStream(es), ResponseStream(es));
      ResponsesKept(cfg, es, ssl, RequestStream(es), ResponseStream(es));
    } else {
      var front, e := es[..|es| - 1], es[|es| - 1];
      var r, s := RequestStream(front), ResponseStream(front);
      assert Uniform(front, ssl) && (CarriesBytes(e) ==> e.ssl == ssl) by { UniformPrefix(es, ssl); }
      GoodFront(cfg.base.engine, r, s, RequestBytes(e), ResponseBytes(e));
      NoRequestPrefaceFront(cfg.base.engine, r, RequestBytes(e));
      StableFront(cfg.base.engine, r, s, RequestBytes(e), ResponseBytes(e));
      NoRequestsBefore(cfg.base.engine, r, RequestBytes(e));
      PrefixOfPreface(s, ResponseBytes(e));
      ResponsePrefaceSplits(cfg, front, ssl);
      RunKeepsFlag(cfg, front, ssl);
      StepsEnd(cfg, es);
      if |s| >= |PREFACE| {
        StepKeepsMode(cfg, Steps(cfg, front), e, ssl);
      } else {
        SkippedBytesOf(e);
        ShortHasNone(cfg.base.engine, r, s);
        ResponsesKept(cfg, front, ssl, r, s);
        var k, m := RunAgrees(cfg, front, ssl, r, s);
        CutGrows(cfg.base.engine, r, RequestBytes(e), k);
        EndGrows(r, Steps(cfg, front).req, RequestBytes(e));
        ResponsePrefaceStep(cfg, Steps(cfg, front), e);
      }
    }
  }

  lemma {:induction false} SkippedBytesOf(e: Event)
    ensures |ResponseBytes(e)| > 0 ==> CarriesBytes(e)
    ensures !CarriesBytes(e) ==> RequestBytes(e) == [] == ResponseBytes(e)
  {
  }

  lemma {:induction false} UniformPrefix(es: seq<Event>, ssl: bool)
    requires Uniform(es, ssl) && |es| > 0
    ensures Uniform(es[..|es| - 1], ssl) && (CarriesBytes(es[|es| - 1]) ==> es[|es| - 1].ssl == ssl)
  {
  }

  lemma {:induction false} StepsEnd(cfg: CaptureConfig, es: seq<Event>)
    requires |es| > 0
    ensures Steps(cfg, es) == Step(cfg, Steps(cfg, es[..|es| - 1]), es[|es| - 1])
  {
  }

  lemma {:induction false} StepKeepsMode(cfg: CaptureConfig, c: Contents, e: Event, ssl: bool)
    requires c.h2 && FlagIs(c, ssl) && (CarriesBytes(e) ==> e.ssl == ssl)
    ensures Step(cfg, c, e).h2
  {
    if CarriesBytes(e) {
      StepKeepsH2(cfg, c, e);
    }
  }

  // ---- A preface inside the request stream -------------------------------------------------------------------

  ghost predicate ChangesMode(cfg: CaptureConfig, es: seq<Event>) {
    Capture.Run(cfg, es).stream.h2
  }

  /** What the source's request loop leaves begins with a method or is at most 16 bytes. */
  lemma {:induction false} LeftIsNoPreface(lib: Library, w: Bytes)
    ensures !HasPreface(Left(EngineOf(lib), w))
  {
    hide First, HasPreface, Loop, SyncSafe, ScanFor;
    var left := Left(EngineOf(lib), w);
    MethodsAreSyncSafe();
    ScanForSettles(METHODS, RequestParser(lib));
    LoopSettles(ScanFor(METHODS, RequestParser(lib)), w);
    LoopSkipsNothing(METHODS, RequestParser(lib), left);
    SyncedIsNoPreface(left);
  }

  lemma {:induction false} SyncedIsNoPreface(d: Bytes)
    requires First(METHODS, d) == 0 || |d| <= PROBE_WINDOW
    ensures !HasPreface(d)
  {
    hide MarkAt;
    if First(METHODS, d) == 0 {
      MethodStartsNoOther(d);
    }
  }

  lemma {:induction false} LoopSkipsNothing(toks: seq<Bytes>, parse: Parser<Request>, d: Bytes)
    requires Loop(ScanFor(toks, parse), d) == Drained(d, [], 0, 0)
    ensures First(toks, d) == 0 || |d| <= PROBE_WINDOW
  {
    var s := ScanFor(toks, parse)(d);
    assert s.found.Ready? ==> |Loop(ScanFor(toks, parse), d).messages| > 0;
    assert s.skipped == Sync(toks, d).dropped == 0;
  }

  /** The event that completes a preface changes the mode, and no later event changes it back. */
  lemma {:induction false} ModeChanges(cfg: CaptureConfig, c: Contents, b: byte, ssl: bool)
    requires FlagIs(c, ssl) && HasPreface(c.req + [b]) && |c.resp| <= cfg.base.maxStreamBytes
    requires |c.req + [b]| <= cfg.base.maxStreamBytes
    ensures Step(cfg, c, ChunkOf([b], Read, ssl)).h2
  {
    hide DrainContent, ChunkOf, RequestBytes, ResponseBytes, CarriesBytes;
    var e := ChunkOf([b], Read, ssl);
    ByteIsRead(b, ssl);
    assert c.resp + [] == c.resp;
    assert SwitchContent(c, e) == c.(ssl := ssl);
    H2DrainIsH2(cfg, c.(ssl := ssl, req := c.req + [b], h2 := true));
  }

  lemma {:induction false} ModeStays(cfg: CaptureConfig, es: seq<Event>, fs: seq<Event>, ssl: bool)
    requires Uniform(es + fs, ssl) && Steps(cfg, es).h2
    ensures Steps(cfg, es + fs).h2
    decreases |fs|
  {
    hide Step, Steps, Uniform;
    if |fs| == 0 {
      assert es + fs == es;
    } else {
      StepsGoOn(cfg, es, fs);
      UniformFront(es, fs, ssl);
      ModeStays(cfg, es, fs[..|fs| - 1], ssl);
      RunKeepsFlag(cfg, es + fs[..|fs| - 1], ssl);
      StepKeepsMode(cfg, Steps(cfg, es + fs[..|fs| - 1]), fs[|fs| - 1], ssl);
    }
  }

  lemma {:induction false} ModeOnSteps(cfg: CaptureConfig, es: seq<Event>)
    ensures ChangesMode(cfg, es) <==> Steps(cfg, es).h2
  {
    hide Capture.Run, Steps;
    RunIsSteps(cfg, es);
  }

  lemma {:induction false} PrefaceIsAtFront(d: Bytes, x: Bytes)
    requires |d| >= |PREFACE|
    ensures HasPreface(d + x) <==> HasPreface(d)
  {
    assert (d + x)[..|PREFACE|] == d[..|PREFACE|];
  }

  /** The start of the preface that the first n bytes leave, one byte short of it. */
  lemma {:induction false} OneShort(engine: Engine, r: Bytes, k: nat) returns (n: nat)
    requires k <= |r| && HasPreface(CutLeaves(engine, r, k)) && !HasPreface(Left(engine, r[..k]))
    ensures k <= n < |r| && IsPart(CutLeaves(engine, r[..n], k)) && |CutLeaves(engine, r[..n], k)| > 0
    ensures HasPreface(CutLeaves(engine, r[..n], k) + [r[n]])
  {
    hide Left;
    var left, cut, m := Left(engine, r[..k]), CutLeaves(engine, r, k), |PREFACE| - 1;
    if |left| >= |PREFACE| {
      PrefaceIsAtFront(left, r[k..]);
    }
    n := k + (m - |left|);
    assert r[..n][..k] == r[..k] && r[..n][k..] == r[k..n];
    assert cut[..m] == left + r[k..n] == CutLeaves(engine, r[..n], k);
    assert cut[..m] == PREFACE[..m] && cut[..m] + [r[n]] == cut[..|PREFACE|];
  }

  lemma {:induction false} EarlierPreface(lib: Library, r: Bytes, k: nat) returns (j: nat)
    requires k <= |r| && !NoRequestPreface(EngineOf(lib), r[..k])
    ensures j < k && HasPreface(CutLeaves(EngineOf(lib), r, j))
  {
    hide EngineOf, CutLeaves, HasPreface;
    j :| j <= k && HasPreface(CutLeaves(EngineOf(lib), r[..k], j));
    WholeCut(EngineOf(lib), r[..k]);
    LeftIsNoPreface(lib, r[..k]);
    CutGrows(EngineOf(lib), r[..k], r[k..], j);
    PrefaceStays(CutLeaves(EngineOf(lib), r[..k], j), r[k..]);
    Rejoin(r, k, k);
  }

  lemma {:induction false} LastByte(cfg: CaptureConfig, es: seq<Event>, ssl: bool, r: Bytes, n: nat) returns (fs: seq<Event>)
    requires n < |r| && Feeds(es, ssl, r[..n], []) && Steps(cfg, es).resp == []
    requires HasPreface(Steps(cfg, es).req + [r[n]]) && |Steps(cfg, es).req + [r[n]]| <= cfg.base.maxStreamBytes
    ensures Feeds(fs, ssl, r[..n + 1], []) && Steps(cfg, fs).h2
  {
    hide Steps, Step, HasPreface, ChunkOf, Feeds;
    FeedsUniform(es, ssl, r[..n], []);
    RunKeepsFlag(cfg, es, ssl);
    ModeChanges(cfg, Steps(cfg, es), r[n], ssl);
    StepsOneMore(cfg, es, ChunkOf([r[n]], Read, ssl));
    OneByteFeeds(r[n], ssl);
    FeedsJoin(es, [ChunkOf([r[n]], Read, ssl)], ssl, r[..n], [], [r[n]], []);
    var none: Bytes := [];
    assert r[..n] + [r[n]] == r[..n + 1] && none + none == none;
    fs := es + [ChunkOf([r[n]], Read, ssl)];
  }

  lemma {:induction false} FirstPreface(cfg: CaptureConfig, ssl: bool, r: Bytes, k: nat) returns (es: seq<Event>, n: nat)
    requires k <= |r| <= cfg.base.maxStreamBytes && Plain(cfg, r[..k], [])
    requires HasPreface(CutLeaves(cfg.base.engine, r, k)) && !HasPreface(Left(cfg.base.engine, r[..k]))
    ensures n <= |r| && Feeds(es, ssl, r[..n], []) && Steps(cfg, es).h2
  {
    hide Steps, Plain, CutLeaves, IsPart, HasPreface, Feeds, Left;
    var m := OneShort(cfg.base.engine, r, k);
    Rejoin(r, k, m);
    NothingIsNoPreface();
    var hs := HeldBehind(cfg, ssl, r[..m], [], k);
    CutGrows(cfg.base.engine, r[..m], [], k);
    es := LastByte(cfg, hs, ssl, r, m);
    n := m + 1;
  }

  /** Byte by byte, the mode changes at the last byte of a preface that a cut leaves; the library keeps what
      it has recognised before the cut. */
  lemma {:induction false} UpToPreface(cfg: CaptureConfig, lib: Library, ssl: bool, r: Bytes, k: nat) returns (es: seq<Event>, n: nat)
    requires cfg.base.engine == EngineOf(lib) && k <= |r| <= cfg.base.maxStreamBytes
    requires KeepsRequests(lib, r[..k]) && HasPreface(CutLeaves(EngineOf(lib), r, k))
    ensures n <= |r| && Feeds(es, ssl, r[..n], []) && Steps(cfg, es).h2
    decreases k
  {
    hide Steps, Plain, KeepsRequests, NoRequestPreface, EngineOf, CutLeaves, HasPreface, Feeds, Left;
    if NoRequestPreface(EngineOf(lib), r[..k]) {
      FrontIsPlain(cfg, lib, r[..k]);
      LeftIsNoPreface(lib, r[..k]);
      es, n := FirstPreface(cfg, ssl, r, k);
    } else {
      var j := EarlierPreface(lib, r, k);
      KeepsFront(lib, r[..k], j);
      Rejoin(r, j, k);
      es, n := UpToPreface(cfg, lib, ssl, r, j);
    }
  }

  lemma {:induction false} NothingIsNoPreface()
    ensures !HasPreface([])
  {
  }

  /** What comes later does not change the mode back. */
  lemma {:induction false} ModeGoesOn(cfg: CaptureConfig, es: seq<Event>, ssl: bool, r: Bytes, x: Bytes, s: Bytes) returns (fs: seq<Event>)
    requires Feeds(es, ssl, r, []) && Steps(cfg, es).h2
    ensures Feeds(fs, ssl, r + x, s) && ChangesMode(cfg, fs)
  {
    hide Steps, Feeds, ChangesMode;
    fs := BytesOf(x, Read, ssl) + BytesOf(s, Write, ssl);
    BothFeed(x, s, ssl);
    FeedsJoin(es, fs, ssl, r, [], x, s);
    assert [] + s == s;
    FeedsUniform(es + fs, ssl, r + x, s);
    ModeStays(cfg, es, fs, ssl);
    fs := es + fs;
    ModeOnSteps(cfg, fs);
  }

  /** A preface that some cut leaves changes the mode of some capture, whatever the responses are and whatever
      the library would make of the preface or of what follows: it is asked about the part before the cut. */
  lemma {:induction false} PrefaceChangesMode(cfg: CaptureConfig, lib: Library, ssl: bool, r: Bytes, s: Bytes, k: nat)
    requires cfg.base.engine == EngineOf(lib) && k <= |r| <= cfg.base.maxStreamBytes
    requires KeepsRequests(lib, r[..k]) && HasPreface(CutLeaves(EngineOf(lib), r, k))
    ensures exists es :: Feeds(es, ssl, r, s) && ChangesMode(cfg, es)
  {
    hide Steps, Feeds, ChangesMode, EngineOf, CutLeaves, KeepsRequests, HasPreface;
    var es, n := UpToPreface(cfg, lib, ssl, r, k);
    es := ModeGoesOn(cfg, es, ssl, r[..n], r[n..], s);
    Rejoin(r, n, n);
  }

  lemma {:induction false} BehindRequests(engine: Engine, h: Bytes)
    requires Left(engine, h) == []
    ensures (h + PREFACE)[..|h|] == h && HasPreface(CutLeaves(engine, h + PREFACE, |h|))
  {
    hide Left;
    assert (h + PREFACE)[..|h|] == h && (h + PREFACE)[|h|..] == PREFACE && [] + PREFACE == PREFACE;
  }

  /** An upgrade to HTTP/2: requests that are all taken out, then the preface, then anything at all. */
  lemma {:induction false} UpgradeChangesMode(cfg: CaptureConfig, lib: Library, ssl: bool, h: Bytes, rest: Bytes, s: Bytes)
    requires cfg.base.engine == EngineOf(lib) && |h + PREFACE| <= cfg.base.maxStreamBytes
    requires KeepsRequests(lib, h) && Left(EngineOf(lib), h) == []
    ensures exists es :: Feeds(es, ssl, (h + PREFACE) + rest, s) && ChangesMode(cfg, es)
  {
    hide Steps, Feeds, ChangesMode, EngineOf, Left, KeepsRequests, HasPreface, CutLeaves;
    var r := h + PREFACE;
    BehindRequests(EngineOf(lib), h);
    var es, n := UpToPreface(cfg, lib, ssl, r, |h|);
    es := ModeGoesOn(cfg, es, ssl, r[..n], r[n..] + rest, s);
    Rejoin(r, n, n);
    Associates(r[..n], r[n..], rest);
  }

  // ---- No preface in a buffer --------------------------------------------------------------------------------

  /** The preface stands nowhere in d. */
  ghost predicate Lacks(d: Bytes) {
    forall j: nat :: !At(d, j, PREFACE)
  }

  /** Without a preface in the streams of the events that count, no session with any loops changes its mode,
      overflow and a switch to plaintext included. */
  lemma {:induction false} NoPrefaceNoChange(cfg: CaptureConfig, es: seq<Event>)
    requires Lacks(RequestStream(Counted(es))) && Lacks(ResponseStream(Counted(es)))
    ensures !ChangesMode(cfg, es)
  {
    hide Lacks, RequestStream, ResponseStream, ChangesMode, Steps, Counted, Uniform;
    ModeOnSteps(cfg, es);
    RunIsCounted(cfg, es);
    var ssl := |PlaintextOf(es)| > 0;
    BuffersAreEnds(cfg, Counted(es), ssl);
  }

  lemma {:induction false} AtGrows(d: Bytes, x: Bytes, j: nat)
    ensures At(d, j, PREFACE) ==> At(d + x, j, PREFACE)
  {
    if j + |PREFACE| <= |d| {
      AtPrefix(d, x, j, PREFACE);
    }
  }

  lemma {:induction false} FrontLacks(r: Bytes, x: Bytes)
    requires Lacks(r + x)
    ensures Lacks(r)
  {
    hide At;
    forall j: nat ensures !At(r, j, PREFACE) {
      AtGrows(r, x, j);
    }
  }

  /** Each buffer is an end of what was routed to it. */
  lemma {:induction false} BuffersAreEnds(cfg: CaptureConfig, es: seq<Event>, ssl: bool)
    requires Uniform(es, ssl) && Lacks(RequestStream(es)) && Lacks(ResponseStream(es))
    ensures var c := Steps(cfg, es); !c.h2 && EndsWith(RequestStream(es), c.req) && EndsWith(ResponseStream(es), c.resp)
    decreases |es|
  {
    hide Lacks, Step, RequestBytes, ResponseBytes, Uniform, EndsWith;
    if |es| == 0 {
      NothingEnds([]);
    } else {
      var front, e := es[..|es| - 1], es[|es| - 1];
      FrontLacks(RequestStream(front), RequestBytes(e));
      FrontLacks(ResponseStream(front), ResponseBytes(e));
      UniformPrefix(es, ssl);
      BuffersAreEnds(cfg, front, ssl);
      RunKeepsFlag(cfg, front, ssl);
      if CarriesBytes(e) {
        EndStep(cfg, Steps(cfg, front), e, RequestStream(front), ResponseStream(front));
      } else {
        SkippedBytesOf(e);
        SkippedStep(cfg, Steps(cfg, front), e);
        assert RequestStream(front) + [] == RequestStream(front) && ResponseStream(front) + [] == ResponseStream(front);
      }
    }
  }

  lemma {:induction false} LackingEnd(d: Bytes, x: Bytes, y: Bytes)
    requires EndsWith(d, x) && Lacks(d + y)
    ensures EndsWith(d + y, x + y) && !HasPreface(x + y) && EndsWith(d + y, [])
  {
    hide At, HasPreface;
    EndGrows(d, x, y);
    EndHasNone(d + y, x + y);
  }

  lemma {:induction false} EndStep(cfg: CaptureConfig, c: Contents, e: Event, r: Bytes, s: Bytes)
    requires CarriesBytes(e) && FlagIs(c, e.ssl) && !c.h2 && EndsWith(r, c.req) && EndsWith(s, c.resp)
    requires Lacks(r + RequestBytes(e)) && Lacks(s + ResponseBytes(e))
    ensures var d := Step(cfg, c, e);
            !d.h2 && EndsWith(r + RequestBytes(e), d.req) && EndsWith(s + ResponseBytes(e), d.resp)
  {
    hide Lacks, RequestBytes, ResponseBytes, EndsWith, DrainContent, HasPreface;
    assert SwitchContent(c, e) == c.(ssl := e.ssl);
    var g := c.(ssl := e.ssl, req := c.req + RequestBytes(e), resp := c.resp + ResponseBytes(e));
    LackingEnd(r, c.req, RequestBytes(e));
    LackingEnd(s, c.resp, ResponseBytes(e));
    DrainLeavesEnds(cfg, g);
    EndOfEnd(r + RequestBytes(e), g.req, DrainContent(cfg, g, false).req);
    EndOfEnd(s + ResponseBytes(e), g.resp, DrainContent(cfg, g, false).resp);
    SkippedSide(e);
    assert r + [] == r && s + [] == s;
  }

  lemma {:induction false} SkippedSide(e: Event)
    ensures if RoutesToRequest(e) then ResponseBytes(e) == [] else RequestBytes(e) == []
  {
  }

  lemma {:induction false} DrainLeavesEnds(cfg: CaptureConfig, c: Contents)
    requires !c.h2
    ensures var d := DrainContent(cfg, c, false);
            !d.h2 && EndsWith(c.req, d.req) && EndsWith(c.resp, d.resp)
  {
    hide IsPrefaceCandidate, Loop, AnswerLoop;
    LoopLeavesEnd(cfg.base.engine.requests, c.req);
    var rs := c.waiting + Loop(cfg.base.engine.requests, c.req).messages;
    AnswerLoopLeavesEnd(cfg.base.engine.responses(false), c.resp, rs);
  }

  // ---- The exact streams ------------------------------------------------------------------------------------

  /** The library keeps what it has recognised before a preface that some cut of r leaves, or else in the
      whole of both streams, of which then no cut leaves a preface among the responses. */
  ghost predicate KeepsToPreface(lib: Library, r: Bytes, s: Bytes) {
    || (exists k: nat :: k <= |r| && HasPreface(CutLeaves(EngineOf(lib), r, k)) && KeepsRequests(lib, r[..k]))
    || (KeepsStreams(lib, r, s) && NoResponsePreface(EngineOf(lib), r, s))
  }

  /** Some capture of r and s changes to HTTP/2 exactly when some cut of r leaves the preface. */
  lemma {:induction false} ModeIff(cfg: CaptureConfig, lib: Library, ssl: bool, r: Bytes, s: Bytes)
    requires cfg.base.engine == EngineOf(lib) && KeepsToPreface(lib, r, s)
    requires |r| <= cfg.base.maxStreamBytes && |s| <= cfg.base.maxStreamBytes
    ensures (exists es :: Feeds(es, ssl, r, s) && ChangesMode(cfg, es)) <==> !NoRequestPreface(EngineOf(lib), r)
  {
    hide Feeds, Plain, ChangesMode, KeepsStreams, NoResponsePreface, EngineOf, Steps, CutLeaves, HasPreface, KeepsRequests;
    if NoRequestPreface(EngineOf(lib), r) {
      SourceIsPlain(cfg, lib, r, s);
      forall es | Feeds(es, ssl, r, s) ensures !ChangesMode(cfg, es) {
        var k, m := RunAgrees(cfg, es, ssl, r, s);
        ModeOnSteps(cfg, es);
      }
    } else {
      var k := KeptToPreface(lib, r, s);
      PrefaceChangesMode(cfg, lib, ssl, r, s, k);
    }
  }

  lemma {:induction false} KeptToPreface(lib: Library, r: Bytes, s: Bytes) returns (k: nat)
    requires KeepsToPreface(lib, r, s) && !NoRequestPreface(EngineOf(lib), r)
    ensures k <= |r| && HasPreface(CutLeaves(EngineOf(lib), r, k)) && KeepsRequests(lib, r[..k])
  {
    hide KeepsStreams, NoResponsePreface, EngineOf, CutLeaves, HasPreface, KeepsRequests;
    k :| k <= |r| && HasPreface(CutLeaves(EngineOf(lib), r, k))
         && (KeepsRequests(lib, r[..k]) || KeepsStreams(lib, r, s));
    if KeepsStreams(lib, r, s) {
      StreamsKeepRequests(lib, r, s);
      KeepsFront(lib, r, k);
    }
  }

  // ---- The same bytes in one chunk and in two -----------------------------------------------------------------

  lemma {:induction false} PrefaceChunk(ssl: bool)
    ensures var e := ChunkOf(PREFACE, Read, ssl);
            CarriesBytes(e) && RequestBytes(e) == PREFACE && ResponseBytes(e) == [] && e.ssl == ssl
  {
    hide First, ChunkOf, CarriesBytes, RequestBytes, ResponseBytes;
    PieceShowsNothing(PREFACE[0], 1, |PREFACE|);
    assert [PREFACE[0]] + PREFACE[1..|PREFACE|] == PREFACE;
    PieceIsRequest(PREFACE, ssl);
  }

  lemma {:induction false} PrefaceArrives(cfg: CaptureConfig, c: Contents, ssl: bool)
    requires FlagIs(c, ssl) && c.req == [] && c.resp == [] && |PREFACE| <= cfg.base.maxStreamBytes
    ensures Step(cfg, c, ChunkOf(PREFACE, Read, ssl)).h2
  {
    hide DrainContent, ChunkOf, RequestBytes, ResponseBytes, CarriesBytes;
    var e := ChunkOf(PREFACE, Read, ssl);
    PrefaceChunk(ssl);
    assert c.req + PREFACE == PREFACE && c.resp + [] == [];
    assert HasPreface(PREFACE);
    assert SwitchContent(c, e) == c.(ssl := ssl);
    H2DrainIsH2(cfg, c.(ssl := ssl, req := PREFACE, h2 := true));
  }

  lemma {:induction false} OneChunkKeepsMode(cfg: CaptureConfig, h: Bytes, ssl: bool)
    requires MarkAt(METHODS, h, 0) && |h| < TWO32
    ensures |h| > 0 && !Steps(cfg, [ChunkOf(h, Read, ssl)]).h2
  {
    hide Step, MarkAt, ChunkOf, RequestBytes, ResponseBytes, CarriesBytes, HasPreface;
    RequestChunk(h, ssl);
    var e := ChunkOf(h, Read, ssl);
    EmptyHasNone();
    assert NOTHING.req + h == h && NOTHING.resp + [] == [];
    StaysHttp1(cfg, NOTHING, e);
    assert [e][..0] == [];
  }

  lemma {:induction false} TwoChunksChangeMode(cfg: CaptureConfig, lib: Library, h: Bytes, q: Request, ssl: bool)
    requires cfg.base.engine == EngineOf(lib) && IsRequest(lib, h, q) && 0 < |h| && |h + PREFACE| <= cfg.base.maxStreamBytes < TWO32
    ensures Steps(cfg, [ChunkOf(h, Read, ssl), ChunkOf(PREFACE, Read, ssl)]).h2
  {
    hide Step, Steps, MarkAt, ParseOneRequest, EngineOf, ChunkOf;
    RequestStep(cfg, lib, h, q, ssl);
    StepsOfTwo(cfg, ChunkOf(h, Read, ssl), ChunkOf(PREFACE, Read, ssl));
    PrefaceArrives(cfg, AfterRequest(q, ssl), ssl);
  }

  /** A stream in two captures: a request and then the preface change the mode when they come as two
      chunks, and do not when they come as one. */
  lemma {:induction false} ModeDependsOnChunks(cfg: CaptureConfig, lib: Library, h: Bytes, q: Request, ssl: bool)
    requires cfg.base.engine == EngineOf(lib) && IsRequest(lib, h, q) && 0 < |h| && |h + PREFACE| <= cfg.base.maxStreamBytes < TWO32
    ensures var one, two := [ChunkOf(h + PREFACE, Read, ssl)], [ChunkOf(h, Read, ssl), ChunkOf(PREFACE, Read, ssl)];
            RequestStream(one) == RequestStream(two) && !ChangesMode(cfg, one) && ChangesMode(cfg, two)
  {
    hide ChangesMode, Steps, MarkAt, ParseOneRequest, EngineOf, ChunkOf, RequestStream, RequestBytes, CarriesBytes;
    var one, d, e := ChunkOf(h + PREFACE, Read, ssl), ChunkOf(h, Read, ssl), ChunkOf(PREFACE, Read, ssl);
    MarkAtGrows(METHODS, h, PREFACE, 0);
    OneChunkKeepsMode(cfg, h + PREFACE, ssl);
    TwoChunksChangeMode(cfg, lib, h, q, ssl);
    ModeOnSteps(cfg, [one]);
    ModeOnSteps(cfg, [d, e]);
    RequestChunk(h, ssl);
    RequestChunk(h + PREFACE, ssl);
    PrefaceChunk(ssl);
    StreamsOfOne(one);
    RequestsOfTwo(d, e);
  }
}
