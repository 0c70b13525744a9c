/** Capture sessions on two streams without the preface: what any run has said, one run that is held back
    and says nothing, one that says all, and one that ends drained (cmd/karaxys-capture/process.go). */
module HeldRuns {
  import opened Words
  import opened HttpTokens
  import opened Drain
  import opened Session
  import opened Reassembly
  import opened Routing
  import opened Capture
  import opened TlsSwitch
  import opened H2Sessions
  import opened Cuts
  import C = CaptureReassembly

  // ---- Runs on streams without the preface ---------------------------------------------------------

  /** es brings r to the request side and s to the response side, in chunks of one kind. */
  ghost predicate Feeds(es: seq<Event>, ssl: bool, r: Bytes, s: Bytes) {
    Uniform(es, ssl) && RequestStream(es) == r && ResponseStream(es) == s
  }

  /** Streams that keep a session to HTTP/1: within the limit, and no cut leaves the preface in front; on
      them the loops find again what they have found, and ignore the starts of a preface. */
  ghost predicate Plain(cfg: CaptureConfig, r: Bytes, s: Bytes) {
    && Good(cfg.base.engine, r, s)
    && NoRequestPreface(cfg.base.engine, r) && NoResponsePreface(cfg.base.engine, r, s)
    && |r| <= cfg.base.maxStreamBytes && |s| <= cfg.base.maxStreamBytes
  }

  lemma {:induction false} PlainFront(cfg: CaptureConfig, r: Bytes, s: Bytes, x: Bytes, y: Bytes)
    requires Plain(cfg, r + x, s + y)
    ensures Plain(cfg, r, s)
  {
    hide Good, NoRequestPreface, NoResponsePreface;
    GoodFront(cfg.base.engine, r, s, x, y);
    NoRequestPrefaceFront(cfg.base.engine, r, x);
    NoResponsePrefaceFront(cfg.base.engine, r, s, x, y);
  }

  lemma {:induction false} StaysHttp1(cfg: CaptureConfig, c: Contents, e: Event)
    requires CarriesBytes(e) && FlagIs(c, e.ssl) && !c.h2
    requires !HasPreface(c.req + RequestBytes(e)) && !HasPreface(c.resp + ResponseBytes(e))
    ensures !Step(cfg, c, e).h2
  {
    assert SwitchContent(c, e) == c.(ssl := e.ssl);
  }

  lemma {:induction false} DrainNowLeavesEnds(engine: Engine, c: Contents)
    ensures var d := C.DrainNow(engine, c);
            d.req == Left(engine, c.req) && EndsWith(c.resp, d.resp) && d.ssl == c.ssl && d.h2 == c.h2
  {
    hide Loop, AnswerLoop;
    var rs := c.waiting + Loop(engine.requests, c.req).messages;
    AnswerLoopCounts(engine.responses(false), c.resp, rs);
    AnswerLoopLeavesEnd(engine.responses(false), c.resp, rs);
    C.FoundContents(c, Loop(engine.requests, c.req), AnswerLoop(engine.responses(false), c.resp, rs));
  }

  /** The state of a run on r and s: an HTTP/1 session whose request buffer is what some cut leaves. */
  ghost predicate Tracks(engine: Engine, c: Contents, r: Bytes, s: Bytes, k: nat) {
    && !c.h2 && k <= |r| && c.req == CutLeaves(engine, r, k) && EndsWith(s, c.resp)
    && (k == |r| || IsPrefaceCandidate(c.req))
  }

  lemma {:induction false} SinceTracks(engine: Engine, c: Contents, r: Bytes, s: Bytes, j: nat, m: nat)
    requires C.Since(engine, c, r, s, j, m) && !c.h2
    ensures Tracks(engine, c, r, s, j) && c.resp == AnswersLeave(engine, r, s, j, m)
  {
    hide Loop, AnswerLoop, IsPrefaceCandidate, EndsWith;
    var was := C.Both(r[..j], s[..m], c.ssl);
    var rs := Loop(engine.requests, r[..j]);
    assert was.waiting + rs.messages == rs.messages;
    AnswerLoopCounts(engine.responses(false), s[..m], rs.messages);
    C.FoundContents(was, rs, AnswerLoop(engine.responses(false), s[..m], rs.messages));
    AnswersGrow(engine, r, s, [], [], j, m);
  }

  /** The next event of a run on plain streams fits and keeps the session to HTTP/1. */
  lemma {:induction false} PlainStep(cfg: CaptureConfig, c: Contents, e: Event, r: Bytes, s: Bytes, j: nat, m: nat)
    requires C.Since(cfg.base.engine, c.(ssl := e.ssl), r, s, j, m) && !c.h2
    requires CarriesBytes(e) && FlagIs(c, e.ssl) && Plain(cfg, r + RequestBytes(e), s + ResponseBytes(e))
    ensures !Step(cfg, c, e).h2
    ensures |c.req + RequestBytes(e)| <= cfg.base.maxStreamBytes && |c.resp + ResponseBytes(e)| <= cfg.base.maxStreamBytes
  {
    hide Step, Good, C.Since, CutLeaves, AnswersLeave, HasPreface, IsPrefaceCandidate, RequestBytes, ResponseBytes;
    var engine, x, y := cfg.base.engine, RequestBytes(e), ResponseBytes(e);
    SinceTracks(engine, c.(ssl := e.ssl), r, s, j, m);
    CutGrows(engine, r, x, j);
    CutGrows(engine, r + x, [], j);
    SinceBounds(engine, c.(ssl := e.ssl), r, s, j, m);
    AnswersGrow(engine, r, s, x, y, j, m);
    AnswersGrow(engine, r + x, s + y, [], [], j, m);
    assert !HasPreface(CutLeaves(engine, r + x, j)) && !HasPreface(AnswersLeave(engine, r + x, s + y, j, m));
    StaysHttp1(cfg, c, e);
  }

  lemma {:induction false} SinceBounds(engine: Engine, c: Contents, r: Bytes, s: Bytes, j: nat, m: nat)
    requires C.Since(engine, c, r, s, j, m)
    ensures j <= |r| && m <= |s|
  {
  }

  /** Any run on plain streams stays an HTTP/1 session, fits, and holds what some cut leaves. */
  lemma {:induction false} RunSince(cfg: CaptureConfig, es: seq<Event>, ssl: bool) returns (j: nat, m: nat)
    requires Uniform(es, ssl) && Plain(cfg, RequestStream(es), ResponseStream(es))
    ensures C.Fitting(cfg, es) && !Steps(cfg, es).h2
    ensures C.Since(cfg.base.engine, Steps(cfg, es).(ssl := ssl), RequestStream(es), ResponseStream(es), j, m)
    decreases |es|
  {
    hide Step, C.Since, Plain;
    if |es| == 0 {
      j, m := 0, 0;
      C.SinceNothing(cfg.base.engine, ssl);
    } else {
      hide RequestBytes, ResponseBytes;
      var front, e := es[..|es| - 1], es[|es| - 1];
      var c, r, s := Steps(cfg, front), RequestStream(front), ResponseStream(front);
      PlainFront(cfg, r, s, RequestBytes(e), ResponseBytes(e));
      j, m := RunSince(cfg, front, ssl);
      RunKeepsFlag(cfg, front, ssl);
      if CarriesBytes(e) {
        PlainStep(cfg, c, e, r, s, j, m);
        PlainIsStable(cfg, r + RequestBytes(e), s + ResponseBytes(e));
        j, m := C.SinceStep(cfg, c, e, r, s, j, m);
        assert Step(cfg, c, e).(ssl := ssl) == Step(cfg, c, e);
      } else {
        SkippedStep(cfg, c, e);
        C.NoBytes(e);
        assert r + [] == r && s + [] == s;
        SinceFits(cfg, c.(ssl := ssl), r, s, j, m);
        assert c.req + [] == c.req && c.resp + [] == c.resp;
      }
    }
  }

  lemma {:induction false} PlainIsStable(cfg: CaptureConfig, r: Bytes, s: Bytes)
    requires Plain(cfg, r, s)
    ensures StableStreams(cfg.base.engine, r, s)
  {
  }

  lemma {:induction false} SinceFits(cfg: CaptureConfig, c: Contents, r: Bytes, s: Bytes, j: nat, m: nat)
    requires C.Since(cfg.base.engine, c, r, s, j, m) && !c.h2 && Plain(cfg, r, s)
    ensures |c.req| <= cfg.base.maxStreamBytes && |c.resp| <= cfg.base.maxStreamBytes
  {
    hide Good, NoRequestPreface, NoResponsePreface, CutLeaves, AnswersLeave;
    SinceTracks(cfg.base.engine, c, r, s, j, m);
    CutGrows(cfg.base.engine, r, [], j);
  }

  // ---- What any run has said --------------------------------------------------------------------

  /** What draining the two whole streams once gives. */
  function WholeDrain(engine: Engine, r: Bytes, s: Bytes, ssl: bool): Contents {
    C.DrainNow(engine, C.Both(r, s, ssl))
  }

  lemma {:induction false} RunAgrees(cfg: CaptureConfig, es: seq<Event>, ssl: bool, r: Bytes, s: Bytes) returns (k: nat, m: nat)
    requires Feeds(es, ssl, r, s) && Plain(cfg, r, s)
    ensures C.Agrees(cfg.base.engine, Steps(cfg, es).(ssl := ssl), C.Both(r, s, ssl))
    ensures C.Since(cfg.base.engine, Steps(cfg, es).(ssl := ssl), r, s, k, m)
    ensures Tracks(cfg.base.engine, Steps(cfg, es), r, s, k)
  {
    hide C.Agrees, C.Since, Steps, Plain, C.Fitting, Uniform, CutLeaves, IsPrefaceCandidate;
    k, m := RunSince(cfg, es, ssl);
    PlainIsStable(cfg, r, s);
    C.SinceAgrees(cfg.base.engine, Steps(cfg, es).(ssl := ssl), r, s, k, m);
    SinceTracks(cfg.base.engine, Steps(cfg, es).(ssl := ssl), r, s, k, m);
  }

  lemma {:induction false} DrainNowSays(engine: Engine, c: Contents)
    ensures c.pairs <= C.DrainNow(engine, c).pairs
    ensures c.resp == [] ==> C.DrainNow(engine, c).pairs == c.pairs
  {
    hide Loop;
    var rs := c.waiting + Loop(engine.requests, c.req).messages;
    AnswerLoopCounts(engine.responses(false), c.resp, rs);
    assert |rs| > 0 ==> Fits(c.resp, engine.responses(false)(rs[0])(c.resp));
  }

  /** No run has said more than the whole streams say, nor anything before the first response byte. */
  lemma {:induction false} RunSays(cfg: CaptureConfig, es: seq<Event>, ssl: bool, r: Bytes, s: Bytes)
    requires Feeds(es, ssl, r, s) && Plain(cfg, r, s)
    ensures Steps(cfg, es).pairs <= WholeDrain(cfg.base.engine, r, s, ssl).pairs
    ensures s == [] ==> Steps(cfg, es).pairs == []
  {
    hide Steps, Feeds, Plain, C.DrainNow, IsPrefaceCandidate;
    var k, m := RunAgrees(cfg, es, ssl, r, s);
    DrainNowSays(cfg.base.engine, Steps(cfg, es).(ssl := ssl));
    DrainNowSays(cfg.base.engine, C.Both(r, s, ssl));
  }

  /** A run that is not held back is what draining the whole streams gives. */
  lemma {:induction false} UnheldIsWhole(cfg: CaptureConfig, es: seq<Event>, ssl: bool, r: Bytes, s: Bytes)
    requires Feeds(es, ssl, r, s) && Plain(cfg, r, s)
    requires !IsPrefaceCandidate(Steps(cfg, es).req)
    ensures Steps(cfg, es).(ssl := ssl) == WholeDrain(cfg.base.engine, r, s, ssl)
  {
    hide Steps, Feeds, Plain, C.DrainNow, IsPrefaceCandidate, Tracks;
    var k, m := RunAgrees(cfg, es, ssl, r, s);
  }

  lemma {:induction false} PrefaceStartsOnce(n: nat)
    requires PROBE_WINDOW < n < |PREFACE|
    ensures !IsPart(Tail(PREFACE[..n]))
  {
    assert PREFACE[..n][n - PROBE_WINDOW] == PREFACE[n - PROBE_WINDOW];
    assert Tail(PREFACE[..n])[0] == PREFACE[n - PROBE_WINDOW] != 80;
    assert PREFACE[..PROBE_WINDOW][0] == 80;
  }

  lemma {:induction false} TailIsPart(d: Bytes)
    requires IsPart(d) && IsPart(Tail(d))
    ensures Tail(d) == d
  {
    if |d| > PROBE_WINDOW {
      PrefaceStartsOnce(|d|);
    }
  }

  /** A cut of a plain stream that is held back is the start of a preface, in which nothing is found. */
  lemma {:induction false} HeldCut(cfg: CaptureConfig, r: Bytes, s: Bytes, k: nat)
    requires Plain(cfg, r, s) && k <= |r| && IsPrefaceCandidate(CutLeaves(cfg.base.engine, r, k))
    ensures IsPart(CutLeaves(cfg.base.engine, r, k)) && |CutLeaves(cfg.base.engine, r, k)| > 0
    ensures Loop(cfg.base.engine.requests, CutLeaves(cfg.base.engine, r, k)).messages == []
    ensures Left(cfg.base.engine, CutLeaves(cfg.base.engine, r, k)) == Tail(CutLeaves(cfg.base.engine, r, k))
  {
    hide StableStreams, SettledEngine, IgnoresPreface, NoResponsePreface, HasPreface, IsPrefaceCandidate, IsPart, CutLeaves, Loop, Left, Tail;
    CandidateIsPart(CutLeaves(cfg.base.engine, r, k));
    IgnoredCut(cfg.base.engine, r, k);
  }

  /** When the start of a preface, or nothing, is left of the stream so far, every run holds just that. */
  lemma {:induction false} CutBuffer(cfg: CaptureConfig, es: seq<Event>, ssl: bool, r: Bytes, s: Bytes)
    requires Feeds(es, ssl, r, s) && Plain(cfg, r, s)
    requires IsPart(Left(cfg.base.engine, r))
    ensures Steps(cfg, es).req == Left(cfg.base.engine, r)
  {
    hide Steps, Plain, Feeds, C.DrainNow, C.Since, IsPrefaceCandidate, HasPreface, Left, CutLeaves, IsPart, Tail;
    var engine := cfg.base.engine;
    var k, m := RunAgrees(cfg, es, ssl, r, s);
    var c := Steps(cfg, es);
    DrainNowLeavesEnds(engine, c.(ssl := ssl));
    DrainNowLeavesEnds(engine, C.Both(r, s, ssl));
    if IsPrefaceCandidate(c.req) {
      HeldCut(cfg, r, s, k);
      TailIsPart(c.req);
    }
  }

  // ---- A run that is held back ---------------------------------------------------------------------

  lemma {:induction false} HeldStep(cfg: CaptureConfig, c: Contents, e: Event)
    requires CarriesBytes(e) && c.ssl == e.ssl && !c.h2
    requires IsPart(c.req + RequestBytes(e)) && |c.req| > 0 && !HasPreface(c.resp + ResponseBytes(e))
    requires |c.req + RequestBytes(e)| <= cfg.base.maxStreamBytes && |c.resp + ResponseBytes(e)| <= cfg.base.maxStreamBytes
    ensures Step(cfg, c, e) == C.Grow(c, RequestBytes(e), ResponseBytes(e))
  {
  }

  /** Once the start of a preface is in the buffer, events that continue it, and any responses, are only
      added to what is there. */
  lemma {:induction false} HeldOn(cfg: CaptureConfig, es: seq<Event>, fs: seq<Event>, ssl: bool)
    requires Uniform(es + fs, ssl) && !Steps(cfg, es).h2 && |Steps(cfg, es).req| > 0
    requires IsPart(Steps(cfg, es).req + RequestStream(fs)) && !HasPreface(Steps(cfg, es).resp + ResponseStream(fs))
    requires |Steps(cfg, es).req + RequestStream(fs)| <= cfg.base.maxStreamBytes
    requires |Steps(cfg, es).resp + ResponseStream(fs)| <= cfg.base.maxStreamBytes
    ensures Steps(cfg, es + fs) == C.Grow(Steps(cfg, es), RequestStream(fs), ResponseStream(fs))
    decreases |fs|
  {
    var c := Steps(cfg, es);
    if |fs| == 0 {
      assert es + fs == es && c.req + [] == c.req && c.resp + [] == c.resp;
    } else {
      hide Step, Steps, IsPart, Uniform, HasPreface, RequestBytes, ResponseBytes;
      var front, e := fs[..|fs| - 1], fs[|fs| - 1];
      var x, y := RequestStream(front), ResponseStream(front);
      Associates(c.req, x, RequestBytes(e));
      Associates(c.resp, y, ResponseBytes(e));
      PartFront(c.req + x, RequestBytes(e));
      PrefaceStays(c.resp + y, ResponseBytes(e));
      UniformFront(es, fs, ssl);
      StepsGoOn(cfg, es, fs);
      HeldOn(cfg, es, front, ssl);
      var d := Steps(cfg, es + front);
      RunKeepsFlag(cfg, es + front, ssl);
      if CarriesBytes(e) {
        HeldStep(cfg, d, e);
      } else {
        SkippedStep(cfg, d, e);
        C.NoBytes(e);
      }
    }
  }

  lemma {:induction false} UniformJoin(es: seq<Event>, fs: seq<Event>, ssl: bool)
    requires Uniform(es, ssl) && Uniform(fs, ssl)
    ensures Uniform(es + fs, ssl)
  {
  }

  lemma {:induction false} FeedsJoin(es: seq<Event>, fs: seq<Event>, ssl: bool, r: Bytes, s: Bytes, x: Bytes, y: Bytes)
    requires Feeds(es, ssl, r, s) && Feeds(fs, ssl, x, y)
    ensures Feeds(es + fs, ssl, r + x, s + y)
  {
    hide Uniform;
    UniformJoin(es, fs, ssl);
    StreamsJoin(es, fs);
  }

  lemma {:induction false} BytesFeed(w: Bytes, d: Direction, ssl: bool)
    ensures Feeds(BytesOf(w, d, ssl), ssl, if d == Read then w else [], if d == Read then [] else w)
    decreases |w|
  {
    BytesOfIsChunking(w, d, ssl);
    BytesAreUniform(w, d, ssl);
  }

  lemma {:induction false} BytesAreUniform(w: Bytes, d: Direction, ssl: bool)
    ensures Uniform(BytesOf(w, d, ssl), ssl)
    decreases |w|
  {
    if |w| > 0 {
      BytesAreUniform(w[..|w| - 1], d, ssl);
    }
  }

  lemma {:induction false} BothFeed(r: Bytes, s: Bytes, ssl: bool)
    ensures Feeds(BytesOf(r, Read, ssl) + BytesOf(s, Write, ssl), ssl, r, s)
    ensures Feeds(BytesOf(s, Write, ssl) + BytesOf(r, Read, ssl), ssl, r, s)
  {
    hide Feeds;
    BytesFeed(r, Read, ssl);
    BytesFeed(s, Write, ssl);
    FeedsJoin(BytesOf(r, Read, ssl), BytesOf(s, Write, ssl), ssl, r, [], [], s);
    FeedsJoin(BytesOf(s, Write, ssl), BytesOf(r, Read, ssl), ssl, [], s, r, []);
    assert r + [] == r && [] + s == s && [] + r == r && s + [] == s;
  }

  /** The part of the stream drained before a cut leaves the start of a preface, and nothing said. */
  lemma {:induction false} CutRun(cfg: CaptureConfig, ssl: bool, a: Bytes)
    requires Plain(cfg, a, []) && IsPart(Left(cfg.base.engine, a))
    ensures var c := Steps(cfg, BytesOf(a, Read, ssl));
            c.req == Left(cfg.base.engine, a) && c.resp == [] && c.pairs == [] && !c.h2
  {
    hide Steps, Plain, Left, IsPart, C.Since;
    var es := BytesOf(a, Read, ssl);
    BytesFeed(a, Read, ssl);
    CutBuffer(cfg, es, ssl, a, []);
    RunSays(cfg, es, ssl, a, []);
    var k, m := RunAgrees(cfg, es, ssl, a, []);
  }

  lemma {:induction false} WholeResponses(engine: Engine, r: Bytes, s: Bytes)
    requires NoResponsePreface(engine, r, s)
    ensures !HasPreface(s)
  {
    hide HasPreface, Loop;
    assert !HasPreface(AnswersLeave(engine, r, s, 0, 0));
    AnswerLoopLeavesEnd(engine.responses(false), [], Loop(engine.requests, []).messages);
    assert r[..0] == [] && s[..0] == [] && s[0..] == s && [] + s == s;
  }

  lemma {:induction false} StepsOneMore(cfg: CaptureConfig, es: seq<Event>, e: Event)
    ensures Steps(cfg, es + [e]) == Step(cfg, Steps(cfg, es), e)
  {
    hide Step;
    assert (es + [e])[..|es|] == es;
  }

  lemma {:induction false} OneByteFeeds(b: byte, ssl: bool)
    ensures Feeds([ChunkOf([b], Read, ssl)], ssl, [b], [])
  {
    hide ChunkOf, RequestStream, ResponseStream;
    var e := ChunkOf([b], Read, ssl);
    ByteIsRead(b, ssl);
    StreamsOfOne(e);
  }

  lemma {:induction false} FirstByte(cfg: CaptureConfig, c: Contents, b: byte, ssl: bool)
    requires FlagIs(c, ssl) && c.req == c.resp == [] && !c.h2 && IsPart([b]) && 0 < cfg.base.maxStreamBytes
    ensures Step(cfg, c, ChunkOf([b], Read, ssl)) == c.(ssl := ssl, req := [b])
  {
    hide Step, ChunkOf, RequestBytes, ResponseBytes, CarriesBytes, C.DrainNow;
    var e := ChunkOf([b], Read, ssl);
    ByteIsRead(b, ssl);
    assert c.req + [b] == [b] && c.resp + [] == [];
    StaysHttp1(cfg, c, e);
    C.Http1Step(cfg, c, e);
  }

  lemma {:induction false} PartNext(r: Bytes, k: nat)
    requires k < |r| && IsPart([] + r[k..])
    ensures IsPart([r[k]]) && [] + r[k..] == [r[k]] + r[k + 1..]
  {
    assert [] + r[k..] == [r[k]] + r[k + 1..];
    PartFront([r[k]], r[k + 1..]);
  }

  /** Byte by byte up to the cut, or one byte further: the session holds the start of a preface. */
  lemma {:induction false} FirstHeld(cfg: CaptureConfig, ssl: bool, r: Bytes, k: nat) returns (es: seq<Event>, n: nat)
    requires k <= |r| <= cfg.base.maxStreamBytes && Plain(cfg, r[..k], [])
    requires IsPart(CutLeaves(cfg.base.engine, r, k)) && |CutLeaves(cfg.base.engine, r, k)| > 0
    ensures k <= n <= |r| && Feeds(es, ssl, r[..n], [])
    ensures var c := Steps(cfg, es);
            c.req + r[n..] == CutLeaves(cfg.base.engine, r, k) && |c.req| > 0 && c.resp == [] && c.pairs == [] && !c.h2
  {
    hide Steps, Plain, Feeds, Left, IsPart;
    var a := r[..k];
    PartFront(Left(cfg.base.engine, a), r[k..]);
    CutRun(cfg, ssl, a);
    BytesFeed(a, Read, ssl);
    es, n := BytesOf(a, Read, ssl), k;
    if |Left(cfg.base.engine, a)| == 0 {
      n := k + 1;
      es := OneMoreHeld(cfg, ssl, r, k, es);
    }
  }

  lemma {:induction false} OneMoreHeld(cfg: CaptureConfig, ssl: bool, r: Bytes, k: nat, es: seq<Event>) returns (fs: seq<Event>)
    requires k < |r| <= cfg.base.maxStreamBytes && Feeds(es, ssl, r[..k], [])
    requires Steps(cfg, es).req == [] && Steps(cfg, es).resp == [] && !Steps(cfg, es).h2 && IsPart([] + r[k..])
    ensures Feeds(fs, ssl, r[..k + 1], []) && Steps(cfg, fs) == Steps(cfg, es).(ssl := ssl, req := [r[k]])
    ensures [r[k]] + r[k + 1..] == [] + r[k..]
  {
    hide Steps, Step, Feeds, IsPart, ChunkOf;
    PartNext(r, k);
    FeedsUniform(es, ssl, r[..k], []);
    RunKeepsFlag(cfg, es, ssl);
    FirstByte(cfg, Steps(cfg, es), r[k], ssl);
    StepsOneMore(cfg, es, ChunkOf([r[k]], Read, ssl));
    OneByteFeeds(r[k], ssl);
    FeedsJoin(es, [ChunkOf([r[k]], Read, ssl)], ssl, r[..k], [], [r[k]], []);
    var none: Bytes := [];
    assert r[..k] + [r[k]] == r[..k + 1] && none + none == none;
    fs := es + [ChunkOf([r[k]], Read, ssl)];
  }

  /** The rest of the stream and all responses are then only added. */
  lemma {:induction false} HeldBehind(cfg: CaptureConfig, ssl: bool, r: Bytes, s: Bytes, k: nat) returns (es: seq<Event>)
    requires k <= |r| <= cfg.base.maxStreamBytes && |s| <= cfg.base.maxStreamBytes
    requires Plain(cfg, r[..k], []) && !HasPreface(s)
    requires IsPart(CutLeaves(cfg.base.engine, r, k)) && |CutLeaves(cfg.base.engine, r, k)| > 0
    ensures Feeds(es, ssl, r, s)
    ensures var c := Steps(cfg, es);
            c.req == CutLeaves(cfg.base.engine, r, k) && c.resp == s && c.pairs == [] && !c.h2
  {
    hide Steps, Plain, CutLeaves, IsPart, HasPreface, RequestStream, ResponseStream, Uniform;
    CutGrows(cfg.base.engine, r, [], k);
    var hs, n := FirstHeld(cfg, ssl, r, k);
    var fs := BytesOf(r[n..], Read, ssl) + BytesOf(s, Write, ssl);
    BothFeed(r[n..], s, ssl);
    FeedsJoin(hs, fs, ssl, r[..n], [], r[n..], s);
    Rejoin(r, n, n);
    assert [] + s == s;
    HeldOn(cfg, hs, fs, ssl);
    es := hs + fs;
  }

  lemma {:induction false} PlainCut(cfg: CaptureConfig, r: Bytes, s: Bytes)
    requires Plain(cfg, r, s)
    ensures StableOn(cfg.base.engine.requests, r) && IgnoresPreface(cfg.base.engine, r) && NoRequestPreface(cfg.base.engine, r)
    ensures |r| <= cfg.base.maxStreamBytes && |s| <= cfg.base.maxStreamBytes && !HasPreface(s)
  {
    hide StableOn, AnswersStableOn, SettledEngine, IgnoresPreface, NoRequestPreface, NoResponsePreface, HasPreface;
    WholeResponses(cfg.base.engine, r, s);
  }

  /** A stream that can be held back is, when it comes byte by byte before its responses: the session ends
      with what that cut leaves, and has said nothing. */
  lemma {:induction false} HeldRun(cfg: CaptureConfig, ssl: bool, r: Bytes, s: Bytes) returns (es: seq<Event>)
    requires Plain(cfg, r, s) && CanBeHeld(cfg.base.engine, r)
    ensures Feeds(es, ssl, r, s)
    ensures IsPrefaceCandidate(Steps(cfg, es).req) && Steps(cfg, es).pairs == [] && !Steps(cfg, es).h2
  {
    hide Steps, Plain, Feeds, IsPart, IsPrefaceCandidate, HasPreface, CutLeaves;
    var i: nat :| i <= |r| && IsPrefaceCandidate(CutLeaves(cfg.base.engine, r, i));
    HeldCut(cfg, r, s, i);
    PlainCut(cfg, r, s);
    assert r[..i] + r[i..] == r && [] + s == s;
    PlainFront(cfg, r[..i], [], r[i..], s);
    es := HeldBehind(cfg, ssl, r, s, i);
  }

  // ---- A run that says everything ---------------------------------------------------------------------

  /** No response in the buffer answers a waiting request. */
  predicate Idle(engine: Engine, c: Contents) {
    AnswerLoop(engine.responses(false), c.resp, c.waiting).drained.messages == []
  }

  lemma {:induction false} DrainedIsIdle(engine: Engine, c: Contents)
    requires SettledEngine(engine)
    ensures Idle(engine, C.DrainNow(engine, c))
  {
    hide Loop;
    var rs := c.waiting + Loop(engine.requests, c.req).messages;
    AnswerLoopSettles(engine.responses(false), c.resp, rs);
  }

  lemma {:induction false} IdleStep(cfg: CaptureConfig, c: Contents, e: Event)
    requires SettledEngine(cfg.base.engine) && Idle(cfg.base.engine, c)
    requires CarriesBytes(e) && FlagIs(c, e.ssl) && ResponseBytes(e) == []
    requires |c.req + RequestBytes(e)| <= cfg.base.maxStreamBytes && |c.resp + ResponseBytes(e)| <= cfg.base.maxStreamBytes
    requires !c.h2 && !Step(cfg, c, e).h2
    ensures Idle(cfg.base.engine, Step(cfg, c, e))
  {
    hide SettledEngine, C.DrainNow, Step;
    C.Http1Step(cfg, c, e);
    DrainedIsIdle(cfg.base.engine, C.Grow(c.(ssl := e.ssl), RequestBytes(e), ResponseBytes(e)));
    assert c.resp + [] == c.resp;
  }

  /** With all responses there first, every request is answered as soon as it is drained. */
  lemma {:induction false} IdleOn(cfg: CaptureConfig, ssl: bool, r: Bytes, s: Bytes)
    requires Plain(cfg, r, s)
    ensures Idle(cfg.base.engine, Steps(cfg, BytesOf(s, Write, ssl) + BytesOf(r, Read, ssl)))
    decreases |r|
  {
    hide Step, Steps, Plain, Idle, Uniform, C.DrainNow, C.Since, ChunkOf, RequestBytes, ResponseBytes, CutLeaves;
    PlainSettles(cfg, r, s);
    var es, fs := BytesOf(s, Write, ssl), BytesOf(r, Read, ssl);
    if |r| == 0 {
      assert es + fs == es;
      BytesFeed(s, Write, ssl);
      var k, m := RunAgrees(cfg, es, ssl, [], s);
      CutGrows(cfg.base.engine, [], [], k);
      UnheldIsWhole(cfg, es, ssl, [], s);
      DrainedIsIdle(cfg.base.engine, C.Both([], s, ssl));
      IdleFlag(cfg.base.engine, Steps(cfg, es), ssl);
    } else {
      var front, b := r[..|r| - 1], r[|r| - 1];
      var e := ChunkOf([b], Read, ssl);
      assert r == front + [b] && s == s + [];
      PlainFront(cfg, front, s, [b], []);
      IdleOn(cfg, ssl, front, s);
      StepsGoOn(cfg, es, fs);
      ByteIsRead(b, ssl);
      BothFeed(front, s, ssl);
      var head := es + BytesOf(front, Read, ssl);
      var k, m := RunAgrees(cfg, head, ssl, front, s);
      RunKeepsFlag(cfg, head, ssl);
      PlainStep(cfg, Steps(cfg, head), e, front, s, k, m);
      IdleStep(cfg, Steps(cfg, head), e);
    }
  }

  lemma {:induction false} PlainSettles(cfg: CaptureConfig, r: Bytes, s: Bytes)
    requires Plain(cfg, r, s)
    ensures SettledEngine(cfg.base.engine)
  {
  }

  lemma {:induction false} IdleFlag(engine: Engine, c: Contents, ssl: bool)
    ensures Idle(engine, c.(ssl := ssl)) <==> Idle(engine, c)
  {
  }

  lemma {:induction false} ByteIsRead(b: byte, ssl: bool)
    ensures var e := ChunkOf([b], Read, ssl);
            CarriesBytes(e) && RequestBytes(e) == [b] && ResponseBytes(e) == [] && e.ssl == ssl
  {
    ByteShowsNothing(b, Read, ssl);
  }

  /** A held and idle session has nothing to say. */
  lemma {:induction false} HeldIdleSays(engine: Engine, c: Contents)
    requires Idle(engine, c) && Loop(engine.requests, c.req).messages == []
    ensures C.DrainNow(engine, c).pairs == c.pairs
  {
    assert c.waiting + [] == c.waiting;
  }

  /** When the responses come first, the session says all that the whole streams say. */
  lemma {:induction false} EagerRun(cfg: CaptureConfig, ssl: bool, r: Bytes, s: Bytes) returns (es: seq<Event>)
    requires Plain(cfg, r, s)
    ensures Feeds(es, ssl, r, s) && Steps(cfg, es).pairs == WholeDrain(cfg.base.engine, r, s, ssl).pairs
  {
    hide Steps, Plain, Feeds, C.DrainNow, C.Since, IsPrefaceCandidate, CutLeaves, Idle, IsPart, Loop;
    es := BytesOf(s, Write, ssl) + BytesOf(r, Read, ssl);
    BothFeed(r, s, ssl);
    var c := Steps(cfg, es);
    var k, m := RunAgrees(cfg, es, ssl, r, s);
    if IsPrefaceCandidate(c.req) {
      IdleOn(cfg, ssl, r, s);
      IdleFlag(cfg.base.engine, c, ssl);
      HeldCut(cfg, r, s, k);
      HeldIdleSays(cfg.base.engine, c.(ssl := ssl));
    }
  }

  // ---- A run that is not held back ---------------------------------------------------------------------

  lemma {:induction false} LeastHeld(engine: Engine, r: Bytes, k: nat) returns (i: nat)
    requires k <= |r| && IsPrefaceCandidate(CutLeaves(engine, r, k))
    ensures i <= |r| && IsPrefaceCandidate(CutLeaves(engine, r, i))
    ensures forall j: nat :: j < i ==> !IsPrefaceCandidate(CutLeaves(engine, r, j))
    decreases k
  {
    hide CutLeaves, IsPrefaceCandidate;
    if j: nat :| j < k && IsPrefaceCandidate(CutLeaves(engine, r, j)) {
      i := LeastHeld(engine, r, j);
    } else {
      i := k;
    }
  }

  lemma {:induction false} PrefaceBytes(i: nat)
    requires i < |PREFACE|
    ensures PREFACE[i] != 49 && PREFACE[i] != 0
  {
  }

  /** Any byte and a piece of the preface show no status line, and are no counter. */
  lemma {:induction false} PieceShowsNothing(b: byte, m: nat, n: nat)
    requires m <= n <= |PREFACE|
    ensures First(STATUS, [b] + PREFACE[m..n]) == -1 && !IsCounterNoise([b] + PREFACE[m..n])
  {
    var p := [b] + PREFACE[m..n];
    forall i | 1 <= i < |p| ensures p[i] != 49 && p[i] != 0 {
      PrefaceBytes(m + i - 1);
    }
    forall j: nat ensures !At(p, j, HTTP1) {
      if At(p, j, HTTP1) {
        AtEach(p, j, HTTP1, 5);
      }
    }
    assert |p| == 8 ==> p[1] != 0;
    assert STATUS == [HTTP1];
    assert forall j: nat :: !MarkAt(STATUS, p, j);
  }

  lemma {:induction false} PieceIsRequest(p: Bytes, ssl: bool)
    requires 0 < |p| < TWO32 && First(STATUS, p) == -1 && !IsCounterNoise(p)
    ensures var e := ChunkOf(p, Read, ssl);
            CarriesBytes(e) && RequestBytes(e) == p && ResponseBytes(e) == [] && e.ssl == ssl
  {
    hide First;
    assert Payload(ChunkOf(p, Read, ssl)) == p;
  }

  /** The piece of the preface that a cut has not drained. */
  lemma {:induction false} CutRest(engine: Engine, r: Bytes, i: nat) returns (m: nat, n: nat)
    requires i <= |r| && IsPart(CutLeaves(engine, r, i))
    ensures m <= n < |PREFACE| && r[i..] == PREFACE[m..n]
  {
    var cut := CutLeaves(engine, r, i);
    m, n := |Left(engine, r[..i])|, |cut|;
    assert r[i..] == cut[m..] == PREFACE[..n][m..];
  }

  /** Bytes up to just before the least cut that could be held back, then the rest as one chunk. */
  function LateEvents(r: Bytes, s: Bytes, i: nat, ssl: bool): seq<Event>
    requires 0 < i <= |r| && |r| - i < |PREFACE|
  {
    (BytesOf(s, Write, ssl) + BytesOf(r[..i - 1], Read, ssl)) + [ChunkOf(r[i - 1..], Read, ssl)]
  }

  lemma {:induction false} LateFeed(engine: Engine, r: Bytes, s: Bytes, i: nat, ssl: bool)
    requires 0 < i <= |r| && IsPart(CutLeaves(engine, r, i))
    ensures |r| - i < |PREFACE| && Feeds(LateEvents(r, s, i, ssl), ssl, r, s)
    ensures var e := ChunkOf(r[i - 1..], Read, ssl);
            CarriesBytes(e) && RequestBytes(e) == r[i - 1..] && ResponseBytes(e) == [] && e.ssl == ssl
  {
    hide ChunkOf, CarriesBytes, RequestBytes, ResponseBytes, CutLeaves, IsPart, RequestStream, ResponseStream;
    var m, n := CutRest(engine, r, i);
    assert r[i - 1..] == [r[i - 1]] + PREFACE[m..n];
    PieceShowsNothing(r[i - 1], m, n);
    PieceIsRequest(r[i - 1..], ssl);
    var e := ChunkOf(r[i - 1..], Read, ssl);
    StreamsOfOne(e);
    BothFeed(r[..i - 1], s, ssl);
    FeedsJoin(BytesOf(s, Write, ssl) + BytesOf(r[..i - 1], Read, ssl), [e], ssl, r[..i - 1], s, r[i - 1..], []);
    assert r[..i - 1] + r[i - 1..] == r && s + [] == s;
  }

  /** Unless the whole stream is the start of a preface, or leaves one, some run is not held back. */
  lemma {:induction false} LateRun(cfg: CaptureConfig, ssl: bool, r: Bytes, s: Bytes) returns (es: seq<Event>)
    requires Plain(cfg, r, s) && CanBeHeld(cfg.base.engine, r)
    requires !IsPrefaceCandidate(r) && !IsPrefaceCandidate(Left(cfg.base.engine, r))
    ensures Feeds(es, ssl, r, s) && !IsPrefaceCandidate(Steps(cfg, es).req)
  {
    hide Step, Steps, Plain, Feeds, C.DrainNow, IsPrefaceCandidate, IsPart, Left, ChunkOf, HasPreface;
    var engine := cfg.base.engine;
    var k: nat :| k <= |r| && IsPrefaceCandidate(CutLeaves(engine, r, k));
    var i := LeastHeld(engine, r, k);
    NothingCut(engine, r);
    HeldCut(cfg, r, s, i);
    LateFeed(engine, r, s, i, ssl);
    es := LateEvents(r, s, i, ssl);
    LateEnd(cfg, ssl, r, s, i);
  }

  lemma {:induction false} NothingCut(engine: Engine, r: Bytes)
    ensures CutLeaves(engine, r, 0) == r
  {
    LoopLeavesEnd(engine.requests, []);
    assert r[..0] == [] && r[0..] == r;
  }

  lemma {:induction false} LateEnd(cfg: CaptureConfig, ssl: bool, r: Bytes, s: Bytes, i: nat)
    requires Plain(cfg, r, s)
    requires 0 < i <= |r| && |r| - i < |PREFACE| && Feeds(LateEvents(r, s, i, ssl), ssl, r, s)
    requires var e := ChunkOf(r[i - 1..], Read, ssl);
             CarriesBytes(e) && RequestBytes(e) == r[i - 1..] && ResponseBytes(e) == [] && e.ssl == ssl
    requires forall j: nat :: j < i ==> !IsPrefaceCandidate(CutLeaves(cfg.base.engine, r, j))
    requires !IsPrefaceCandidate(Left(cfg.base.engine, r))
    ensures !IsPrefaceCandidate(Steps(cfg, LateEvents(r, s, i, ssl)).req)
  {
    hide Step, Plain, Feeds, C.DrainNow, C.Since, IsPrefaceCandidate, CutLeaves, Left, ChunkOf, RequestBytes, ResponseBytes;
    var engine := cfg.base.engine;
    var front, a, b := BytesOf(s, Write, ssl) + BytesOf(r[..i - 1], Read, ssl), r[..i - 1], r[i - 1..];
    var e, es := ChunkOf(b, Read, ssl), LateEvents(r, s, i, ssl);
    assert a + b == r && s + [] == s;
    PlainFront(cfg, a, s, b, []);
    BothFeed(a, s, ssl);
    FeedsUniform(front, ssl, a, s);
    var k, m := RunAgrees(cfg, front, ssl, a, s);
    var c := Steps(cfg, front);
    RunKeepsFlag(cfg, front, ssl);
    PlainStep(cfg, c, e, a, s, k, m);
    CutGrows(engine, a, b, k);
    PlainCut(cfg, r, s);
    C.Http1Step(cfg, c, e);
    var g := C.Grow(c.(ssl := ssl), b, []);
    assert !IsPrefaceCandidate(g.req);
    DrainNowLeavesEnds(engine, g);
    LeftOfCut(engine, r, k);
    assert es[..|es| - 1] == front;
  }

  lemma {:induction false} FeedsUniform(es: seq<Event>, ssl: bool, r: Bytes, s: Bytes)
    requires Feeds(es, ssl, r, s)
    ensures Uniform(es, ssl)
  {
  }
}
