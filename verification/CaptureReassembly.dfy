/** Confluence for the capture binary's HTTP/1 sessions, and its one exception: while the request
    buffer may still become the HTTP/2 preface nothing is drained (cmd/karaxys-capture/process.go). */
module CaptureReassembly {
  import opened HttpTokens
  import opened HttpParsing
  import opened Drain
  import opened Session
  import opened Reassembly
  import opened Routing
  import opened Capture
  import opened TlsSwitch
  import opened H2Sessions

  /** Both loops have run and found these messages. */
  function Found(c: Contents, requests: Drained<Request>, a: Answered<Request, Response>): Contents
    requires |a.drained.messages| <= |c.waiting + requests.messages|
  {
    c.(req := requests.rest, resp := a.drained.rest, waiting := a.left,
       pairs := c.pairs + Pairs(c.waiting + requests.messages, a.drained.messages))
  }

  /** The two loops, run whatever the request buffer looks like. */
  function DrainNow(engine: Engine, c: Contents): Contents {
    var requests := Loop(engine.requests, c.req);
    var rs := c.waiting + requests.messages;
    AnswerLoopCounts(engine.responses(false), c.resp, rs);
    Found(c, requests, AnswerLoop(engine.responses(false), c.resp, rs))
  }

  function Grow(c: Contents, x: Bytes, y: Bytes): Contents {
    c.(req := c.req + x, resp := c.resp + y)
  }

  lemma {:induction false} FoundTwice(c: Contents, r: Drained<Request>, a: Answered<Request, Response>,
                                      r': Drained<Request>, a': Answered<Request, Response>, x: Bytes, y: Bytes)
    requires |a.drained.messages| <= |c.waiting + r.messages|
    requires a.left == (c.waiting + r.messages)[|a.drained.messages|..]
    requires |a'.drained.messages| <= |a.left + r'.messages|
    ensures Found(Grow(Found(c, r, a), x, y), r', a')
         == Found(Grow(c, x, y), r.Then(r'), Answered(a.drained.Then(a'.drained), a'.left))
  {
    hide Pairs;
    var rs := c.waiting + r.messages;
    PairsJoin(rs, a.drained.messages, r'.messages, a'.drained.messages);
    Associates(c.waiting, r.messages, r'.messages);
    Associates(c.pairs, Pairs(rs, a.drained.messages), Pairs(a.left + r'.messages, a'.drained.messages));
  }

  /** What both loops find in c they find again with x and y behind it. */
  ghost predicate Foretold(engine: Engine, c: Contents, x: Bytes, y: Bytes) {
    && LoopForetells(engine.requests, c.req, x)
    && AnswersForetell(engine.responses(false), c.resp, y, c.waiting + Loop(engine.requests, c.req).messages)
  }

  /** Draining now and again after more bytes is draining once after them. */
  lemma {:induction false} DrainNowComposes(engine: Engine, c: Contents, x: Bytes, y: Bytes)
    requires Foretold(engine, c, x, y)
    ensures DrainNow(engine, Grow(DrainNow(engine, c), x, y)) == DrainNow(engine, Grow(c, x, y))
  {
    hide Loop, AnswerLoop, Found, LoopForetells, AnswersForetell;
    var f := engine.responses(false);
    var r := Loop(engine.requests, c.req);
    var rs := c.waiting + r.messages;
    var a := AnswerLoop(f, c.resp, rs);
    var r' := Loop(engine.requests, r.rest + x);
    var a' := AnswerLoop(f, a.drained.rest + y, a.left + r'.messages);
    LoopComposes(engine.requests, c.req, x);
    AnswerLoopComposes(f, c.resp, y, rs, r'.messages);
    AnswerLoopCounts(f, c.resp, rs);
    AnswerLoopCounts(f, a.drained.rest + y, a.left + r'.messages);
    FoundTwice(c, r, a, r', a', x, y);
    assert c.waiting + (r.messages + r'.messages) == rs + r'.messages;
    FoundContents(c, r, a);
  }

  lemma {:induction false} FoundContents(c: Contents, r: Drained<Request>, a: Answered<Request, Response>)
    requires |a.drained.messages| <= |c.waiting + r.messages|
    ensures var d := Found(c, r, a); d.req == r.rest && d.resp == a.drained.rest && d.waiting == a.left
  {
  }

  /** No event of the run pushes a buffer over the limit. */
  ghost predicate Fitting(cfg: CaptureConfig, es: seq<Event>) {
    |es| == 0 ||
    var c, e := Steps(cfg, es[..|es| - 1]), es[|es| - 1];
    && Fitting(cfg, es[..|es| - 1])
    && |c.req + RequestBytes(e)| <= cfg.base.maxStreamBytes
    && |c.resp + ResponseBytes(e)| <= cfg.base.maxStreamBytes
  }

  /** Both streams, not drained at all. */
  function Both(r: Bytes, s: Bytes, ssl: bool): Contents {
    NOTHING.(req := r, resp := s, ssl := ssl)
  }

  lemma {:induction false} BothForetold(engine: Engine, r: Bytes, s: Bytes, j: nat, m: nat, ssl: bool)
    requires StableStreams(engine, r, s) && j <= |r| && m <= |s|
    ensures Foretold(engine, Both(r[..j], s[..m], ssl), r[j..], s[m..])
    ensures Grow(Both(r[..j], s[..m], ssl), r[j..], s[m..]) == Both(r, s, ssl)
  {
    hide StableStreams, LoopForetells, AnswersForetell, Loop;
    assert r[..j] + r[j..] == r && s[..m] + s[m..] == s;
    StableFront(engine, r[..j], s[..m], r[j..], s[m..]);
    assert [] + Loop(engine.requests, r[..j]).messages == Loop(engine.requests, r[..j]).messages;
  }

  /** One event of an HTTP/1 session that fits: the bytes are added, and drained unless held back. */
  lemma {:induction false} Http1Step(cfg: CaptureConfig, c: Contents, e: Event)
    requires CarriesBytes(e) && FlagIs(c, e.ssl)
    requires |c.req + RequestBytes(e)| <= cfg.base.maxStreamBytes && |c.resp + ResponseBytes(e)| <= cfg.base.maxStreamBytes
    requires !c.h2 && !Step(cfg, c, e).h2
    ensures var g := Grow(c.(ssl := e.ssl), RequestBytes(e), ResponseBytes(e));
            Step(cfg, c, e) == if IsPrefaceCandidate(g.req) then g else DrainNow(cfg.base.engine, g)
  {
    assert SwitchContent(c, e) == c.(ssl := e.ssl);
  }

  /** Draining c gives what draining s does, and c is drained unless its request buffer is held. */
  ghost predicate Agrees(engine: Engine, c: Contents, s: Contents) {
    DrainNow(engine, c) == DrainNow(engine, s) && (!IsPrefaceCandidate(c.req) ==> c == DrainNow(engine, s))
  }

  /** A session on the streams r and s that was last drained when it had the first j and m bytes of them,
      and since then was held back. */
  ghost predicate Since(engine: Engine, c: Contents, r: Bytes, s: Bytes, j: nat, m: nat) {
    && j <= |r| && m <= |s|
    && c == Grow(DrainNow(engine, Both(r[..j], s[..m], c.ssl)), r[j..], s[m..])
    && (IsPrefaceCandidate(c.req) || (j == |r| && m == |s|))
  }

  lemma {:induction false} SinceNothing(engine: Engine, ssl: bool)
    ensures Since(engine, NOTHING.(ssl := ssl), [], [], 0, 0)
  {
    assert Fits([], engine.requests([]));
    assert [] + [] == NOTHING.pairs;
  }

  lemma {:induction false} GrowNothing(c: Contents)
    ensures Grow(c, [], []) == c
  {
    assert c.req + [] == c.req && c.resp + [] == c.resp;
  }

  lemma {:induction false} GrowTwice(c: Contents, x: Bytes, y: Bytes, x': Bytes, y': Bytes)
    ensures Grow(Grow(c, x, y), x', y') == Grow(c, x + x', y + y')
  {
    Associates(c.req, x, x');
    Associates(c.resp, y, y');
  }

  lemma {:induction false} SinceAgrees(engine: Engine, c: Contents, r: Bytes, s: Bytes, j: nat, m: nat)
    requires StableStreams(engine, r, s) && Since(engine, c, r, s, j, m)
    ensures Agrees(engine, c, Both(r, s, c.ssl))
  {
    hide StableStreams, DrainNow, IsPrefaceCandidate, Foretold;
    BothForetold(engine, r, s, j, m, c.ssl);
    DrainNowComposes(engine, Both(r[..j], s[..m], c.ssl), r[j..], s[m..]);
    GrowNothing(DrainNow(engine, Both(r, s, c.ssl)));
    assert r[..|r|] == r && s[..|s|] == s && r[|r|..] == [] && s[|s|..] == [];
  }

  /** One more event: still held back since the same time, or drained now. */
  lemma {:induction false} SinceStep(cfg: CaptureConfig, c: Contents, e: Event, r: Bytes, s: Bytes, j: nat, m: nat) returns (j': nat, m': nat)
    requires Since(cfg.base.engine, c.(ssl := e.ssl), r, s, j, m)
    requires StableStreams(cfg.base.engine, r + RequestBytes(e), s + ResponseBytes(e))
    requires CarriesBytes(e) && FlagIs(c, e.ssl) && !c.h2 && !Step(cfg, c, e).h2
    requires |c.req + RequestBytes(e)| <= cfg.base.maxStreamBytes && |c.resp + ResponseBytes(e)| <= cfg.base.maxStreamBytes
    ensures Since(cfg.base.engine, Step(cfg, c, e), r + RequestBytes(e), s + ResponseBytes(e), j', m')
    ensures Step(cfg, c, e).ssl == e.ssl
  {
    hide Step, StableStreams, DrainNow, IsPrefaceCandidate, Foretold, RequestBytes, ResponseBytes;
    var engine, x, y := cfg.base.engine, RequestBytes(e), ResponseBytes(e);
    Http1Step(cfg, c, e);
    var was := Both(r[..j], s[..m], e.ssl);
    var g := Grow(c.(ssl := e.ssl), x, y);
    GrowTwice(DrainNow(engine, was), r[j..], s[m..], x, y);
    CutJoins(r, x, j);
    CutJoins(s, y, m);
    if IsPrefaceCandidate(g.req) {
      j', m' := j, m;
    } else {
      j', m' := |r + x|, |s + y|;
      BothForetold(engine, r + x, s + y, j, m, e.ssl);
      DrainNowComposes(engine, was, (r + x)[j..], (s + y)[m..]);
      var now := DrainNow(engine, Both(r + x, s + y, e.ssl));
      GrowNothing(now);
      assert (r + x)[..j'] == r + x && (s + y)[..m'] == s + y && (r + x)[j'..] == [] && (s + y)[m'..] == [];
      DrainNowKeepsFlag(engine, Both(r + x, s + y, e.ssl));
    }
    DrainNowKeepsFlag(engine, was);
  }

  lemma {:induction false} DrainNowKeepsFlag(engine: Engine, c: Contents)
    ensures DrainNow(engine, c).ssl == c.ssl
  {
  }

  lemma {:induction false} CutJoins(r: Bytes, x: Bytes, j: nat)
    requires j <= |r|
    ensures (r + x)[..j] == r[..j] && (r + x)[j..] == r[j..] + x
  {
  }

  lemma {:induction false} FittingFront(cfg: CaptureConfig, es: seq<Event>, ssl: bool)
    requires |es| > 0 && Fitting(cfg, es) && Uniform(es, ssl) && !Steps(cfg, es).h2
    ensures var front, e := es[..|es| - 1], es[|es| - 1];
            var c := Steps(cfg, front);
            && Fitting(cfg, front) && Uniform(front, ssl) && Steps(cfg, es) == Step(cfg, c, e) && FlagIs(c, ssl) && !c.h2
            && |c.req + RequestBytes(e)| <= cfg.base.maxStreamBytes && |c.resp + ResponseBytes(e)| <= cfg.base.maxStreamBytes
            && (CarriesBytes(e) ==> e.ssl == ssl && (Step(cfg, c, e).ssl == ssl))
            && (!CarriesBytes(e) ==> Step(cfg, c, e) == c)
  {
    hide Step, RequestBytes, ResponseBytes;
    var front, e := es[..|es| - 1], es[|es| - 1];
    var c := Steps(cfg, front);
    RunKeepsFlag(cfg, front, ssl);
    StepKeepsSsl(cfg, c, e);
    if CarriesBytes(e) {
      if c.h2 {
        StepKeepsH2(cfg, c, e);
      }
    } else {
      SkippedStep(cfg, c, e);
    }
  }

  /** Confluence: what a run holds, drained once more, is what draining the two whole streams gives;
      and it is drained already unless the request buffer could still become the preface. */
  lemma {:induction false} Http1RunIsDrainOfStreams(cfg: CaptureConfig, es: seq<Event>, ssl: bool) returns (j: nat, m: nat)
    requires StableStreams(cfg.base.engine, RequestStream(es), ResponseStream(es))
    requires Uniform(es, ssl) && Fitting(cfg, es) && !Steps(cfg, es).h2
    ensures Since(cfg.base.engine, Steps(cfg, es).(ssl := ssl), RequestStream(es), ResponseStream(es), j, m)
    ensures Agrees(cfg.base.engine, Steps(cfg, es).(ssl := ssl), Both(RequestStream(es), ResponseStream(es), ssl))
    decreases |es|
  {
    hide StableStreams, Since, Agrees;
    if |es| == 0 {
      j, m := 0, 0;
      SinceNothing(cfg.base.engine, ssl);
    } else {
      hide Step, Steps, Fitting, Uniform, RequestBytes, ResponseBytes;
      var front, e := es[..|es| - 1], es[|es| - 1];
      var c, r, s := Steps(cfg, front), RequestStream(front), ResponseStream(front);
      FittingFront(cfg, es, ssl);
      StableFront(cfg.base.engine, r, s, RequestBytes(e), ResponseBytes(e));
      j, m := Http1RunIsDrainOfStreams(cfg, front, ssl);
      if CarriesBytes(e) {
        j, m := SinceStep(cfg, c, e, r, s, j, m);
        assert Step(cfg, c, e).(ssl := ssl) == Step(cfg, c, e);
      } else {
        NoBytes(e);
        assert r + [] == r && s + [] == s;
      }
    }
    SinceAgrees(cfg.base.engine, Steps(cfg, es).(ssl := ssl), RequestStream(es), ResponseStream(es), j, m);
  }

  lemma {:induction false} NoBytes(e: Event)
    requires !CarriesBytes(e)
    ensures RequestBytes(e) == [] && ResponseBytes(e) == []
  {
  }
}
