/** The output of a session depends on the two byte streams routed to it, and on nothing else:
    not on the chunks they came in, nor on how requests and responses were interleaved. */
module Reassembly {
  import opened HttpTokens
  import opened HttpParsing
  import opened Drain
  import opened Session

  // ---- What a run is given and what it gives ----------------------------------

  function RequestBytes(e: Event): Bytes {
    if CarriesBytes(e) && RoutesToRequest(e) then Payload(e) else []
  }

  function ResponseBytes(e: Event): Bytes {
    if CarriesBytes(e) && !RoutesToRequest(e) then Payload(e) else []
  }

  function RequestStream(es: seq<Event>): Bytes {
    if |es| == 0 then [] else RequestStream(es[..|es| - 1]) + RequestBytes(es[|es| - 1])
  }

  function ResponseStream(es: seq<Event>): Bytes {
    if |es| == 0 then [] else ResponseStream(es[..|es| - 1]) + ResponseBytes(es[|es| - 1])
  }

  /** The (request, response) pairs of a list of conversations. */
  function Exchanges(cs: seq<Conversation>): (ps: seq<(Request, Response)>)
    ensures |ps| == |cs| && forall i :: 0 <= i < |cs| ==> ps[i] == (cs[i].req, cs[i].resp)
  {
    seq(|cs|, i requires 0 <= i < |cs| => (cs[i].req, cs[i].resp))
  }

  function Pairs(rs: seq<Request>, answers: seq<Response>): (ps: seq<(Request, Response)>)
    requires |answers| <= |rs|
    ensures |ps| == |answers| && forall i :: 0 <= i < |ps| ==> ps[i] == (rs[i], answers[i])
  {
    seq(|answers|, i requires 0 <= i < |answers| => (rs[i], answers[i]))
  }

  /** No event of the run pushes a buffer over the limit. */
  ghost predicate NoOverflow(cfg: Config, es: seq<Event>) {
    |es| == 0 ||
    (NoOverflow(cfg, es[..|es| - 1]) &&
     (CarriesBytes(es[|es| - 1]) ==> !Overflows(cfg, Run(cfg, es[..|es| - 1]).session, es[|es| - 1])))
  }

  // ---- What an engine must satisfy ----------------------------------------------

  /** On these two streams, wherever they are cut, what the loops find they find again when more bytes
      are there: nothing is asked of the parsers on any other bytes. */
  ghost predicate StableStreams(engine: Engine, r: Bytes, s: Bytes) {
    && StableOn(engine.requests, r)
    && AnswersStableOn(engine.responses(false), s, Loop(engine.requests, r).messages)
  }

  /** What holds of two streams holds of their beginnings. */
  lemma {:induction false} StableFront(engine: Engine, r: Bytes, s: Bytes, x: Bytes, y: Bytes)
    requires StableStreams(engine, r + x, s + y)
    ensures StableStreams(engine, r, s)
    ensures LoopForetells(engine.requests, r, x)
    ensures AnswersForetell(engine.responses(false), s, y, Loop(engine.requests, r).messages)
  {
    hide StableOn, AnswersStableOn, Loop, LoopForetells, AnswersForetell;
    StableOnFront(engine.requests, r, x);
    LoopComposes(engine.requests, r, x);
    var now := Loop(engine.requests, r);
    AnswersStableOnFront(engine.responses(false), s, y, now.messages, Loop(engine.requests, now.rest + x).messages);
  }

  ghost predicate SettledEngine(engine: Engine) {
    SettledScan(engine.requests) && forall close, q :: SettledScan(engine.responses(close)(q))
  }

  /** What a request stream asks of the library: a request that the loop recognises in a part of it begins
      with a token and is recognised the same when the bytes after that part are there. */
  ghost predicate KeepsRequests(lib: Library, r: Bytes) {
    KeptOn(METHODS, RequestParser(lib), r)
  }

  /** What two streams ask of it: the same of the requests in one and the responses to them in the other. */
  ghost predicate KeepsStreams(lib: Library, r: Bytes, s: Bytes) {
    && KeepsRequests(lib, r)
    && AnswersKeptOn(STATUS, (q: Request) => ResponseParser(lib, q, false), s, Loop(EngineOf(lib).requests, r).messages)
  }

  lemma {:induction false} AnswersAreStable(lib: Library, s: Bytes, rs: seq<Request>)
    requires AnswersKeptOn(STATUS, (q: Request) => ResponseParser(lib, q, false), s, rs)
    ensures AnswersStableOn(EngineOf(lib).responses(false), s, rs)
  {
    hide AnswersKept, AnswersForetell, SyncSafe;
    StatusIsSyncSafe();
    var f := (q: Request) => ResponseParser(lib, q, false);
    forall j, k | 0 <= j <= k <= |s| ensures AnswersForetell(EngineOf(lib).responses(false), s[..j], s[j..k], rs) {
      AnswersKeptForetell(STATUS, f, EngineOf(lib).responses(false), s[..j], s[j..k], rs);
    }
  }

  /** Then the loops of the source are stable on them. */
  lemma {:induction false} EngineOfIsStable(lib: Library, r: Bytes, s: Bytes)
    requires KeepsStreams(lib, r, s)
    ensures StableStreams(EngineOf(lib), r, s)
  {
    hide LoopKept, AnswersKeptOn, LoopForetells, AnswersStableOn, Loop, SyncSafe;
    MethodsAreSyncSafe();
    forall j, k | 0 <= j <= k <= |r| ensures LoopForetells(EngineOf(lib).requests, r[..j], r[j..k]) {
      LoopKeptForetells(METHODS, RequestParser(lib), r[..j], r[j..k]);
    }
    AnswersAreStable(lib, s, Loop(EngineOf(lib).requests, r).messages);
  }

  /** A library that keeps what it has recognised in any buffer keeps any streams. */
  lemma {:induction false} StableKeeps(lib: Library, r: Bytes, s: Bytes)
    requires Stable(lib)
    ensures KeepsStreams(lib, r, s)
  {
    hide LoopKept, AnswersKept, Loop;
    forall d, x ensures Kept(METHODS, RequestParser(lib), d, x) {
      assert RequestKept(lib, d, x);
    }
    forall j, k | 0 <= j <= k <= |r| ensures LoopKept(METHODS, RequestParser(lib), r[..j], r[j..k]) {
      AlwaysKept(METHODS, RequestParser(lib), r[..j], r[j..k]);
    }
    var rs := Loop(EngineOf(lib).requests, r).messages;
    var f := (q: Request) => ResponseParser(lib, q, false);
    forall q, d, x ensures Kept(STATUS, f(q), d, x) {
      assert ResponseKept(lib, d, x, q);
    }
    forall j, k | 0 <= j <= k <= |s| ensures AnswersKept(STATUS, f, s[..j], s[j..k], rs) {
      AnswersAlwaysKept(STATUS, f, s[..j], s[j..k], rs);
    }
  }

  /** The engine of the source settles with any library. */
  lemma {:induction false} EngineOfSettles(lib: Library)
    ensures SettledEngine(EngineOf(lib))
  {
    hide SyncSafe, SettledScan, ScanFor;
    MethodsAreSyncSafe();
    StatusIsSyncSafe();
    ScanForSettles(METHODS, RequestParser(lib));
    forall close, q ensures SettledScan(EngineOf(lib).responses(close)(q)) {
      ScanForSettles(STATUS, ResponseParser(lib, q, close));
    }
  }

  // ---- Both loops together --------------------------------------------------------

  datatype Whole = Whole(requests: Drained<Request>, answers: Answered<Request, Response>)

  /** Draining both streams once, from scratch. */
  function DrainStreams(engine: Engine, reqs: Bytes, resps: Bytes): Whole {
    var requests := Loop(engine.requests, reqs);
    Whole(requests, AnswerLoop(engine.responses(false), resps, requests.messages))
  }

  /** Draining what is left of w, together with x more request bytes and y more response bytes. */
  function DrainOn(engine: Engine, w: Whole, x: Bytes, y: Bytes, close: bool): Whole {
    var requests := Loop(engine.requests, w.requests.rest + x);
    Whole(requests, AnswerLoop(engine.responses(close), w.answers.drained.rest + y, w.answers.left + requests.messages))
  }

  function Join(w: Whole, on: Whole): Whole {
    Whole(w.requests.Then(on.requests), Answered(w.answers.drained.Then(on.answers.drained), on.answers.left))
  }

  lemma {:induction false} DrainStreamsComposes(engine: Engine, reqs: Bytes, resps: Bytes, x: Bytes, y: Bytes)
    requires LoopForetells(engine.requests, reqs, x)
    requires AnswersForetell(engine.responses(false), resps, y, Loop(engine.requests, reqs).messages)
    ensures var w := DrainStreams(engine, reqs, resps);
            DrainStreams(engine, reqs + x, resps + y) == Join(w, DrainOn(engine, w, x, y, false))
  {
    LoopComposes(engine.requests, reqs, x);
    var requests := Loop(engine.requests, reqs);
    var more := Loop(engine.requests, requests.rest + x);
    AnswerLoopComposes(engine.responses(false), resps, y, requests.messages, more.messages);
  }

  /** The state of w is the drain whole: same leftovers, same waiting requests, same pairs out. */
  ghost predicate SessionIs(w: Work, whole: Whole) {
    && w.session.reqData == whole.requests.rest
    && w.session.respData == whole.answers.drained.rest
    && Requests(w.session.pending) == whole.answers.left
    && var n := |whole.answers.drained.messages|;
    && n <= |whole.requests.messages|
    && whole.answers.left == whole.requests.messages[n..]
    && Exchanges(w.out) == Pairs(whole.requests.messages, whole.answers.drained.messages)
  }

  /** The requests a drain has in hand for its responses, and what answering them gives. */
  lemma {:induction false} DrainAnswers(engine: Engine, s: Session, close: bool)
    ensures var requests := Loop(engine.requests, s.reqData);
            var rs := Requests(s.pending) + requests.messages;
            var a := AnswerLoop(engine.responses(close), s.respData, rs);
            && Requests(Waiting(s, requests)) == rs
            && Answers(engine, s.respData, Waiting(s, requests), close) == a.drained
            && |a.drained.messages| <= |rs| && a.left == rs[|a.drained.messages|..]
  {
    hide Loop, AnswerLoop;
    var requests := Loop(engine.requests, s.reqData);
    var rs := Requests(s.pending) + requests.messages;
    assert Requests(Waiting(s, requests)) == rs;
    AnswerLoopCounts(engine.responses(close), s.respData, rs);
  }

  /** What one drain does to the contents of a session, metadata aside. */
  lemma {:induction false} DrainContents(engine: Engine, v: Work, close: bool)
    ensures var requests := Loop(engine.requests, v.session.reqData);
            var rs := Requests(v.session.pending) + requests.messages;
            var a := AnswerLoop(engine.responses(close), v.session.respData, rs);
            var d := DrainSession(engine, v, close);
            && d.session.reqData == requests.rest
            && d.session.respData == a.drained.rest
            && Answers(engine, v.session.respData, Waiting(v.session, requests), close) == a.drained
            && |a.drained.messages| <= |rs|
            && Requests(d.session.pending) == a.left == rs[|a.drained.messages|..]
            && Exchanges(d.out) == Exchanges(v.out) + Pairs(rs, a.drained.messages)
  {
    hide Loop, AnswerLoop, Answers, Waiting, Requests, Converse, Exchanges, Pairs;
    DrainAnswers(engine, v.session, close);
    var pending := Waiting(v.session, Loop(engine.requests, v.session.reqData));
    ConverseContents(v.out, pending, Answers(engine, v.session.respData, pending, close).messages, v.session.loss);
  }

  lemma {:induction false} ConverseContents(out: seq<Conversation>, pending: seq<Pending>, answers: seq<Response>, loss: Loss)
    requires |answers| <= |pending|
    ensures Exchanges(out + Converse(pending, answers, loss)) == Exchanges(out) + Pairs(Requests(pending), answers)
    ensures Requests(pending[|answers|..]) == Requests(pending)[|answers|..]
  {
  }

  lemma {:induction false} DrainKeepsSessionIs(engine: Engine, w: Work, whole: Whole, x: Bytes, y: Bytes, v: Work, close: bool)
    requires SessionIs(w, whole)
    requires v.session.reqData == w.session.reqData + x && v.session.respData == w.session.respData + y
    requires v.session.pending == w.session.pending && v.out == w.out
    ensures SessionIs(DrainSession(engine, v, close), Join(whole, DrainOn(engine, whole, x, y, close)))
  {
    DrainContents(engine, v, close);
    var on := DrainOn(engine, whole, x, y, close);
    PairsJoin(whole.requests.messages, whole.answers.drained.messages, on.requests.messages, on.answers.drained.messages);
  }

  /** Pairing first with first and what is left with the rest is pairing the whole lists. */
  lemma {:induction false} PairsJoin(rs: seq<Request>, answers: seq<Response>, rs': seq<Request>, answers': seq<Response>)
    requires |answers| <= |rs| && |answers'| <= |rs[|answers|..] + rs'|
    ensures Pairs(rs + rs', answers + answers') == Pairs(rs, answers) + Pairs(rs[|answers|..] + rs', answers')
    ensures (rs[|answers|..] + rs')[|answers'|..] == (rs + rs')[|answers + answers'|..]
  {
    assert rs[|answers|..] + rs' == (rs + rs')[|answers|..];
  }

  lemma {:induction false} EmptyStreams(engine: Engine)
    ensures DrainStreams(engine, [], []) == Whole(Drained([], [], 0, 0), Answered(Drained([], [], 0, 0), []))
  {
    assert Fits([], engine.requests([]));
  }

  lemma {:induction false} ProcessIsDrain(cfg: Config, w: Work, e: Event, r: Bytes, s: Bytes)
    requires SessionIs(w, DrainStreams(cfg.engine, r, s)) && CarriesBytes(e) && !Overflows(cfg, w.session, e)
    requires LoopForetells(cfg.engine.requests, r, RequestBytes(e))
    requires AnswersForetell(cfg.engine.responses(false), s, ResponseBytes(e), Loop(cfg.engine.requests, r).messages)
    ensures SessionIs(Process(cfg, w, e), DrainStreams(cfg.engine, r + RequestBytes(e), s + ResponseBytes(e)))
  {
    hide LoopForetells, AnswersForetell, Loop, AnswerLoop, DrainStreams, DrainOn, SessionIs, DrainSession;
    var x, y := RequestBytes(e), ResponseBytes(e);
    DrainStreamsComposes(cfg.engine, r, s, x, y);
    var v := w.(session := Append(Admit(w.session, e), e));
    SameContents(w, e);
    DrainKeepsSessionIs(cfg.engine, w, DrainStreams(cfg.engine, r, s), x, y, v, false);
  }

  lemma {:induction false} SameContents(w: Work, e: Event)
    requires CarriesBytes(e)
    ensures var v := Append(Admit(w.session, e), e);
            && v.reqData == w.session.reqData + RequestBytes(e) && v.respData == w.session.respData + ResponseBytes(e)
            && v.pending == w.session.pending
  {
    hide ClassifyPayload;
  }

  /** The central theorem: a run without overflow leaves exactly the session, and has emitted
      exactly the pairs, that draining the two routed streams once gives. */
  lemma {:induction false} RunIsDrainOfStreams(cfg: Config, es: seq<Event>)
    requires StableStreams(cfg.engine, RequestStream(es), ResponseStream(es)) && NoOverflow(cfg, es)
    ensures SessionIs(Run(cfg, es), DrainStreams(cfg.engine, RequestStream(es), ResponseStream(es)))
    decreases |es|
  {
    hide StableStreams, LoopForetells, AnswersForetell, Loop, AnswerLoop, Process;
    if |es| == 0 {
      EmptyStreams(cfg.engine);
    } else {
      var front, e := es[..|es| - 1], es[|es| - 1];
      var r, s := RequestStream(front), ResponseStream(front);
      StableFront(cfg.engine, r, s, RequestBytes(e), ResponseBytes(e));
      RunIsDrainOfStreams(cfg, front);
      if CarriesBytes(e) {
        ProcessIsDrain(cfg, Run(cfg, front), e, r, s);
      } else {
        assert r + [] == r && s + [] == s;
      }
    }
  }

  /** Confluence: runs that route the same bytes to the two sides emit the same pairs, leave the
      same buffers and the same requests waiting, and a closing flush answers them the same. */
  lemma {:induction false} Confluence(cfg: Config, es: seq<Event>, fs: seq<Event>)
    requires StableStreams(cfg.engine, RequestStream(es), ResponseStream(es)) && NoOverflow(cfg, es) && NoOverflow(cfg, fs)
    requires RequestStream(es) == RequestStream(fs) && ResponseStream(es) == ResponseStream(fs)
    ensures var v, w := Run(cfg, es), Run(cfg, fs);
            && Exchanges(v.out) == Exchanges(w.out)
            && v.session.reqData == w.session.reqData && v.session.respData == w.session.respData
            && Requests(v.session.pending) == Requests(w.session.pending)
            && Exchanges(DrainSession(cfg.engine, v, true).out) == Exchanges(DrainSession(cfg.engine, w, true).out)
  {
    RunIsDrainOfStreams(cfg, es);
    RunIsDrainOfStreams(cfg, fs);
    DrainContents(cfg.engine, Run(cfg, es), true);
    DrainContents(cfg.engine, Run(cfg, fs), true);
  }

  /** Draining again with the same flag changes no buffer, no waiting request and no output. */
  lemma {:induction false} SecondDrainDoesNothing(engine: Engine, v: Work, close: bool)
    requires SettledEngine(engine)
    ensures var d := DrainSession(engine, v, close);
            var dd := DrainSession(engine, d, close);
            dd.session == d.session && dd.out == d.out
  {
    var d := DrainSession(engine, v, close);
    var requests := Loop(engine.requests, v.session.reqData);
    LoopSettles(engine.requests, v.session.reqData);
    DrainContents(engine, v, close);
    var rs := Requests(v.session.pending) + requests.messages;
    AnswerLoopSettles(engine.responses(close), v.session.respData, rs);
    assert Waiting(d.session, Loop(engine.requests, d.session.reqData)) == d.session.pending;
  }

  // ---- The source's own engine -------------------------------------------------------

  /** The same for the source's tokens and parse rules, given a library that keeps, in these streams, what
      it has recognised. */
  lemma {:induction false} SourceConfluence(lib: Library, max: nat, es: seq<Event>, fs: seq<Event>)
    requires KeepsStreams(lib, RequestStream(es), ResponseStream(es))
    requires var cfg := Config(EngineOf(lib), max); NoOverflow(cfg, es) && NoOverflow(cfg, fs)
    requires RequestStream(es) == RequestStream(fs) && ResponseStream(es) == ResponseStream(fs)
    ensures var cfg := Config(EngineOf(lib), max);
            var v, w := Run(cfg, es), Run(cfg, fs);
            && Exchanges(v.out) == Exchanges(w.out)
            && v.session.reqData == w.session.reqData && v.session.respData == w.session.respData
            && Requests(v.session.pending) == Requests(w.session.pending)
            && Exchanges(DrainSession(cfg.engine, v, true).out) == Exchanges(DrainSession(cfg.engine, w, true).out)
  {
    hide Run, DrainSession, KeepsStreams, StableStreams;
    EngineOfIsStable(lib, RequestStream(es), ResponseStream(es));
    Confluence(Config(EngineOf(lib), max), es, fs);
  }

  /** With any library at all, a second drain with the same flag does nothing. */
  lemma {:induction false} SourceSecondDrain(lib: Library, v: Work, close: bool)
    ensures var d := DrainSession(EngineOf(lib), v, close);
            var dd := DrainSession(EngineOf(lib), d, close);
            dd.session == d.session && dd.out == d.out
  {
    hide DrainSession;
    EngineOfSettles(lib);
    SecondDrainDoesNothing(EngineOf(lib), v, close);
  }
}
