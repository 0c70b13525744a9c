/** What an emitted conversation is made of: each of its two messages was read by the library to its end, from a
    piece of the stream of its side, and a response that only the end of the connection delimits is emitted by the
    closing flush alone (cmd/worker/processing.go). */
module Emitted {
  import opened HttpTokens
  import opened HttpParsing
  import opened Drain
  import opened Session
  import opened Reassembly
  import opened SessionKeys
  import opened World

  // ---- Messages in a stream ---------------------------------------------------------------

  ghost predicate RequestIn(lib: Library, w: Bytes, q: Request) {
    exists i, j :: 0 <= i <= j <= |w| && WasRead(lib.readRequest(w[i..j]), w[i..j], q)
  }

  /** While the connection is open, only a response whose end can be told. */
  ghost predicate ResponseIn(lib: Library, w: Bytes, q: Request, r: Response, close: bool) {
    && (close || Delimited(q, r))
    && exists i, j :: 0 <= i <= j <= |w| && WasRead(lib.readResponse(w[i..j], q), w[i..j], r)
  }

  lemma {:induction false} PieceOfEnd(w: Bytes, n: nat, x: Bytes, i: nat, j: nat)
    requires n <= |w| && i <= j <= |w| - n
    ensures (w + x)[n + i..n + j] == w[n..][i..j]
  {
    assert (w + x)[n..] == w[n..] + x;
    assert (w[n..] + x)[i..j] == w[n..][i..j];
    assert (w + x)[n + i..n + j] == (w + x)[n..][i..j];
  }

  lemma {:induction false} RequestInMore(lib: Library, d: Bytes, w: Bytes, x: Bytes, q: Request)
    requires RequestIn(lib, d, q) && EndsWith(w, d)
    ensures RequestIn(lib, w + x, q)
  {
    hide WasRead;
    var i, j :| 0 <= i <= j <= |d| && WasRead(lib.readRequest(d[i..j]), d[i..j], q);
    var n := |w| - |d|;
    PieceOfEnd(w, n, x, i, j);
  }

  lemma {:induction false} ResponseInMore(lib: Library, d: Bytes, w: Bytes, x: Bytes, q: Request, r: Response, close: bool)
    requires ResponseIn(lib, d, q, r, close) && EndsWith(w, d)
    ensures ResponseIn(lib, w + x, q, r, close)
  {
    hide WasRead;
    var i, j :| 0 <= i <= j <= |d| && WasRead(lib.readResponse(d[i..j], q), d[i..j], r);
    var n := |w| - |d|;
    PieceOfEnd(w, n, x, i, j);
  }

  // ---- What the loops find ------------------------------------------------------------------

  lemma {:induction false} TurnReads(lib: Library, d: Bytes)
    ensures var s := EngineOf(lib).requests(d);
            s.found.Ready? ==> RequestIn(lib, d, s.found.value)
  {
    hide First, WasRead;
    var s := Sync(METHODS, d);
    RequestsAreRead(lib, s.bytes);
    assert d[s.dropped..|d|] == s.bytes;
  }

  lemma {:induction false} LoopReads(lib: Library, d: Bytes)
    ensures forall k :: 0 <= k < |Loop(EngineOf(lib).requests, d).messages| ==>
              RequestIn(lib, d, Loop(EngineOf(lib).requests, d).messages[k])
    decreases |d|
  {
    hide RequestIn, EngineOf;
    TurnReads(lib, d);
    var s := EngineOf(lib).requests(d);
    if s.found.Ready? {
      var n := s.skipped + s.found.consumed;
      LoopReads(lib, d[n..]);
      var later := Loop(EngineOf(lib).requests, d[n..]).messages;
      forall k | 0 <= k < |later| ensures RequestIn(lib, d, later[k]) {
        RequestInMore(lib, d[n..], d, [], later[k]);
        assert d + [] == d;
      }
    }
  }

  lemma {:induction false} AnswerTurnReads(lib: Library, d: Bytes, q: Request, close: bool)
    ensures var s := EngineOf(lib).responses(close)(q)(d);
            s.found.Ready? ==> ResponseIn(lib, d, q, s.found.value, close)
  {
    hide First, WasRead, Delimited;
    var s := Sync(STATUS, d);
    ResponsesWaitForTheirEnd(lib, s.bytes, q, close);
    assert d[s.dropped..|d|] == s.bytes;
  }

  lemma {:induction false} AnswersRead(lib: Library, d: Bytes, waiting: seq<Request>, close: bool)
    ensures var a := AnswerLoop(EngineOf(lib).responses(close), d, waiting).drained.messages;
            |a| <= |waiting| && forall k :: 0 <= k < |a| ==> ResponseIn(lib, d, waiting[k], a[k], close)
    decreases |waiting|
  {
    hide ResponseIn, EngineOf;
    if |waiting| > 0 {
      AnswerTurnReads(lib, d, waiting[0], close);
      var s := EngineOf(lib).responses(close)(waiting[0])(d);
      if s.found.Ready? {
        var n := s.skipped + s.found.consumed;
        AnswersRead(lib, d[n..], waiting[1..], close);
        var later := AnswerLoop(EngineOf(lib).responses(close), d[n..], waiting[1..]).drained.messages;
        forall k | 0 <= k < |later| ensures ResponseIn(lib, d, waiting[1..][k], later[k], close) {
          ResponseInMore(lib, d[n..], d, [], waiting[1..][k], later[k], close);
          assert d + [] == d;
        }
      }
    }
  }

  // ---- Whole runs ------------------------------------------------------------------------------

  ghost predicate AllRequestsIn(lib: Library, w: Bytes, rs: seq<Request>) {
    forall k :: 0 <= k < |rs| ==> RequestIn(lib, w, rs[k])
  }

  ghost predicate AllPairsIn(lib: Library, w: Bytes, v: Bytes, ps: seq<(Request, Response)>, close: bool) {
    forall k :: 0 <= k < |ps| ==> RequestIn(lib, w, ps[k].0) && ResponseIn(lib, v, ps[k].0, ps[k].1, close)
  }

  lemma {:induction false} RequestsInMore(lib: Library, d: Bytes, w: Bytes, x: Bytes, rs: seq<Request>)
    requires AllRequestsIn(lib, d, rs) && EndsWith(w, d)
    ensures AllRequestsIn(lib, w + x, rs)
  {
    hide RequestIn;
    forall k | 0 <= k < |rs| ensures RequestIn(lib, w + x, rs[k]) {
      RequestInMore(lib, d, w, x, rs[k]);
    }
  }

  lemma {:induction false} WholeEnds(d: Bytes)
    ensures EndsWith(d, d)
  {
  }

  lemma {:induction false} PairsInMore(lib: Library, w: Bytes, x: Bytes, v: Bytes, y: Bytes, ps: seq<(Request, Response)>)
    requires AllPairsIn(lib, w, v, ps, false)
    ensures AllPairsIn(lib, w + x, v + y, ps, false) && AllPairsIn(lib, w + x, v + y, ps, true)
  {
    hide RequestIn, EndsWith, Delimited;
    WholeEnds(w);
    WholeEnds(v);
    forall k | 0 <= k < |ps|
      ensures RequestIn(lib, w + x, ps[k].0)
      ensures ResponseIn(lib, v + y, ps[k].0, ps[k].1, false) && ResponseIn(lib, v + y, ps[k].0, ps[k].1, true)
    {
      RequestInMore(lib, w, w, x, ps[k].0);
      ResponseInMore(lib, v, v, y, ps[k].0, ps[k].1, false);
    }
  }

  /** What one drain of the buffers d and e adds, for requests that wait, when they end the streams w and v. */
  lemma {:induction false} DrainReads(lib: Library, w: Bytes, v: Bytes, d: Bytes, e: Bytes, waiting: seq<Request>, close: bool)
    requires EndsWith(w, d) && EndsWith(v, e) && AllRequestsIn(lib, w, waiting)
    ensures var rs := waiting + Loop(EngineOf(lib).requests, d).messages;
            var a := AnswerLoop(EngineOf(lib).responses(close), e, rs).drained.messages;
            AllRequestsIn(lib, w, rs) && |a| <= |rs| && AllPairsIn(lib, w, v, Pairs(rs, a), close)
  {
    hide RequestIn, ResponseIn, EngineOf, Loop, AnswerLoop, EndsWith;
    LoopReads(lib, d);
    var found := Loop(EngineOf(lib).requests, d).messages;
    var rs := waiting + found;
    forall k | 0 <= k < |found| ensures RequestIn(lib, w, found[k]) {
      RequestInMore(lib, d, w, [], found[k]);
      assert w + [] == w;
    }
    AnswersRead(lib, e, rs, close);
    var a := AnswerLoop(EngineOf(lib).responses(close), e, rs).drained.messages;
    forall k | 0 <= k < |a| ensures ResponseIn(lib, v, rs[k], a[k], close) {
      ResponseInMore(lib, e, v, [], rs[k], a[k], close);
      assert v + [] == v;
    }
  }

  /** The buffers end the streams w and v; what waits and what was emitted stands in them. */
  ghost predicate Sound(lib: Library, w: Bytes, v: Bytes, x: Work) {
    && EndsWith(w, x.session.reqData) && EndsWith(v, x.session.respData)
    && AllRequestsIn(lib, w, Requests(x.session.pending))
    && AllPairsIn(lib, w, v, Exchanges(x.out), false)
  }

  lemma {:induction false} DrainIsSound(lib: Library, w: Bytes, v: Bytes, x: Work, close: bool)
    requires Sound(lib, w, v, x)
    ensures !close ==> Sound(lib, w, v, DrainSession(EngineOf(lib), x, close))
    ensures AllPairsIn(lib, w, v, Exchanges(DrainSession(EngineOf(lib), x, close).out), close)
  {
    hide RequestIn, ResponseIn, EngineOf, Loop, AnswerLoop, EndsWith, DrainSession;
    var s := x.session;
    DrainContents(EngineOf(lib), x, close);
    DrainReads(lib, w, v, s.reqData, s.respData, Requests(s.pending), close);
    PairsInMore(lib, w, [], v, [], Exchanges(x.out));
    assert w + [] == w && v + [] == v;
    LoopLeavesEnd(EngineOf(lib).requests, s.reqData);
    var rs := Requests(s.pending) + Loop(EngineOf(lib).requests, s.reqData).messages;
    AnswerLoopLeavesEnd(EngineOf(lib).responses(close), s.respData, rs);
    EndOfEnd(w, s.reqData, Loop(EngineOf(lib).requests, s.reqData).rest);
    EndOfEnd(v, s.respData, AnswerLoop(EngineOf(lib).responses(close), s.respData, rs).drained.rest);
  }

  lemma {:induction false} AppendIsSound(lib: Library, w: Bytes, v: Bytes, x: Work, e: Event)
    requires Sound(lib, w, v, x) && CarriesBytes(e)
    ensures Sound(lib, w + RequestBytes(e), v + ResponseBytes(e), x.(session := Append(Admit(x.session, e), e)))
    ensures Sound(lib, w + RequestBytes(e), v + ResponseBytes(e), x.(session := Overflowed(Admit(x.session, e), e)))
  {
    hide RequestIn, AllPairsIn, EndsWith, RequestBytes, ResponseBytes;
    SameContents(x, e);
    OtherIsEmpty(e);
    EndGrows(w, x.session.reqData, RequestBytes(e));
    EndGrows(v, x.session.respData, ResponseBytes(e));
    NothingEnds(w + RequestBytes(e));
    NothingEnds(v + ResponseBytes(e));
    WholeEnds(w);
    RequestsInMore(lib, w, w, RequestBytes(e), Requests(x.session.pending));
    PairsInMore(lib, w, RequestBytes(e), v, ResponseBytes(e), Exchanges(x.out));
    assert w + [] == w && v + [] == v;
  }

  lemma {:induction false} OtherIsEmpty(e: Event)
    ensures if RoutesToRequest(e) then ResponseBytes(e) == [] else RequestBytes(e) == []
  {
  }

  lemma {:induction false} ProcessIsSound(lib: Library, max: nat, w: Bytes, v: Bytes, x: Work, e: Event)
    requires Sound(lib, w, v, x) && CarriesBytes(e)
    ensures Sound(lib, w + RequestBytes(e), v + ResponseBytes(e), Process(Config(EngineOf(lib), max), x, e))
  {
    hide Sound, EngineOf, DrainSession, Append, Overflowed, Admit, RequestBytes, ResponseBytes;
    AppendIsSound(lib, w, v, x, e);
    DrainIsSound(lib, w + RequestBytes(e), v + ResponseBytes(e), x.(session := Append(Admit(x.session, e), e)), false);
  }

  lemma {:induction false} RunIsSound(lib: Library, max: nat, es: seq<Event>)
    ensures Sound(lib, RequestStream(es), ResponseStream(es), Run(Config(EngineOf(lib), max), es))
    decreases |es|
  {
    hide RequestIn, ResponseIn, Process, EngineOf, RequestBytes, ResponseBytes;
    if |es| > 0 {
      hide Sound;
      var front, e := es[..|es| - 1], es[|es| - 1];
      RunIsSound(lib, max, front);
      if CarriesBytes(e) {
        ProcessIsSound(lib, max, RequestStream(front), ResponseStream(front), Run(Config(EngineOf(lib), max), front), e);
      } else {
        SkippedAddsNothing(e);
        assert RequestStream(front) + [] == RequestStream(front) && ResponseStream(front) + [] == ResponseStream(front);
      }
    }
  }

  lemma {:induction false} SkippedAddsNothing(e: Event)
    requires !CarriesBytes(e)
    ensures RequestBytes(e) == [] && ResponseBytes(e) == []
  {
  }

  /** Over any run of any events around any library, overflow included: both messages of every conversation were
      read to their ends from a piece of the bytes routed to their side, and the end of the response could be
      told without the close. The closing flush adds conversations of which only the first is so. */
  lemma {:induction false} EmittedWasRead(lib: Library, max: nat, es: seq<Event>)
    ensures var w := Run(Config(EngineOf(lib), max), es);
            && AllPairsIn(lib, RequestStream(es), ResponseStream(es), Exchanges(w.out), false)
            && AllRequestsIn(lib, RequestStream(es), Requests(w.session.pending))
            && AllPairsIn(lib, RequestStream(es), ResponseStream(es), Exchanges(DrainSession(EngineOf(lib), w, true).out), true)
  {
    hide RequestIn, ResponseIn, Run, EngineOf, DrainSession, EndsWith;
    RunIsSound(lib, max, es);
    DrainIsSound(lib, RequestStream(es), ResponseStream(es), Run(Config(EngineOf(lib), max), es), true);
  }

  // ---- A response that ends with its connection --------------------------------------------------

  /** One request waits, and the library reads all that is left of the other side as its response r, whose end
      only the end of the connection tells. */
  predicate AwaitsClose(lib: Library, s: Session, p: Pending, r: Response) {
    && s.reqData == [] && s.pending == [p] && MarkAt(STATUS, s.respData, 0)
    && lib.readResponse(s.respData, p.req) == Message(r, true, 0) && !Delimited(p.req, r)
  }

  lemma {:induction false} MarkedTurn(lib: Library, d: Bytes, q: Request, close: bool)
    requires MarkAt(STATUS, d, 0)
    ensures EngineOf(lib).responses(close)(q)(d) == Scan(0, ParseOneResponse(lib, d, q, close))
  {
    hide MarkAt;
    SyncKeepsMarkedBuffer(STATUS, d);
  }

  lemma {:induction false} NothingRead(lib: Library)
    ensures Loop(EngineOf(lib).requests, []) == Drained([], [], 0, 0)
  {
    assert Fits([], EngineOf(lib).requests([]));
  }

  lemma {:induction false} OneAnswer<Q, T>(scanFor: Q -> Scanner<T>, d: Bytes, q: Q)
    ensures var s := scanFor(q)(d);
            AnswerLoop(scanFor, d, [q]) == if s.found.NotReady? then Answered(Drained(d[s.skipped..], [], s.skipped, 0), [q])
              else Answered(Drained(d[s.skipped + s.found.consumed..], [s.found.value], s.skipped, s.found.consumed), [])
  {
    assert [q][1..] == [];
  }

  /** Draining such a session changes nothing while the connection is open; draining it for the close emits the
      pair and uses up the buffer. */
  lemma {:induction false} CloseDelimitedWaits(lib: Library, x: Work, p: Pending, r: Response)
    requires AwaitsClose(lib, x.session, p, r)
    ensures DrainSession(EngineOf(lib), x, false) == x
    ensures var d := DrainSession(EngineOf(lib), x, true);
            && d.session == x.session.(respData := [], pending := [])
            && d.out == x.out + [Conversation(p.req, r, p.meta, MergeLoss(p.loss, x.session.loss))]
  {
    hide EngineOf, Loop, AnswerLoop, MarkAt, First;
    var s, engine := x.session, EngineOf(lib);
    NothingRead(lib);
    MarkedStarts(s.respData);
    var requests := Loop(engine.requests, s.reqData);
    assert Queue([], s.meta, s.loss) == [] && Waiting(s, requests) == [p] && Requests([p]) == [p.req];
    forall close ensures Answers(engine, s.respData, [p], close)
        == if close then Drained([], [r], 0, |s.respData|) else Drained(s.respData, [], 0, 0)
    {
      MarkedTurn(lib, s.respData, p.req, close);
      OneAnswer(engine.responses(close), s.respData, p.req);
      ResponsesWaitForTheirEnd(lib, s.respData, p.req, close);
    }
    assert Converse([p], [], s.loss) == [];
    assert Converse([p], [r], s.loss) == [Conversation(p.req, r, p.meta, MergeLoss(p.loss, s.loss))];
    assert x.out + [] == x.out && [p][1..] == [] && [p][0..] == [p];
  }

  lemma {:induction false} MarkedStarts(d: Bytes)
    requires MarkAt(STATUS, d, 0)
    ensures |d| > 0
  {
  }

  /** So the close event of a session, or its expiry, says the pair, and forgets the session. */
  lemma {:induction false} CloseSaysIt(lib: Library, max: nat, w: World, a: Action, p: Pending, r: Response)
    requires Ends(a) && KeyOf(a) in w.sessions && AwaitsClose(lib, w.sessions[KeyOf(a)], p, r)
    ensures var s, after := w.sessions[KeyOf(a)], Act(Config(EngineOf(lib), max), w, a);
            && after.sessions == w.sessions - {KeyOf(a)}
            && after.out == w.out + [(KeyOf(a), Conversation(p.req, r, p.meta, MergeLoss(p.loss, s.loss)))]
  {
    hide EngineOf, DrainSession, AwaitsClose, SessionKey;
    CloseDelimitedWaits(lib, Work(w.sessions[KeyOf(a)], NO_STATS, []), p, r);
  }
}
