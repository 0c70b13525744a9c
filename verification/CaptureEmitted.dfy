/** What an emitted conversation of the capture binary is made of: HTTP/1 pairs read to their ends from pieces of
    the streams, HTTP/2 exchanges with the metadata and the counters that go with them
    (cmd/karaxys-capture/process.go and h2.go). */
module CaptureEmitted {
  import opened HttpTokens
  import opened HttpParsing
  import opened Drain
  import opened Session
  import opened Reassembly
  import opened Capture
  import opened TlsSwitch
  import opened H2Sessions
  import opened Emitted

  /** As for the worker's session, in either mode. */
  ghost predicate SoundContents(lib: Library, w: Bytes, v: Bytes, c: Contents) {
    && EndsWith(w, c.req) && EndsWith(v, c.resp)
    && AllRequestsIn(lib, w, c.waiting) && AllPairsIn(lib, w, v, c.pairs, false)
  }

  lemma {:induction false} StrippedEnds(d: Bytes, x: Bytes)
    requires EndsWith(d, x)
    ensures EndsWith(d, WithoutPreface(x))
  {
    EndOfEnd(d, x, WithoutPreface(x));
  }

  lemma {:induction false} DrainIsSoundHere(cfg: CaptureConfig, lib: Library, w: Bytes, v: Bytes, c: Contents, close: bool)
    requires cfg.base.engine == EngineOf(lib) && SoundContents(lib, w, v, c)
    ensures !close ==> SoundContents(lib, w, v, DrainContent(cfg, c, close))
    ensures AllPairsIn(lib, w, v, DrainContent(cfg, c, close).pairs, close)
  {
    hide RequestIn, ResponseIn, EngineOf, Loop, AnswerLoop, EndsWith, WithoutPreface, IsPrefaceCandidate, Due;
    StrippedEnds(w, c.req);
    StrippedEnds(v, c.resp);
    DrainReads(lib, w, v, c.req, c.resp, c.waiting, close);
    PairsInMore(lib, w, [], v, [], c.pairs);
    assert w + [] == w && v + [] == v;
    LoopLeavesEnd(EngineOf(lib).requests, c.req);
    var rs := c.waiting + Loop(EngineOf(lib).requests, c.req).messages;
    AnswerLoopLeavesEnd(EngineOf(lib).responses(close), c.resp, rs);
    AnswerLoopCounts(EngineOf(lib).responses(close), c.resp, rs);
    LeftAreIn(lib, w, rs, |AnswerLoop(EngineOf(lib).responses(close), c.resp, rs).drained.messages|);
    EndOfEnd(w, c.req, Loop(EngineOf(lib).requests, c.req).rest);
    EndOfEnd(v, c.resp, AnswerLoop(EngineOf(lib).responses(close), c.resp, rs).drained.rest);
  }

  lemma {:induction false} LeftAreIn(lib: Library, w: Bytes, rs: seq<Request>, n: nat)
    requires AllRequestsIn(lib, w, rs) && n <= |rs|
    ensures AllRequestsIn(lib, w, rs[n..])
  {
    hide RequestIn;
  }

  lemma {:induction false} GrownIsSound(lib: Library, w: Bytes, v: Bytes, c: Contents, x: Bytes, y: Bytes)
    requires SoundContents(lib, w, v, c)
    ensures SoundContents(lib, w + x, v + y, c.(req := c.req + x, resp := c.resp + y))
    ensures SoundContents(lib, w + x, v + y, c.(req := [], resp := c.resp + y, waiting := []))
    ensures SoundContents(lib, w + x, v + y, c.(req := c.req + x, resp := [], waiting := []))
  {
    hide RequestIn, AllPairsIn, EndsWith;
    EndGrows(w, c.req, x);
    EndGrows(v, c.resp, y);
    NothingEnds(w + x);
    NothingEnds(v + y);
    WholeEnds(w);
    RequestsInMore(lib, w, w, x, c.waiting);
    PairsInMore(lib, w, x, v, y, c.pairs);
  }

  lemma {:induction false} StepIsSound(cfg: CaptureConfig, lib: Library, w: Bytes, v: Bytes, c: Contents, e: Event)
    requires cfg.base.engine == EngineOf(lib) && SoundContents(lib, w, v, c) && CarriesBytes(e) && FlagIs(c, e.ssl)
    ensures SoundContents(lib, w + RequestBytes(e), v + ResponseBytes(e), Step(cfg, c, e))
  {
    hide SoundContents, EngineOf, DrainContent, RequestBytes, ResponseBytes, HasPreface;
    var x, y := RequestBytes(e), ResponseBytes(e);
    FlagAside(lib, w, v, c, e.ssl, c.h2);
    var d := c.(ssl := e.ssl);
    assert SwitchContent(c, e) == d;
    GrownIsSound(lib, w, v, d, x, y);
    OtherIsEmpty(e);
    assert d.req + [] == d.req && d.resp + [] == d.resp;
    var g := d.(req := d.req + x, resp := d.resp + y);
    var h2 := d.h2 || HasPreface(g.req) || HasPreface(g.resp);
    FlagAside(lib, w + x, v + y, g, g.ssl, h2);
    DrainIsSoundHere(cfg, lib, w + x, v + y, g.(h2 := h2), false);
  }

  lemma {:induction false} FlagAside(lib: Library, w: Bytes, v: Bytes, c: Contents, ssl: bool, h2: bool)
    requires SoundContents(lib, w, v, c)
    ensures SoundContents(lib, w, v, c.(ssl := ssl)) && SoundContents(lib, w, v, c.(h2 := h2))
  {
  }

  lemma {:induction false} StepsAreSound(cfg: CaptureConfig, lib: Library, es: seq<Event>, ssl: bool)
    requires cfg.base.engine == EngineOf(lib) && Uniform(es, ssl)
    ensures SoundContents(lib, RequestStream(es), ResponseStream(es), Steps(cfg, es))
    decreases |es|
  {
    hide RequestIn, ResponseIn, Step, EngineOf, RequestBytes, ResponseBytes;
    if |es| > 0 {
      hide SoundContents;
      var front, e := es[..|es| - 1], es[|es| - 1];
      StepsAreSound(cfg, lib, front, ssl);
      RunKeepsFlag(cfg, front, ssl);
      if CarriesBytes(e) {
        StepIsSound(cfg, lib, RequestStream(front), ResponseStream(front), Steps(cfg, front), e);
      } else {
        SkippedAddsNothing(e);
        SkippedStep(cfg, Steps(cfg, front), e);
        assert RequestStream(front) + [] == RequestStream(front) && ResponseStream(front) + [] == ResponseStream(front);
      }
    }
  }

  /** The HTTP/1 pairs of a session, before its close and after it. Earlier and later events of a session that
      switches to plaintext are each of one kind, so this speaks of both parts. */
  lemma {:induction false} CapturedWasRead(cfg: CaptureConfig, lib: Library, es: seq<Event>, ssl: bool)
    requires cfg.base.engine == EngineOf(lib) && Uniform(es, ssl)
    ensures var c := ContentsOf(Capture.Run(cfg, es));
            && AllPairsIn(lib, RequestStream(es), ResponseStream(es), c.pairs, false)
            && AllPairsIn(lib, RequestStream(es), ResponseStream(es), DrainContent(cfg, c, true).pairs, true)
  {
    hide RequestIn, ResponseIn, Steps, EngineOf, DrainContent, Capture.Run, EndsWith;
    RunIsSteps(cfg, es);
    StepsAreSound(cfg, lib, es, ssl);
    DrainIsSoundHere(cfg, lib, RequestStream(es), ResponseStream(es), Steps(cfg, es), true);
  }

  // ---- HTTP/2 exchanges --------------------------------------------------------------------

  function DueCount(bs: seq<Batch>): nat {
    if |bs| == 0 then 0 else DueCount(bs[..|bs| - 1]) + |bs[|bs| - 1].due|
  }

  /** now is w with more said: every new batch states the metadata and the loss the session has now, and what is
      counted as parsed is what was said. */
  ghost predicate SaysMore(w: State, now: State) {
    && w.out <= now.out && w.batches <= now.batches
    && (forall i :: |w.batches| <= i < |now.batches| ==>
          now.batches[i].meta == now.stream.core.meta && now.batches[i].loss == now.stream.core.loss)
    && now.stats.parsed + |w.out| + DueCount(w.batches) == w.stats.parsed + |now.out| + DueCount(now.batches)
  }

  lemma {:induction false} DrainSaysMore(cfg: CaptureConfig, w: State, close: bool)
    ensures SaysMore(w, Capture.DrainStream(cfg, w, close))
    ensures var s := Capture.DrainStream(cfg, w, close).stream.core; s.meta == w.stream.core.meta && s.loss == w.stream.core.loss
  {
    hide Loop, Answers, Due, IsPrefaceCandidate, WithoutPreface;
    var bs := Capture.DrainStream(cfg, w, close).batches;
    assert |bs| > |w.batches| ==> bs[..|bs| - 1] == w.batches;
  }

  lemma {:induction false} ProcessSaysMore(cfg: CaptureConfig, w: State, e: Event)
    requires CarriesBytes(e)
    ensures SaysMore(w, Capture.Process(cfg, w, e))
  {
    hide Capture.DrainStream, Overflows, Track, HasPreface, MergeMeta;
    var s := Switch(w.stream.(core := w.stream.core.(meta := MergeMeta(w.stream.core.meta, e.meta))), e);
    var core := Append(Track(s.core, e), e);
    var h2 := s.h2 || HasPreface(core.reqData) || HasPreface(core.respData);
    DrainSaysMore(cfg, w.(stream := s.(core := core, h2 := h2)), false);
  }

  /** Over any session: what counts as parsed is the HTTP/1 pairs and the HTTP/2 streams it has said. */
  lemma {:induction false} ParsedIsSaid(cfg: CaptureConfig, es: seq<Event>)
    ensures var w := Capture.Run(cfg, es); w.stats.parsed == |w.out| + DueCount(w.batches)
    decreases |es|
  {
    hide Capture.Process;
    if |es| > 0 {
      ParsedIsSaid(cfg, es[..|es| - 1]);
      if CarriesBytes(es[|es| - 1]) {
        ProcessSaysMore(cfg, Capture.Run(cfg, es[..|es| - 1]), es[|es| - 1]);
      }
    }
  }
}
