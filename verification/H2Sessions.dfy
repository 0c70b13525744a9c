/** Sessions that speak HTTP/2: recognising a preface that arrives in pieces, and emitting every complete
    stream once whatever the chunks were, from the first byte or later, before or after the switch to
    plaintext (cmd/karaxys-capture/process.go and h2.go). */
module H2Sessions {
  import opened HttpTokens
  import opened Drain
  import opened Session
  import opened Reassembly
  import opened Capture
  import opened TlsSwitch
  import H = Http2

  /** The bytes seen so far may be, or do begin with, the preface. */
  predicate StartsAsPreface(r: Bytes) {
    if |r| >= |PREFACE| then HasPreface(r) else r == PREFACE[..|r|]
  }

  function Body(r: Bytes): Bytes {
    if |r| >= |PREFACE| then r[|PREFACE|..] else []
  }

  ghost predicate Sound(cfg: CaptureConfig, r: Bytes, s: Bytes) {
    && StartsAsPreface(r) && !HasPreface(Body(r)) && !HasPreface(s)
    && |r| <= cfg.base.maxStreamBytes && |s| <= cfg.base.maxStreamBytes
    && H.WellFormedStream(cfg.codec, Body(r)) && H.WellFormedStream(cfg.codec, s)
  }

  /** What every drain emitted, taken together. */
  function Merge(dues: seq<map<nat, H.Exchange>>): map<nat, H.Exchange> {
    if |dues| == 0 then map[] else Merge(dues[..|dues| - 1]) + dues[|dues| - 1]
  }

  /** No stream was emitted by two drains. */
  ghost predicate EachOnce(dues: seq<map<nat, H.Exchange>>) {
    forall i, j, id :: 0 <= i < j < |dues| && id in dues[i] ==> id !in dues[j]
  }

  lemma {:induction false} MergeKeys(dues: seq<map<nat, H.Exchange>>, i: nat)
    requires i < |dues|
    ensures dues[i].Keys <= Merge(dues).Keys
    decreases |dues|
  {
    if i < |dues| - 1 {
      assert dues[..|dues| - 1][i] == dues[i];
      MergeKeys(dues[..|dues| - 1], i);
    }
  }

  // ---- Waiting for the preface ---------------------------------------------------------

  /** Everything received is still there and nothing has been said. */
  ghost predicate Untouched(c: Contents, r: Bytes, s: Bytes) {
    && !c.h2 && c.req == r && c.resp == s && c.waiting == [] && c.pairs == [] && c.emitted == {} && c.dues == []
  }

  lemma {:induction false} IdleDrain(cfg: CaptureConfig, c: Contents)
    requires Untouched(c, c.req, c.resp) && StartsAsPreface(c.req) && |c.req| < |PREFACE|
    ensures DrainContent(cfg, c, false) == c
  {
    if |c.req| == 0 {
      assert Fits([], cfg.base.engine.requests([]));
      assert c.waiting + [] == [];
      assert c.pairs + [] == c.pairs;
    }
  }

  lemma {:induction false} PrefixOfPreface(r: Bytes, x: Bytes)
    requires StartsAsPreface(r + x)
    ensures StartsAsPreface(r)
    ensures |r| >= |PREFACE| ==> Body(r + x) == Body(r) + x
  {
    var n := if |r| >= |PREFACE| then |PREFACE| else |r|;
    assert (r + x)[..n] == r[..n];
    if |r| < |PREFACE| <= |r + x| {
      assert (r + x)[..|PREFACE|][..|r|] == r;
    }
  }

  lemma {:induction false} StepKeepsH2(cfg: CaptureConfig, c: Contents, e: Event)
    requires c.h2 && (e.ssl ==> c.ssl)
    ensures Step(cfg, c, e).h2
  {
  }

  /** Either the flag is already that of the session's chunks, or none has come. */
  predicate FlagIs(c: Contents, ssl: bool) {
    c.ssl == ssl || c == NOTHING
  }

  lemma {:induction false} PrefaceStep(cfg: CaptureConfig, c: Contents, e: Event)
    requires CarriesBytes(e) && FlagIs(c, e.ssl) && Untouched(c, c.req, c.resp)
    requires var r, s := c.req + RequestBytes(e), c.resp + ResponseBytes(e);
             && StartsAsPreface(r) && !HasPreface(s)
             && |r| <= cfg.base.maxStreamBytes && |s| <= cfg.base.maxStreamBytes
    ensures var r, s := c.req + RequestBytes(e), c.resp + ResponseBytes(e);
            if |r| < |PREFACE| then Untouched(Step(cfg, c, e), r, s) && Step(cfg, c, e).ssl == e.ssl
            else Step(cfg, c, e) == DrainContent(cfg, c.(ssl := e.ssl, req := r, resp := s, h2 := true), false)
  {
    hide DrainContent;
    var r, s := c.req + RequestBytes(e), c.resp + ResponseBytes(e);
    assert SwitchContent(c, e) == c.(ssl := e.ssl);
    if |r| < |PREFACE| {
      IdleDrain(cfg, c.(ssl := e.ssl, req := r, resp := s));
    }
  }

  lemma {:induction false} RunKeepsFlag(cfg: CaptureConfig, es: seq<Event>, ssl: bool)
    requires Uniform(es, ssl)
    ensures FlagIs(Steps(cfg, es), ssl)
    decreases |es|
  {
    if |es| > 0 {
      RunKeepsFlag(cfg, es[..|es| - 1], ssl);
      StepKeepsSsl(cfg, Steps(cfg, es[..|es| - 1]), es[|es| - 1]);
    }
  }

  /** However the preface is split, and whatever responses come in between: not a byte is trimmed
      before the mode changes, and it changes with the event that brings the 24th byte. */
  lemma {:induction false} PrefaceSplits(cfg: CaptureConfig, es: seq<Event>, ssl: bool)
    requires Uniform(es, ssl)
    requires StartsAsPreface(RequestStream(es)) && !HasPreface(ResponseStream(es))
    requires |RequestStream(es)| <= cfg.base.maxStreamBytes && |ResponseStream(es)| <= cfg.base.maxStreamBytes
    ensures var c, r := Steps(cfg, es), RequestStream(es);
            && (c.h2 <==> |r| >= |PREFACE|)
            && (|r| < |PREFACE| ==> Untouched(c, r, ResponseStream(es)))
    decreases |es|
  {
    hide DrainContent;
    if |es| > 0 {
      hide Step;
      var front, e := es[..|es| - 1], es[|es| - 1];
      PrefixOfPreface(RequestStream(front), RequestBytes(e));
      PrefaceSplits(cfg, front, ssl);
      RunKeepsFlag(cfg, front, ssl);
      var c := Steps(cfg, front);
      if CarriesBytes(e) {
        if c.h2 {
          StepKeepsH2(cfg, c, e);
        } else {
          PrefaceStep(cfg, c, e);
          H2DrainIsH2(cfg, c.(ssl := ssl, req := RequestStream(es), resp := ResponseStream(es), h2 := true));
        }
      } else {
        SkippedStep(cfg, c, e);
        assert RequestStream(es) == RequestStream(front) && ResponseStream(es) == ResponseStream(front);
      }
    }
  }

  lemma {:induction false} H2DrainIsH2(cfg: CaptureConfig, c: Contents)
    requires c.h2
    ensures DrainContent(cfg, c, false).h2
  {
  }

  lemma {:induction false} SkippedStep(cfg: CaptureConfig, c: Contents, e: Event)
    requires !CarriesBytes(e)
    ensures Step(cfg, c, e) == c
  {
  }

  // ---- Emitting -------------------------------------------------------------------------

  /** Past the preface: the buffers hold both streams, and what is complete in them has been emitted. */
  ghost predicate Emitted(cfg: CaptureConfig, c: Contents, r: Bytes, s: Bytes) {
    && c.h2 && c.req == r && c.resp == s && c.waiting == [] && c.pairs == []
    && c.emitted == H.Complete(cfg.codec, r, s).Keys
    && Merge(c.dues) == H.Complete(cfg.codec, r, s)
    && EachOnce(c.dues)
  }

  /** One more batch, of the complete streams that had not been. */
  lemma {:induction false} BatchCompletes(codec: H.Codec, dues: seq<map<nat, H.Exchange>>, r: Bytes, s: Bytes, x: Bytes, y: Bytes)
    requires H.WellFormedStream(codec, r + x) && H.WellFormedStream(codec, s + y)
    requires Merge(dues) == H.Complete(codec, r, s) && EachOnce(dues)
    ensures var due := Due(codec, r + x, s + y, H.Complete(codec, r, s).Keys);
            && Merge(dues + [due]) == H.Complete(codec, r + x, s + y)
            && EachOnce(dues + [due])
            && H.Complete(codec, r, s).Keys + due.Keys == H.Complete(codec, r + x, s + y).Keys
  {
    hide H.Complete;
    var was, now := H.Complete(codec, r, s), H.Complete(codec, r + x, s + y);
    var due := Due(codec, r + x, s + y, was.Keys);
    forall id | id in was ensures id in now && now[id] == was[id] {
      H.CompleteGrows(codec, r, s, x, y, id);
    }
    assert (dues + [due])[..|dues|] == dues;
    forall i: nat | i < |dues| ensures dues[i].Keys <= was.Keys {
      MergeKeys(dues, i);
    }
  }

  lemma {:induction false} FirstBatch(cfg: CaptureConfig, c: Contents)
    requires c.h2 && HasPreface(c.req) && !HasPreface(Body(c.req)) && !HasPreface(c.resp)
    requires c.waiting == [] && c.pairs == [] && c.emitted == {} && c.dues == []
    ensures Emitted(cfg, DrainContent(cfg, c, false), Body(c.req), c.resp)
  {
    var due := Due(cfg.codec, Body(c.req), c.resp, {});
    assert due == H.Complete(cfg.codec, Body(c.req), c.resp);
    assert Merge([due][..0]) + due == due;
    assert c.dues + [due] == [due];
  }

  lemma {:induction false} NextBatch(cfg: CaptureConfig, c: Contents, e: Event, r: Bytes, s: Bytes)
    requires CarriesBytes(e) && c.ssl == e.ssl && Emitted(cfg, c, r, s)
    requires !HasPreface(r + RequestBytes(e)) && !HasPreface(s + ResponseBytes(e))
    requires |r + RequestBytes(e)| <= cfg.base.maxStreamBytes && |s + ResponseBytes(e)| <= cfg.base.maxStreamBytes
    requires H.WellFormedStream(cfg.codec, r + RequestBytes(e)) && H.WellFormedStream(cfg.codec, s + ResponseBytes(e))
    ensures Emitted(cfg, Step(cfg, c, e), r + RequestBytes(e), s + ResponseBytes(e))
  {
    hide H.Complete;
    BatchCompletes(cfg.codec, c.dues, r, s, RequestBytes(e), ResponseBytes(e));
  }

  lemma {:induction false} SoundBefore(cfg: CaptureConfig, r: Bytes, s: Bytes, x: Bytes, y: Bytes)
    requires Sound(cfg, r + x, s + y)
    ensures Sound(cfg, r, s)
  {
    PrefixOfPreface(r, x);
    var more := if |r| >= |PREFACE| then x else Body(r + x);
    assert Body(r + x) == Body(r) + more;
    H.PrefixIsWellFormed(cfg.codec, Body(r), more);
    H.PrefixIsWellFormed(cfg.codec, s, y);
    PrefaceStays(Body(r), more);
    PrefaceStays(s, y);
  }

  /** Past the preface, a session holds and has emitted exactly what parsing the two whole streams
      once would give, and no stream twice. */
  lemma {:induction false} RunEmitsCompleteStreams(cfg: CaptureConfig, es: seq<Event>, ssl: bool)
    requires Uniform(es, ssl)
    requires Sound(cfg, RequestStream(es), ResponseStream(es)) && |RequestStream(es)| >= |PREFACE|
    ensures Emitted(cfg, Steps(cfg, es), Body(RequestStream(es)), ResponseStream(es))
    decreases |es|
  {
    hide DrainContent, Step, H.Complete, H.WellFormedStream;
    var front, e := es[..|es| - 1], es[|es| - 1];
    var c, r, s := Steps(cfg, front), RequestStream(front), ResponseStream(front);
    RunKeepsFlag(cfg, front, ssl);
    SoundBefore(cfg, r, s, RequestBytes(e), ResponseBytes(e));
    if !CarriesBytes(e) {
      assert RequestStream(es) == r && ResponseStream(es) == s;
      RunEmitsCompleteStreams(cfg, front, ssl);
      SkippedStep(cfg, c, e);
    } else if |r| >= |PREFACE| {
      PrefixOfPreface(r, RequestBytes(e));
      RunEmitsCompleteStreams(cfg, front, ssl);
      NextBatch(cfg, c, e, Body(r), s);
    } else {
      PrefaceSplits(cfg, front, ssl);
      PrefaceStep(cfg, c, e);
      FirstBatch(cfg, c.(ssl := ssl, req := RequestStream(es), resp := ResponseStream(es), h2 := true));
    }
  }

  // ---- No stream twice, in any session -----------------------------------------------------

  /** No stream was emitted by two drains, and those emitted are remembered. */
  ghost predicate OncePerStream(c: Contents) {
    EachOnce(c.dues) && Merge(c.dues).Keys == c.emitted
  }

  lemma {:induction false} BatchIsNew(dues: seq<map<nat, H.Exchange>>, emitted: set<nat>, due: map<nat, H.Exchange>)
    requires EachOnce(dues) && Merge(dues).Keys == emitted && forall id :: id in due ==> id !in emitted
    ensures EachOnce(dues + [due]) && Merge(dues + [due]).Keys == emitted + due.Keys
  {
    assert (dues + [due])[..|dues|] == dues;
    forall i: nat | i < |dues| ensures dues[i].Keys <= emitted {
      MergeKeys(dues, i);
    }
  }

  lemma {:induction false} DrainKeepsOnce(cfg: CaptureConfig, c: Contents, close: bool)
    requires OncePerStream(c)
    ensures OncePerStream(DrainContent(cfg, c, close))
  {
    hide H.Complete, Loop, AnswerLoop, OncePerStream;
    if c.h2 {
      var due := Due(cfg.codec, WithoutPreface(c.req), WithoutPreface(c.resp), c.emitted);
      OnceAfter(c, due, DrainContent(cfg, c, close));
    } else {
      OnceAlike(c, DrainContent(cfg, c, close));
    }
  }

  lemma {:induction false} OnceAfter(c: Contents, due: map<nat, H.Exchange>, d: Contents)
    requires OncePerStream(c) && (forall id :: id in due ==> id !in c.emitted)
    requires d.dues == c.dues + [due] && d.emitted == c.emitted + due.Keys
    ensures OncePerStream(d)
  {
    BatchIsNew(c.dues, c.emitted, due);
  }

  lemma {:induction false} OnceAlike(c: Contents, d: Contents)
    requires OncePerStream(c) && d.dues == c.dues && d.emitted == c.emitted
    ensures OncePerStream(d)
  {
  }

  lemma {:induction false} StepKeepsOnce(cfg: CaptureConfig, c: Contents, e: Event)
    requires OncePerStream(c) && FlagIs(c, e.ssl)
    ensures OncePerStream(Step(cfg, c, e))
  {
    hide DrainContent, OncePerStream;
    if CarriesBytes(e) {
      assert SwitchContent(c, e) == c.(ssl := e.ssl);
      var req, resp := c.req + RequestBytes(e), c.resp + ResponseBytes(e);
      var g := c.(ssl := e.ssl, req := req, resp := resp, h2 := c.h2 || HasPreface(req) || HasPreface(resp));
      OnceAlike(c, g);
      DrainKeepsOnce(cfg, g, false);
      OnceAlike(c, c.(ssl := e.ssl, req := [], waiting := []));
      OnceAlike(c, c.(ssl := e.ssl, resp := [], waiting := []));
    }
  }

  /** With overflow or without, well formed or not, whatever the prefaces. */
  lemma {:induction false} StreamsOnce(cfg: CaptureConfig, es: seq<Event>, ssl: bool)
    requires Uniform(es, ssl)
    ensures OncePerStream(Steps(cfg, es))
    decreases |es|
  {
    if |es| > 0 {
      hide Step, OncePerStream;
      var front, e := es[..|es| - 1], es[|es| - 1];
      StreamsOnce(cfg, front, ssl);
      RunKeepsFlag(cfg, front, ssl);
      if CarriesBytes(e) {
        StepKeepsOnce(cfg, Steps(cfg, front), e);
      } else {
        SkippedStep(cfg, Steps(cfg, front), e);
      }
    }
  }

  lemma {:induction false} LeadingIsCiphertext(es: seq<Event>)
    ensures |PlaintextOf(Leading(es))| == 0
    decreases |es|
  {
    if |PlaintextOf(es)| > 0 {
      LeadingIsCiphertext(es[..|es| - 1]);
    }
  }

  /** What a session has emitted over HTTP/2 since it switched to plaintext, or at all. */
  function Since(cfg: CaptureConfig, es: seq<Event>): seq<map<nat, H.Exchange>> {
    Steps(cfg, Counted(es)).dues
  }

  /** In any session no stream is emitted twice before the switch to plaintext, nor twice after it. */
  lemma {:induction false} NoStreamTwice(cfg: CaptureConfig, es: seq<Event>)
    ensures Dues(Capture.Run(cfg, es).batches) == Earlier(cfg, es).dues + Since(cfg, es)
    ensures EachOnce(Earlier(cfg, es).dues) && EachOnce(Since(cfg, es))
  {
    hide Capture.Run, Steps;
    RunIsSteps(cfg, es);
    RunIsCounted(cfg, es);
    StreamsOnce(cfg, Counted(es), |PlaintextOf(es)| > 0);
    LeadingIsCiphertext(es);
    PlaintextIsUniform(Leading(es));
    StreamsOnce(cfg, Leading(es), false);
  }

  // ---- What is emitted is what is complete, however the mode was entered ---------------------

  /** No event of the run, once in HTTP/2 mode, overflows a buffer or finds another preface at its front. */
  ghost predicate Undisturbed(cfg: CaptureConfig, es: seq<Event>) {
    |es| == 0 ||
    var c, e := Steps(cfg, es[..|es| - 1]), es[|es| - 1];
    Undisturbed(cfg, es[..|es| - 1]) && (c.h2 && CarriesBytes(e) ==> Takes(cfg, c, RequestBytes(e), ResponseBytes(e)))
  }

  predicate Takes(cfg: CaptureConfig, c: Contents, x: Bytes, y: Bytes) {
    && |c.req + x| <= cfg.base.maxStreamBytes && |c.resp + y| <= cfg.base.maxStreamBytes
    && !HasPreface(c.req + x) && !HasPreface(c.resp + y)
  }

  /** Everything complete in the buffers has been emitted, with its content, and nothing else has. */
  ghost predicate EmittedAll(cfg: CaptureConfig, c: Contents) {
    var complete := H.Complete(cfg.codec, c.req, c.resp);
    c.emitted == complete.Keys && Merge(c.dues) == complete && EachOnce(c.dues)
  }

  lemma {:induction false} H2Step(cfg: CaptureConfig, c: Contents, e: Event)
    requires CarriesBytes(e) && c.h2 && FlagIs(c, e.ssl) && Takes(cfg, c, RequestBytes(e), ResponseBytes(e))
    ensures var req, resp := c.req + RequestBytes(e), c.resp + ResponseBytes(e);
            var due := Due(cfg.codec, req, resp, c.emitted);
            Step(cfg, c, e) == c.(req := req, resp := resp, emitted := c.emitted + due.Keys, dues := c.dues + [due])
  {
    hide Due;
    assert c.ssl == e.ssl;
  }

  lemma {:induction false} EntryDrain(cfg: CaptureConfig, c: Contents, e: Event)
    requires CarriesBytes(e) && !c.h2 && FlagIs(c, e.ssl) && Step(cfg, c, e).h2
    ensures var req, resp := WithoutPreface(c.req + RequestBytes(e)), WithoutPreface(c.resp + ResponseBytes(e));
            var due := Due(cfg.codec, req, resp, c.emitted);
            Step(cfg, c, e) == c.(ssl := e.ssl, h2 := true, req := req, resp := resp, emitted := c.emitted + due.Keys, dues := c.dues + [due])
  {
    hide Due, Loop, AnswerLoop, WithoutPreface, HasPreface;
    assert SwitchContent(c, e) == c.(ssl := e.ssl);
  }

  lemma {:induction false} EntryStep(cfg: CaptureConfig, c: Contents, e: Event)
    requires CarriesBytes(e) && !c.h2 && FlagIs(c, e.ssl) && c.emitted == {} && c.dues == [] && Step(cfg, c, e).h2
    ensures EmittedAll(cfg, Step(cfg, c, e))
    ensures Step(cfg, c, e).pairs == c.pairs && Step(cfg, c, e).waiting == c.waiting
    ensures Step(cfg, c, e).req == WithoutPreface(c.req + RequestBytes(e))
    ensures Step(cfg, c, e).resp == WithoutPreface(c.resp + ResponseBytes(e))
  {
    hide H.Complete, Step, WithoutPreface, RequestBytes, ResponseBytes;
    EntryDrain(cfg, c, e);
    var d := Step(cfg, c, e);
    var due := Due(cfg.codec, d.req, d.resp, {});
    assert due == H.Complete(cfg.codec, d.req, d.resp);
    assert Merge([due][..0]) + due == due;
    assert c.dues + [due] == [due];
  }

  lemma {:induction false} NothingBeforeH2(cfg: CaptureConfig, es: seq<Event>, ssl: bool)
    requires Uniform(es, ssl) && !Steps(cfg, es).h2
    ensures Steps(cfg, es).emitted == {} && Steps(cfg, es).dues == []
    decreases |es|
  {
    if |es| > 0 {
      hide Loop, AnswerLoop, Pairs;
      var front, e := es[..|es| - 1], es[|es| - 1];
      RunKeepsFlag(cfg, front, ssl);
      if CarriesBytes(e) && Steps(cfg, front).h2 {
        StepKeepsH2(cfg, Steps(cfg, front), e);
      }
      NothingBeforeH2(cfg, front, ssl);
    }
  }

  lemma {:induction false} H2StepEmitsAll(cfg: CaptureConfig, c: Contents, e: Event)
    requires CarriesBytes(e) && c.h2 && FlagIs(c, e.ssl) && Takes(cfg, c, RequestBytes(e), ResponseBytes(e))
    requires EmittedAll(cfg, c)
    requires H.WellFormedStream(cfg.codec, c.req + RequestBytes(e)) && H.WellFormedStream(cfg.codec, c.resp + ResponseBytes(e))
    ensures EmittedAll(cfg, Step(cfg, c, e))
  {
    hide H.Complete, Step;
    H2Step(cfg, c, e);
    BatchCompletes(cfg.codec, c.dues, c.req, c.resp, RequestBytes(e), ResponseBytes(e));
  }

  /** In HTTP/2 mode, entered by either side, at the first byte or after HTTP/1 traffic: what has been
      emitted is exactly what is complete in the buffers, each stream once with its whole content. */
  lemma {:induction false} EmittedIsComplete(cfg: CaptureConfig, es: seq<Event>, ssl: bool)
    requires Uniform(es, ssl) && Undisturbed(cfg, es) && Steps(cfg, es).h2
    requires H.WellFormedStream(cfg.codec, Steps(cfg, es).req) && H.WellFormedStream(cfg.codec, Steps(cfg, es).resp)
    ensures EmittedAll(cfg, Steps(cfg, es))
    decreases |es|
  {
    hide Step, DrainContent, EmittedAll, H.WellFormedStream, Takes;
    assert |es| > 0;
    var front, e := es[..|es| - 1], es[|es| - 1];
    var c := Steps(cfg, front);
    RunKeepsFlag(cfg, front, ssl);
    if !CarriesBytes(e) {
      SkippedStep(cfg, c, e);
      EmittedIsComplete(cfg, front, ssl);
    } else if c.h2 {
      H2Step(cfg, c, e);
      H.PrefixIsWellFormed(cfg.codec, c.req, RequestBytes(e));
      H.PrefixIsWellFormed(cfg.codec, c.resp, ResponseBytes(e));
      EmittedIsComplete(cfg, front, ssl);
      H2StepEmitsAll(cfg, c, e);
    } else {
      NothingBeforeH2(cfg, front, ssl);
      EntryStep(cfg, c, e);
    }
  }

  // ---- Going on from any HTTP/2 state --------------------------------------------------------

  lemma {:induction false} StepsGoOn(cfg: CaptureConfig, es: seq<Event>, fs: seq<Event>)
    requires |fs| > 0
    ensures var n := |fs| - 1;
            && (es + fs)[..|es + fs| - 1] == es + fs[..n] && (es + fs)[|es + fs| - 1] == fs[n]
            && Steps(cfg, es + fs) == Step(cfg, Steps(cfg, es + fs[..n]), fs[n])
  {
    var n := |fs| - 1;
    assert (es + fs)[..|es + fs| - 1] == es + fs[..n];
  }

  lemma {:induction false} TakesLess(cfg: CaptureConfig, c: Contents, x: Bytes, y: Bytes, x': Bytes, y': Bytes)
    requires Takes(cfg, c, x + x', y + y')
    ensures Takes(cfg, c, x, y)
  {
    assert c.req + (x + x') == (c.req + x) + x' && c.resp + (y + y') == (c.resp + y) + y';
    PrefaceStays(c.req + x, x');
    PrefaceStays(c.resp + y, y');
  }

  /** A continuation that fits is undisturbed, keeps the mode, and adds its two streams to the buffers. */
  lemma {:induction false} BuffersGoOn(cfg: CaptureConfig, es: seq<Event>, fs: seq<Event>, ssl: bool)
    requires Uniform(es + fs, ssl) && Undisturbed(cfg, es) && Steps(cfg, es).h2
    requires Takes(cfg, Steps(cfg, es), RequestStream(fs), ResponseStream(fs))
    ensures Undisturbed(cfg, es + fs)
    ensures var c, d := Steps(cfg, es), Steps(cfg, es + fs);
            && d.h2 && d.req == c.req + RequestStream(fs) && d.resp == c.resp + ResponseStream(fs)
            && d.pairs == c.pairs && d.waiting == c.waiting
    decreases |fs|
  {
    var c := Steps(cfg, es);
    if |fs| == 0 {
      assert es + fs == es && c.req + [] == c.req && c.resp + [] == c.resp;
    } else {
      hide Step, Takes, Steps;
      var front, e := fs[..|fs| - 1], fs[|fs| - 1];
      StepsGoOn(cfg, es, fs);
      TakesLess(cfg, c, RequestStream(front), ResponseStream(front), RequestBytes(e), ResponseBytes(e));
      assert Uniform(es + front, ssl) by { UniformFront(es, fs, ssl); }
      BuffersGoOn(cfg, es, front, ssl);
      var d := Steps(cfg, es + front);
      RunKeepsFlag(cfg, es + front, ssl);
      if CarriesBytes(e) {
        UniformFront(es, fs, ssl);
        TakesAfter(cfg, c, d, RequestStream(front), ResponseStream(front), RequestBytes(e), ResponseBytes(e));
        H2Step(cfg, d, e);
      } else {
        SkippedStep(cfg, d, e);
        assert RequestStream(fs) == RequestStream(front) && ResponseStream(fs) == ResponseStream(front);
      }
    }
  }

  lemma {:induction false} UniformFront(es: seq<Event>, fs: seq<Event>, ssl: bool)
    requires Uniform(es + fs, ssl) && |fs| > 0
    ensures Uniform(es + fs[..|fs| - 1], ssl)
    ensures CarriesBytes(fs[|fs| - 1]) ==> fs[|fs| - 1].ssl == ssl
  {
    var all, front := es + fs, es + fs[..|fs| - 1];
    assert forall i :: 0 <= i < |front| ==> front[i] == all[i];
    assert all[|all| - 1] == fs[|fs| - 1];
  }

  lemma {:induction false} TakesAfter(cfg: CaptureConfig, c: Contents, d: Contents, x: Bytes, y: Bytes, x': Bytes, y': Bytes)
    requires Takes(cfg, c, x + x', y + y') && d.req == c.req + x && d.resp == c.resp + y
    ensures Takes(cfg, d, x', y')
    ensures d.req + x' == c.req + (x + x') && d.resp + y' == c.resp + (y + y')
  {
    assert d.req + x' == c.req + (x + x') && d.resp + y' == c.resp + (y + y');
  }

  /** Chunk independence from any state in HTTP/2 mode, whatever it has said and whoever waits: two
      continuations with the same two streams end with the same buffers and have emitted the same. */
  lemma {:induction false} ContinuationsAgree(cfg: CaptureConfig, es: seq<Event>, fs: seq<Event>, gs: seq<Event>, ssl: bool)
    requires Uniform(es + fs, ssl) && Uniform(es + gs, ssl) && Undisturbed(cfg, es) && Steps(cfg, es).h2
    requires RequestStream(fs) == RequestStream(gs) && ResponseStream(fs) == ResponseStream(gs)
    requires Takes(cfg, Steps(cfg, es), RequestStream(fs), ResponseStream(fs))
    requires H.WellFormedStream(cfg.codec, Steps(cfg, es).req + RequestStream(fs))
    requires H.WellFormedStream(cfg.codec, Steps(cfg, es).resp + ResponseStream(fs))
    ensures var c, d := Steps(cfg, es + fs), Steps(cfg, es + gs);
            && c.req == d.req && c.resp == d.resp && c.emitted == d.emitted && Merge(c.dues) == Merge(d.dues)
            && EachOnce(c.dues) && EachOnce(d.dues)
            && c.pairs == d.pairs == Steps(cfg, es).pairs && c.waiting == d.waiting == Steps(cfg, es).waiting
  {
    hide Steps, H.WellFormedStream, Takes, Undisturbed, Uniform;
    BuffersGoOn(cfg, es, fs, ssl);
    BuffersGoOn(cfg, es, gs, ssl);
    EmittedIsComplete(cfg, es + fs, ssl);
    EmittedIsComplete(cfg, es + gs, ssl);
  }

  // ---- The same over the switch to plaintext ----------------------------------------------------

  /** In any session, ciphertext before the plaintext or not: what was emitted since is exactly what
      is complete in the buffers. */
  lemma {:induction false} SessionEmitsComplete(cfg: CaptureConfig, es: seq<Event>)
    requires Undisturbed(cfg, Counted(es)) && Capture.Run(cfg, es).stream.h2
    requires H.WellFormedStream(cfg.codec, Capture.Run(cfg, es).stream.core.reqData)
    requires H.WellFormedStream(cfg.codec, Capture.Run(cfg, es).stream.core.respData)
    ensures var s := Capture.Run(cfg, es).stream;
            && Merge(Since(cfg, es)) == H.Complete(cfg.codec, s.core.reqData, s.core.respData)
            && s.emitted == Merge(Since(cfg, es)).Keys
  {
    hide Capture.Run, Steps, H.WellFormedStream, Undisturbed, Uniform, H.Complete;
    RunIsSteps(cfg, es);
    RunIsCounted(cfg, es);
    EmittedIsComplete(cfg, Counted(es), |PlaintextOf(es)| > 0);
  }

  /** The preface in pieces, in any session: the streams are those of the events that count. */
  lemma {:induction false} SessionPreface(cfg: CaptureConfig, es: seq<Event>)
    requires var r, s := RequestStream(Counted(es)), ResponseStream(Counted(es));
             && StartsAsPreface(r) && !HasPreface(s)
             && |r| <= cfg.base.maxStreamBytes && |s| <= cfg.base.maxStreamBytes
    ensures var st, r, s := Capture.Run(cfg, es).stream, RequestStream(Counted(es)), ResponseStream(Counted(es));
            && (st.h2 <==> |r| >= |PREFACE|)
            && (|r| < |PREFACE| ==> st.core.reqData == r && st.core.respData == s && st.core.pending == [] && Since(cfg, es) == [])
  {
    hide Capture.Run, Steps, Uniform;
    RunIsSteps(cfg, es);
    RunIsCounted(cfg, es);
    PrefaceSplits(cfg, Counted(es), |PlaintextOf(es)| > 0);
    var ps := Capture.Run(cfg, es).stream.core.pending;
    assert |Requests(ps)| == |ps|;
  }

  /** Two sessions whose counting events bring the same two streams emit the same streams with the same
      contents, each once: neither chunks nor ciphertext matter. */
  lemma {:induction false} SessionChunksDoNotMatter(cfg: CaptureConfig, es: seq<Event>, fs: seq<Event>)
    requires RequestStream(Counted(es)) == RequestStream(Counted(fs)) && ResponseStream(Counted(es)) == ResponseStream(Counted(fs))
    requires Sound(cfg, RequestStream(Counted(es)), ResponseStream(Counted(es))) && |RequestStream(Counted(es))| >= |PREFACE|
    ensures Merge(Since(cfg, es)) == Merge(Since(cfg, fs))
         == H.Complete(cfg.codec, Body(RequestStream(Counted(es))), ResponseStream(Counted(es)))
    ensures EachOnce(Since(cfg, es)) && EachOnce(Since(cfg, fs))
    ensures Capture.Run(cfg, es).stream.core.reqData == Capture.Run(cfg, fs).stream.core.reqData
    ensures Capture.Run(cfg, es).stream.core.respData == Capture.Run(cfg, fs).stream.core.respData
  {
    hide Capture.Run, Steps, Uniform, Sound, H.Complete;
    RunIsSteps(cfg, es);
    RunIsSteps(cfg, fs);
    RunIsCounted(cfg, es);
    RunIsCounted(cfg, fs);
    RunEmitsCompleteStreams(cfg, Counted(es), |PlaintextOf(es)| > 0);
    RunEmitsCompleteStreams(cfg, Counted(fs), |PlaintextOf(fs)| > 0);
  }
}
