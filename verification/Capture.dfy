/** The capture binary's sessions: the worker's session with a one-way switch to TLS plaintext and
    an HTTP/2 mode (cmd/karaxys-capture/process.go and h2.go). */
module Capture {
  import opened HttpTokens
  import opened HttpParsing
  import opened Drain
  import opened Session
  import opened Reassembly
  import H = Http2

  // "PRI * HTTP/2.0", blank line, "SM", blank line (section 3.4 of RFC 9113)
  const PREFACE: Bytes := [80, 82, 73, 32, 42, 32, 72, 84, 84, 80, 47, 50, 46, 48, 13, 10, 13, 10, 83, 77, 13, 10, 13, 10]

  datatype CaptureConfig = CaptureConfig(base: Config, codec: H.Codec)

  datatype Stream = Stream(core: Session, ssl: bool, h2: bool, emitted: set<nat>)

  /** The streams one HTTP/2 drain emits, in no particular order, and what is said along with them. */
  datatype Batch = Batch(due: map<nat, H.Exchange>, meta: Meta, loss: Loss)

  datatype State = State(stream: Stream, stats: Stats, out: seq<Conversation>, batches: seq<Batch>)

  const START := State(Stream(FRESH, false, false, {}), NO_STATS, [], [])

  // ---- One drain --------------------------------------------------------------------

  predicate HasPreface(d: Bytes) {
    |d| >= |PREFACE| && d[..|PREFACE|] == PREFACE
  }

  predicate IsPrefaceCandidate(d: Bytes) {
    if |d| == 0 then false
    else if |d| >= |PREFACE| then d[..|PREFACE|] == PREFACE
    else d == PREFACE[..|d|]
  }

  lemma {:induction false} PrefaceIsSpelled()
    ensures Text(PREFACE) == "PRI * HTTP/2.0\r\n\r\nSM\r\n\r\n"
  {
  }

  /** A buffer may still become the preface when it is a start of it, the empty one left aside, or begins with it. */
  lemma {:induction false} CandidateIff(d: Bytes)
    ensures IsPrefaceCandidate(d) <==> d != [] && (d <= PREFACE || PREFACE <= d)
    ensures HasPreface(d) <==> PREFACE <= d
  {
    assert d <= PREFACE ==> d == PREFACE[..|d|];
    assert PREFACE <= d ==> d[..|PREFACE|] == PREFACE;
  }

  lemma {:induction false} PrefaceStays(d: Bytes, x: Bytes)
    ensures HasPreface(d) ==> HasPreface(d + x)
  {
    if |d| >= |PREFACE| {
      assert (d + x)[..|PREFACE|] == d[..|PREFACE|];
    }
  }

  function WithoutPreface(d: Bytes): Bytes {
    if HasPreface(d) then d[|PREFACE|..] else d
  }

  /** The complete streams not emitted before. */
  function Due(codec: H.Codec, req: Bytes, resp: Bytes, emitted: set<nat>): map<nat, H.Exchange> {
    var complete := H.Complete(codec, req, resp);
    map id | id in complete && id !in emitted :: complete[id]
  }

  function DrainH2(codec: H.Codec, w: State): State {
    var s := w.stream;
    var req, resp := WithoutPreface(s.core.reqData), WithoutPreface(s.core.respData);
    var due := Due(codec, req, resp, s.emitted);
    State(s.(core := s.core.(reqData := req, respData := resp), emitted := s.emitted + due.Keys),
          w.stats.(parsed := w.stats.parsed + |due|), w.out, w.batches + [Batch(due, s.core.meta, s.core.loss)])
  }

  /** While the request buffer may still become the preface, nothing is drained. */
  function DrainStream(cfg: CaptureConfig, w: State, close: bool): State {
    if w.stream.h2 then DrainH2(cfg.codec, w)
    else if IsPrefaceCandidate(w.stream.core.reqData) then w
    else
      var d := DrainSession(cfg.base.engine, Work(w.stream.core, w.stats, w.out), close);
      w.(stream := w.stream.(core := d.session), stats := d.stats, out := d.out)
  }

  // ---- One event ------------------------------------------------------------------------

  /** The first plaintext event throws away what was captured as ciphertext. */
  function Switch(s: Stream, e: Event): Stream {
    if e.ssl && !s.ssl
    then Stream(s.core.(reqData := [], respData := [], pending := []), true, false, {})
    else s
  }

  function Receive(cfg: CaptureConfig, w: State, e: Event): State
    requires CarriesBytes(e)
  {
    var s := w.stream;
    var tracked := Track(s.core, e);
    if Overflows(cfg.base, tracked, e) then w.(stream := s.(core := Overflowed(tracked, e)))
    else
      var core := Append(tracked, e);
      var h2 := s.h2 || HasPreface(core.reqData) || HasPreface(core.respData);
      DrainStream(cfg, w.(stream := s.(core := core, h2 := h2)), false)
  }

  function Process(cfg: CaptureConfig, w: State, e: Event): State
    requires CarriesBytes(e)
  {
    var merged := w.stream.core.(meta := MergeMeta(w.stream.core.meta, e.meta));
    var s := Switch(w.stream.(core := merged), e);
    if s.ssl != e.ssl then w.(stream := s) else Receive(cfg, w.(stream := s), e)
  }

  function Run(cfg: CaptureConfig, es: seq<Event>): State {
    if |es| == 0 then START
    else
      var before := Run(cfg, es[..|es| - 1]);
      if CarriesBytes(es[|es| - 1]) then Process(cfg, before, es[|es| - 1]) else before
  }

  // ---- What the conversations are made of: metadata left aside ------------------------------

  datatype Contents = Contents(req: Bytes, resp: Bytes, waiting: seq<Request>, ssl: bool, h2: bool, emitted: set<nat>,
                               pairs: seq<(Request, Response)>, dues: seq<map<nat, H.Exchange>>)

  const NOTHING := Contents([], [], [], false, false, {}, [], [])

  function Dues(bs: seq<Batch>): (ds: seq<map<nat, H.Exchange>>)
    ensures |ds| == |bs| && forall i :: 0 <= i < |bs| ==> ds[i] == bs[i].due
  {
    seq(|bs|, i requires 0 <= i < |bs| => bs[i].due)
  }

  function ContentsOf(w: State): Contents {
    var s := w.stream;
    Contents(s.core.reqData, s.core.respData, Requests(s.core.pending), s.ssl, s.h2, s.emitted, Exchanges(w.out), Dues(w.batches))
  }

  function DrainContent(cfg: CaptureConfig, c: Contents, close: bool): Contents {
    if c.h2 then
      var req, resp := WithoutPreface(c.req), WithoutPreface(c.resp);
      var due := Due(cfg.codec, req, resp, c.emitted);
      c.(req := req, resp := resp, emitted := c.emitted + due.Keys, dues := c.dues + [due])
    else if IsPrefaceCandidate(c.req) then c
    else
      var requests := Loop(cfg.base.engine.requests, c.req);
      var rs := c.waiting + requests.messages;
      AnswerLoopCounts(cfg.base.engine.responses(close), c.resp, rs);
      var a := AnswerLoop(cfg.base.engine.responses(close), c.resp, rs);
      c.(req := requests.rest, resp := a.drained.rest, waiting := a.left, pairs := c.pairs + Pairs(rs, a.drained.messages))
  }

  function SwitchContent(c: Contents, e: Event): Contents {
    if e.ssl && !c.ssl then NOTHING.(ssl := true, pairs := c.pairs, dues := c.dues) else c
  }

  function ReceiveContent(cfg: CaptureConfig, c: Contents, e: Event): Contents {
    var req, resp := c.req + RequestBytes(e), c.resp + ResponseBytes(e);
    if RoutesToRequest(e) && |req| > cfg.base.maxStreamBytes then c.(req := [], waiting := [])
    else if !RoutesToRequest(e) && |resp| > cfg.base.maxStreamBytes then c.(resp := [], waiting := [])
    else DrainContent(cfg, c.(req := req, resp := resp, h2 := c.h2 || HasPreface(req) || HasPreface(resp)), false)
  }

  function Step(cfg: CaptureConfig, c: Contents, e: Event): Contents {
    var s := SwitchContent(c, e);
    if !CarriesBytes(e) then c else if s.ssl != e.ssl then s else ReceiveContent(cfg, s, e)
  }

  /** No content depends on metadata, sequence numbers or loss. */
  lemma {:induction false} DrainIsOnContents(cfg: CaptureConfig, w: State, close: bool)
    ensures ContentsOf(DrainStream(cfg, w, close)) == DrainContent(cfg, ContentsOf(w), close)
  {
    var s := w.stream;
    if s.h2 {
      var b := DrainH2(cfg.codec, w).batches;
      assert Dues(b) == Dues(w.batches) + [b[|b| - 1].due];
    } else if !IsPrefaceCandidate(s.core.reqData) {
      DrainContents(cfg.base.engine, Work(s.core, w.stats, w.out), close);
    }
  }

  lemma {:induction false} ReceiveIsOnContents(cfg: CaptureConfig, w: State, e: Event)
    requires CarriesBytes(e)
    ensures ContentsOf(Receive(cfg, w, e)) == ReceiveContent(cfg, ContentsOf(w), e)
  {
    var s := w.stream;
    var tracked := Track(s.core, e);
    if !Overflows(cfg.base, tracked, e) {
      var core := Append(tracked, e);
      var h2 := s.h2 || HasPreface(core.reqData) || HasPreface(core.respData);
      DrainIsOnContents(cfg, w.(stream := s.(core := core, h2 := h2)), false);
      AppendedContents(w, core, h2, e);
    } else {
      assert Requests([]) == [];
    }
  }

  lemma {:induction false} AppendedContents(w: State, core: Session, h2: bool, e: Event)
    requires CarriesBytes(e) && core == Append(Track(w.stream.core, e), e)
    ensures var c := ContentsOf(w);
            ContentsOf(w.(stream := w.stream.(core := core, h2 := h2)))
              == c.(req := c.req + RequestBytes(e), resp := c.resp + ResponseBytes(e), h2 := h2)
  {
  }

  lemma {:induction false} SwitchIsOnContents(w: State, s: Stream, e: Event)
    requires s == Switch(w.stream.(core := w.stream.core.(meta := MergeMeta(w.stream.core.meta, e.meta))), e)
    ensures ContentsOf(w.(stream := s)) == SwitchContent(ContentsOf(w), e)
  {
    assert Requests([]) == [];
  }

  lemma {:induction false} ProcessIsOnContents(cfg: CaptureConfig, w: State, e: Event)
    requires CarriesBytes(e)
    ensures ContentsOf(Process(cfg, w, e)) == Step(cfg, ContentsOf(w), e)
  {
    hide Receive, ReceiveContent;
    var s := Switch(w.stream.(core := w.stream.core.(meta := MergeMeta(w.stream.core.meta, e.meta))), e);
    SwitchIsOnContents(w, s, e);
    ReceiveIsOnContents(cfg, w.(stream := s), e);
  }
}
