/** One session of the worker as a value: what processEvent and drainParsedConversations do to
    a StreamState, its counters and its output (cmd/worker/processing.go). */
module Session {
  import opened Words
  import opened HttpTokens
  import opened HttpParsing
  import opened Drain

  // ---- Data -------------------------------------------------------------------

  datatype Connection = Connection(protocol: string, srcIP: string, srcPort: int, dstIP: string, dstPort: int,
                                   family: string, role: string)
  datatype Meta = Meta(captureSource: string, captureMode: string, connection: Connection,
                       processPid: uint32, processName: string, containerId: string)

  datatype Loss = Loss(truncated: bool, originalSize: uint32, capturedSize: uint32, reason: string,
                       sequenceGap: bool, expectedNextSeq: uint32, actualSeq: uint32)

  const NO_LOSS := Loss(false, 0, 0, "", false, 0, 0)
  const NO_META := Meta("", "", Connection("", "", 0, "", 0, "", ""), 0, "", "")

  datatype EventType = DataEvent | CloseEvent | OtherEvent

  datatype Event = Event(eventType: EventType, meta: Meta, pid: uint32, fd: uint32, generation: uint32,
                         seqno: uint32, direction: Direction, ssl: bool, size: uint32, payload: Bytes, loss: Loss)

  datatype Pending = Pending(req: Request, meta: Meta, loss: Loss)
  datatype Conversation = Conversation(req: Request, resp: Response, meta: Meta, loss: Loss)

  datatype Session = Session(reqData: Bytes, respData: Bytes, pending: seq<Pending>,
                             lastSeq: uint32, hasLastSeq: bool, meta: Meta, loss: Loss)

  const FRESH := Session([], [], [], 0, false, NO_META, NO_LOSS)

  /** The counters that account for messages and trimmed bytes. */
  datatype Stats = Stats(requestParsed: nat, parsed: nat, droppedNoReqStart: nat, droppedNoRespInit: nat)

  const NO_STATS := Stats(0, 0, 0, 0)

  /** A session, the counters it feeds and the conversations emitted so far. */
  datatype Work = Work(session: Session, stats: Stats, out: seq<Conversation>)

  /** One turn of the request loop, and one turn of the response loop for a waiting request,
      the latter with or without responses that only the end of the connection delimits. */
  datatype Engine = Engine(requests: Scanner<Request>, responses: bool -> Request -> Scanner<Response>)

  datatype Config = Config(engine: Engine, maxStreamBytes: nat)

  // ---- Admission: which events carry bytes, and to which buffer ---------------

  function Payload(e: Event): Bytes {
    e.payload[..if e.size > |e.payload| then |e.payload| else e.size]
  }

  predicate IsCounterNoise(p: Bytes) {
    |p| == 8 && (p[0] == 1 || p[0] == 2) && forall i :: 1 <= i < 8 ==> p[i] == 0
  }

  predicate CarriesBytes(e: Event) {
    e.eventType == DataEvent && e.size != 0 && |e.payload| != 0 && !IsCounterNoise(Payload(e))
  }

  /** The token seen first decides; only without a token does the direction. */
  predicate RoutesToRequest(e: Event) {
    match ClassifyPayload(Payload(e))
    case RequestPayload => true
    case ResponsePayload => false
    case Unknown => e.direction == Read
  }

  /** What is taken of an event is the front of its payload, as long as its size says or as there is. */
  lemma {:induction false} PayloadIsFront(e: Event)
    ensures Payload(e) <= e.payload
    ensures |Payload(e)| == Min(e.size, |e.payload|)
  {
  }

  /** A counter: a little-endian 1 or 2 in eight bytes, alone in its chunk. */
  lemma {:induction false} NoiseIsACounter(p: Bytes)
    ensures IsCounterNoise(p) <==> p == [1, 0, 0, 0, 0, 0, 0, 0] || p == [2, 0, 0, 0, 0, 0, 0, 0]
  {
  }

  /** Events are taken in that are data, state a size, bring bytes, and are no counter. */
  lemma {:induction false} TakenInIff(e: Event)
    ensures CarriesBytes(e) <==> e.eventType == DataEvent && |Payload(e)| > 0 && !IsCounterNoise(Payload(e))
  {
  }

  // ---- Metadata and loss ------------------------------------------------------

  function MergeMeta(m: Meta, e: Meta): Meta {
    Meta(if m.captureSource == "" then e.captureSource else m.captureSource,
         if m.captureMode == "" then e.captureMode else m.captureMode,
         if m.connection.protocol == "" then e.connection else m.connection,
         if m.processPid == 0 then e.processPid else m.processPid,
         if m.processPid == 0 then e.processName else m.processName,
         if m.containerId == "" then e.containerId else m.containerId)
  }

  /** mergeLossMetadata: a truncation and a gap each replace their own half. */
  function MergeLoss(base: Loss, latest: Loss): Loss {
    var b := if latest.truncated
      then base.(truncated := true, originalSize := latest.originalSize,
                 capturedSize := latest.capturedSize, reason := latest.reason) else base;
    if latest.sequenceGap
    then b.(sequenceGap := true, expectedNextSeq := latest.expectedNextSeq, actualSeq := latest.actualSeq) else b
  }

  function Next(s: uint32): uint32 { (s + 1) % TWO32 }

  predicate Gap(s: Session, e: Event) {
    s.hasLastSeq && e.seqno > Next(s.lastSeq)
  }

  /** Gap detection, truncation and LastSeq, in the source's order. */
  function Track(s: Session, e: Event): Session {
    var gapped := if Gap(s, e)
      then s.loss.(sequenceGap := true, expectedNextSeq := Next(s.lastSeq), actualSeq := e.seqno) else s.loss;
    var loss := if e.loss.truncated
      then gapped.(truncated := true, originalSize := e.loss.originalSize,
                   capturedSize := e.loss.capturedSize, reason := e.loss.reason) else gapped;
    var newer := !s.hasLastSeq || e.seqno >= s.lastSeq;
    s.(loss := loss, lastSeq := if newer then e.seqno else s.lastSeq, hasLastSeq := s.hasLastSeq || newer)
  }

  function Admit(s: Session, e: Event): Session {
    Track(s.(meta := MergeMeta(s.meta, e.meta)), e)
  }

  // ---- The two parse loops on this session ------------------------------------

  function RequestParser(lib: Library): Parser<Request> {
    (d: Bytes) => ParseOneRequest(lib, d)
  }

  function ResponseParser(lib: Library, q: Request, close: bool): Parser<Response> {
    (d: Bytes) => ParseOneResponse(lib, d, q, close)
  }

  /** The engine of the source around a given library. */
  function EngineOf(lib: Library): Engine {
    Engine(ScanFor(METHODS, RequestParser(lib)),
           (close: bool) => (q: Request) => ScanFor(STATUS, ResponseParser(lib, q, close)))
  }

  function Requests(ps: seq<Pending>): (rs: seq<Request>)
    ensures |rs| == |ps| && forall i :: 0 <= i < |ps| ==> rs[i] == ps[i].req
  {
    seq(|ps|, i requires 0 <= i < |ps| => ps[i].req)
  }

  function Queue(rs: seq<Request>, meta: Meta, loss: Loss): (ps: seq<Pending>)
    ensures |ps| == |rs| && forall i :: 0 <= i < |rs| ==> ps[i] == Pending(rs[i], meta, loss)
  {
    seq(|rs|, i requires 0 <= i < |rs| => Pending(rs[i], meta, loss))
  }

  /** The k-th answer goes to the k-th waiting request. */
  function Converse(ps: seq<Pending>, answers: seq<Response>, loss: Loss): (cs: seq<Conversation>)
    requires |answers| <= |ps|
    ensures |cs| == |answers|
    ensures forall i :: 0 <= i < |cs| ==>
              cs[i] == Conversation(ps[i].req, answers[i], ps[i].meta, MergeLoss(ps[i].loss, loss))
  {
    seq(|answers|, i requires 0 <= i < |answers| =>
      Conversation(ps[i].req, answers[i], ps[i].meta, MergeLoss(ps[i].loss, loss)))
  }

  /** The waiting requests once the request loop has run, and what the response loop gives. */
  function Waiting(s: Session, requests: Drained<Request>): seq<Pending> {
    s.pending + Queue(requests.messages, s.meta, s.loss)
  }

  function Answers(engine: Engine, d: Bytes, pending: seq<Pending>, close: bool): (a: Drained<Response>)
    ensures |a.messages| <= |pending|
  {
    AnswerLoopCounts(engine.responses(close), d, Requests(pending));
    AnswerLoop(engine.responses(close), d, Requests(pending)).drained
  }

  function CountDrain(st: Stats, requests: Drained<Request>, answers: Drained<Response>): Stats {
    Stats(st.requestParsed + |requests.messages|, st.parsed + |answers.messages|,
          st.droppedNoReqStart + requests.trimmed, st.droppedNoRespInit + answers.trimmed)
  }

  /** drainParsedConversations. */
  function DrainSession(engine: Engine, w: Work, close: bool): Work {
    var s := w.session;
    var requests := Loop(engine.requests, s.reqData);
    var pending := Waiting(s, requests);
    var answers := Answers(engine, s.respData, pending, close);
    Work(s.(reqData := requests.rest, respData := answers.rest, pending := pending[|answers.messages|..]),
         CountDrain(w.stats, requests, answers),
         w.out + Converse(pending, answers.messages, s.loss))
  }

  // ---- One data event ---------------------------------------------------------

  predicate Overflows(cfg: Config, s: Session, e: Event) {
    if RoutesToRequest(e) then |s.reqData| + |Payload(e)| > cfg.maxStreamBytes
    else |s.respData| + |Payload(e)| > cfg.maxStreamBytes
  }

  function Append(s: Session, e: Event): Session {
    if RoutesToRequest(e) then s.(reqData := s.reqData + Payload(e)) else s.(respData := s.respData + Payload(e))
  }

  /** On overflow the buffer concerned and the waiting requests are dropped; the other buffer stays. */
  function Overflowed(s: Session, e: Event): Session {
    if RoutesToRequest(e) then s.(reqData := [], pending := []) else s.(respData := [], pending := [])
  }

  /** The part of processEvent that holds the session's lock. */
  function Process(cfg: Config, w: Work, e: Event): Work
    requires CarriesBytes(e)
  {
    var s := Admit(w.session, e);
    if Overflows(cfg, s, e) then w.(session := Overflowed(s, e))
    else DrainSession(cfg.engine, w.(session := Append(s, e)), false)
  }

  /** A run of events all keyed to one session. */
  function Run(cfg: Config, es: seq<Event>): Work {
    if |es| == 0 then Work(FRESH, NO_STATS, [])
    else
      var before := Run(cfg, es[..|es| - 1]);
      if CarriesBytes(es[|es| - 1]) then Process(cfg, before, es[|es| - 1]) else before
  }
}
