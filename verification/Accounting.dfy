/** Whole runs of one session, for any parser: where every byte and every request goes, the
    buffer bound, first-in first-out pairing, and what the gap flag says. */
module Accounting {
  import opened Words
  import opened HttpParsing
  import opened Drain
  import opened Session
  import opened Reassembly

  // ---- The ledger of a run ------------------------------------------------------

  /** What happened to one side's bytes: cleared bytes are those lost to an overflow. */
  datatype Side = Side(routed: nat, trimmed: nat, consumed: nat, cleared: nat)

  datatype Ledger = Ledger(req: Side, resp: Side, parsed: nat, dropped: nat)

  /** What one event adds to the ledger. */
  function Entry(cfg: Config, w: Work, e: Event): Ledger
    requires CarriesBytes(e)
  {
    var s := Append(Admit(w.session, e), e);
    var n := |Payload(e)|;
    var x, y := if RoutesToRequest(e) then n else 0, if RoutesToRequest(e) then 0 else n;
    if Overflows(cfg, w.session, e) then
      Ledger(Side(x, 0, 0, if RoutesToRequest(e) then |s.reqData| else 0),
             Side(y, 0, 0, if RoutesToRequest(e) then 0 else |s.respData|), 0, |w.session.pending|)
    else
      var requests := Loop(cfg.engine.requests, s.reqData);
      var answers := Answers(cfg.engine, s.respData, Waiting(s, requests), false);
      Ledger(Side(x, requests.trimmed, requests.consumed, 0), Side(y, answers.trimmed, answers.consumed, 0),
             |requests.messages|, 0)
  }

  function AddSide(a: Side, b: Side): Side {
    Side(a.routed + b.routed, a.trimmed + b.trimmed, a.consumed + b.consumed, a.cleared + b.cleared)
  }

  function Totals(cfg: Config, es: seq<Event>): Ledger {
    if |es| == 0 then Ledger(Side(0, 0, 0, 0), Side(0, 0, 0, 0), 0, 0)
    else
      var t := Totals(cfg, es[..|es| - 1]);
      if !CarriesBytes(es[|es| - 1]) then t
      else
        var n := Entry(cfg, Run(cfg, es[..|es| - 1]), es[|es| - 1]);
        Ledger(AddSide(t.req, n.req), AddSide(t.resp, n.resp), t.parsed + n.parsed, t.dropped + n.dropped)
  }

  ghost predicate SideBalances(t: Side, buffered: nat, received: nat) {
    t.routed == received && t.routed == t.trimmed + t.consumed + t.cleared + buffered
  }

  lemma {:induction false} DrainBalances(engine: Engine, v: Work)
    ensures var requests := Loop(engine.requests, v.session.reqData);
            var answers := Answers(engine, v.session.respData, Waiting(v.session, requests), false);
            var d := DrainSession(engine, v, false);
            && |v.session.reqData| == requests.trimmed + requests.consumed + |d.session.reqData|
            && |v.session.respData| == answers.trimmed + answers.consumed + |d.session.respData|
            && |v.session.pending| + |requests.messages| == |answers.messages| + |d.session.pending|
            && |d.out| == |v.out| + |answers.messages|
            && d.stats == CountDrain(v.stats, requests, answers)
  {
    var requests := Loop(engine.requests, v.session.reqData);
    AnswerLoopCounts(engine.responses(false), v.session.respData, Requests(Waiting(v.session, requests)));
  }

  /** The work handed to the drain when the event overflows nothing. */
  function Appended(w: Work, e: Event): Work {
    w.(session := Append(Admit(w.session, e), e))
  }

  lemma {:induction false} AppendedSizes(w: Work, e: Event)
    requires CarriesBytes(e)
    ensures var v := Appended(w, e);
            && |v.session.reqData| == |w.session.reqData| + |RequestBytes(e)|
            && |v.session.respData| == |w.session.respData| + |ResponseBytes(e)|
            && v.session.pending == w.session.pending && v.out == w.out
            && v.stats == w.stats
  {
  }

  /** What the ledger says of one event, seen from the session before and after it. */
  ghost predicate EntryFits(n: Ledger, e: Event, w: Work, after: Work) {
    && n.req.routed == |RequestBytes(e)| && n.resp.routed == |ResponseBytes(e)|
    && |w.session.reqData| + n.req.routed
         == n.req.trimmed + n.req.consumed + n.req.cleared + |after.session.reqData|
    && |w.session.respData| + n.resp.routed
         == n.resp.trimmed + n.resp.consumed + n.resp.cleared + |after.session.respData|
    && |w.session.pending| + n.parsed + |w.out| == n.dropped + |after.session.pending| + |after.out|
    && after.stats.droppedNoReqStart == w.stats.droppedNoReqStart + n.req.trimmed
    && after.stats.droppedNoRespInit == w.stats.droppedNoRespInit + n.resp.trimmed
    && after.stats.requestParsed == w.stats.requestParsed + n.parsed
    && after.stats.parsed == w.stats.parsed + (|after.out| - |w.out|)
  }

  lemma {:induction false} EntryBalances(cfg: Config, w: Work, e: Event)
    requires CarriesBytes(e)
    ensures EntryFits(Entry(cfg, w, e), e, w, Process(cfg, w, e))
  {
    AppendedSizes(w, e);
    if !Overflows(cfg, w.session, e) {
      DrainBalances(cfg.engine, Appended(w, e));
    }
  }

  /** Bytes: routed is trimmed, consumed, cleared or still buffered, on both sides; the trimmed
      ones are what the two drop counters show. Requests: parsed is emitted, waiting or cleared. */
  lemma {:induction false} LedgerBalances(cfg: Config, es: seq<Event>)
    ensures var t, w := Totals(cfg, es), Run(cfg, es);
            && SideBalances(t.req, |w.session.reqData|, |RequestStream(es)|)
            && SideBalances(t.resp, |w.session.respData|, |ResponseStream(es)|)
            && t.parsed == |w.out| + |w.session.pending| + t.dropped
            && w.stats.droppedNoReqStart == t.req.trimmed && w.stats.droppedNoRespInit == t.resp.trimmed
            && w.stats.requestParsed == t.parsed && w.stats.parsed == |w.out|
    decreases |es|
  {
    if |es| > 0 {
      LedgerBalances(cfg, es[..|es| - 1]);
      if CarriesBytes(es[|es| - 1]) {
        EntryBalances(cfg, Run(cfg, es[..|es| - 1]), es[|es| - 1]);
      }
    }
  }

  /** Both buffers stay within the limit after every event. */
  lemma {:induction false} BuffersStayBounded(cfg: Config, es: seq<Event>)
    ensures |Run(cfg, es).session.reqData| <= cfg.maxStreamBytes
    ensures |Run(cfg, es).session.respData| <= cfg.maxStreamBytes
    decreases |es|
  {
    if |es| > 0 {
      BuffersStayBounded(cfg, es[..|es| - 1]);
      var w, e := Run(cfg, es[..|es| - 1]), es[|es| - 1];
      if CarriesBytes(e) {
        AppendedSizes(w, e);
        DrainBalances(cfg.engine, Appended(w, e));
      }
    }
  }

  /** A caller can tell beforehand: streams within the limit never overflow a buffer. */
  lemma {:induction false} ShortStreamsDoNotOverflow(cfg: Config, es: seq<Event>)
    requires |RequestStream(es)| <= cfg.maxStreamBytes && |ResponseStream(es)| <= cfg.maxStreamBytes
    ensures NoOverflow(cfg, es)
    decreases |es|
  {
    if |es| > 0 {
      ShortStreamsDoNotOverflow(cfg, es[..|es| - 1]);
      LedgerBalances(cfg, es[..|es| - 1]);
    }
  }

  // ---- First in, first out ----------------------------------------------------------

  /** The requests and responses parsed since the waiting list was last cleared, and how many
      conversations had been emitted by then. */
  datatype Epoch = Epoch(requests: seq<Request>, responses: seq<Response>, start: nat)

  function EpochOf(cfg: Config, es: seq<Event>): Epoch {
    if |es| == 0 then Epoch([], [], 0)
    else
      var w, e := Run(cfg, es[..|es| - 1]), es[|es| - 1];
      var p := EpochOf(cfg, es[..|es| - 1]);
      if !CarriesBytes(e) then p
      else if Overflows(cfg, w.session, e) then Epoch([], [], |w.out|)
      else
        var s := Append(Admit(w.session, e), e);
        var requests := Loop(cfg.engine.requests, s.reqData);
        Epoch(p.requests + requests.messages,
              p.responses + Answers(cfg.engine, s.respData, Waiting(s, requests), false).messages, p.start)
  }

  /** The pairs emitted since the epoch began pair its requests and responses in order, and the
      requests without a response are the ones that wait. */
  ghost predicate InOrder(p: Epoch, emitted: seq<(Request, Response)>, waiting: seq<Request>) {
    && |p.responses| <= |p.requests|
    && p.start <= |emitted|
    && emitted[p.start..] == Pairs(p.requests, p.responses)
    && waiting == p.requests[|p.responses|..]
  }

  lemma {:induction false} OrderJoins(p: Epoch, emitted: seq<(Request, Response)>, waiting: seq<Request>, more: seq<Request>, answers: seq<Response>)
    requires InOrder(p, emitted, waiting) && |answers| <= |waiting + more|
    ensures InOrder(Epoch(p.requests + more, p.responses + answers, p.start),
                    emitted + Pairs(waiting + more, answers), (waiting + more)[|answers|..])
  {
    PairsJoin(p.requests, p.responses, more, answers);
    var pairs := Pairs(waiting + more, answers);
    assert (emitted + pairs)[p.start..] == emitted[p.start..] + pairs;
  }

  lemma {:induction false} DrainKeepsOrder(engine: Engine, v: Work, p: Epoch, close: bool)
    requires InOrder(p, Exchanges(v.out), Requests(v.session.pending))
    ensures var requests := Loop(engine.requests, v.session.reqData);
            var answers := Answers(engine, v.session.respData, Waiting(v.session, requests), close);
            var d := DrainSession(engine, v, close);
            InOrder(Epoch(p.requests + requests.messages, p.responses + answers.messages, p.start),
                    Exchanges(d.out), Requests(d.session.pending))
  {
    DrainContents(engine, v, close);
    var requests := Loop(engine.requests, v.session.reqData);
    var answers := Answers(engine, v.session.respData, Waiting(v.session, requests), close);
    OrderJoins(p, Exchanges(v.out), Requests(v.session.pending), requests.messages, answers.messages);
  }

  /** Since the waiting list was last cleared, the k-th response parsed has gone to the k-th
      request parsed (section 9.3.2 of RFC 9112), and the requests left wait in order. */
  lemma {:induction false} AnswersGoInOrder(cfg: Config, es: seq<Event>)
    ensures InOrder(EpochOf(cfg, es), Exchanges(Run(cfg, es).out), Requests(Run(cfg, es).session.pending))
    decreases |es|
  {
    if |es| > 0 {
      var front, e := es[..|es| - 1], es[|es| - 1];
      AnswersGoInOrder(cfg, front);
      var w := Run(cfg, front);
      if CarriesBytes(e) && !Overflows(cfg, w.session, e) {
        AppendedSizes(w, e);
        DrainKeepsOrder(cfg.engine, Appended(w, e), EpochOf(cfg, front), false);
      }
    }
  }

  /** The flush of a closed or expired session keeps the order: no request is answered twice,
      none out of turn. */
  lemma {:induction false} FlushAnswersInOrder(cfg: Config, es: seq<Event>)
    ensures var w, p := Run(cfg, es), EpochOf(cfg, es);
            var requests := Loop(cfg.engine.requests, w.session.reqData);
            var answers := Answers(cfg.engine, w.session.respData, Waiting(w.session, requests), true);
            var d := DrainSession(cfg.engine, w, true);
            InOrder(Epoch(p.requests + requests.messages, p.responses + answers.messages, p.start),
                    Exchanges(d.out), Requests(d.session.pending))
  {
    AnswersGoInOrder(cfg, es);
    DrainKeepsOrder(cfg.engine, Run(cfg, es), EpochOf(cfg, es), true);
  }

  // ---- Gap detection -----------------------------------------------------------------

  /** The sequence numbers of the events that were admitted. */
  function Admitted(es: seq<Event>): seq<uint32> {
    if |es| == 0 then []
    else if CarriesBytes(es[|es| - 1]) then Admitted(es[..|es| - 1]) + [es[|es| - 1].seqno]
    else Admitted(es[..|es| - 1])
  }

  function Max(ns: seq<uint32>): (m: uint32)
    requires |ns| > 0
    ensures m in ns && forall i :: 0 <= i < |ns| ==> ns[i] <= m
  {
    var front := ns[..|ns| - 1];
    if |front| == 0 then ns[0]
    else if Max(front) > ns[|ns| - 1] then Max(front) else ns[|ns| - 1]
  }

  /** Number i jumps over the successor of the largest number before it. */
  predicate JumpsAt(ns: seq<uint32>, i: nat) {
    0 < i < |ns| && ns[i] > Max(ns[..i]) + 1
  }

  /** What the session remembers of the sequence numbers. */
  datatype Seen = Seen(has: bool, last: uint32, gap: bool)

  function SeenBy(s: Session): Seen {
    Seen(s.hasLastSeq, s.lastSeq, s.loss.sequenceGap)
  }

  function See(s: Seen, n: uint32): Seen {
    Seen(true, if !s.has || n >= s.last then n else s.last, s.gap || (s.has && n > Next(s.last)))
  }

  function SeeAll(ns: seq<uint32>): Seen {
    if |ns| == 0 then Seen(false, 0, false) else See(SeeAll(ns[..|ns| - 1]), ns[|ns| - 1])
  }

  lemma {:induction false} ProcessSees(cfg: Config, w: Work, e: Event)
    requires CarriesBytes(e)
    ensures SeenBy(Process(cfg, w, e).session) == See(SeenBy(w.session), e.seqno)
  {
    assert SeenBy(Admit(w.session, e)) == See(SeenBy(w.session), e.seqno);
  }

  lemma {:induction false} RunSees(cfg: Config, es: seq<Event>)
    ensures SeenBy(Run(cfg, es).session) == SeeAll(Admitted(es))
    decreases |es|
  {
    if |es| > 0 {
      var front, e := es[..|es| - 1], es[|es| - 1];
      RunSees(cfg, front);
      if CarriesBytes(e) {
        ProcessSees(cfg, Run(cfg, front), e);
        assert Admitted(es)[..|Admitted(es)| - 1] == Admitted(front);
      }
    }
  }

  lemma {:induction false} SeeAllMeansJump(ns: seq<uint32>)
    requires forall i :: 0 <= i < |ns| ==> ns[i] < TWO32 - 1
    ensures var s := SeeAll(ns);
            && (s.has <==> |ns| > 0)
            && (|ns| > 0 ==> s.last == Max(ns))
            && (s.gap <==> exists i :: JumpsAt(ns, i))
    decreases |ns|
  {
    if |ns| > 0 {
      var ms := ns[..|ns| - 1];
      SeeAllMeansJump(ms);
      forall i: nat | i < |ms| ensures JumpsAt(ms, i) <==> JumpsAt(ns, i) {
        assert ms[..i] == ns[..i];
      }
      assert ns[..|ms|] == ms;
      assert JumpsAt(ns, |ms|) <==> See(SeeAll(ms), ns[|ms|]).gap && |ms| > 0 && ns[|ms|] > Max(ms) + 1;
    }
  }

  /** LastSeq is the largest admitted number, and the flag is up exactly when some admitted
      number jumped over the successor of the largest one before it. */
  lemma {:induction false} GapFlagMeansJump(cfg: Config, es: seq<Event>)
    requires forall i :: 0 <= i < |Admitted(es)| ==> Admitted(es)[i] < TWO32 - 1
    ensures var s, ns := Run(cfg, es).session, Admitted(es);
            && (s.hasLastSeq <==> |ns| > 0)
            && (|ns| > 0 ==> s.lastSeq == Max(ns))
            && (s.loss.sequenceGap <==> exists i :: JumpsAt(ns, i))
  {
    RunSees(cfg, es);
    SeeAllMeansJump(Admitted(es));
  }

  predicate Increasing(ns: seq<uint32>) {
    forall i, j :: 0 <= i < j < |ns| ==> ns[i] < ns[j]
  }

  /** For numbers that arrive in increasing order the flag says exactly that one is missing. */
  lemma {:induction false} GapFlagMeansMissing(cfg: Config, es: seq<Event>)
    requires Increasing(Admitted(es))
    requires forall i :: 0 <= i < |Admitted(es)| ==> Admitted(es)[i] < TWO32 - 1
    ensures var ns := Admitted(es);
            Run(cfg, es).session.loss.sequenceGap <==> exists n :: Missing(ns, n)
  {
    RunSees(cfg, es);
    var ns := Admitted(es);
    SeeAllMeansJump(ns);
    if i: nat :| JumpsAt(ns, i) {
      JumpMeansMissing(ns, i);
    }
    if n: uint32 :| Missing(ns, n) {
      var i := MissingMeansJump(ns, n);
    }
  }

  predicate Missing(ns: seq<uint32>, n: uint32) {
    |ns| > 0 && ns[0] < n < ns[|ns| - 1] && n !in ns
  }

  lemma {:induction false} IncreasingMax(ns: seq<uint32>, i: nat)
    requires Increasing(ns) && 0 < i <= |ns|
    ensures Max(ns[..i]) == ns[i - 1]
  {
    assert ns[..i][i - 1] == ns[i - 1];
  }

  lemma {:induction false} JumpMeansMissing(ns: seq<uint32>, i: nat)
    requires Increasing(ns) && JumpsAt(ns, i)
    ensures ns[i - 1] + 1 < TWO32 && Missing(ns, ns[i - 1] + 1)
  {
    IncreasingMax(ns, i);
    var n := ns[i - 1] + 1;
    forall j | 0 <= j < |ns| ensures ns[j] != n {
    }
  }

  lemma {:induction false} MissingMeansJump(ns: seq<uint32>, n: uint32) returns (i: nat)
    requires Increasing(ns) && Missing(ns, n)
    ensures JumpsAt(ns, i)
  {
    i := FirstAbove(ns, n);
    assert ns[i - 1] in ns;
    IncreasingMax(ns, i);
  }

  lemma {:induction false} FirstAbove(ns: seq<uint32>, n: uint32) returns (i: nat)
    requires |ns| > 0 && ns[0] < n < ns[|ns| - 1]
    ensures 0 < i < |ns| && ns[i - 1] <= n < ns[i]
  {
    i := 1;
    while ns[i] <= n
      invariant 0 < i < |ns| && ns[i - 1] <= n
      decreases |ns| - i
    {
      i := i + 1;
    }
  }

  /** Once up, the flag stays up. */
  lemma {:induction false} GapFlagIsNeverCleared(cfg: Config, es: seq<Event>, more: seq<Event>)
    requires Run(cfg, es).session.loss.sequenceGap
    ensures Run(cfg, es + more).session.loss.sequenceGap
    decreases |more|
  {
    hide Run;
    if |more| == 0 {
      assert es + more == es;
    } else {
      var all, front := es + more, es + more[..|more| - 1];
      assert all[..|all| - 1] == front && all[|all| - 1] == more[|more| - 1];
      GapFlagIsNeverCleared(cfg, es, more[..|more| - 1]);
      RunSees(cfg, front);
      RunSees(cfg, all);
      if CarriesBytes(all[|all| - 1]) {
        assert Admitted(all)[..|Admitted(all)| - 1] == Admitted(front);
      }
    }
  }
}
