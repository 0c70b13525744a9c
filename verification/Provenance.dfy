/** What a conversation says beside its two messages: loss and metadata, followed over whole runs of a
    session (cmd/worker/processing.go). */
module Provenance {
  import opened HttpParsing
  import opened Drain
  import opened Session
  import opened Words
  import A = Accounting

  // ---- Loss -----------------------------------------------------------------------------

  /** An earlier record of loss that the present one has overtaken: merging changes nothing. */
  predicate Overtaken(earlier: Loss, now: Loss) {
    MergeLoss(earlier, now) == now
  }

  ghost predicate AllOvertaken(ps: seq<Pending>, now: Loss) {
    forall i :: 0 <= i < |ps| ==> Overtaken(ps[i].loss, now)
  }

  lemma {:induction false} TrackOvertakes(s: Session, e: Event, earlier: Loss)
    requires Overtaken(earlier, s.loss)
    ensures Overtaken(earlier, Track(s, e).loss)
  {
  }

  lemma {:induction false} DrainKeepsOvertaken(engine: Engine, w: Work)
    requires AllOvertaken(w.session.pending, w.session.loss)
    ensures AllOvertaken(Waiting(w.session, Loop(engine.requests, w.session.reqData)), w.session.loss)
    ensures AllOvertaken(DrainSession(engine, w, false).session.pending, w.session.loss)
    ensures DrainSession(engine, w, false).session.loss == w.session.loss
  {
  }

  /** The session's record has overtaken those of all waiting requests. */
  lemma {:induction false} WaitingLossIsOvertaken(cfg: Config, es: seq<Event>)
    ensures AllOvertaken(Run(cfg, es).session.pending, Run(cfg, es).session.loss)
    decreases |es|
  {
    if |es| > 0 {
      hide DrainSession, Track;
      var w, e := Run(cfg, es[..|es| - 1]), es[|es| - 1];
      WaitingLossIsOvertaken(cfg, es[..|es| - 1]);
      if CarriesBytes(e) {
        var s := Admit(w.session, e);
        AdmitOvertakes(w.session, e);
        AdmitKeepsQueue(w.session, e);
        if !Overflows(cfg, s, e) {
          DrainKeepsOvertaken(cfg.engine, w.(session := Append(s, e)));
        }
      }
    }
  }

  lemma {:induction false} AdmitOvertakes(s: Session, e: Event)
    requires AllOvertaken(s.pending, s.loss)
    ensures AllOvertaken(s.pending, Admit(s, e).loss)
  {
    forall i | 0 <= i < |s.pending| ensures Overtaken(s.pending[i].loss, Admit(s, e).loss) {
      assert Overtaken(s.pending[i].loss, s.loss);
      TrackOvertakes(s.(meta := MergeMeta(s.meta, e.meta)), e, s.pending[i].loss);
    }
  }

  lemma {:induction false} AdmitKeepsQueue(s: Session, e: Event)
    ensures Admit(s, e).pending == s.pending && Admit(s, e).reqData == s.reqData && Admit(s, e).respData == s.respData
  {
  }

  lemma {:induction false} ConverseStates(ps: seq<Pending>, answers: seq<Response>, loss: Loss)
    requires |answers| <= |ps| && AllOvertaken(ps, loss)
    ensures forall i :: 0 <= i < |answers| ==> Converse(ps, answers, loss)[i].loss == loss
  {
    forall i | 0 <= i < |answers| ensures Converse(ps, answers, loss)[i].loss == loss {
      assert Overtaken(ps[i].loss, loss);
    }
  }

  /** What a drain adds to the output states the session's loss. */
  lemma {:induction false} DrainStates(engine: Engine, w: Work, close: bool)
    requires AllOvertaken(w.session.pending, w.session.loss)
    ensures var out := DrainSession(engine, w, close).out;
            w.out <= out && forall i :: |w.out| <= i < |out| ==> out[i].loss == w.session.loss
    ensures DrainSession(engine, w, close).session.loss == w.session.loss
  {
    DrainKeepsOvertaken(engine, w);
    var pending := Waiting(w.session, Loop(engine.requests, w.session.reqData));
    var answers := Answers(engine, w.session.respData, pending, close).messages;
    ConverseStates(pending, answers, w.session.loss);
  }

  /** Whatever was merged, a conversation states exactly the loss the session knows of when it is
      emitted: by an event, and by the flush of a closed session. */
  lemma {:induction false} EmittedLossIsTheSessions(cfg: Config, es: seq<Event>, e: Event)
    requires CarriesBytes(e)
    ensures var w := Run(cfg, es);
            var now, flushed := Process(cfg, w, e), DrainSession(cfg.engine, w, true);
            && w.out <= now.out && (forall i :: |w.out| <= i < |now.out| ==> now.out[i].loss == now.session.loss)
            && w.out <= flushed.out && (forall i :: |w.out| <= i < |flushed.out| ==> flushed.out[i].loss == w.session.loss)
  {
    hide Run, DrainSession, Track;
    var w := Run(cfg, es);
    WaitingLossIsOvertaken(cfg, es);
    DrainStates(cfg.engine, w, true);
    var s := Admit(w.session, e);
    AdmitOvertakes(w.session, e);
    AdmitKeepsQueue(w.session, e);
    DrainStates(cfg.engine, w.(session := Append(s, e)), false);
  }

  /** Event i is the last truncated one the session took in. */
  predicate LastTruncated(es: seq<Event>, i: nat) {
    && i < |es| && CarriesBytes(es[i]) && es[i].loss.truncated
    && forall j :: i < j < |es| && CarriesBytes(es[j]) ==> !es[j].loss.truncated
  }

  lemma {:induction false} ProcessLoss(cfg: Config, w: Work, e: Event)
    requires CarriesBytes(e)
    ensures Process(cfg, w, e).session.loss == Track(w.session, e).loss
    ensures Process(cfg, w, e).session.meta == MergeMeta(w.session.meta, e.meta)
  {
    hide Loop, AnswerLoop, Answers, Waiting, MergeMeta;
  }

  /** The sizes and the reason of a truncation are those of the last truncated event; without one
      the record is empty. */
  lemma {:induction false} TruncationIsTheLast(cfg: Config, es: seq<Event>)
    ensures var l := Run(cfg, es).session.loss;
            && (l.truncated <==> exists i: nat :: LastTruncated(es, i))
            && (forall i: nat :: LastTruncated(es, i) ==>
                  l.originalSize == es[i].loss.originalSize && l.capturedSize == es[i].loss.capturedSize && l.reason == es[i].loss.reason)
    decreases |es|
  {
    if |es| > 0 {
      hide Process, LastTruncated;
      var front, e := es[..|es| - 1], es[|es| - 1];
      TruncationIsTheLast(cfg, front);
      if CarriesBytes(e) {
        ProcessLoss(cfg, Run(cfg, front), e);
      }
      LastTruncatedGrows(front, e);
      assert front + [e] == es;
    }
  }

  lemma {:induction false} LastTruncatedGrows(front: seq<Event>, e: Event)
    ensures CarriesBytes(e) && e.loss.truncated ==>
              LastTruncated(front + [e], |front|) && forall i: nat :: LastTruncated(front + [e], i) ==> i == |front|
    ensures !(CarriesBytes(e) && e.loss.truncated) ==>
              forall i: nat :: (LastTruncated(front + [e], i) <==> LastTruncated(front, i)) && (LastTruncated(front, i) ==> i < |front|)
    ensures forall i: nat :: LastTruncated(front + [e], i) ==> i <= |front|
    ensures forall i: nat :: LastTruncated(front, i) ==> i < |front|
  {
    var es := front + [e];
    assert forall j :: 0 <= j < |front| ==> es[j] == front[j];
    assert es[|front|] == e;
  }

  // ---- Metadata ------------------------------------------------------------------------------

  /** Event i is the first the session took in that states a value. */
  predicate FirstStating(es: seq<Event>, states: Meta -> bool, i: nat) {
    && i < |es| && CarriesBytes(es[i]) && states(es[i].meta)
    && forall j :: 0 <= j < i && CarriesBytes(es[j]) ==> !states(es[j].meta)
  }

  predicate NamesProtocol(m: Meta) { m.connection.protocol != "" }
  predicate NamesProcess(m: Meta) { m.processPid != 0 }

  /** Connection and process are those of the first event that names them, whole: never a mixture. */
  lemma {:induction false} MetadataIsTheFirst(cfg: Config, es: seq<Event>)
    ensures var m := Run(cfg, es).session.meta;
            && (forall i: nat :: FirstStating(es, NamesProtocol, i) ==> m.connection == es[i].meta.connection)
            && (NamesProtocol(m) <==> exists i: nat :: FirstStating(es, NamesProtocol, i))
            && (forall i: nat :: FirstStating(es, NamesProcess, i) ==>
                  m.processPid == es[i].meta.processPid && m.processName == es[i].meta.processName)
            && (NamesProcess(m) <==> exists i: nat :: FirstStating(es, NamesProcess, i))
    decreases |es|
  {
    if |es| > 0 {
      hide Process;
      var front, e := es[..|es| - 1], es[|es| - 1];
      MetadataIsTheFirst(cfg, front);
      if CarriesBytes(e) {
        ProcessLoss(cfg, Run(cfg, front), e);
      }
      FirstStatingGrows(front, e, NamesProtocol);
      FirstStatingGrows(front, e, NamesProcess);
      assert front + [e] == es;
    }
  }

  lemma {:induction false} FirstStatingGrows(front: seq<Event>, e: Event, states: Meta -> bool)
    ensures forall i: nat :: FirstStating(front, states, i) ==> FirstStating(front + [e], states, i)
    ensures forall i: nat :: i < |front| && FirstStating(front + [e], states, i) ==> FirstStating(front, states, i)
    ensures FirstStating(front + [e], states, |front|) <==>
              CarriesBytes(e) && states(e.meta) && !exists i: nat :: FirstStating(front, states, i)
  {
    var es := front + [e];
    assert forall j :: 0 <= j < |front| ==> es[j] == front[j];
    if CarriesBytes(e) && states(e.meta) && !FirstStating(es, states, |front|) {
      var j :| 0 <= j < |front| && CarriesBytes(es[j]) && states(es[j].meta);
      var i := EarliestStating(front, states, j);
    }
  }

  lemma {:induction false} EarliestStating(es: seq<Event>, states: Meta -> bool, j: nat) returns (i: nat)
    requires j < |es| && CarriesBytes(es[j]) && states(es[j].meta)
    ensures FirstStating(es, states, i)
    decreases j
  {
    if k: nat :| k < j && CarriesBytes(es[k]) && states(es[k].meta) {
      i := EarliestStating(es, states, k);
    } else {
      i := j;
    }
  }

  predicate NamesSource(m: Meta) { m.captureSource != "" }
  predicate NamesMode(m: Meta) { m.captureMode != "" }
  predicate NamesContainer(m: Meta) { m.containerId != "" }

  /** So is the container. */
  lemma {:induction false} ContainerIsTheFirst(cfg: Config, es: seq<Event>)
    ensures var m := Run(cfg, es).session.meta;
            && (forall i: nat :: FirstStating(es, NamesContainer, i) ==> m.containerId == es[i].meta.containerId)
            && (NamesContainer(m) <==> exists i: nat :: FirstStating(es, NamesContainer, i))
    decreases |es|
  {
    if |es| > 0 {
      hide Process;
      var front, e := es[..|es| - 1], es[|es| - 1];
      ContainerIsTheFirst(cfg, front);
      if CarriesBytes(e) {
        ProcessLoss(cfg, Run(cfg, front), e);
      }
      FirstStatingGrows(front, e, NamesContainer);
      assert front + [e] == es;
    }
  }

  /** And so are capture source and capture mode, each by itself. */
  lemma {:induction false} CaptureIsTheFirst(cfg: Config, es: seq<Event>)
    ensures var m := Run(cfg, es).session.meta;
            && (forall i: nat :: FirstStating(es, NamesSource, i) ==> m.captureSource == es[i].meta.captureSource)
            && (forall i: nat :: FirstStating(es, NamesMode, i) ==> m.captureMode == es[i].meta.captureMode)
            && (NamesSource(m) <==> exists i: nat :: FirstStating(es, NamesSource, i))
            && (NamesMode(m) <==> exists i: nat :: FirstStating(es, NamesMode, i))
    decreases |es|
  {
    if |es| > 0 {
      hide Process;
      var front, e := es[..|es| - 1], es[|es| - 1];
      CaptureIsTheFirst(cfg, front);
      if CarriesBytes(e) {
        ProcessLoss(cfg, Run(cfg, front), e);
      }
      FirstStatingGrows(front, e, NamesSource);
      FirstStatingGrows(front, e, NamesMode);
      assert front + [e] == es;
    }
  }

  // ---- The record of a gap -------------------------------------------------------------------

  predicate LastJump(ns: seq<uint32>, i: nat) {
    A.JumpsAt(ns, i) && forall j :: i < j < |ns| ==> !A.JumpsAt(ns, j)
  }

  /** The numbers leave room for a successor. */
  predicate HaveNext(ns: seq<uint32>) {
    forall k :: 0 <= k < |ns| ==> ns[k] < TWO32 - 1
  }

  lemma {:induction false} JumpsInFront(ns: seq<uint32>, n: nat)
    requires n <= |ns|
    ensures forall j: nat :: j < n ==> (A.JumpsAt(ns[..n], j) <==> A.JumpsAt(ns, j))
    ensures HaveNext(ns) ==> HaveNext(ns[..n])
  {
    forall j: nat | j < n ensures A.JumpsAt(ns[..n], j) <==> A.JumpsAt(ns, j) {
      assert ns[..n][..j] == ns[..j];
    }
  }

  lemma {:induction false} TrackRecords(s: Session, e: Event, ms: seq<uint32>)
    requires (s.hasLastSeq <==> |ms| > 0) && (|ms| > 0 ==> s.lastSeq == A.Max(ms)) && HaveNext(ms)
    ensures var l, ns := Track(s, e).loss, ms + [e.seqno];
            if A.JumpsAt(ns, |ms|) then l.expectedNextSeq == A.Max(ms) + 1 && l.actualSeq == e.seqno
            else l.expectedNextSeq == s.loss.expectedNextSeq && l.actualSeq == s.loss.actualSeq
  {
    assert (ms + [e.seqno])[..|ms|] == ms;
  }

  /** What the record of a gap names is the last jump: the number that was expected then, and the one that came. */
  lemma {:induction false} GapRecordIsTheLastJump(cfg: Config, es: seq<Event>, i: nat)
    requires HaveNext(A.Admitted(es)) && LastJump(A.Admitted(es), i)
    ensures var l, ns := Run(cfg, es).session.loss, A.Admitted(es);
            l.expectedNextSeq == A.Max(ns[..i]) + 1 && l.actualSeq == ns[i]
    decreases |es|
  {
    hide Process, Track, A.JumpsAt, A.Max, HaveNext;
    JumpIsInside(A.Admitted(es), i);
    assert |es| > 0;
    var front, e := es[..|es| - 1], es[|es| - 1];
    if CarriesBytes(e) {
      var ms, ns := A.Admitted(front), A.Admitted(es);
      assert ns[..|ms|] == ms && ns == ms + [e.seqno];
      JumpsInFront(ns, |ms|);
      ProcessLoss(cfg, Run(cfg, front), e);
      LastIsMax(cfg, front);
      TrackRecords(Run(cfg, front).session, e, ms);
      if i < |ms| {
        assert ns[..i] == ms[..i];
        GapRecordIsTheLastJump(cfg, front, i);
      }
    } else {
      GapRecordIsTheLastJump(cfg, front, i);
    }
  }

  lemma {:induction false} JumpIsInside(ns: seq<uint32>, i: nat)
    requires A.JumpsAt(ns, i)
    ensures 0 < i < |ns|
  {
  }

  lemma {:induction false} LastIsMax(cfg: Config, es: seq<Event>)
    requires HaveNext(A.Admitted(es))
    ensures var s, ns := Run(cfg, es).session, A.Admitted(es);
            (s.hasLastSeq <==> |ns| > 0) && (|ns| > 0 ==> s.lastSeq == A.Max(ns))
  {
    A.GapFlagMeansJump(cfg, es);
  }

  // ---- The metadata of a conversation ------------------------------------------------------------

  /** In w the event makes the request loop find q. */
  predicate FindsIn(cfg: Config, w: Work, e: Event, q: Request) {
    && CarriesBytes(e) && !Overflows(cfg, w.session, e)
    && q in Loop(cfg.engine.requests, Append(Admit(w.session, e), e).reqData).messages
  }

  /** Event k made the request loop find q, and m is what the session knew of itself right after that event. */
  predicate FoundAt(cfg: Config, es: seq<Event>, k: nat, q: Request, m: Meta) {
    k < |es| && FindsIn(cfg, Run(cfg, es[..k]), es[k], q) && m == Run(cfg, es[..k + 1]).session.meta
  }

  ghost predicate WasFound(cfg: Config, es: seq<Event>, q: Request, m: Meta) {
    exists k: nat :: FoundAt(cfg, es, k, q, m)
  }

  lemma {:induction false} FoundStays(cfg: Config, es: seq<Event>, e: Event, q: Request, m: Meta)
    requires WasFound(cfg, es, q, m)
    ensures WasFound(cfg, es + [e], q, m)
  {
    hide Run, FindsIn;
    var k: nat :| FoundAt(cfg, es, k, q, m);
    assert (es + [e])[..k] == es[..k] && (es + [e])[..k + 1] == es[..k + 1];
    assert FoundAt(cfg, es + [e], k, q, m);
  }

  /** What waits, and what was said, was found so. */
  ghost predicate AllFound(cfg: Config, es: seq<Event>, w: Work) {
    && (forall i :: 0 <= i < |w.session.pending| ==> WasFound(cfg, es, w.session.pending[i].req, w.session.pending[i].meta))
    && (forall i :: 0 <= i < |w.out| ==> WasFound(cfg, es, w.out[i].req, w.out[i].meta))
  }

  lemma {:induction false} DrainKeepsFound(cfg: Config, es: seq<Event>, w: Work)
    requires AllFound(cfg, es, w)
    requires forall q :: q in Loop(cfg.engine.requests, w.session.reqData).messages ==> WasFound(cfg, es, q, w.session.meta)
    ensures AllFound(cfg, es, DrainSession(cfg.engine, w, false)) && DrainSession(cfg.engine, w, false).session.meta == w.session.meta
  {
    hide WasFound, Loop, Answers;
    var requests := Loop(cfg.engine.requests, w.session.reqData);
    var ps := Waiting(w.session, requests);
    assert forall i :: |w.session.pending| <= i < |ps| ==> ps[i].req == requests.messages[i - |w.session.pending|] && ps[i].meta == w.session.meta;
    assert forall i :: 0 <= i < |ps| ==> WasFound(cfg, es, ps[i].req, ps[i].meta);
  }

  lemma {:induction false} AllFoundStays(cfg: Config, es: seq<Event>, e: Event, w: Work)
    requires AllFound(cfg, es, w)
    ensures AllFound(cfg, es + [e], w)
  {
    hide WasFound;
    forall i | 0 <= i < |w.session.pending| ensures WasFound(cfg, es + [e], w.session.pending[i].req, w.session.pending[i].meta) {
      FoundStays(cfg, es, e, w.session.pending[i].req, w.session.pending[i].meta);
    }
    forall i | 0 <= i < |w.out| ensures WasFound(cfg, es + [e], w.out[i].req, w.out[i].meta) {
      FoundStays(cfg, es, e, w.out[i].req, w.out[i].meta);
    }
  }

  lemma {:induction false} ProcessKeepsFound(cfg: Config, es: seq<Event>, e: Event)
    requires CarriesBytes(e) && AllFound(cfg, es, Run(cfg, es))
    ensures AllFound(cfg, es + [e], Run(cfg, es + [e]))
  {
    hide Run, DrainSession, Overflows, Loop, WasFound, Append;
    var w, all := Run(cfg, es), es + [e];
    RunEnds(cfg, es, e);
    AllFoundStays(cfg, es, e, w);
    AdmitKeepsQueue(w.session, e);
    SameOverflow(cfg, w.session, e);
    if !Overflows(cfg, Admit(w.session, e), e) {
      var v := w.(session := Append(Admit(w.session, e), e));
      AppendKeeps(Admit(w.session, e), e);
      ProcessLoss(cfg, w, e);
      forall q | q in Loop(cfg.engine.requests, v.session.reqData).messages ensures WasFound(cfg, all, q, v.session.meta) {
        FoundNow(cfg, es, e, q);
      }
      DrainKeepsFound(cfg, all, v);
    }
  }

  lemma {:induction false} RunEnds(cfg: Config, es: seq<Event>, e: Event)
    requires CarriesBytes(e)
    ensures Run(cfg, es + [e]) == Process(cfg, Run(cfg, es), e)
  {
    assert (es + [e])[..|es|] == es;
  }

  lemma {:induction false} SameOverflow(cfg: Config, s: Session, e: Event)
    ensures Overflows(cfg, Admit(s, e), e) <==> Overflows(cfg, s, e)
  {
  }

  lemma {:induction false} AppendKeeps(s: Session, e: Event)
    ensures Append(s, e).meta == s.meta && Append(s, e).pending == s.pending
  {
  }

  lemma {:induction false} FoundNow(cfg: Config, es: seq<Event>, e: Event, q: Request)
    requires CarriesBytes(e) && !Overflows(cfg, Run(cfg, es).session, e)
    requires q in Loop(cfg.engine.requests, Append(Admit(Run(cfg, es).session, e), e).reqData).messages
    ensures WasFound(cfg, es + [e], q, Append(Admit(Run(cfg, es).session, e), e).meta)
  {
    hide Run, Loop, Overflows, Process;
    var all := es + [e];
    assert all[..|es|] == es && all[..|es| + 1] == all;
    RunEnds(cfg, es, e);
    ProcessLoss(cfg, Run(cfg, es), e);
    AppendKeeps(Admit(Run(cfg, es).session, e), e);
    assert FoundAt(cfg, all, |es|, q, Run(cfg, all).session.meta);
  }

  /** Over any run: a conversation names the connection, process and container that its session knew when the
      request of the conversation was found, not what it learnt before the answer came. */
  lemma {:induction false} MetadataIsTheRequests(cfg: Config, es: seq<Event>)
    ensures AllFound(cfg, es, Run(cfg, es))
    decreases |es|
  {
    hide Process, AllFound;
    if |es| == 0 {
      NothingFound(cfg, es);
    } else {
      var front, e := es[..|es| - 1], es[|es| - 1];
      assert front + [e] == es;
      MetadataIsTheRequests(cfg, front);
      if CarriesBytes(e) {
        ProcessKeepsFound(cfg, front, e);
      } else {
        AllFoundStays(cfg, front, e, Run(cfg, front));
      }
    }
  }

  lemma {:induction false} NothingFound(cfg: Config, es: seq<Event>)
    ensures AllFound(cfg, es, Work(FRESH, NO_STATS, []))
  {
  }
}
