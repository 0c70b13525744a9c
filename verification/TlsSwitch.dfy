/** The one-way switch to TLS plaintext: from the first plaintext event on, a session is what it
    would be had only plaintext events been captured (cmd/karaxys-capture/process.go). */
module TlsSwitch {
  import opened Words
  import opened Drain
  import opened Session
  import opened Reassembly
  import opened Accounting
  import opened Capture

  function Steps(cfg: CaptureConfig, es: seq<Event>): Contents {
    if |es| == 0 then NOTHING else Step(cfg, Steps(cfg, es[..|es| - 1]), es[|es| - 1])
  }

  lemma {:induction false} RunIsSteps(cfg: CaptureConfig, es: seq<Event>)
    ensures ContentsOf(Capture.Run(cfg, es)) == Steps(cfg, es)
    decreases |es|
  {
    if |es| == 0 {
      assert Requests([]) == [] && Exchanges([]) == [] && Dues([]) == [];
    } else {
      RunIsSteps(cfg, es[..|es| - 1]);
      if CarriesBytes(es[|es| - 1]) {
        ProcessIsOnContents(cfg, Capture.Run(cfg, es[..|es| - 1]), es[|es| - 1]);
      }
    }
  }

  // ---- Earlier output does not matter ------------------------------------------------

  /** The session of c, with what a said earlier in front. */
  function After(a: Contents, c: Contents): Contents {
    c.(pairs := a.pairs + c.pairs, dues := a.dues + c.dues)
  }

  lemma {:induction false} DrainAfter(cfg: CaptureConfig, a: Contents, c: Contents, close: bool)
    ensures DrainContent(cfg, After(a, c), close) == After(a, DrainContent(cfg, c, close))
  {
    hide Loop, AnswerLoop, Due;
    var d := DrainContent(cfg, c, close);
    if c.h2 {
      assert a.dues + d.dues == (a.dues + c.dues) + [d.dues[|c.dues|]];
    } else if !IsPrefaceCandidate(c.req) {
      assert d.pairs == c.pairs + d.pairs[|c.pairs|..];
      assert a.pairs + d.pairs == (a.pairs + c.pairs) + d.pairs[|c.pairs|..];
    }
  }

  lemma {:induction false} StepAfter(cfg: CaptureConfig, a: Contents, c: Contents, e: Event)
    ensures Step(cfg, After(a, c), e) == After(a, Step(cfg, c, e))
  {
    hide DrainContent;
    var s := SwitchContent(c, e);
    assert SwitchContent(After(a, c), e) == After(a, s);
    if CarriesBytes(e) && s.ssl == e.ssl {
      var req, resp := s.req + RequestBytes(e), s.resp + ResponseBytes(e);
      DrainAfter(cfg, a, s.(req := req, resp := resp, h2 := s.h2 || HasPreface(req) || HasPreface(resp)), false);
    }
  }

  // ---- Where the content of a session comes from ---------------------------------------

  predicate IsPlaintext(e: Event) {
    CarriesBytes(e) && e.ssl
  }

  function PlaintextOf(es: seq<Event>): seq<Event> {
    if |es| == 0 then []
    else if IsPlaintext(es[|es| - 1]) then PlaintextOf(es[..|es| - 1]) + [es[|es| - 1]]
    else PlaintextOf(es[..|es| - 1])
  }

  /** The events before the first plaintext. */
  function Leading(es: seq<Event>): (ls: seq<Event>)
    ensures ls <= es
  {
    if |PlaintextOf(es)| == 0 then es
    else
      assert |es| > 0;
      Leading(es[..|es| - 1])
  }

  lemma {:induction false} SslMeansPlaintextSeen(cfg: CaptureConfig, es: seq<Event>)
    ensures Steps(cfg, es).ssl <==> |PlaintextOf(es)| > 0
    decreases |es|
  {
    if |es| > 0 {
      SslMeansPlaintextSeen(cfg, es[..|es| - 1]);
      StepKeepsSsl(cfg, Steps(cfg, es[..|es| - 1]), es[|es| - 1]);
    }
  }

  lemma {:induction false} StepKeepsSsl(cfg: CaptureConfig, c: Contents, e: Event)
    ensures Step(cfg, c, e).ssl == (c.ssl || IsPlaintext(e))
  {
  }

  /** The first plaintext event leaves nothing of what was there. */
  lemma {:induction false} FirstPlaintext(cfg: CaptureConfig, c: Contents, e: Event)
    requires IsPlaintext(e) && !c.ssl
    ensures Step(cfg, c, e) == After(c, Step(cfg, NOTHING, e))
  {
    hide ReceiveContent;
    var s := NOTHING.(ssl := true);
    assert SwitchContent(c, e) == After(c, s) by {
      assert c.pairs + [] == c.pairs && c.dues + [] == c.dues;
    }
    StepAfter(cfg, c, s, e);
  }

  lemma {:induction false} StepsSplit(cfg: CaptureConfig, es: seq<Event>)
    requires |PlaintextOf(es)| > 0
    ensures Steps(cfg, es) == After(Steps(cfg, Leading(es)), Steps(cfg, PlaintextOf(es)))
    decreases |es|
  {
    hide Step;
    var front, e := es[..|es| - 1], es[|es| - 1];
    var ps := PlaintextOf(es);
    if IsPlaintext(e) {
      assert ps[..|ps| - 1] == PlaintextOf(front);
    }
    SslMeansPlaintextSeen(cfg, front);
    if |PlaintextOf(front)| == 0 {
      FirstPlaintext(cfg, Steps(cfg, front), e);
    } else {
      StepsSplit(cfg, front);
      if IsPlaintext(e) {
        StepAfter(cfg, Steps(cfg, Leading(front)), Steps(cfg, PlaintextOf(front)), e);
      } else {
        IgnoredAfterSwitch(cfg, Steps(cfg, front), e);
      }
    }
  }

  lemma {:induction false} IgnoredAfterSwitch(cfg: CaptureConfig, c: Contents, e: Event)
    requires c.ssl && !IsPlaintext(e)
    ensures Step(cfg, c, e) == c
  {
  }

  /** Provenance: once plaintext has been seen, the flag is up for good, and buffers, waiting
      requests, HTTP/2 state and everything said since are those of a run on the plaintext events
      alone; the flush of a closed session adds the same. */
  lemma {:induction false} OnlyPlaintextAfterSwitch(cfg: CaptureConfig, es: seq<Event>)
    requires |PlaintextOf(es)| > 0
    ensures var v, before, plain := Capture.Run(cfg, es), Capture.Run(cfg, Leading(es)), Capture.Run(cfg, PlaintextOf(es));
            && v.stream.ssl
            && ContentsOf(v) == After(ContentsOf(before), ContentsOf(plain))
            && ContentsOf(DrainStream(cfg, v, true)) == After(ContentsOf(before), ContentsOf(DrainStream(cfg, plain, true)))
  {
    hide Step, DrainContent, DrainStream, Capture.Run;
    RunIsSteps(cfg, es);
    RunIsSteps(cfg, Leading(es));
    RunIsSteps(cfg, PlaintextOf(es));
    StepsSplit(cfg, es);
    SslMeansPlaintextSeen(cfg, es);
    DrainIsOnContents(cfg, Capture.Run(cfg, es), true);
    DrainIsOnContents(cfg, Capture.Run(cfg, PlaintextOf(es)), true);
    DrainAfter(cfg, ContentsOf(Capture.Run(cfg, Leading(es))), ContentsOf(Capture.Run(cfg, PlaintextOf(es))), true);
  }

  // ---- The events that count ---------------------------------------------------------------

  /** The plaintext of a session that has switched, all events of one that has not. */
  function Counted(es: seq<Event>): seq<Event> {
    if |PlaintextOf(es)| > 0 then PlaintextOf(es) else es
  }

  /** What had been said before the switch. */
  function Earlier(cfg: CaptureConfig, es: seq<Event>): Contents {
    if |PlaintextOf(es)| > 0 then Steps(cfg, Leading(es)) else NOTHING
  }

  /** All chunks of the session are plaintext, or none is. */
  predicate Uniform(es: seq<Event>, ssl: bool) {
    forall i :: 0 <= i < |es| && CarriesBytes(es[i]) ==> es[i].ssl == ssl
  }

  lemma {:induction false} PlaintextIsUniform(es: seq<Event>)
    ensures Uniform(PlaintextOf(es), true)
    ensures |PlaintextOf(es)| == 0 ==> Uniform(es, false)
    decreases |es|
  {
    if |es| > 0 {
      PlaintextIsUniform(es[..|es| - 1]);
    }
  }

  /** Any session is a session of one kind of chunks, after what was said before its switch. */
  lemma {:induction false} RunIsCounted(cfg: CaptureConfig, es: seq<Event>)
    ensures Uniform(Counted(es), |PlaintextOf(es)| > 0)
    ensures Steps(cfg, es) == After(Earlier(cfg, es), Steps(cfg, Counted(es)))
  {
    PlaintextIsUniform(es);
    var c := Steps(cfg, es);
    assert [] + c.pairs == c.pairs && [] + c.dues == c.dues;
    if |PlaintextOf(es)| > 0 {
      StepsSplit(cfg, es);
    }
  }

  // ---- What the switch does not reset ----------------------------------------------------

  /** Event i is not ignored: it is plaintext, or no plaintext came before it. */
  predicate IsTracked(es: seq<Event>, i: nat)
    requires i < |es|
  {
    CarriesBytes(es[i]) && (es[i].ssl || |PlaintextOf(es[..i])| == 0)
  }

  lemma {:induction false} DrainKeepsLoss(cfg: CaptureConfig, w: State)
    ensures DrainStream(cfg, w, false).stream.core.loss == w.stream.core.loss
  {
  }

  lemma {:induction false} ReceiveKeepsLoss(cfg: CaptureConfig, w: State, e: Event)
    requires CarriesBytes(e)
    ensures Receive(cfg, w, e).stream.core.loss == Track(w.stream.core, e).loss
  {
    hide DrainStream;
    var tracked := Track(w.stream.core, e);
    var core := Append(tracked, e);
    var h2 := w.stream.h2 || HasPreface(core.reqData) || HasPreface(core.respData);
    DrainKeepsLoss(cfg, w.(stream := w.stream.(core := core, h2 := h2)));
  }

  lemma {:induction false} ProcessKeepsLoss(cfg: CaptureConfig, w: State, e: Event)
    requires CarriesBytes(e)
    ensures Capture.Process(cfg, w, e).stream.core.loss.truncated
         == (w.stream.core.loss.truncated || ((e.ssl || !w.stream.ssl) && e.loss.truncated))
  {
    hide Receive;
    var merged := w.stream.core.(meta := MergeMeta(w.stream.core.meta, e.meta));
    ReceiveKeepsLoss(cfg, w.(stream := Switch(w.stream.(core := merged), e)), e);
  }

  /** The loss record is not reset: a session says truncated exactly when some event it did not
      ignore was, be it ciphertext thrown away at the switch. */
  lemma {:induction false} LossSurvivesSwitch(cfg: CaptureConfig, es: seq<Event>)
    ensures Capture.Run(cfg, es).stream.core.loss.truncated
       <==> exists i :: 0 <= i < |es| && IsTracked(es, i) && es[i].loss.truncated
    decreases |es|
  {
    hide Capture.Process, Step;
    if |es| > 0 {
      var front, e := es[..|es| - 1], es[|es| - 1];
      LossSurvivesSwitch(cfg, front);
      RunIsSteps(cfg, front);
      SslMeansPlaintextSeen(cfg, front);
      forall i: nat | i < |front| ensures IsTracked(front, i) <==> IsTracked(es, i) {
        assert front[..i] == es[..i];
      }
      if CarriesBytes(e) {
        ProcessKeepsLoss(cfg, Capture.Run(cfg, front), e);
      }
    }
  }

  // ---- Gaps across the switch ----------------------------------------------------------------

  /** The sequence numbers the session has looked at: ignored events do not come into it. */
  function TrackedNumbers(es: seq<Event>): seq<uint32> {
    if |es| == 0 then []
    else if IsTracked(es, |es| - 1) then TrackedNumbers(es[..|es| - 1]) + [es[|es| - 1].seqno]
    else TrackedNumbers(es[..|es| - 1])
  }

  lemma {:induction false} DrainKeepsSeen(cfg: CaptureConfig, w: State)
    ensures SeenBy(DrainStream(cfg, w, false).stream.core) == SeenBy(w.stream.core)
  {
  }

  lemma {:induction false} ReceiveSees(cfg: CaptureConfig, w: State, e: Event)
    requires CarriesBytes(e)
    ensures SeenBy(Receive(cfg, w, e).stream.core) == See(SeenBy(w.stream.core), e.seqno)
  {
    hide DrainStream;
    var tracked := Track(w.stream.core, e);
    var core := Append(tracked, e);
    var h2 := w.stream.h2 || HasPreface(core.reqData) || HasPreface(core.respData);
    DrainKeepsSeen(cfg, w.(stream := w.stream.(core := core, h2 := h2)));
  }

  lemma {:induction false} CaptureProcessSees(cfg: CaptureConfig, w: State, e: Event)
    requires CarriesBytes(e)
    ensures SeenBy(Capture.Process(cfg, w, e).stream.core)
         == if e.ssl || !w.stream.ssl then See(SeenBy(w.stream.core), e.seqno) else SeenBy(w.stream.core)
  {
    hide Receive;
    var merged := w.stream.core.(meta := MergeMeta(w.stream.core.meta, e.meta));
    ReceiveSees(cfg, w.(stream := Switch(w.stream.(core := merged), e)), e);
  }

  lemma {:induction false} CaptureRunSees(cfg: CaptureConfig, es: seq<Event>)
    ensures SeenBy(Capture.Run(cfg, es).stream.core) == SeeAll(TrackedNumbers(es))
    decreases |es|
  {
    hide Capture.Process, Step;
    if |es| > 0 {
      var front, e := es[..|es| - 1], es[|es| - 1];
      CaptureRunSees(cfg, front);
      RunIsSteps(cfg, front);
      SslMeansPlaintextSeen(cfg, front);
      if CarriesBytes(e) {
        CaptureProcessSees(cfg, Capture.Run(cfg, front), e);
        if IsTracked(es, |es| - 1) {
          assert TrackedNumbers(es)[..|TrackedNumbers(es)| - 1] == TrackedNumbers(front);
        }
      }
    }
  }

  /** The gap flag of a capture session is up exactly when some number it looked at jumped over the
      successor of the largest it had looked at before. */
  lemma {:induction false} CaptureGapMeansJump(cfg: CaptureConfig, es: seq<Event>)
    requires forall i :: 0 <= i < |TrackedNumbers(es)| ==> TrackedNumbers(es)[i] < TWO32 - 1
    ensures var s, ns := Capture.Run(cfg, es).stream.core, TrackedNumbers(es);
            && (|ns| > 0 ==> s.lastSeq == Max(ns))
            && (s.loss.sequenceGap <==> exists i :: JumpsAt(ns, i))
  {
    hide Capture.Run;
    CaptureRunSees(cfg, es);
    SeeAllMeansJump(TrackedNumbers(es));
  }

  lemma {:induction false} TrackedAreAdmitted(es: seq<Event>)
    ensures forall n :: n in TrackedNumbers(es) ==> n in Admitted(es)
    ensures Increasing(Admitted(es)) ==> Increasing(TrackedNumbers(es))
    decreases |es|
  {
    if |es| > 0 {
      var front := es[..|es| - 1];
      TrackedAreAdmitted(front);
      var ns, ms := Admitted(es), Admitted(front);
      assert |ms| <= |ns| && forall i :: 0 <= i < |ms| ==> ms[i] == ns[i];
      assert Increasing(ns) ==> Increasing(ms);
      if IsTracked(es, |es| - 1) && Increasing(ns) {
        var ts := TrackedNumbers(front);
        forall i | 0 <= i < |ts| ensures ts[i] < es[|es| - 1].seqno {
          assert ts[i] in ms;
          var j :| 0 <= j < |ms| && ms[j] == ts[i];
          assert ns[j] < ns[|ms|];
        }
      }
    }
  }

  /** With increasing numbers the flag is up exactly when a number between the first and the last
      looked at is missing; and when no number of the connection is missing at all, exactly when an
      ignored event lies between them: ciphertext passed over looks like loss. */
  lemma {:induction false} IgnoredCiphertextIsAGap(cfg: CaptureConfig, es: seq<Event>)
    requires Increasing(Admitted(es))
    requires forall i :: 0 <= i < |TrackedNumbers(es)| ==> TrackedNumbers(es)[i] < TWO32 - 1
    ensures var ns, gap := TrackedNumbers(es), Capture.Run(cfg, es).stream.core.loss.sequenceGap;
            && (gap <==> exists n :: Missing(ns, n))
            && ((forall n :: !Missing(Admitted(es), n)) ==>
                  (gap <==> exists n :: Missing(ns, n) && n in Admitted(es)))
  {
    hide Capture.Run;
    var ns, all := TrackedNumbers(es), Admitted(es);
    CaptureRunSees(cfg, es);
    SeeAllMeansJump(ns);
    TrackedAreAdmitted(es);
    if i: nat :| JumpsAt(ns, i) {
      JumpMeansMissing(ns, i);
    }
    if n: uint32 :| Missing(ns, n) {
      var i := MissingMeansJump(ns, n);
    }
    if forall n :: !Missing(all, n) {
      forall n: uint32 | Missing(ns, n) ensures n in all {
        assert ns[0] in ns && ns[|ns| - 1] in ns;
        WithinRange(all, ns[0]);
        WithinRange(all, ns[|ns| - 1]);
        assert !Missing(all, n);
      }
    }
  }

  lemma {:induction false} WithinRange(ns: seq<uint32>, n: uint32)
    requires Increasing(ns) && n in ns
    ensures |ns| > 0 && ns[0] <= n <= ns[|ns| - 1]
  {
  }
}
