/** What Kafka's delivery reports do to a message, over every run of the protocol: only a report of success counts
    it as delivered, and a report of failure sends it to the spool (cmd/agent/main.go, cmd/agent/producer.go). */
module Reports {
  import opened DiskSpool
  import opened Delivery

  // ---- The ledger of one message ---------------------------------------------------------------

  /** How often x was handed to the library, confirmed by it and refused by it. */
  datatype Ledger = Ledger(handed: nat, confirmed: nat, refused: nat)

  /** A turn in which the producer loop hands x over: the circuit is closed and the library takes it. */
  predicate HandsOver(st: State, a: Step, x: Message) {
    a.Turn? && a.i < |st.jobs| && st.jobs[a.i] == Producing(x) && !a.brokerDown && a.accepted
  }

  function LedgerOf(cfg: Config, found: seq<Message>, steps: seq<Step>, x: Message): Ledger {
    if |steps| == 0 then Ledger(0, 0, 0)
    else
      var front, a := steps[..|steps| - 1], steps[|steps| - 1];
      var l, st := LedgerOf(cfg, found, front, x), Run(cfg, found, front);
      if HandsOver(st, a, x) then l.(handed := l.handed + 1)
      else if a == Deliver(x) && x in st.kafka then l.(confirmed := l.confirmed + 1)
      else if a == Fail(x) && x in st.kafka then l.(refused := l.refused + 1)
      else l
  }

  /** The reports of success for x. */
  function Successes(steps: seq<Step>, x: Message): nat {
    if |steps| == 0 then 0
    else Successes(steps[..|steps| - 1], x) + if steps[|steps| - 1] == Deliver(x) then 1 else 0
  }

  lemma {:induction false} ActBooks(cfg: Config, st: State, a: Step, x: Message)
    ensures var s := Act(cfg, st, a);
            && s.kafka[x] + (if (a == Deliver(x) || a == Fail(x)) && x in st.kafka then 1 else 0)
                 == st.kafka[x] + (if HandsOver(st, a, x) then 1 else 0)
            && s.delivered[x] == st.delivered[x] + if a == Deliver(x) && x in st.kafka then 1 else 0
  {
    hide AllLost, PassedOver, Delivery.Recovered;
  }

  /** In every run: a message counts as delivered exactly as often as the library has confirmed it, so never more
      often than there were reports of success; and what was handed over is with Kafka, confirmed or refused. */
  lemma {:induction false} OnlyReportsDeliver(cfg: Config, found: seq<Message>, steps: seq<Step>, x: Message)
    ensures var st, l := Run(cfg, found, steps), LedgerOf(cfg, found, steps, x);
            && st.delivered[x] == l.confirmed <= Successes(steps, x)
            && l.handed == st.kafka[x] + l.confirmed + l.refused
    decreases |steps|
  {
    hide Act, HandsOver;
    if |steps| > 0 {
      var front, a := steps[..|steps| - 1], steps[|steps| - 1];
      OnlyReportsDeliver(cfg, found, front, x);
      ActBooks(cfg, Run(cfg, found, front), a, x);
      HandsOverIsTurn(Run(cfg, found, front), a, x);
    }
  }

  lemma {:induction false} HandsOverIsTurn(st: State, a: Step, x: Message)
    ensures HandsOver(st, a, x) ==> a.Turn?
  {
  }

  // ---- What a message is spooled for ---------------------------------------------------------------

  /** A job other than the one whose turn it is stays as it is. */
  lemma {:induction false} JobStays(cfg: Config, st: State, a: Step, n: nat)
    requires n < |st.jobs| && !(a.Turn? && a.i == n)
    ensures n < |Act(cfg, st, a).jobs| && Act(cfg, st, a).jobs[n] == st.jobs[n]
  {
    hide Advance, AllLost, PassedOver, Delivery.Recovered;
    if a.Turn? && a.i < |st.jobs| {
      AdvanceIsOfOne(cfg, st, a.i, a.brokerDown, a.accepted, a.io);
    }
  }

  /** Why the message of job n is offered to the spool after step a: the queue was full, the broker was known to
      be down or the library did not take it, the shutdown ran out of time, or Kafka reported a failure. */
  predicate Cause(cfg: Config, st: State, a: Step, n: nat, m: Message) {
    || (n < |st.jobs| && a.Turn? && a.i == n && st.jobs[n] == Submitting(m) && |st.queue| >= cfg.capacity
        && (cfg.mode == BestEffort || cfg.mode == DropNewest))
    || (n < |st.jobs| && a.Turn? && a.i == n && st.jobs[n] == Retrying(m) && |st.queue| >= cfg.capacity)
    || (n < |st.jobs| && a.Turn? && a.i == n && st.jobs[n] == Producing(m) && (a.brokerDown || !a.accepted))
    || (n == |st.jobs| && a == Expire && |st.queue| > 0 && st.queue[0] == m)
    || (n == |st.jobs| && a == Fail(m) && m in st.kafka && |m.value| > 0)
  }

  /** Job n is about to offer m to the spool. */
  predicate IsSpooling(st: State, n: nat, m: Message) {
    n < |st.jobs| && st.jobs[n] == Spooling(m)
  }

  lemma {:induction false} SpoolWriteKeepsJobs(cfg: Config, st: State, m: Message, io: Delivery.Io)
    ensures SpoolWrite(cfg, st, m, io).jobs == st.jobs
  {
  }

  lemma {:induction false} TurnCause(cfg: Config, st: State, i: nat, brokerDown: bool, accepted: bool, io: Delivery.Io, m: Message)
    requires i < |st.jobs|
    ensures var s := Advance(cfg, st, i, brokerDown, accepted, io);
            IsSpooling(s, i, m) && !IsSpooling(st, i, m) <==> Cause(cfg, st, Turn(i, brokerDown, accepted, io), i, m)
  {
    hide SpoolWrite;
    match st.jobs[i]
    case Spooling(x) => SpoolWriteKeepsJobs(cfg, Finish(st, i, Done), x, io);
    case Replaying(todo, retained) =>
      if |todo| == 0 && |retained| > 0 {
        SpoolWriteKeepsJobs(cfg, Finish(st, i, Replaying([], retained[1..])), retained[0], io);
      }
    case _ =>
  }

  lemma {:induction false} OtherCause(cfg: Config, st: State, a: Step, n: nat, m: Message)
    requires !a.Turn?
    ensures IsSpooling(Act(cfg, st, a), n, m) && !IsSpooling(st, n, m) <==> Cause(cfg, st, a, n, m)
  {
    hide AllLost, PassedOver, Delivery.Recovered;
  }

  /** A job begins to spool m exactly for one of these causes. */
  lemma {:induction false} SpooledForCause(cfg: Config, st: State, a: Step, n: nat, m: Message)
    ensures IsSpooling(Act(cfg, st, a), n, m) && !IsSpooling(st, n, m) <==> Cause(cfg, st, a, n, m)
  {
    hide Advance, AllLost, PassedOver, Delivery.Recovered;
    if !a.Turn? {
      OtherCause(cfg, st, a, n, m);
    } else if a.i < |st.jobs| {
      TurnCause(cfg, st, a.i, a.brokerDown, a.accepted, a.io, m);
      if n != a.i {
        TurnIsOfOne(cfg, st, a, n, m);
      }
    }
  }

  lemma {:induction false} TurnIsOfOne(cfg: Config, st: State, a: Step, n: nat, m: Message)
    requires a.Turn? && a.i != n
    ensures IsSpooling(Act(cfg, st, a), n, m) <==> IsSpooling(st, n, m)
  {
    hide Advance;
    if a.i < |st.jobs| {
      AdvanceIsOfOne(cfg, st, a.i, a.brokerDown, a.accepted, a.io);
    }
  }

  lemma {:induction false} AdvanceIsOfOne(cfg: Config, st: State, i: nat, brokerDown: bool, accepted: bool, io: Delivery.Io)
    requires i < |st.jobs|
    ensures var s := Advance(cfg, st, i, brokerDown, accepted, io);
            |s.jobs| == |st.jobs| && forall n :: 0 <= n < |st.jobs| && n != i ==> s.jobs[n] == st.jobs[n]
  {
  }

  /** There is a spool, it has room or has been emptied, and the write succeeds. */
  predicate Keeps(cfg: Config, io: Delivery.Io) {
    cfg.hasSpool && io.written && (io.full ==> io.truncated)
  }

  /** In step j job n offered m to the spool: m is its last record then, or the last loss, because there is no
      spool or because the write failed. */
  ghost predicate OfferedAt(cfg: Config, found: seq<Message>, steps: seq<Step>, j: nat, n: nat, m: Message) {
    && j < |steps| && steps[j].Turn? && steps[j].i == n
    && var s := Run(cfg, found, steps[..j + 1]);
       if Keeps(cfg, steps[j].io) then |s.spool| > 0 && s.spool[|s.spool| - 1] == m
       else |s.lost| > 0 && s.lost[|s.lost| - 1] == Loss(m, if cfg.hasSpool then WriteFailed else NoSpool)
  }

  /** Still to be offered to the spool, or offered since. */
  ghost predicate Spooled(cfg: Config, found: seq<Message>, steps: seq<Step>, from: nat, n: nat, m: Message) {
    var st := Run(cfg, found, steps);
    && n < |st.jobs|
    && (st.jobs[n] == Spooling(m)
        || (st.jobs[n] == Done && exists j: nat :: from <= j && OfferedAt(cfg, found, steps, j, n, m)))
  }

  lemma {:induction false} OfferedStays(cfg: Config, found: seq<Message>, steps: seq<Step>, a: Step, j: nat, n: nat, m: Message)
    requires OfferedAt(cfg, found, steps, j, n, m)
    ensures OfferedAt(cfg, found, steps + [a], j, n, m)
  {
    hide Run;
    assert (steps + [a])[..j + 1] == steps[..j + 1];
  }

  lemma {:induction false} SpoolTurn(cfg: Config, st: State, a: Step, n: nat, m: Message)
    requires n < |st.jobs| && st.jobs[n] == Spooling(m) && a.Turn? && a.i == n
    ensures var s := Act(cfg, st, a);
            && |s.jobs| == |st.jobs| && s.jobs[n] == Done
            && if Keeps(cfg, a.io) then |s.spool| > 0 && s.spool[|s.spool| - 1] == m
               else |s.lost| > 0 && s.lost[|s.lost| - 1] == Loss(m, if cfg.hasSpool then WriteFailed else NoSpool)
  {
    hide AllLost, PassedOver, Delivery.Recovered;
  }

  lemma {:induction false} DoneTurn(cfg: Config, st: State, a: Step, n: nat)
    requires n < |st.jobs| && st.jobs[n] == Done && a.Turn? && a.i == n
    ensures Act(cfg, st, a) == st
  {
  }

  lemma {:induction false} SpooledGoesOn(cfg: Config, found: seq<Message>, steps: seq<Step>, a: Step, from: nat, n: nat, m: Message)
    requires Spooled(cfg, found, steps, from, n, m) && from <= |steps|
    ensures Spooled(cfg, found, steps + [a], from, n, m)
  {
    hide Act, OfferedAt;
    var st := Run(cfg, found, steps);
    assert (steps + [a])[..|steps|] == steps;
    assert Run(cfg, found, steps + [a]) == Act(cfg, st, a);
    if exists j: nat :: from <= j && OfferedAt(cfg, found, steps, j, n, m) {
      var j: nat :| from <= j && OfferedAt(cfg, found, steps, j, n, m);
      OfferedStays(cfg, found, steps, a, j, n, m);
    }
    if a.Turn? && a.i == n {
      if st.jobs[n] == Done {
        DoneTurn(cfg, st, a, n);
      } else {
        SpoolTurn(cfg, st, a, n, m);
        OfferedNow(cfg, found, steps, a, n, m);
      }
    } else {
      JobStays(cfg, st, a, n);
    }
  }

  lemma {:induction false} OfferedNow(cfg: Config, found: seq<Message>, steps: seq<Step>, a: Step, n: nat, m: Message)
    requires var st := Run(cfg, found, steps); n < |st.jobs| && st.jobs[n] == Spooling(m)
    requires a.Turn? && a.i == n
    ensures OfferedAt(cfg, found, steps + [a], |steps|, n, m)
  {
    hide Act;
    assert (steps + [a])[..|steps|] == steps && (steps + [a])[..|steps| + 1] == steps + [a];
    SpoolTurn(cfg, Run(cfg, found, steps), a, n, m);
  }

  lemma {:induction false} SpooledGoesOnAll(cfg: Config, found: seq<Message>, steps: seq<Step>, more: seq<Step>, from: nat, n: nat, m: Message)
    requires Spooled(cfg, found, steps, from, n, m) && from <= |steps|
    ensures Spooled(cfg, found, steps + more, from, n, m)
    decreases |more|
  {
    hide Spooled;
    if |more| == 0 {
      assert steps + more == steps;
    } else {
      var k := |more| - 1;
      SpooledGoesOnAll(cfg, found, steps, more[..k], from, n, m);
      SpooledGoesOn(cfg, found, steps + more[..k], more[k], from, n, m);
      assert (steps + more[..k]) + [more[k]] == steps + more;
    }
  }

  /** Whatever a message is spooled for in step a, in all that comes after it is still to be offered to the spool,
      or was offered: never dropped on the way, and never counted as anything else. */
  lemma {:induction false} CauseEndsInSpool(cfg: Config, found: seq<Message>, steps: seq<Step>, a: Step, more: seq<Step>, n: nat, m: Message)
    requires Cause(cfg, Run(cfg, found, steps), a, n, m)
    ensures Spooled(cfg, found, (steps + [a]) + more, |steps| + 1, n, m)
  {
    hide Act, OfferedAt;
    assert (steps + [a])[..|steps|] == steps;
    SpooledForCause(cfg, Run(cfg, found, steps), a, n, m);
    assert Spooled(cfg, found, steps + [a], |steps| + 1, n, m);
    SpooledGoesOnAll(cfg, found, steps + [a], more, |steps| + 1, n, m);
  }

  /** A message that the library took and Kafka then reports as failed: with a value it goes to the spool in a job
      of its own and is not counted as delivered; without one it is lost as empty. */
  lemma {:induction false} FailureEndsInSpool(cfg: Config, found: seq<Message>, steps: seq<Step>, more: seq<Step>, m: Message)
    requires m in Run(cfg, found, steps).kafka
    ensures var st, s := Run(cfg, found, steps), Run(cfg, found, steps + [Fail(m)]);
            && s.delivered == st.delivered && s.kafka == st.kafka - multiset{m}
            && (|m.value| > 0 ==> Spooled(cfg, found, (steps + [Fail(m)]) + more, |steps| + 1, |st.jobs|, m))
            && (|m.value| == 0 ==> s.jobs == st.jobs && s.lost == st.lost + [Loss(m, EmptyValue)])
  {
    hide Spooled;
    assert (steps + [Fail(m)])[..|steps|] == steps;
    if |m.value| > 0 {
      CauseEndsInSpool(cfg, found, steps, Fail(m), more, |Run(cfg, found, steps).jobs|, m);
    }
  }

  // ---- Replay --------------------------------------------------------------------------------------

  /** Places of ms in order. */
  ghost predicate Places(idx: seq<nat>, ms: seq<Message>) {
    (forall i :: 0 <= i < |idx| ==> idx[i] < |ms|) && forall i, j :: 0 <= i < j < |idx| ==> idx[i] < idx[j]
  }

  /** What a replay recovers is, in order, exactly the records that can be read and have a value. */
  lemma {:induction false} RecoveredAreTheReadable(ms: seq<Message>, bad: set<nat>) returns (idx: seq<nat>)
    ensures Places(idx, ms) && forall k: nat :: k in idx <==> k < |ms| && k !in bad && |ms[k].value| > 0
    ensures var rs := Delivery.Recovered(ms, bad); |rs| == |idx| && forall i :: 0 <= i < |idx| ==> rs[i] == ms[idx[i]]
    decreases |ms|
  {
    if |ms| == 0 {
      idx := [];
    } else {
      var n := |ms| - 1;
      idx := RecoveredAreTheReadable(ms[..n], bad);
      if IsRecovered(ms[n], n, bad) {
        idx := idx + [n];
      }
    }
  }

  /** A replay takes these and leaves the spool empty; without a spool, with a file that cannot be read or emptied,
      or with nothing to recover, it changes nothing. */
  lemma {:induction false} ReplayTakesOrLeaves(cfg: Config, st: State, readable: bool, emptied: bool, bad: set<nat>)
    ensures var rs, s := Delivery.Recovered(st.spool, bad), Act(cfg, st, Replay(readable, emptied, bad));
            && (cfg.hasSpool && readable && emptied && rs != [] ==>
                  s.spool == [] && s.jobs == st.jobs + [Replaying(rs, [])] && s.queue == st.queue && s.kafka == st.kafka)
            && (!cfg.hasSpool || !readable || !emptied || rs == [] ==> s == st)
  {
    hide Delivery.Recovered, PassedOver;
  }
}
