/** Where a message can be on its way from submit to Kafka, over every interleaving of submitters,
    the producer loop, delivery reports and replays. One step is one atomic operation of the source:
    a channel operation, a call into the library, or a spool operation under its lock
    (cmd/agent/producer.go, cmd/agent/main.go). */
module Delivery {
  import opened DiskSpool

  datatype Mode = BestEffort | Strict | DropNewest | DropOldest

  datatype Config = Config(mode: Mode, capacity: nat, hasSpool: bool)

  datatype Reason = Evicted | Truncated | NoSpool | WriteFailed | EmptyValue | Unreadable
  datatype Loss = Loss(m: Message, why: Reason)

  /** What a running call still has to do, with the messages it holds. */
  datatype Job =
    | Submitting(m: Message)
    | Evicting(m: Message)
    | Retrying(m: Message)
    | Producing(m: Message)
    | Spooling(m: Message)
    | Replaying(todo: seq<Message>, retained: seq<Message>)
    | Done

  /** log is every message ever sent to the queue, in order; removed counts those taken from it. */
  datatype State = State(submitted: multiset<Message>, queue: seq<Message>, jobs: seq<Job>, kafka: multiset<Message>,
                         spool: seq<Message>, delivered: multiset<Message>, lost: seq<Loss>, log: seq<Message>, removed: nat)

  /** What a process starts with: the messages an earlier one left in the spool, counted as submitted. */
  function Start(found: seq<Message>): State {
    State(multiset(found), [], [], multiset{}, found, multiset{}, [], [], 0)
  }

  // ---- Operations -----------------------------------------------------------------------

  predicate HasRoom(cfg: Config, st: State) {
    |st.queue| < cfg.capacity
  }

  function Finish(st: State, i: nat, j: Job): State
    requires i < |st.jobs|
  {
    st.(jobs := st.jobs[i := j])
  }

  function Enqueue(st: State, m: Message): State {
    st.(queue := st.queue + [m], log := st.log + [m])
  }

  function TakeHead(st: State): State
    requires |st.queue| > 0
  {
    st.(queue := st.queue[1..], removed := st.removed + 1)
  }

  function Lose(st: State, m: Message, why: Reason): State {
    st.(lost := st.lost + [Loss(m, why)])
  }

  function AllLost(ms: seq<Message>, why: Reason): (ls: seq<Loss>)
    ensures |ls| == |ms| && forall i :: 0 <= i < |ms| ==> ls[i] == Loss(ms[i], why)
  {
    if |ms| == 0 then [] else AllLost(ms[..|ms| - 1], why) + [Loss(ms[|ms| - 1], why)]
  }

  /** How the file operations of one spool write turn out. */
  datatype Io = Io(full: bool, truncated: bool, written: bool)

  /** Spool.Write seen from here: a full file is emptied first, or the write fails. */
  function SpoolWrite(cfg: Config, st: State, m: Message, io: Io): State {
    if !cfg.hasSpool then Lose(st, m, NoSpool)
    else if io.full && !io.truncated then Lose(st, m, WriteFailed)
    else
      var s := if io.full then st.(spool := [], lost := st.lost + AllLost(st.spool, Truncated)) else st;
      if io.written then s.(spool := s.spool + [m]) else Lose(s, m, WriteFailed)
  }

  predicate IsRecovered(m: Message, i: nat, bad: set<nat>) {
    i !in bad && |m.value| > 0
  }

  function Recovered(ms: seq<Message>, bad: set<nat>): seq<Message> {
    if |ms| == 0 then []
    else
      var i := |ms| - 1;
      Recovered(ms[..i], bad) + if IsRecovered(ms[i], i, bad) then [ms[i]] else []
  }

  function PassedOver(ms: seq<Message>, bad: set<nat>): seq<Loss> {
    if |ms| == 0 then []
    else
      var i := |ms| - 1;
      PassedOver(ms[..i], bad) + if IsRecovered(ms[i], i, bad) then [] else [Loss(ms[i], if i in bad then Unreadable else EmptyValue)]
  }

  // ---- Steps ---------------------------------------------------------------------------------

  datatype Step =
    | Submit(m: Message)
    | Take
    | Expire
    | Turn(i: nat, brokerDown: bool, accepted: bool, io: Io)
    | Deliver(m: Message)
    | Fail(m: Message)
    | Replay(readable: bool, emptied: bool, bad: set<nat>)

  function Advance(cfg: Config, st: State, i: nat, brokerDown: bool, accepted: bool, io: Io): State
    requires i < |st.jobs|
  {
    match st.jobs[i]
    case Submitting(m) =>
      if HasRoom(cfg, st) then Finish(Enqueue(st, m), i, Done)
      else if cfg.mode == Strict then st
      else if cfg.mode == DropOldest then Finish(st, i, Evicting(m))
      else Finish(st, i, Spooling(m))
    case Evicting(m) =>
      var s := Finish(st, i, Retrying(m));
      if |st.queue| > 0 then Lose(TakeHead(s), st.queue[0], Evicted) else s
    case Retrying(m) =>
      if HasRoom(cfg, st) then Finish(Enqueue(st, m), i, Done) else Finish(st, i, Spooling(m))
    case Producing(m) =>
      if brokerDown || !accepted then Finish(st, i, Spooling(m))
      else Finish(st, i, Done).(kafka := st.kafka + multiset{m})
    case Spooling(m) => SpoolWrite(cfg, Finish(st, i, Done), m, io)
    case Replaying(todo, retained) =>
      if |todo| > 0 then
        if HasRoom(cfg, st) then Finish(Enqueue(st, todo[0]), i, Replaying(todo[1..], retained))
        else Finish(st, i, Replaying(todo[1..], retained + [todo[0]]))
      else if |retained| > 0 then SpoolWrite(cfg, Finish(st, i, Replaying([], retained[1..])), retained[0], io)
      else Finish(st, i, Done)
    case Done => st
  }

  function Act(cfg: Config, st: State, a: Step): State {
    match a
    case Submit(m) => st.(submitted := st.submitted + multiset{m}, jobs := st.jobs + [Submitting(m)])
    case Take => if |st.queue| > 0 then TakeHead(st).(jobs := st.jobs + [Producing(st.queue[0])]) else st
    case Expire => if |st.queue| > 0 then TakeHead(st).(jobs := st.jobs + [Spooling(st.queue[0])]) else st
    case Turn(i, brokerDown, accepted, io) => if i < |st.jobs| then Advance(cfg, st, i, brokerDown, accepted, io) else st
    case Deliver(m) =>
      if m in st.kafka then st.(kafka := st.kafka - multiset{m}, delivered := st.delivered + multiset{m}) else st
    case Fail(m) =>
      if m !in st.kafka then st
      else
        var s := st.(kafka := st.kafka - multiset{m});
        if |m.value| > 0 then s.(jobs := s.jobs + [Spooling(m)]) else Lose(s, m, EmptyValue)
    case Replay(readable, emptied, bad) =>
      var recovered := Recovered(st.spool, bad);
      if !cfg.hasSpool || !readable || |recovered| == 0 || !emptied then st
      else st.(spool := [], lost := st.lost + PassedOver(st.spool, bad), jobs := st.jobs + [Replaying(recovered, [])])
  }

  function Run(cfg: Config, found: seq<Message>, steps: seq<Step>): State {
    if |steps| == 0 then Start(found) else Act(cfg, Run(cfg, found, steps[..|steps| - 1]), steps[|steps| - 1])
  }

  function ActAll(cfg: Config, st: State, steps: seq<Step>): State
    decreases |steps|
  {
    if |steps| == 0 then st else ActAll(cfg, Act(cfg, st, steps[0]), steps[1..])
  }

  lemma {:induction false} OneAct(cfg: Config, st: State, a: Step)
    ensures ActAll(cfg, st, [a]) == Act(cfg, st, a)
  {
    hide Act;
    assert [a][1..] == [];
    assert ActAll(cfg, Act(cfg, st, a), []) == Act(cfg, st, a);
  }

  lemma {:induction false} TwoActs(cfg: Config, st: State, a: Step, b: Step)
    ensures ActAll(cfg, st, [a, b]) == Act(cfg, Act(cfg, st, a), b)
  {
    hide Act;
    assert [a, b][1..] == [b];
    OneAct(cfg, Act(cfg, st, a), b);
  }

  lemma {:induction false} RunGoesOn(cfg: Config, found: seq<Message>, steps: seq<Step>, more: seq<Step>)
    ensures Run(cfg, found, steps + more) == ActAll(cfg, Run(cfg, found, steps), more)
    decreases |more|
  {
    hide Act;
    if |more| == 0 {
      assert steps + more == steps;
    } else {
      var next := steps + [more[0]];
      assert next[..|next| - 1] == steps && steps + more == next + more[1..];
      RunGoesOn(cfg, found, next, more[1..]);
    }
  }

  // ---- Conservation ---------------------------------------------------------------------------

  function One(m: Message, x: Message): nat {
    if m == x then 1 else 0
  }

  /** How often x occurs. */
  function Times(ms: seq<Message>, x: Message): nat {
    if |ms| == 0 then 0 else Times(ms[..|ms| - 1], x) + One(ms[|ms| - 1], x)
  }

  function HeldBy(j: Job, x: Message): nat {
    match j
    case Replaying(todo, retained) => Times(todo, x) + Times(retained, x)
    case Done => 0
    case _ => One(j.m, x)
  }

  function Held(jobs: seq<Job>, x: Message): nat {
    if |jobs| == 0 then 0 else Held(jobs[..|jobs| - 1], x) + HeldBy(jobs[|jobs| - 1], x)
  }

  function LostTimes(ls: seq<Loss>, x: Message): nat {
    if |ls| == 0 then 0 else LostTimes(ls[..|ls| - 1], x) + One(ls[|ls| - 1].m, x)
  }

  /** The copies of x in all the places a message can be. */
  function Copies(st: State, x: Message): nat {
    Times(st.queue, x) + Held(st.jobs, x) + st.kafka[x] + Times(st.spool, x) + st.delivered[x] + LostTimes(st.lost, x)
  }

  lemma {:induction false} TimesOneMore(ms: seq<Message>, m: Message, x: Message)
    ensures Times(ms + [m], x) == Times(ms, x) + One(m, x)
  {
    assert (ms + [m])[..|ms|] == ms;
  }

  lemma {:induction false} TimesHead(ms: seq<Message>, x: Message)
    requires |ms| > 0
    ensures Times(ms, x) == One(ms[0], x) + Times(ms[1..], x)
    decreases |ms|
  {
    if |ms| > 1 {
      TimesHead(ms[..|ms| - 1], x);
      assert ms[..|ms| - 1][1..] == ms[1..][..|ms| - 2];
    }
  }

  lemma {:induction false} HeldOneMore(jobs: seq<Job>, j: Job, x: Message)
    ensures Held(jobs + [j], x) == Held(jobs, x) + HeldBy(j, x)
  {
    assert (jobs + [j])[..|jobs|] == jobs;
  }

  lemma {:induction false} HeldAfter(jobs: seq<Job>, i: nat, j: Job, x: Message)
    requires i < |jobs|
    ensures Held(jobs[i := j], x) + HeldBy(jobs[i], x) == Held(jobs, x) + HeldBy(j, x)
    decreases |jobs|
  {
    hide HeldBy;
    var now := jobs[i := j];
    var n := |jobs| - 1;
    if i == n {
      assert now[..n] == jobs[..n];
    } else {
      HeldAfter(jobs[..n], i, j, x);
      assert now[..n] == jobs[..n][i := j];
    }
  }

  lemma {:induction false} LostOneMore(ls: seq<Loss>, l: Loss, x: Message)
    ensures LostTimes(ls + [l], x) == LostTimes(ls, x) + One(l.m, x)
  {
    assert (ls + [l])[..|ls|] == ls;
  }

  lemma {:induction false} LostJoin(ls: seq<Loss>, more: seq<Loss>, x: Message)
    ensures LostTimes(ls + more, x) == LostTimes(ls, x) + LostTimes(more, x)
    decreases |more|
  {
    if |more| == 0 {
      assert ls + more == ls;
    } else {
      var front := more[..|more| - 1];
      LostJoin(ls, front, x);
      assert ls + more == (ls + front) + [more[|more| - 1]];
      LostOneMore(ls + front, more[|more| - 1], x);
    }
  }

  lemma {:induction false} LostAll(ms: seq<Message>, why: Reason, x: Message)
    ensures LostTimes(AllLost(ms, why), x) == Times(ms, x)
    decreases |ms|
  {
    if |ms| > 0 {
      LostAll(ms[..|ms| - 1], why, x);
      LostOneMore(AllLost(ms[..|ms| - 1], why), Loss(ms[|ms| - 1], why), x);
    }
  }

  lemma {:induction false} RecoveredOrPassedOver(ms: seq<Message>, bad: set<nat>, x: Message)
    ensures Times(Recovered(ms, bad), x) + LostTimes(PassedOver(ms, bad), x) == Times(ms, x)
    decreases |ms|
  {
    if |ms| > 0 {
      var i := |ms| - 1;
      RecoveredOrPassedOver(ms[..i], bad, x);
      if IsRecovered(ms[i], i, bad) {
        TimesOneMore(Recovered(ms[..i], bad), ms[i], x);
        assert PassedOver(ms, bad) == PassedOver(ms[..i], bad);
      } else {
        LostOneMore(PassedOver(ms[..i], bad), Loss(ms[i], if i in bad then Unreadable else EmptyValue), x);
        assert Recovered(ms, bad) == Recovered(ms[..i], bad);
      }
    }
  }

  lemma {:induction false} LoseCounts(st: State, m: Message, why: Reason, x: Message)
    ensures Copies(Lose(st, m, why), x) == Copies(st, x) + One(m, x)
  {
    LostOneMore(st.lost, Loss(m, why), x);
  }

  lemma {:induction false} SpoolWriteCounts(cfg: Config, st: State, m: Message, io: Io, x: Message)
    ensures Copies(SpoolWrite(cfg, st, m, io), x) == Copies(st, x) + One(m, x)
  {
    hide One;
    LoseCounts(st, m, NoSpool, x);
    LoseCounts(st, m, WriteFailed, x);
    LostJoin(st.lost, AllLost(st.spool, Truncated), x);
    LostAll(st.spool, Truncated, x);
    var s := if io.full then st.(spool := [], lost := st.lost + AllLost(st.spool, Truncated)) else st;
    LoseCounts(s, m, WriteFailed, x);
    TimesOneMore(s.spool, m, x);
  }

  lemma {:induction false} FinishCounts(st: State, i: nat, j: Job, x: Message)
    requires i < |st.jobs|
    ensures Copies(Finish(st, i, j), x) + HeldBy(st.jobs[i], x) == Copies(st, x) + HeldBy(j, x)
  {
    HeldAfter(st.jobs, i, j, x);
  }

  lemma {:induction false} EnqueueCounts(st: State, m: Message, x: Message)
    ensures Copies(Enqueue(st, m), x) == Copies(st, x) + One(m, x)
  {
    TimesOneMore(st.queue, m, x);
  }

  lemma {:induction false} TakeHeadCounts(st: State, x: Message)
    requires |st.queue| > 0
    ensures Copies(TakeHead(st), x) + One(st.queue[0], x) == Copies(st, x)
  {
    TimesHead(st.queue, x);
  }

  lemma {:induction false} ReplayingCounts(cfg: Config, st: State, i: nat, io: Io, x: Message)
    requires i < |st.jobs| && st.jobs[i].Replaying?
    ensures Copies(Advance(cfg, st, i, false, false, io), x) == Copies(st, x)
  {
    hide Copies, One, Times, SpoolWrite;
    var Replaying(todo, retained) := st.jobs[i];
    TimesNone(x);
    if |todo| > 0 {
      TimesHead(todo, x);
      TimesOneMore(retained, todo[0], x);
      FinishCounts(Enqueue(st, todo[0]), i, Replaying(todo[1..], retained), x);
      EnqueueCounts(st, todo[0], x);
      FinishCounts(st, i, Replaying(todo[1..], retained + [todo[0]]), x);
    } else if |retained| > 0 {
      TimesHead(retained, x);
      FinishCounts(st, i, Replaying([], retained[1..]), x);
      SpoolWriteCounts(cfg, Finish(st, i, Replaying([], retained[1..])), retained[0], io, x);
    } else {
      FinishCounts(st, i, Done, x);
    }
  }

  lemma {:induction false} TimesNone(x: Message)
    ensures Times([], x) == 0
  {
  }

  lemma {:induction false} AdvanceConserves(cfg: Config, st: State, i: nat, brokerDown: bool, accepted: bool, io: Io, x: Message)
    requires i < |st.jobs|
    ensures Copies(Advance(cfg, st, i, brokerDown, accepted, io), x) == Copies(st, x)
  {
    hide Copies, One, SpoolWrite;
    match st.jobs[i]
    case Submitting(m) =>
      EnqueueCounts(st, m, x);
      FinishCounts(Enqueue(st, m), i, Done, x);
      FinishCounts(st, i, Evicting(m), x);
      FinishCounts(st, i, Spooling(m), x);
    case Evicting(m) =>
      var s := Finish(st, i, Retrying(m));
      FinishCounts(st, i, Retrying(m), x);
      if |st.queue| > 0 {
        TakeHeadCounts(s, x);
        LoseCounts(TakeHead(s), st.queue[0], Evicted, x);
      }
    case Retrying(m) =>
      EnqueueCounts(st, m, x);
      FinishCounts(Enqueue(st, m), i, Done, x);
      FinishCounts(st, i, Spooling(m), x);
    case Producing(m) =>
      FinishCounts(st, i, Spooling(m), x);
      FinishCounts(st, i, Done, x);
      AcceptCounts(Finish(st, i, Done), m, x);
    case Spooling(m) =>
      FinishCounts(st, i, Done, x);
      SpoolWriteCounts(cfg, Finish(st, i, Done), m, io, x);
    case Replaying(todo, retained) =>
      ReplayingCounts(cfg, st, i, io, x);
    case Done =>
  }

  lemma {:induction false} AcceptCounts(st: State, m: Message, x: Message)
    ensures Copies(st.(kafka := st.kafka + multiset{m}), x) == Copies(st, x) + One(m, x)
  {
  }

  lemma {:induction false} StartCounts(st: State, j: Job, x: Message)
    ensures Copies(st.(jobs := st.jobs + [j]), x) == Copies(st, x) + HeldBy(j, x)
  {
    HeldOneMore(st.jobs, j, x);
  }

  lemma {:induction false} ReportCounts(st: State, m: Message, x: Message)
    requires m in st.kafka
    ensures Copies(st.(kafka := st.kafka - multiset{m}), x) + One(m, x) == Copies(st, x)
    ensures Copies(st.(kafka := st.kafka - multiset{m}, delivered := st.delivered + multiset{m}), x) == Copies(st, x)
  {
  }

  lemma {:induction false} ReplayCounts(st: State, bad: set<nat>, x: Message)
    ensures Copies(st.(spool := [], lost := st.lost + PassedOver(st.spool, bad),
                       jobs := st.jobs + [Replaying(Recovered(st.spool, bad), [])]), x) == Copies(st, x)
  {
    LostJoin(st.lost, PassedOver(st.spool, bad), x);
    RecoveredOrPassedOver(st.spool, bad, x);
    HeldOneMore(st.jobs, Replaying(Recovered(st.spool, bad), []), x);
  }

  lemma {:induction false} ActConserves(cfg: Config, st: State, a: Step, x: Message)
    ensures Copies(Act(cfg, st, a), x) == Copies(st, x) + if a.Submit? then One(a.m, x) else 0
  {
    hide Copies, Advance, Recovered, PassedOver;
    match a
    case Submit(m) =>
      StartCounts(st, Submitting(m), x);
      SubmittedIsNoPlace(st.(jobs := st.jobs + [Submitting(m)]), m, x);
    case Take =>
      if |st.queue| > 0 {
        TakeHeadCounts(st, x);
        StartCounts(TakeHead(st), Producing(st.queue[0]), x);
      }
    case Expire =>
      if |st.queue| > 0 {
        TakeHeadCounts(st, x);
        StartCounts(TakeHead(st), Spooling(st.queue[0]), x);
      }
    case Turn(i, brokerDown, accepted, io) =>
      if i < |st.jobs| {
        AdvanceConserves(cfg, st, i, brokerDown, accepted, io, x);
      }
    case Deliver(m) =>
      if m in st.kafka {
        ReportCounts(st, m, x);
      }
    case Fail(m) =>
      if m in st.kafka {
        var s := st.(kafka := st.kafka - multiset{m});
        ReportCounts(st, m, x);
        StartCounts(s, Spooling(m), x);
        LoseCounts(s, m, EmptyValue, x);
      }
    case Replay(readable, emptied, bad) =>
      ReplayCounts(st, bad, x);
  }

  lemma {:induction false} SubmittedIsNoPlace(st: State, m: Message, x: Message)
    ensures Copies(st.(submitted := st.submitted + multiset{m}), x) == Copies(st, x)
  {
  }

  lemma {:induction false} TimesIsMultiset(ms: seq<Message>, x: Message)
    ensures Times(ms, x) == multiset(ms)[x]
    decreases |ms|
  {
    if |ms| > 0 {
      TimesIsMultiset(ms[..|ms| - 1], x);
      assert ms == ms[..|ms| - 1] + [ms[|ms| - 1]];
    }
  }

  /** Conservation: at every moment of every run each submitted message is in exactly one place, as
      many times as it was submitted: in the queue, in the hands of a running call, with Kafka, in
      the spool, delivered, or lost. */
  lemma {:induction false} MessagesAreConserved(cfg: Config, found: seq<Message>, steps: seq<Step>, x: Message)
    ensures Copies(Run(cfg, found, steps), x) == Run(cfg, found, steps).submitted[x]
    decreases |steps|
  {
    if |steps| == 0 {
      TimesIsMultiset(found, x);
    } else {
      hide Copies;
      var front, a := steps[..|steps| - 1], steps[|steps| - 1];
      MessagesAreConserved(cfg, found, front, x);
      ActConserves(cfg, Run(cfg, found, front), a, x);
      ActSubmits(cfg, Run(cfg, found, front), a, x);
    }
  }

  lemma {:induction false} ActSubmits(cfg: Config, st: State, a: Step, x: Message)
    ensures Act(cfg, st, a).submitted[x] == st.submitted[x] + if a.Submit? then One(a.m, x) else 0
  {
  }

  // ---- The queue and the losses --------------------------------------------------------------------

  /** A loss has one of the known causes. */
  predicate Justified(cfg: Config, l: Loss) {
    match l.why
    case Evicted => cfg.mode == DropOldest
    case NoSpool => !cfg.hasSpool
    case EmptyValue => |l.m.value| == 0
    case Truncated => cfg.hasSpool
    case WriteFailed => cfg.hasSpool
    case Unreadable => cfg.hasSpool
  }

  /** Only a drop-oldest call ever evicts. */
  predicate JobFits(cfg: Config, j: Job) {
    j.Evicting? ==> cfg.mode == DropOldest
  }

  /** The queue is the log without its first messages, those removed. */
  predicate InOrder(log: seq<Message>, removed: nat, queue: seq<Message>) {
    removed <= |log| && queue == log[removed..]
  }

  lemma {:induction false} QueueStaysInOrder(log: seq<Message>, removed: nat, queue: seq<Message>, m: Message)
    requires InOrder(log, removed, queue)
    ensures InOrder(log + [m], removed, queue + [m])
    ensures |queue| > 0 ==> InOrder(log, removed + 1, queue[1..])
  {
  }

  ghost predicate Orderly(cfg: Config, st: State) {
    && InOrder(st.log, st.removed, st.queue)
    && |st.queue| <= cfg.capacity
    && (forall i :: 0 <= i < |st.jobs| ==> JobFits(cfg, st.jobs[i]))
    && (forall i :: 0 <= i < |st.lost| ==> Justified(cfg, st.lost[i]))
  }

  lemma {:induction false} PassedOverJustified(cfg: Config, ms: seq<Message>, bad: set<nat>)
    requires cfg.hasSpool
    ensures forall i :: 0 <= i < |PassedOver(ms, bad)| ==> Justified(cfg, PassedOver(ms, bad)[i])
    decreases |ms|
  {
    if |ms| > 0 {
      PassedOverJustified(cfg, ms[..|ms| - 1], bad);
    }
  }

  lemma {:induction false} SpoolWriteIsOrderly(cfg: Config, st: State, m: Message, io: Io)
    requires Orderly(cfg, st)
    ensures Orderly(cfg, SpoolWrite(cfg, st, m, io))
  {
  }

  lemma {:induction false} AdvanceIsOrderly(cfg: Config, st: State, i: nat, brokerDown: bool, accepted: bool, io: Io)
    requires i < |st.jobs| && Orderly(cfg, st)
    ensures Orderly(cfg, Advance(cfg, st, i, brokerDown, accepted, io))
  {
    hide SpoolWrite, InOrder;
    assert JobFits(cfg, st.jobs[i]);
    match st.jobs[i]
    case Submitting(m) => QueueStaysInOrder(st.log, st.removed, st.queue, m);
    case Evicting(m) => QueueStaysInOrder(st.log, st.removed, st.queue, m);
    case Retrying(m) => QueueStaysInOrder(st.log, st.removed, st.queue, m);
    case Spooling(m) =>
      SpoolWriteIsOrderly(cfg, Finish(st, i, Done), m, io);
    case Replaying(todo, retained) =>
      if |todo| > 0 {
        QueueStaysInOrder(st.log, st.removed, st.queue, todo[0]);
      } else if |retained| > 0 {
        SpoolWriteIsOrderly(cfg, Finish(st, i, Replaying([], retained[1..])), retained[0], io);
      }
    case _ =>
  }

  lemma {:induction false} ActIsOrderly(cfg: Config, st: State, a: Step)
    requires Orderly(cfg, st)
    ensures Orderly(cfg, Act(cfg, st, a))
  {
    hide Advance, Recovered, PassedOver, InOrder;
    match a
    case Take =>
      if |st.queue| > 0 { QueueStaysInOrder(st.log, st.removed, st.queue, st.queue[0]); }
    case Expire =>
      if |st.queue| > 0 { QueueStaysInOrder(st.log, st.removed, st.queue, st.queue[0]); }
    case Turn(i, brokerDown, accepted, io) =>
      if i < |st.jobs| {
        AdvanceIsOrderly(cfg, st, i, brokerDown, accepted, io);
      }
    case Replay(readable, emptied, bad) =>
      if cfg.hasSpool {
        PassedOverJustified(cfg, st.spool, bad);
      }
    case _ =>
  }

  /** In every reachable state: the queue is the messages ever enqueued without the first ones, which
      are those removed, so it is first in first out and enqueued sends equal its length plus removals;
      it never exceeds its capacity; and every loss is an eviction under drop-oldest, a spool emptied at
      its limit, an absent or failing spool, or an unreadable record or empty value. */
  lemma {:induction false} RunsAreOrderly(cfg: Config, found: seq<Message>, steps: seq<Step>)
    ensures Orderly(cfg, Run(cfg, found, steps))
    decreases |steps|
  {
    if |steps| > 0 {
      hide Orderly, Act;
      RunsAreOrderly(cfg, found, steps[..|steps| - 1]);
      ActIsOrderly(cfg, Run(cfg, found, steps[..|steps| - 1]), steps[|steps| - 1]);
    }
  }

  // ---- When nothing is lost ------------------------------------------------------------------------

  /** The spool has room, works, and every record can be read. */
  predicate SpoolWorks(a: Step) {
    && (a.Turn? ==> !a.io.full && a.io.written)
    && (a.Replay? ==> a.bad == {})
  }

  ghost predicate OnlyEmptyLost(st: State) {
    forall i :: 0 <= i < |st.lost| ==> |st.lost[i].m.value| == 0
  }

  lemma {:induction false} PassedOverEmpty(ms: seq<Message>)
    ensures forall i :: 0 <= i < |PassedOver(ms, {})| ==> |PassedOver(ms, {})[i].m.value| == 0
    decreases |ms|
  {
    if |ms| > 0 {
      PassedOverEmpty(ms[..|ms| - 1]);
    }
  }

  lemma {:induction false} WorkingStepLosesNothing(cfg: Config, st: State, a: Step)
    requires cfg.hasSpool && cfg.mode != DropOldest && SpoolWorks(a)
    requires OnlyEmptyLost(st) && forall i :: 0 <= i < |st.jobs| ==> JobFits(cfg, st.jobs[i])
    ensures OnlyEmptyLost(Act(cfg, st, a))
  {
    hide Recovered, PassedOver;
    match a
    case Turn(i, brokerDown, accepted, io) =>
      if i < |st.jobs| {
        assert JobFits(cfg, st.jobs[i]);
      }
    case Replay(readable, emptied, bad) =>
      PassedOverEmpty(st.spool);
    case _ =>
  }

  lemma {:induction false} WorkingSpoolLosesNothing(cfg: Config, found: seq<Message>, steps: seq<Step>)
    requires cfg.hasSpool && cfg.mode != DropOldest
    requires forall i :: 0 <= i < |steps| ==> SpoolWorks(steps[i])
    ensures OnlyEmptyLost(Run(cfg, found, steps))
    decreases |steps|
  {
    if |steps| > 0 {
      hide Act, OnlyEmptyLost;
      var front := steps[..|steps| - 1];
      WorkingSpoolLosesNothing(cfg, found, front);
      RunsAreOrderly(cfg, found, front);
      WorkingStepLosesNothing(cfg, Run(cfg, found, front), steps[|steps| - 1]);
    }
  }

  /** Without drop-oldest and with a spool that works, a message with a value is never lost: every
      copy is queued, in hand, with Kafka, spooled or delivered. */
  lemma {:induction false} WorkingSpoolKeepsMessages(cfg: Config, found: seq<Message>, steps: seq<Step>, x: Message)
    requires cfg.hasSpool && cfg.mode != DropOldest && |x.value| > 0
    requires forall i :: 0 <= i < |steps| ==> SpoolWorks(steps[i])
    ensures var st := Run(cfg, found, steps);
            Times(st.queue, x) + Held(st.jobs, x) + st.kafka[x] + Times(st.spool, x) + st.delivered[x] == st.submitted[x]
  {
    MessagesAreConserved(cfg, found, steps, x);
    WorkingSpoolLosesNothing(cfg, found, steps);
    NotAmongLost(Run(cfg, found, steps).lost, x);
  }

  lemma {:induction false} NotAmongLost(ls: seq<Loss>, x: Message)
    requires forall i :: 0 <= i < |ls| ==> ls[i].m != x
    ensures LostTimes(ls, x) == 0
    decreases |ls|
  {
    if |ls| > 0 {
      NotAmongLost(ls[..|ls| - 1], x);
    }
  }
}
