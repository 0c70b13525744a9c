/** The queued producer as an object: submit in its four modes, the circuit breaker, replay of the
    spool and the shutdown drain, each run on its own (cmd/agent/producer.go). */
module Producer {
  import opened HttpTokens
  import opened DiskSpool
  import B = Base64
  import D = Delivery

  // The reasons a message is spooled for, as text.
  // local_queue_full
  const QUEUE_FULL: Bytes := [108, 111, 99, 97, 108, 95, 113, 117, 101, 117, 101, 95, 102, 117, 108, 108]
  // broker_unavailable
  const BROKER_DOWN: Bytes := [98, 114, 111, 107, 101, 114, 95, 117, 110, 97, 118, 97, 105, 108, 97, 98, 108, 101]
  // produce_error
  const PRODUCE_ERROR: Bytes := [112, 114, 111, 100, 117, 99, 101, 95, 101, 114, 114, 111, 114]
  // drain_timeout
  const DRAIN_TIMEOUT: Bytes := [100, 114, 97, 105, 110, 95, 116, 105, 109, 101, 111, 117, 116]
  // replay_queue_full
  const REPLAY_FULL: Bytes := [114, 101, 112, 108, 97, 121, 95, 113, 117, 101, 117, 101, 95, 102, 117, 108, 108]

  lemma {:induction false} ReasonsArePlain()
    ensures Plain(QUEUE_FULL) && Plain(BROKER_DOWN) && Plain(PRODUCE_ERROR) && Plain(DRAIN_TIMEOUT) && Plain(REPLAY_FULL)
  {
  }

  lemma {:induction false} ReasonsAreSpelled()
    ensures Text(QUEUE_FULL) == "local_queue_full" && Text(BROKER_DOWN) == "broker_unavailable"
    ensures Text(PRODUCE_ERROR) == "produce_error" && Text(DRAIN_TIMEOUT) == "drain_timeout" && Text(REPLAY_FULL) == "replay_queue_full"
  {
  }

  /** What the world answers to one call: the clock, the library's verdict, the file system. */
  datatype World = World(now: int, accepts: bool, createdAt: Bytes, io: Io)

  /** What became of a message taken from the queue. */
  datatype Fate = ToKafka | ToSpool | Gone

  function Chosen(ms: seq<Message>, fates: seq<Fate>, f: Fate): seq<Message>
    requires |fates| == |ms|
  {
    if |ms| == 0 then []
    else Chosen(ms[..|ms| - 1], fates[..|ms| - 1], f) + if fates[|ms| - 1] == f then [ms[|ms| - 1]] else []
  }

  lemma {:induction false} ChosenOneMore(ms: seq<Message>, fates: seq<Fate>, m: Message, fate: Fate, f: Fate)
    requires |fates| == |ms|
    ensures Chosen(ms + [m], fates + [fate], f) == Chosen(ms, fates, f) + if fate == f then [m] else []
  {
    assert (ms + [m])[..|ms|] == ms && (fates + [fate])[..|ms|] == fates;
  }

  lemma {:induction false} RecoveredOne(r: Record, m: Message)
    requires |m.value| > 0 && r == RecordOf(r.createdAt, r.reason, m)
    ensures Recovered([r]) == [m]
  {
    hide B.Encode, B.Decode;
    B.RoundTrip(m.key);
    B.RoundTrip(m.value);
    assert Recovered([r][1..]) == [];
  }

  lemma {:induction false} RecoveredJoin(rs: seq<Record>, more: seq<Record>)
    ensures Recovered(rs + more) == Recovered(rs) + Recovered(more)
    decreases |rs|
  {
    hide B.Decode;
    if |rs| == 0 {
      assert rs + more == more;
    } else {
      assert (rs + more)[1..] == rs[1..] + more;
      RecoveredJoin(rs[1..], more);
    }
  }

  lemma {:induction false} RecoveredOneMore(rs: seq<Record>, r: Record, m: Message)
    requires |m.value| > 0 && r == RecordOf(r.createdAt, r.reason, m)
    ensures Recovered(rs + [r]) == Recovered(rs) + [m]
  {
    RecoveredOne(r, m);
    RecoveredJoin(rs, [r]);
  }

  lemma {:induction false} RecoveredHaveValues(rs: seq<Record>)
    ensures forall i :: 0 <= i < |Recovered(rs)| ==> |Recovered(rs)[i].value| > 0
    decreases |rs|
  {
    if |rs| > 0 {
      RecoveredHaveValues(rs[1..]);
    }
  }

  // ---- Each operation as steps of the protocol ------------------------------------------------------

  /** The records are those of these messages, in order. */
  ghost predicate Holds(rs: seq<Record>, ms: seq<Message>) {
    |rs| == |ms| && forall i :: 0 <= i < |rs| ==> rs[i] == RecordOf(rs[i].createdAt, rs[i].reason, ms[i])
  }

  lemma {:induction false} RecoveredNothing(r: Record, m: Message)
    requires |m.value| == 0 && r == RecordOf(r.createdAt, r.reason, m)
    ensures Recovered([r]) == []
  {
    hide B.Encode, B.Decode;
    B.RoundTrip(m.value);
    assert Recovered([r][1..]) == [];
  }

  /** Reading the file recovers what a replay of those messages recovers. */
  lemma {:induction false} HoldsRecovered(rs: seq<Record>, ms: seq<Message>)
    requires Holds(rs, ms)
    ensures Recovered(rs) == D.Recovered(ms, {})
    decreases |rs|
  {
    hide B.Decode, RecordOf;
    if |rs| > 0 {
      var n := |rs| - 1;
      HoldsRecovered(rs[..n], ms[..n]);
      RecoveredJoin(rs[..n], [rs[n]]);
      assert rs[..n] + [rs[n]] == rs;
      if |ms[n].value| > 0 {
        RecoveredOne(rs[n], ms[n]);
      } else {
        RecoveredNothing(rs[n], ms[n]);
      }
    }
  }

  function Go(i: nat): D.Step {
    D.Turn(i, false, true, D.Io(false, false, true))
  }

  /** The next thing job j does is to offer m to the spool. */
  predicate Offers(j: D.Job, m: Message) {
    match j
    case Spooling(x) => x == m
    case Replaying(todo, retained) => |todo| == 0 && |retained| > 0 && retained[0] == m
    case _ => false
  }

  function Offered(j: D.Job): D.Job {
    if j.Replaying? && |j.retained| > 0 then D.Replaying(j.todo, j.retained[1..]) else D.Done
  }

  /** What the spool holds after one write. */
  function Written(cfg: D.Config, spool: seq<Message>, m: Message, io: D.Io): seq<Message> {
    if !cfg.hasSpool || (io.full && !io.truncated) then spool
    else (if io.full then [] else spool) + if io.written then [m] else []
  }

  /** Nothing but jobs, spool and losses differs. */
  predicate SameFlow(s: D.State, t: D.State) {
    && s.submitted == t.submitted && s.queue == t.queue && s.kafka == t.kafka && s.delivered == t.delivered
    && s.log == t.log && s.removed == t.removed
  }

  lemma {:induction false} OfferStep(cfg: D.Config, st: D.State, i: nat, m: Message, io: D.Io)
    requires i < |st.jobs| && Offers(st.jobs[i], m)
    ensures var t := D.ActAll(cfg, st, [D.Turn(i, false, false, io)]);
            SameFlow(st, t) && t.jobs == st.jobs[i := Offered(st.jobs[i])] && t.spool == Written(cfg, st.spool, m, io)
  {
    D.OneAct(cfg, st, D.Turn(i, false, false, io));
    assert D.Act(cfg, st, D.Turn(i, false, false, io)) == D.SpoolWrite(cfg, D.Finish(st, i, Offered(st.jobs[i])), m, io);
  }

  lemma {:induction false} SubmitStep(cfg: D.Config, st: D.State, m: Message)
    ensures var n := |st.jobs|;
            D.ActAll(cfg, st, [D.Submit(m), Go(n)])
              == var s := st.(submitted := st.submitted + multiset{m});
                 if D.HasRoom(cfg, st) then D.Enqueue(s.(jobs := st.jobs + [D.Done]), m)
                 else if cfg.mode == D.Strict then s.(jobs := st.jobs + [D.Submitting(m)])
                 else if cfg.mode == D.DropOldest then s.(jobs := st.jobs + [D.Evicting(m)])
                 else s.(jobs := st.jobs + [D.Spooling(m)])
  {
    var n := |st.jobs|;
    D.TwoActs(cfg, st, D.Submit(m), Go(n));
    var s := D.Act(cfg, st, D.Submit(m));
    assert s.jobs == st.jobs + [D.Submitting(m)];
    assert s.jobs[n := D.Done] == st.jobs + [D.Done];
    assert s.jobs[n := D.Evicting(m)] == st.jobs + [D.Evicting(m)];
    assert s.jobs[n := D.Spooling(m)] == st.jobs + [D.Spooling(m)];
  }

  lemma {:induction false} EvictStep(cfg: D.Config, st: D.State, i: nat, m: Message)
    requires i < |st.jobs| && st.jobs[i] == D.Evicting(m) && |st.queue| > 0
    ensures D.Act(cfg, st, Go(i)) == D.Lose(D.TakeHead(D.Finish(st, i, D.Retrying(m))), st.queue[0], D.Evicted)
  {
  }

  lemma {:induction false} RetryStep(cfg: D.Config, st: D.State, i: nat, m: Message)
    requires i < |st.jobs| && st.jobs[i] == D.Retrying(m) && D.HasRoom(cfg, st)
    ensures D.Act(cfg, st, Go(i)) == D.Finish(D.Enqueue(st, m), i, D.Done)
  {
  }

  /** The head goes, and m is sent. */
  predicate Traded(st: D.State, t: D.State, i: nat, m: Message)
    requires i < |st.jobs| && |st.queue| > 0
  {
    && t.submitted == st.submitted && t.kafka == st.kafka && t.delivered == st.delivered && t.spool == st.spool
    && t.jobs == st.jobs[i := D.Done] && t.queue == st.queue[1..] + [m] && t.log == st.log + [m]
  }

  lemma {:induction false} EvictSteps(cfg: D.Config, st: D.State, i: nat, m: Message)
    requires i < |st.jobs| && st.jobs[i] == D.Evicting(m) && 0 < |st.queue| <= cfg.capacity
    ensures Traded(st, D.ActAll(cfg, st, [Go(i), Go(i)]), i, m)
  {
    hide D.Act, D.ActAll, Go;
    D.TwoActs(cfg, st, Go(i), Go(i));
    EvictStep(cfg, st, i, m);
    var s := D.Act(cfg, st, Go(i));
    RetryStep(cfg, s, i, m);
    assert s.jobs[i := D.Done] == st.jobs[i := D.Done];
  }

  /** now is before, with jobs added that are done. */
  ghost predicate Finished(before: seq<D.Job>, now: seq<D.Job>) {
    before <= now && forall k :: |before| <= k < |now| ==> now[k] == D.Done
  }

  lemma {:induction false} HoldsOneMore(rs: seq<Record>, ms: seq<Message>, createdAt: Bytes, reason: Bytes, m: Message)
    requires Holds(rs, ms)
    ensures Holds(rs + [RecordOf(createdAt, reason, m)], ms + [m])
  {
    hide RecordOf;
    var r := RecordOf(createdAt, reason, m);
    assert r == RecordOf(r.createdAt, r.reason, m) by { StampsOf(createdAt, reason, m); }
  }

  lemma {:induction false} StampsOf(createdAt: Bytes, reason: Bytes, m: Message)
    ensures RecordOf(createdAt, reason, m).createdAt == createdAt && RecordOf(createdAt, reason, m).reason == reason
  {
  }

  lemma {:induction false} RequeueStep(cfg: D.Config, st: D.State, i: nat)
    requires i < |st.jobs| && st.jobs[i].Replaying? && |st.jobs[i].todo| > 0
    ensures var todo, retained := st.jobs[i].todo, st.jobs[i].retained;
            D.ActAll(cfg, st, [Go(i)])
              == if D.HasRoom(cfg, st) then D.Finish(D.Enqueue(st, todo[0]), i, D.Replaying(todo[1..], retained))
                 else D.Finish(st, i, D.Replaying(todo[1..], retained + [todo[0]]))
  {
    D.OneAct(cfg, st, Go(i));
  }

  lemma {:induction false} ReplayStep(cfg: D.Config, st: D.State)
    requires cfg.hasSpool && |D.Recovered(st.spool, {})| > 0
    ensures var t := D.ActAll(cfg, st, [D.Replay(true, true, {})]);
            && SameFlow(st, t) && t.spool == []
            && t.jobs == st.jobs + [D.Replaying(D.Recovered(st.spool, {}), [])]
  {
    D.OneAct(cfg, st, D.Replay(true, true, {}));
  }

  /** Taking the head of the queue, to produce it or, once the time is up, to spool it. */
  lemma {:induction false} TakeStep(cfg: D.Config, st: D.State, a: D.Step)
    requires |st.queue| > 0 && (a == D.Take || a == D.Expire)
    ensures D.ActAll(cfg, st, [a])
         == D.TakeHead(st).(jobs := st.jobs + [if a == D.Take then D.Producing(st.queue[0]) else D.Spooling(st.queue[0])])
  {
    D.OneAct(cfg, st, a);
  }

  lemma {:induction false} ProduceStep(cfg: D.Config, st: D.State, i: nat, down: bool, accepted: bool)
    requires i < |st.jobs| && st.jobs[i].Producing?
    ensures var m := st.jobs[i].m;
            D.ActAll(cfg, st, [D.Turn(i, down, accepted, D.Io(false, false, true))])
              == if down || !accepted then D.Finish(st, i, D.Spooling(m))
                 else D.Finish(st, i, D.Done).(kafka := st.kafka + multiset{m})
  {
    D.OneAct(cfg, st, D.Turn(i, down, accepted, D.Io(false, false, true)));
  }

  lemma {:induction false} EndStep(cfg: D.Config, st: D.State, i: nat)
    requires i < |st.jobs| && st.jobs[i] == D.Replaying([], [])
    ensures D.ActAll(cfg, st, [Go(i)]) == D.Finish(st, i, D.Done)
  {
    D.OneAct(cfg, st, Go(i));
  }

  /** Every record that was not there before states this reason. */
  ghost predicate AddedFor(before: seq<Record>, now: seq<Record>, reason: Bytes) {
    forall r :: r in now ==> r in before || r.reason == reason
  }

  // ---- The object ------------------------------------------------------------------------------------

  class QueuedProducer {
    const mode: D.Mode
    const capacity: nat
    const spool: Spool?
    const breakerDuration: int
    var queue: seq<Message>
    var kafka: seq<Message>
    var brokerDownUntil: int
    var enqueued: nat
    var dropped: nat
    var spoolWrites: nat

    // The messages found in the spool, the steps of the protocol done so far, and where they have led.
    ghost const found: seq<Message>
    ghost var trace: seq<D.Step>
    ghost var flow: D.State

    function Cfg(): D.Config {
      D.Config(mode, capacity, spool != null)
    }

    ghost predicate Traced()
      reads this`flow, this`trace
    {
      flow == D.Run(Cfg(), found, trace)
    }

    /** The fields are those of the protocol's state. */
    ghost predicate Mirrors()
      reads this`flow, this`queue, this`kafka, this`enqueued, if spool == null then {} else {spool}
    {
      && flow.queue == queue && flow.kafka == multiset(kafka) && |flow.log| == enqueued && flow.delivered == multiset{}
      && if spool == null then flow.spool == [] else Holds(spool.records, flow.spool)
    }

    ghost predicate Valid()
      reads this`flow, this`trace, this`queue, this`kafka, this`enqueued, if spool == null then {} else {spool}
    {
      && capacity > 0 && |queue| <= capacity && (spool != null ==> spool.Valid())
      && Traced() && Mirrors()
    }

    /** No call is under way. */
    ghost predicate Idle()
      reads this`flow
    {
      forall k :: 0 <= k < |flow.jobs| ==> flow.jobs[k] == D.Done
    }

    predicate BrokerUnavailable(now: int)
      reads this`brokerDownUntil
    {
      brokerDownUntil > 0 && now < brokerDownUntil
    }

    constructor (mode: D.Mode, queueEvents: int, spool: Spool?, breakerDuration: int, ghost found: seq<Message>)
      requires if spool == null then found == [] else spool.Valid() && Holds(spool.records, found)
      ensures Valid() && Idle() && queue == [] && kafka == [] && brokerDownUntil == 0
      ensures forall t :: !BrokerUnavailable(t)
      ensures this.mode == mode && this.spool == spool && this.breakerDuration == breakerDuration
      ensures this.found == found && trace == [] && flow == D.Start(found)
      ensures capacity == if queueEvents <= 0 then 1 else queueEvents
    {
      this.mode, this.spool, this.breakerDuration := mode, spool, breakerDuration;
      capacity := if queueEvents <= 0 then 1 else queueEvents;
      queue, kafka, brokerDownUntil, enqueued, dropped, spoolWrites := [], [], 0, 0, 0, 0;
      this.found, trace, flow := found, [], D.Start(found);
    }

    /** In whatever calls were made: every message ever submitted, or found in the spool, is in the queue,
        in hand, with the library, in the spool or lost, as often as it was submitted. */
    lemma EveryMessageIsSomewhere(x: Message)
      requires Valid()
      ensures D.Times(queue, x) + D.Held(flow.jobs, x) + multiset(kafka)[x] + D.Times(flow.spool, x) + D.LostTimes(flow.lost, x)
           == flow.submitted[x]
      ensures Idle() ==> D.Held(flow.jobs, x) == 0
    {
      hide D.Run, D.Times, D.Held, D.LostTimes;
      D.MessagesAreConserved(Cfg(), found, trace, x);
      if Idle() {
        HeldByNone(flow.jobs, x);
      }
    }

    /** Further steps of the protocol have been done. */
    ghost method Follow(steps: seq<D.Step>)
      requires Traced()
      modifies this`trace, this`flow
      ensures Traced() && trace == old(trace) + steps && flow == D.ActAll(Cfg(), old(flow), steps)
    {
      hide D.Run, D.ActAll;
      D.RunGoesOn(Cfg(), found, trace, steps);
      flow := D.ActAll(Cfg(), flow, steps);
      trace := trace + steps;
    }

    /** Job i offers m to the spool. */
    method SpoolMessage(reason: Bytes, m: Message, w: World, ghost i: nat) returns (kept: bool)
      requires Valid() && Plain(reason) && Plain(w.createdAt)
      requires i < |flow.jobs| && Offers(flow.jobs[i], m)
      modifies this`spoolWrites, this`trace, this`flow, if spool == null then {} else {spool}
      ensures Valid() && old(trace) <= trace
      ensures flow.jobs == old(flow.jobs)[i := Offered(old(flow.jobs[i]))] && flow.submitted == old(flow.submitted)
      ensures spool == null ==> !kept
      ensures spool != null ==>
                var rest := if old(spool.IsFull()) && w.io.stat && w.io.truncate then [] else old(spool.records);
                spool.records == if kept then rest + [RecordOf(w.createdAt, reason, m)] else rest
      ensures spoolWrites == old(spoolWrites) + if kept then 1 else 0
    {
      hide D.ActAll, D.Run, RecordOf, Plain, Spool.Valid;
      kept := false;
      ghost var st, io := flow, D.Io(false, true, false);
      if spool != null {
        io := io.(full := spool.IsFull() && w.io.stat && w.io.truncate);
        kept := spool.Write(w.createdAt, reason, m, w.io);
        if kept {
          spoolWrites := spoolWrites + 1;
        }
        io := io.(written := kept);
        HoldsOneMore(if io.full then [] else old(spool.records), if io.full then [] else st.spool, w.createdAt, reason, m);
      }
      Follow([D.Turn(i, false, false, io)]);
      OfferStep(Cfg(), st, i, m, io);
    }

    /** Open the circuit until now + breakerDuration. Between reading the field and swapping it other
        threads may write it, here the values in others; the loop ends with a deadline no earlier than
        its own and never brings a later one forward. */
    method MarkBrokerUnavailable(now: int, others: seq<int>) returns (opens: bool)
      modifies this`brokerDownUntil
      ensures breakerDuration <= 0 ==> brokerDownUntil == old(brokerDownUntil) && !opens
      ensures breakerDuration > 0 ==> brokerDownUntil >= now + breakerDuration
      ensures breakerDuration > 0 && brokerDownUntil != now + breakerDuration ==>
                brokerDownUntil == old(brokerDownUntil) || brokerDownUntil in others
      ensures breakerDuration > 0 && others == [] ==>
                brokerDownUntil == if old(brokerDownUntil) > now + breakerDuration then old(brokerDownUntil) else now + breakerDuration
      ensures breakerDuration > 0 && now + breakerDuration > 0 ==> forall t :: t < now + breakerDuration ==> BrokerUnavailable(t)
      ensures breakerDuration > 0 && others == [] ==>
                forall t :: t >= now + breakerDuration ==> (BrokerUnavailable(t) <==> old(BrokerUnavailable(t)))
      ensures opens <==> breakerDuration > 0 && !old(BrokerUnavailable(now))
    {
      if breakerDuration <= 0 {
        return false;
      }
      opens := !BrokerUnavailable(now);
      var until := now + breakerDuration;
      var turn := 0;
      while true
        invariant turn <= |others|
        invariant brokerDownUntil == if turn == 0 then old(brokerDownUntil) else others[turn - 1]
        decreases |others| - turn
      {
        var current := brokerDownUntil;
        if current >= until {
          break;
        }
        if turn < |others| {
          // another thread wrote the field; the swap fails unless it wrote the same value
          brokerDownUntil := others[turn];
          turn := turn + 1;
        }
        if brokerDownUntil == current {
          brokerDownUntil := until;
          break;
        }
      }
    }

    method MarkBrokerAvailable()
      modifies this`brokerDownUntil
      ensures brokerDownUntil == 0 && forall now :: !BrokerUnavailable(now)
    {
      brokerDownUntil := 0;
    }

    /** Offer messages to the spool one by one; safe says that no write failed or emptied the file. */
    method SpoolAll(world: nat -> World, ms: seq<Message>, ghost job: nat) returns (ghost safe: bool)
      requires Valid() && spool != null && forall k :: Plain(world(k).createdAt)
      requires forall i :: 0 <= i < |ms| ==> |ms[i].value| > 0
      requires job < |flow.jobs| && flow.jobs[job] == D.Replaying([], ms)
      modifies this`spoolWrites, this`trace, this`flow, spool
      ensures Valid() && (safe ==> Recovered(spool.records) == Recovered(old(spool.records)) + ms)
      ensures flow.jobs == old(flow.jobs)[job := D.Replaying([], [])] && flow.submitted == old(flow.submitted) && old(trace) <= trace
      ensures AddedFor(old(spool.records), spool.records, REPLAY_FULL)
    {
      hide Recovered, Spool.Valid, Plain, Traced, Mirrors;
      ReasonsArePlain();
      safe := true;
      for i := 0 to |ms|
        invariant Valid() && (safe ==> Recovered(spool.records) == Recovered(old(spool.records)) + ms[..i])
        invariant flow.jobs == old(flow.jobs)[job := D.Replaying([], ms[i..])] && flow.submitted == old(flow.submitted) && old(trace) <= trace
        invariant AddedFor(old(spool.records), spool.records, REPLAY_FULL)
      {
        StampsOf(world(i).createdAt, REPLAY_FULL, ms[i]);
        ghost var before, full := spool.records, spool.IsFull();
        var kept := SpoolMessage(REPLAY_FULL, ms[i], world(i), job);
        safe := safe && kept && !full;
        RecoveredOneMore(before, RecordOf(world(i).createdAt, REPLAY_FULL, ms[i]), ms[i]);
        assert ms[..i] + [ms[i]] == ms[..i + 1] && ms[i..][1..] == ms[i + 1..];
      }
      assert ms[..|ms|] == ms;
    }

    /** The first try of every mode: into the queue if there is room. */
    method TrySend(m: Message) returns (sent: bool)
      requires Valid() && (mode == D.Strict ==> |queue| < capacity)
      modifies this`queue, this`enqueued, this`trace, this`flow
      ensures Valid() && old(trace) <= trace && flow.submitted == old(flow.submitted) + multiset{m}
      ensures sent <==> |old(queue)| < capacity
      ensures queue == (if sent then old(queue) + [m] else old(queue)) && enqueued == old(enqueued) + if sent then 1 else 0
      ensures flow.jobs
           == old(flow.jobs) + [if sent then D.Done else if mode == D.DropOldest then D.Evicting(m) else D.Spooling(m)]
    {
      hide D.ActAll, D.Run, Holds, Spool.Valid;
      ghost var n := |flow.jobs|;
      SubmitStep(Cfg(), flow, m);
      Follow([D.Submit(m), Go(n)]);
      sent := |queue| < capacity;
      if sent {
        queue, enqueued := queue + [m], enqueued + 1;
      }
    }

    /** Without room, in drop-oldest mode: the head goes, and m is sent. */
    method TradeOldest(m: Message)
      requires Valid() && |queue| == capacity && |flow.jobs| > 0 && flow.jobs[|flow.jobs| - 1] == D.Evicting(m)
      modifies this`queue, this`enqueued, this`trace, this`flow
      ensures Valid() && old(trace) <= trace
      ensures flow.jobs == old(flow.jobs)[|old(flow.jobs)| - 1 := D.Done] && flow.submitted == old(flow.submitted)
      ensures queue == old(queue)[1..] + [m] && enqueued == old(enqueued) + 1
    {
      hide D.ActAll, D.Run, Holds, Spool.Valid;
      ghost var n := |flow.jobs| - 1;
      EvictSteps(Cfg(), flow, n, m);
      Follow([Go(n), Go(n)]);
      queue := queue[1..];
      queue, enqueued := queue + [m], enqueued + 1;
    }

    /** A strict call waits for room and is modelled from the moment there is some. With room every
        mode appends; without it drop-oldest trades the head for m, the others try the spool. */
    method Submit(m: Message, w: World) returns (kept: bool)
      requires Valid() && Plain(w.createdAt)
      requires mode == D.Strict ==> |queue| < capacity
      modifies this`queue, this`enqueued, this`dropped, this`spoolWrites, this`trace, this`flow, if spool == null then {} else {spool}
      ensures Valid() && old(trace) <= trace
      ensures flow.submitted == old(flow.submitted) + multiset{m} && Finished(old(flow.jobs), flow.jobs)
      ensures var full := |old(queue)| == capacity;
              && (!full ==> kept && queue == old(queue) + [m] && dropped == old(dropped) && enqueued == old(enqueued) + 1)
              && (full && mode == D.DropOldest ==>
                    kept && queue == old(queue)[1..] + [m] && dropped == old(dropped) + 1 && enqueued == old(enqueued) + 1)
              && (full && mode != D.DropOldest ==>
                    queue == old(queue) && dropped == old(dropped) + 1 && enqueued == old(enqueued)
                    && spoolWrites == old(spoolWrites) + if kept then 1 else 0)
      ensures kept && spoolWrites > old(spoolWrites) ==>
                spool != null && |spool.records| > 0
                && spool.records[|spool.records| - 1] == RecordOf(w.createdAt, QUEUE_FULL, m)
    {
      hide Traced, Mirrors, RecordOf, Plain, Spool.Valid;
      ReasonsArePlain();
      kept := TrySend(m);
      if kept {
        return;
      }
      dropped := dropped + 1;
      if mode == D.DropOldest {
        TradeOldest(m);
        kept := true;
      } else {
        kept := SpoolMessage(QUEUE_FULL, m, w, |flow.jobs| - 1);
      }
    }

    /** Job i, the producer loop with m in hand. */
    method Produce(m: Message, w: World, ghost i: nat) returns (fate: Fate)
      requires Valid() && Plain(w.createdAt)
      requires i < |flow.jobs| && flow.jobs[i] == D.Producing(m)
      modifies this`kafka, this`spoolWrites, this`trace, this`flow, if spool == null then {} else {spool}
      ensures Valid() && old(trace) <= trace
      ensures flow.jobs == old(flow.jobs)[i := D.Done] && flow.submitted == old(flow.submitted)
      ensures fate == ToKafka <==> !BrokerUnavailable(w.now) && w.accepts
      ensures kafka == if fate == ToKafka then old(kafka) + [m] else old(kafka)
      ensures spoolWrites == old(spoolWrites) + if fate == ToSpool then 1 else 0
      ensures fate == ToSpool ==>
                spool != null && |spool.records| > 0
                && spool.records[|spool.records| - 1]
                     == RecordOf(w.createdAt, if BrokerUnavailable(w.now) then BROKER_DOWN else PRODUCE_ERROR, m)
    {
      hide D.ActAll, D.Run, RecordOf, Plain, Holds, Spool.Valid;
      ReasonsArePlain();
      var down := BrokerUnavailable(w.now);
      ProduceStep(Cfg(), flow, i, down, w.accepts);
      Follow([D.Turn(i, down, w.accepts, D.Io(false, false, true))]);
      if down {
        var kept := SpoolMessage(BROKER_DOWN, m, w, i);
        fate := if kept then ToSpool else Gone;
      } else if w.accepts {
        kafka := kafka + [m];
        fate := ToKafka;
      } else {
        var kept := SpoolMessage(PRODUCE_ERROR, m, w, i);
        fate := if kept then ToSpool else Gone;
      }
    }

    /** The turns of drain before its deadline: the producer loop's own work. */
    method ProduceUntil(world: nat -> World, deadline: nat) returns (turns: nat, ghost fates: seq<Fate>)
      requires Valid() && forall k :: Plain(world(k).createdAt)
      modifies this`queue, this`kafka, this`spoolWrites, this`trace, this`flow, if spool == null then {} else {spool}
      ensures Valid() && turns == |fates| && Taken(old(queue), queue, fates)
      ensures old(trace) <= trace && flow.submitted == old(flow.submitted) && Finished(old(flow.jobs), flow.jobs)
      ensures |fates| == if |old(queue)| < deadline then |old(queue)| else deadline
      ensures kafka == old(kafka) + Chosen(old(queue)[..|fates|], fates, ToKafka)
      ensures spoolWrites == old(spoolWrites) + |Chosen(old(queue)[..|fates|], fates, ToSpool)|
    {
      hide Chosen, Spool.Valid, Plain, Traced, Mirrors;
      turns, fates := 0, [];
      assert forall f :: Chosen(old(queue)[..0], fates, f) == [] by {
        forall f ensures Chosen(old(queue)[..0], fates, f) == [] {
          ChosenNothing(old(queue)[..0], fates, f);
        }
      }
      while |queue| > 0 && turns < deadline
        invariant Valid() && turns == |fates| <= deadline && Taken(old(queue), queue, fates)
        invariant old(trace) <= trace && flow.submitted == old(flow.submitted) && Finished(old(flow.jobs), flow.jobs)
        invariant kafka == old(kafka) + Chosen(old(queue)[..|fates|], fates, ToKafka)
        invariant spoolWrites == old(spoolWrites) + |Chosen(old(queue)[..|fates|], fates, ToSpool)|
        decreases |queue|
      {
        var m := TakeFromQueue(D.Take);
        var fate := Produce(m, world(turns), |flow.jobs| - 1);
        TookOne(old(queue), fates, m, fate);
        fates := fates + [fate];
        turns := turns + 1;
      }
    }

    /** The receive from the queue; a says what is going to be done with the message. */
    method TakeFromQueue(ghost a: D.Step) returns (m: Message)
      requires Valid() && |queue| > 0 && (a == D.Take || a == D.Expire)
      modifies this`queue, this`trace, this`flow
      ensures Valid() && trace == old(trace) + [a]
      ensures m == old(queue)[0] && queue == old(queue)[1..] && flow.submitted == old(flow.submitted)
      ensures flow.jobs == old(flow.jobs) + [if a == D.Take then D.Producing(m) else D.Spooling(m)]
    {
      hide D.ActAll, D.Run, Holds, Spool.Valid;
      m := queue[0];
      TakeStep(Cfg(), flow, a);
      Follow([a]);
      queue := queue[1..];
    }

    /** After the deadline everything left is offered to the spool. */
    method SpoolRest(world: nat -> World, from: nat) returns (ghost fates: seq<Fate>)
      requires Valid() && forall k :: Plain(world(k).createdAt)
      modifies this`queue, this`spoolWrites, this`trace, this`flow, if spool == null then {} else {spool}
      ensures Valid() && queue == [] && |fates| == |old(queue)|
      ensures old(trace) <= trace && flow.submitted == old(flow.submitted) && Finished(old(flow.jobs), flow.jobs)
      ensures forall i :: 0 <= i < |fates| ==> fates[i] != ToKafka
      ensures spoolWrites == old(spoolWrites) + |Chosen(old(queue), fates, ToSpool)|
      ensures spool != null ==> AddedFor(old(spool.records), spool.records, DRAIN_TIMEOUT)
    {
      hide Chosen, Spool.Valid, Plain, Traced, Mirrors;
      ReasonsArePlain();
      fates := [];
      var turn := from;
      assert Chosen(old(queue)[..0], fates, ToSpool) == [] by { ChosenNothing(old(queue)[..0], fates, ToSpool); }
      while |queue| > 0
        invariant Valid() && Taken(old(queue), queue, fates)
        invariant old(trace) <= trace && flow.submitted == old(flow.submitted) && Finished(old(flow.jobs), flow.jobs)
        invariant forall i :: 0 <= i < |fates| ==> fates[i] != ToKafka
        invariant spoolWrites == old(spoolWrites) + |Chosen(old(queue)[..|fates|], fates, ToSpool)|
        invariant spool != null ==> AddedFor(old(spool.records), spool.records, DRAIN_TIMEOUT)
        decreases |queue|
      {
        var m := TakeFromQueue(D.Expire);
        StampsOf(world(turn).createdAt, DRAIN_TIMEOUT, m);
        var kept := SpoolMessage(DRAIN_TIMEOUT, m, world(turn), |flow.jobs| - 1);
        ghost var fate := if kept then ToSpool else Gone;
        TookOne(old(queue), fates, m, fate);
        fates := fates + [fate];
        turn := turn + 1;
      }
      assert old(queue)[..|fates|] == old(queue);
    }

    /** Shutdown: the queue is empty afterwards, every message of it was handed over, spooled or
        refused by the spool, in order, and none after the deadline went to the library. */
    method Drain(world: nat -> World, deadline: nat) returns (ghost fates: seq<Fate>)
      requires Valid() && forall k :: Plain(world(k).createdAt)
      modifies this`queue, this`kafka, this`dropped, this`spoolWrites, this`trace, this`flow, if spool == null then {} else {spool}
      ensures Valid() && queue == [] && |fates| == |old(queue)|
      ensures old(trace) <= trace && flow.submitted == old(flow.submitted) && Finished(old(flow.jobs), flow.jobs)
      ensures kafka == old(kafka) + Chosen(old(queue), fates, ToKafka)
      ensures spoolWrites == old(spoolWrites) + |Chosen(old(queue), fates, ToSpool)|
      ensures forall i :: deadline <= i < |fates| ==> fates[i] != ToKafka
      ensures dropped == old(dropped) + if |old(queue)| > deadline then |old(queue)| - deadline else 0
    {
      hide Chosen, Spool.Valid, Plain, Traced, Mirrors;
      var turns;
      turns, fates := ProduceUntil(world, deadline);
      ghost var all, late := queue, [];
      dropped := dropped + |queue|;
      late := SpoolRest(world, turns);
      ChosenJoin(old(queue)[..|fates|], fates, all, late, ToSpool);
      ChosenJoin(old(queue)[..|fates|], fates, all, late, ToKafka);
      ChosenNone(all, late, ToKafka);
      assert old(queue)[..|fates|] + all == old(queue);
      fates := fates + late;
    }

    /** One turn of a replay, job i: m into the queue if there is room. */
    method Resend(m: Message, ghost i: nat, ghost todo: seq<Message>, ghost retained: seq<Message>) returns (sent: bool)
      requires Valid() && i < |flow.jobs| && flow.jobs[i] == D.Replaying([m] + todo, retained)
      modifies this`queue, this`enqueued, this`trace, this`flow
      ensures Valid() && old(trace) <= trace && flow.submitted == old(flow.submitted)
      ensures sent <==> |old(queue)| < capacity
      ensures queue == (if sent then old(queue) + [m] else old(queue)) && enqueued == old(enqueued) + if sent then 1 else 0
      ensures flow.jobs == old(flow.jobs)[i := D.Replaying(todo, if sent then retained else retained + [m])]
    {
      hide D.ActAll, D.Run, Holds, Spool.Valid;
      RequeueStep(Cfg(), flow, i);
      Follow([Go(i)]);
      assert ([m] + todo)[1..] == todo;
      sent := |queue| < capacity;
      if sent {
        queue, enqueued := queue + [m], enqueued + 1;
      }
    }

    /** The loop of a replay, job i: into the queue while there is room, the rest kept back. */
    method Requeue(messages: seq<Message>, ghost i: nat) returns (replayed: nat, left: seq<Message>)
      requires Valid() && i < |flow.jobs| && flow.jobs[i] == D.Replaying(messages, [])
      modifies this`queue, this`enqueued, this`trace, this`flow
      ensures Valid() && old(trace) <= trace
      ensures flow.jobs == old(flow.jobs)[i := D.Replaying([], left)] && flow.submitted == old(flow.submitted)
      ensures |queue| <= capacity && replayed <= |messages| && left == messages[replayed..]
      ensures queue == old(queue) + messages[..replayed] && enqueued == old(enqueued) + replayed
      ensures |left| > 0 ==> |queue| == capacity
    {
      hide Traced, Mirrors, Spool.Valid;
      replayed, left := 0, [];
      for k := 0 to |messages|
        invariant Valid() && old(trace) <= trace && flow.submitted == old(flow.submitted)
        invariant flow.jobs == old(flow.jobs)[i := D.Replaying(messages[k..], left)]
        invariant |left| > 0 ==> |queue| == capacity
        invariant replayed + |left| == k && left == messages[replayed..k]
        invariant queue == old(queue) + messages[..replayed] && enqueued == old(enqueued) + replayed
      {
        assert messages[k..] == [messages[k]] + messages[k + 1..];
        var sent := Resend(messages[k], i, messages[k + 1..], left);
        if sent {
          assert messages[..replayed] + [messages[k]] == messages[..replayed + 1];
          replayed := replayed + 1;
        } else {
          left := left + [messages[k]];
        }
      }
      assert messages[|messages|..] == [];
    }

    /** The spool read and emptied: what was recovered is in hand, unless that is nothing. */
    method Recover(io: Io) returns (messages: seq<Message>)
      requires Valid() && spool != null
      modifies this`trace, this`flow, spool
      ensures Valid() && old(trace) <= trace && flow.submitted == old(flow.submitted)
      ensures if messages == [] then flow.jobs == old(flow.jobs) && spool.records == old(spool.records)
              else flow.jobs == old(flow.jobs) + [D.Replaying(messages, [])] && spool.records == []
      ensures messages != [] ==> messages == Recovered(old(spool.records))
      ensures forall i :: 0 <= i < |messages| ==> |messages[i].value| > 0
    {
      hide Spool.Valid, D.ActAll, D.Run, D.Recovered, Recovered, RecordOf;
      RecoveredHaveValues(spool.records);
      HoldsRecovered(spool.records, flow.spool);
      messages := [];
      var result := spool.DrainAll(io);
      if result.Some? && |result.value| > 0 {
        messages := result.value;
        ReplayStep(Cfg(), flow);
        Follow([D.Replay(true, true, {})]);
      }
    }

    /** replaySpool: the spooled messages enter the queue while there is room; the rest are offered to
        the spool again. When no such write fails or empties the file, no message is lost. */
    method ReplaySpool(world: nat -> World) returns (replayed: nat, ghost retained: seq<Message>, ghost safe: bool)
      requires Valid() && forall k :: Plain(world(k).createdAt)
      modifies this`queue, this`enqueued, this`spoolWrites, this`trace, this`flow, if spool == null then {} else {spool}
      ensures Valid() && replayed <= capacity - |old(queue)|
      ensures old(trace) <= trace && flow.submitted == old(flow.submitted) && Finished(old(flow.jobs), flow.jobs)
      ensures spool == null ==> queue == old(queue) && replayed == 0 && retained == []
      ensures spool != null ==>
                var was := Recovered(old(spool.records));
                && enqueued == old(enqueued) + replayed && replayed + |retained| <= |was|
                && (replayed + |retained| > 0 ==> was[replayed..] == retained)
                && queue == old(queue) + was[..replayed]
                && (|retained| > 0 ==> |queue| == capacity)
                && (safe ==> Recovered(spool.records) == was[replayed..])
    {
      hide Spool.Valid, Plain, D.ActAll, D.Run, Holds, Recovered, Traced;
      replayed, retained, safe := 0, [], true;
      if spool == null {
        return;
      }
      var messages := Recover(world(0).io);
      if |messages| == 0 {
        return;
      }
      ghost var job := |flow.jobs| - 1;
      var left;
      replayed, left := Requeue(messages, job);
      retained := left;
      safe := SpoolAll(world, left, job);
      EndStep(Cfg(), flow, job);
      Follow([Go(job)]);
      RecoveredOfNone();
    }
  }

  lemma {:induction false} RecoveredOfNone()
    ensures Recovered([]) == []
  {
  }

  lemma {:induction false} HeldByNone(jobs: seq<D.Job>, x: Message)
    requires forall k :: 0 <= k < |jobs| ==> jobs[k] == D.Done
    ensures D.Held(jobs, x) == 0
    decreases |jobs|
  {
    if |jobs| > 0 {
      HeldByNone(jobs[..|jobs| - 1], x);
    }
  }

  ghost predicate Taken(all: seq<Message>, queue: seq<Message>, fates: seq<Fate>) {
    |fates| <= |all| && queue == all[|fates|..]
  }

  lemma {:induction false} TookOne(all: seq<Message>, fates: seq<Fate>, m: Message, fate: Fate)
    requires |fates| < |all| && all[|fates|] == m
    ensures forall f :: Chosen(all[..|fates| + 1], fates + [fate], f) == Chosen(all[..|fates|], fates, f) + if fate == f then [m] else []
  {
    forall f ensures Chosen(all[..|fates| + 1], fates + [fate], f) == Chosen(all[..|fates|], fates, f) + if fate == f then [m] else [] {
      ChosenOneMore(all[..|fates|], fates, m, fate, f);
      assert all[..|fates|] + [m] == all[..|fates| + 1];
    }
  }

  lemma {:induction false} ChosenJoin(ms: seq<Message>, fates: seq<Fate>, ms': seq<Message>, fates': seq<Fate>, f: Fate)
    requires |fates| == |ms| && |fates'| == |ms'|
    ensures Chosen(ms + ms', fates + fates', f) == Chosen(ms, fates, f) + Chosen(ms', fates', f)
    decreases |ms'|
  {
    if |ms'| == 0 {
      assert ms + ms' == ms && fates + fates' == fates;
    } else {
      var n := |ms'| - 1;
      ChosenJoin(ms, fates, ms'[..n], fates'[..n], f);
      assert ms + ms' == (ms + ms'[..n]) + [ms'[n]] && fates + fates' == (fates + fates'[..n]) + [fates'[n]];
      ChosenOneMore(ms + ms'[..n], fates + fates'[..n], ms'[n], fates'[n], f);
    }
  }

  lemma {:induction false} ChosenNothing(ms: seq<Message>, fates: seq<Fate>, f: Fate)
    requires |ms| == 0 && fates == []
    ensures Chosen(ms, fates, f) == []
  {
  }

  lemma {:induction false} ChosenNone(ms: seq<Message>, fates: seq<Fate>, f: Fate)
    requires |fates| == |ms| && forall i :: 0 <= i < |fates| ==> fates[i] != f
    ensures Chosen(ms, fates, f) == []
    decreases |ms|
  {
    if |ms| > 0 {
      ChosenNone(ms[..|ms| - 1], fates[..|ms| - 1], f);
    }
  }
}
