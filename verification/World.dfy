/** All sessions of the worker as one value, and their isolation: what a session has become and
    has emitted is decided by its own events alone. */
module World {
  import opened Drain
  import opened Session
  import opened SessionKeys

  /** The session map, the counters, and every conversation with the key it was emitted under. */
  datatype World = World(sessions: map<string, Session>, stats: Stats, out: seq<(string, Conversation)>)

  const EMPTY := World(map[], NO_STATS, [])

  function AddStats(a: Stats, b: Stats): Stats {
    Stats(a.requestParsed + b.requestParsed, a.parsed + b.parsed,
          a.droppedNoReqStart + b.droppedNoReqStart, a.droppedNoRespInit + b.droppedNoRespInit)
  }

  function Tagged(k: string, cs: seq<Conversation>): (ts: seq<(string, Conversation)>)
    ensures |ts| == |cs| && forall i :: 0 <= i < |cs| ==> ts[i] == (k, cs[i])
  {
    seq(|cs|, i requires 0 <= i < |cs| => (k, cs[i]))
  }

  function GetOrFresh(w: World, k: string): Session {
    if k in w.sessions then w.sessions[k] else FRESH
  }

  /** A data event that carries bytes: only the session of its key is touched. */
  function Receive(cfg: Config, w: World, e: Event): World
    requires CarriesBytes(e)
  {
    var k := SessionKey(e);
    var d := Process(cfg, Work(GetOrFresh(w, k), NO_STATS, []), e);
    World(w.sessions[k := d.session], AddStats(w.stats, d.stats), w.out + Tagged(k, d.out))
  }

  /** A close event and an expiry do the same to a session that exists: flush it, with
      close-delimited responses, and forget it. */
  function Finish(cfg: Config, w: World, k: string): World {
    if k !in w.sessions then w
    else
      var d := DrainSession(cfg.engine, Work(w.sessions[k], NO_STATS, []), true);
      World(w.sessions - {k}, AddStats(w.stats, d.stats), w.out + Tagged(k, d.out))
  }

  function FinishAll(cfg: Config, w: World, ks: seq<string>): World {
    if |ks| == 0 then w else Finish(cfg, FinishAll(cfg, w, ks[..|ks| - 1]), ks[|ks| - 1])
  }

  /** Finishing some sessions leaves the others as they are. */
  lemma {:induction false} FinishAllSessions(cfg: Config, w: World, ks: seq<string>)
    ensures FinishAll(cfg, w, ks).sessions == w.sessions - set k | k in ks
    decreases |ks|
  {
    if |ks| > 0 {
      FinishAllSessions(cfg, w, ks[..|ks| - 1]);
      assert ks == ks[..|ks| - 1] + [ks[|ks| - 1]];
    }
  }

  datatype Action = Arrive(e: Event) | Expire(k: string)

  function Act(cfg: Config, w: World, a: Action): World {
    match a
    case Arrive(e) =>
      if e.eventType == CloseEvent then Finish(cfg, w, SessionKey(e))
      else if CarriesBytes(e) then Receive(cfg, w, e)
      else w
    case Expire(k) => Finish(cfg, w, k)
  }

  function RunAll(cfg: Config, acts: seq<Action>): World {
    if |acts| == 0 then EMPTY else Act(cfg, RunAll(cfg, acts[..|acts| - 1]), acts[|acts| - 1])
  }

  // ---- One session's own history ---------------------------------------------------

  function KeyOf(a: Action): string {
    if a.Arrive? then SessionKey(a.e) else a.k
  }

  predicate Ends(a: Action) {
    a.Expire? || a.e.eventType == CloseEvent
  }

  /** The events of session k since it was last closed or expired. */
  function Mine(k: string, acts: seq<Action>): seq<Event> {
    if |acts| == 0 then []
    else
      var before, a := Mine(k, acts[..|acts| - 1]), acts[|acts| - 1];
      if KeyOf(a) != k then before
      else if Ends(a) then []
      else if CarriesBytes(a.e) then before + [a.e]
      else before
  }

  /** What session k has emitted over all its lives, computed from its own events only. */
  function Said(cfg: Config, k: string, acts: seq<Action>): seq<Conversation> {
    if |acts| == 0 then []
    else
      var front, a := acts[..|acts| - 1], acts[|acts| - 1];
      var before := Said(cfg, k, front);
      if KeyOf(a) != k then before
      else if Ends(a) then
        if |Mine(k, front)| == 0 then before
        else before + DrainSession(cfg.engine, Work(Run(cfg, Mine(k, front)).session, NO_STATS, []), true).out
      else if CarriesBytes(a.e) then
        before + Process(cfg, Work(Run(cfg, Mine(k, front)).session, NO_STATS, []), a.e).out
      else before
  }

  function Under(k: string, ts: seq<(string, Conversation)>): seq<Conversation> {
    if |ts| == 0 then []
    else
      var before := Under(k, ts[..|ts| - 1]);
      if ts[|ts| - 1].0 == k then before + [ts[|ts| - 1].1] else before
  }

  lemma {:induction false} UnderTagged(k: string, ts: seq<(string, Conversation)>, j: string, cs: seq<Conversation>)
    ensures Under(k, ts + Tagged(j, cs)) == if j == k then Under(k, ts) + cs else Under(k, ts)
    decreases |cs|
  {
    if |cs| == 0 {
      assert ts + Tagged(j, cs) == ts;
      assert Under(k, ts) + cs == Under(k, ts);
    } else {
      var all := ts + Tagged(j, cs);
      assert all[..|all| - 1] == ts + Tagged(j, cs[..|cs| - 1]);
      UnderTagged(k, ts, j, cs[..|cs| - 1]);
      assert cs == cs[..|cs| - 1] + [cs[|cs| - 1]];
      assert Under(k, ts) + cs == Under(k, ts) + cs[..|cs| - 1] + [cs[|cs| - 1]];
    }
  }

  /** Counters and earlier output pass through a drain and through an event. */
  lemma {:induction false} DrainIsAdditive(engine: Engine, w: Work, close: bool)
    ensures var d := DrainSession(engine, Work(w.session, NO_STATS, []), close);
            DrainSession(engine, w, close) == Work(d.session, AddStats(w.stats, d.stats), w.out + d.out)
  {
    var r := Loop(engine.requests, w.session.reqData);
    var a := Answers(engine, w.session.respData, Waiting(w.session, r), close);
    var sent := Converse(Waiting(w.session, r), a.messages, w.session.loss);
    assert [] + sent == sent;
  }

  lemma {:induction false} ProcessIsAdditive(cfg: Config, w: Work, e: Event)
    requires CarriesBytes(e)
    ensures var d := Process(cfg, Work(w.session, NO_STATS, []), e);
            Process(cfg, w, e) == Work(d.session, AddStats(w.stats, d.stats), w.out + d.out)
  {
    var s := Admit(w.session, e);
    if Overflows(cfg, s, e) {
      assert w.out + [] == w.out;
    } else {
      DrainIsAdditive(cfg.engine, w.(session := Append(s, e)), false);
    }
  }

  /** The session under k is what its own events make of a fresh one, and the conversations
      under k are what its own events say: no other session has any influence. */
  ghost predicate Isolated(cfg: Config, acts: seq<Action>, k: string) {
    var w, own := RunAll(cfg, acts), Mine(k, acts);
    && (k in w.sessions <==> |own| > 0)
    && (k in w.sessions ==> w.sessions[k] == Run(cfg, own).session)
    && Under(k, w.out) == Said(cfg, k, acts)
  }

  lemma {:induction false} SessionsAreIsolated(cfg: Config, acts: seq<Action>, k: string)
    ensures Isolated(cfg, acts, k)
    decreases |acts|
  {
    if |acts| > 0 {
      var front, a := acts[..|acts| - 1], acts[|acts| - 1];
      SessionsAreIsolated(cfg, front, k);
      if Ends(a) {
        FinishIsIsolated(cfg, RunAll(cfg, front), KeyOf(a), k);
      } else if CarriesBytes(a.e) {
        ReceiveIsIsolated(cfg, RunAll(cfg, front), a.e, k);
        if KeyOf(a) == k {
          RunOneMore(cfg, Mine(k, front), a.e);
        }
      }
    }
  }

  lemma {:induction false} FinishIsIsolated(cfg: Config, w: World, j: string, k: string)
    ensures var v := Finish(cfg, w, j);
            && (k in v.sessions <==> k in w.sessions && k != j)
            && (k in v.sessions ==> v.sessions[k] == w.sessions[k])
            && Under(k, v.out) == if k == j && k in w.sessions
                 then Under(k, w.out) + DrainSession(cfg.engine, Work(w.sessions[k], NO_STATS, []), true).out
                 else Under(k, w.out)
  {
    if j in w.sessions {
      UnderTagged(k, w.out, j, DrainSession(cfg.engine, Work(w.sessions[j], NO_STATS, []), true).out);
    }
  }

  lemma {:induction false} ReceiveIsIsolated(cfg: Config, w: World, e: Event, k: string)
    requires CarriesBytes(e)
    ensures var v := Receive(cfg, w, e);
            var d := Process(cfg, Work(GetOrFresh(w, k), NO_STATS, []), e);
            if k == SessionKey(e)
            then k in v.sessions && v.sessions[k] == d.session && Under(k, v.out) == Under(k, w.out) + d.out
            else && (k in v.sessions <==> k in w.sessions)
                 && (k in w.sessions ==> v.sessions[k] == w.sessions[k])
                 && Under(k, v.out) == Under(k, w.out)
  {
    var j := SessionKey(e);
    UnderTagged(k, w.out, j, Process(cfg, Work(GetOrFresh(w, j), NO_STATS, []), e).out);
  }

  lemma {:induction false} RunOneMore(cfg: Config, es: seq<Event>, e: Event)
    requires CarriesBytes(e)
    ensures Run(cfg, es + [e]).session == Process(cfg, Work(Run(cfg, es).session, NO_STATS, []), e).session
    ensures |es| == 0 ==> Run(cfg, es).session == FRESH
  {
    assert (es + [e])[..|es + [e]| - 1] == es;
    ProcessIsAdditive(cfg, Run(cfg, es), e);
  }
}
