/** The worker's objects: the session whose fields the source updates in place, the session
    store, and the methods that process events on them (cmd/worker/processing.go, store.go). */
module Worker {
  import opened Words
  import opened HttpTokens
  import opened HttpParsing
  import opened Drain
  import opened Session
  import opened SessionKeys
  import opened World

  /** The worker's counters and its sink. What is sent is kept with the key of its session. */
  class Output {
    var counts: Stats
    var sent: seq<(string, Conversation)>
    var droppedMalformed: nat
    var droppedNoise: nat
    var closedSessions: nat
    var expiredSessions: nat

    constructor ()
      ensures counts == NO_STATS && sent == []
      ensures droppedMalformed == droppedNoise == closedSessions == expiredSessions == 0
    {
      counts, sent := NO_STATS, [];
      droppedMalformed, droppedNoise, closedSessions, expiredSessions := 0, 0, 0, 0;
    }

    method Add(key: string, emitted: seq<Conversation>, added: Stats)
      modifies this`counts, this`sent
      ensures sent == old(sent) + Tagged(key, emitted) && counts == AddStats(old(counts), added)
    {
      sent := sent + Tagged(key, emitted);
      counts := AddStats(counts, added);
    }
  }

  // ---- One more message, added to what a loop has done so far -----------------------

  lemma {:induction false} ThenOneMore<T>(soFar: Drained<T>, m: T, trimmed: nat, consumed: nat, rest: Drained<T>)
    ensures soFar.Then(Took(m, trimmed, consumed).Then(rest)) == soFar.Then(Took(m, trimmed, consumed)).Then(rest)
  {
    ThenAssociates(soFar, Took(m, trimmed, consumed), rest);
  }

  lemma {:induction false} ThenLast<T>(soFar: Drained<T>, rest: Bytes, trimmed: nat)
    ensures soFar.Then(Drained(rest, [], trimmed, 0)) == Drained(rest, soFar.messages, soFar.trimmed + trimmed, soFar.consumed)
  {
    assert soFar.messages + [] == soFar.messages;
  }

  lemma {:induction false} LoopTurn<T>(scan: Scanner<T>, d: Bytes)
    ensures var s := scan(d);
            if s.found.NotReady? then Loop(scan, d) == Drained(d[s.skipped..], [], s.skipped, 0)
            else Loop(scan, d) == Took(s.found.value, s.skipped, s.found.consumed)
                                    .Then(Loop(scan, d[s.skipped..][s.found.consumed..]))
  {
    var s := scan(d);
    if s.found.Ready? {
      assert d[s.skipped..][s.found.consumed..] == d[s.skipped + s.found.consumed..];
    }
  }

  lemma {:induction false} AnswerTurn<Q, T>(scanFor: Q -> Scanner<T>, d: Bytes, waiting: seq<Q>)
    requires |waiting| > 0
    ensures var s := scanFor(waiting[0])(d);
            var a := AnswerLoop(scanFor, d, waiting).drained;
            if s.found.NotReady? then a == Drained(d[s.skipped..], [], s.skipped, 0)
            else a == Took(s.found.value, s.skipped, s.found.consumed)
                        .Then(AnswerLoop(scanFor, d[s.skipped..][s.found.consumed..], waiting[1..]).drained)
  {
    var s := scanFor(waiting[0])(d);
    if s.found.Ready? {
      assert d[s.skipped..][s.found.consumed..] == d[s.skipped + s.found.consumed..];
    }
  }

  lemma {:induction false} QueueOneMore(before: seq<Pending>, rs: seq<Request>, r: Request, meta: Meta, loss: Loss)
    ensures before + Queue(rs + [r], meta, loss) == before + Queue(rs, meta, loss) + [Pending(r, meta, loss)]
  {
  }

  lemma {:induction false} ConverseOneMore(ps: seq<Pending>, answers: seq<Response>, r: Response, loss: Loss)
    requires |answers| < |ps|
    ensures var p := ps[|answers|];
            Converse(ps, answers + [r], loss)
              == Converse(ps, answers, loss) + [Conversation(p.req, r, p.meta, MergeLoss(p.loss, loss))]
  {
  }

  /** The response loop has answered a.messages of the requests that waited before, and the rest
      of all lies ahead. */
  ghost predicate Answering(scanFor: Request -> Scanner<Response>, all: Drained<Response>, before: seq<Pending>,
                            loss: Loss, d: Bytes, a: Drained<Response>, emitted: seq<Conversation>) {
    && |a.messages| <= |before|
    && all == a.Then(AnswerLoop(scanFor, d, Requests(before[|a.messages|..])).drained)
    && emitted == Converse(before, a.messages, loss)
  }

  lemma {:induction false} AnswerOne(scanFor: Request -> Scanner<Response>, all: Drained<Response>, before: seq<Pending>,
                                     loss: Loss, d: Bytes, a: Drained<Response>, emitted: seq<Conversation>)
    requires Answering(scanFor, all, before, loss, d, a, emitted)
    requires |a.messages| < |before| && scanFor(before[|a.messages|].req)(d).found.Ready?
    ensures var p := before[|a.messages|];
            var turn := scanFor(p.req)(d);
            var took := Took(turn.found.value, turn.skipped, turn.found.consumed);
            Answering(scanFor, all, before, loss, d[turn.skipped..][turn.found.consumed..], a.Then(took),
                      emitted + [Conversation(p.req, turn.found.value, p.meta, MergeLoss(p.loss, loss))])
  {
    var k := |a.messages|;
    var turn := scanFor(before[k].req)(d);
    var rest := d[turn.skipped..][turn.found.consumed..];
    AnswerTurn(scanFor, d, Requests(before[k..]));
    assert Requests(before[k..])[1..] == Requests(before[k + 1..]);
    ThenOneMore(a, turn.found.value, turn.skipped, turn.found.consumed, AnswerLoop(scanFor, rest, Requests(before[k + 1..])).drained);
    ConverseOneMore(before, a.messages, turn.found.value, loss);
  }

  lemma {:induction false} AnswersEnd(scanFor: Request -> Scanner<Response>, all: Drained<Response>, before: seq<Pending>,
                                      loss: Loss, d: Bytes, a: Drained<Response>, emitted: seq<Conversation>)
    requires Answering(scanFor, all, before, loss, d, a, emitted)
    requires |a.messages| == |before| || scanFor(before[|a.messages|].req)(d).found.NotReady?
    ensures var skipped := if |a.messages| == |before| then 0 else scanFor(before[|a.messages|].req)(d).skipped;
            all == Drained(d[skipped..], a.messages, a.trimmed + skipped, a.consumed)
  {
    if |a.messages| < |before| {
      AnswerTurn(scanFor, d, Requests(before[|a.messages|..]));
      ThenLast(a, d[scanFor(before[|a.messages|].req)(d).skipped..], scanFor(before[|a.messages|].req)(d).skipped);
    } else {
      ThenLast(a, d, 0);
    }
  }

  /** The two loops, one after the other, are the drain of the session. */
  lemma {:induction false} LoopsAreDrain(engine: Engine, s: Session, close: bool, r: Drained<Request>, a: Drained<Response>, now: Session)
    requires r == Loop(engine.requests, s.reqData)
    requires a == Answers(engine, s.respData, Waiting(s, r), close)
    requires now.reqData == r.rest && now.respData == a.rest && now.pending == Waiting(s, r)[|a.messages|..]
    requires now == s.(reqData := now.reqData, respData := now.respData, pending := now.pending)
    ensures DrainSession(engine, Work(s, NO_STATS, []), close)
         == Work(now, Stats(|r.messages|, |a.messages|, r.trimmed, a.trimmed), Converse(Waiting(s, r), a.messages, s.loss))
  {
    var sent := Converse(Waiting(s, r), a.messages, s.loss);
    assert [] + sent == sent;
  }

  class StreamState {
    ghost const key: string
    ghost var view: Session
    var reqData: Bytes
    var respData: Bytes
    var pending: seq<Pending>
    var lastSeq: uint32
    var hasLastSeq: bool
    var meta: Meta
    var loss: Loss
    var lastActive: nat

    /** The fields hold the session that view is. */
    ghost predicate Valid()
      reads this
    {
      view == Session(reqData, respData, pending, lastSeq, hasLastSeq, meta, loss)
    }

    constructor (now: nat, ghost key: string)
      ensures Valid() && view == FRESH && lastActive == now && this.key == key
    {
      this.key, view := key, FRESH;
      reqData, respData, pending := [], [], [];
      lastSeq, hasLastSeq, meta, loss := 0, false, NO_META, NO_LOSS;
      lastActive := now;
    }

    /** The request loop: parse until nothing complete is left at the front. A turn of the
        engine is the resynchronisation followed by the parse. */
    method ParseRequests(engine: Engine) returns (parsed: nat, trimmed: nat, ghost r: Drained<Request>)
      modifies this`reqData, this`pending
      ensures r == Loop(engine.requests, old(reqData))
      ensures reqData == r.rest && pending == old(pending) + Queue(r.messages, meta, loss)
      ensures parsed == |r.messages| && trimmed == r.trimmed
    {
      ghost var all := Loop(engine.requests, reqData);
      r := Drained([], [], 0, 0);
      ThenAfterNothing(0, [], all);
      parsed, trimmed := 0, 0;
      while true
        invariant all == r.Then(Loop(engine.requests, reqData))
        invariant pending == old(pending) + Queue(r.messages, meta, loss)
        invariant parsed == |r.messages| && trimmed == r.trimmed
        decreases |reqData|
      {
        var turn := engine.requests(reqData);
        assert Fits(reqData, turn);
        LoopTurn(engine.requests, reqData);
        reqData := reqData[turn.skipped..];
        trimmed := trimmed + turn.skipped;
        if turn.found.NotReady? {
          ThenLast(r, reqData, turn.skipped);
          r := all;
          break;
        }
        var Ready(req, consumed) := turn.found;
        parsed := parsed + 1;
        QueueOneMore(old(pending), r.messages, req, meta, loss);
        pending := pending + [Pending(req, meta, loss)];
        reqData := reqData[consumed..];
        ThenOneMore(r, req, turn.skipped, consumed, Loop(engine.requests, reqData));
        r := r.Then(Took(req, turn.skipped, consumed));
      }
    }

    /** The response loop: answer the oldest waiting request while one waits. */
    method ParseResponses(engine: Engine, close: bool)
      returns (emitted: seq<Conversation>, trimmed: nat, ghost a: Drained<Response>)
      modifies this`respData, this`pending
      ensures a == Answers(engine, old(respData), old(pending), close)
      ensures respData == a.rest && pending == old(pending)[|a.messages|..]
      ensures emitted == Converse(old(pending), a.messages, loss) && trimmed == a.trimmed
    {
      ghost var scanFor, before, all := engine.responses(close), pending, Answers(engine, respData, pending, close);
      a := Drained([], [], 0, 0);
      ThenAfterNothing(0, [], all);
      emitted, trimmed := [], 0;
      while |pending| > 0
        invariant Answering(scanFor, all, before, loss, respData, a, emitted)
        invariant pending == before[|a.messages|..] && trimmed == a.trimmed
        decreases |pending|
      {
        var first := pending[0];
        var turn := engine.responses(close)(first.req)(respData);
        assert Fits(respData, turn);
        trimmed := trimmed + turn.skipped;
        if turn.found.NotReady? {
          AnswersEnd(scanFor, all, before, loss, respData, a, emitted);
          respData := respData[turn.skipped..];
          a := all;
          return;
        }
        AnswerOne(scanFor, all, before, loss, respData, a, emitted);
        var Ready(resp, consumed) := turn.found;
        emitted := emitted + [Conversation(first.req, resp, first.meta, MergeLoss(first.loss, loss))];
        a := a.Then(Took(resp, turn.skipped, consumed));
        pending := pending[1..];
        respData := respData[turn.skipped..][consumed..];
      }
      AnswersEnd(scanFor, all, before, loss, respData, a, emitted);
      a := all;
    }

    method DrainParsedConversations(engine: Engine, close: bool) returns (emitted: seq<Conversation>, added: Stats)
      requires Valid()
      modifies this`view, this`reqData, this`respData, this`pending
      ensures Valid() && Work(view, added, emitted) == DrainSession(engine, Work(old(view), NO_STATS, []), close)
    {
      hide DrainSession;
      var parsed, trimmedReq, r := ParseRequests(engine);
      var sent, trimmedResp, a := ParseResponses(engine, close);
      emitted, added := sent, Stats(parsed, |sent|, trimmedReq, trimmedResp);
      ghost var before := view;
      view := before.(reqData := reqData, respData := respData, pending := pending);
      LoopsAreDrain(engine, before, close, r, a, view);
    }

    method MergeMetadata(e: Event, now: nat)
      requires Valid()
      modifies this`view, this`meta, this`lastActive
      ensures Valid() && view == old(view).(meta := MergeMeta(old(view).meta, e.meta)) && lastActive == now
    {
      lastActive := now;
      meta := MergeMeta(meta, e.meta);
      view := view.(meta := meta);
    }

    /** Gap detection and loss of one event. */
    method TrackSequence(e: Event)
      requires Valid()
      modifies this`view, this`loss, this`lastSeq, this`hasLastSeq
      ensures Valid() && view == Track(old(view), e)
    {
      if hasLastSeq && e.seqno > Next(lastSeq) {
        loss := loss.(sequenceGap := true, expectedNextSeq := Next(lastSeq), actualSeq := e.seqno);
      }
      if e.loss.truncated {
        loss := loss.(truncated := true, originalSize := e.loss.originalSize,
                      capturedSize := e.loss.capturedSize, reason := e.loss.reason);
      }
      if !hasLastSeq || e.seqno >= lastSeq {
        lastSeq, hasLastSeq := e.seqno, true;
      }
      view := Track(view, e);
    }

    /** Append to the buffer the event is routed to; on overflow drop that buffer and the waiting requests. */
    method AppendPayload(cfg: Config, e: Event) returns (overflow: bool)
      requires Valid()
      modifies this`view, this`reqData, this`respData, this`pending
      ensures Valid() && overflow == Overflows(cfg, old(view), e)
      ensures view == if overflow then Overflowed(old(view), e) else Append(old(view), e)
    {
      overflow := false;
      if RoutesToRequest(e) {
        reqData := reqData + Payload(e);
        if |reqData| > cfg.maxStreamBytes {
          reqData, pending := [], [];
          overflow := true;
        }
      } else {
        respData := respData + Payload(e);
        if |respData| > cfg.maxStreamBytes {
          respData, pending := [], [];
          overflow := true;
        }
      }
      view := if overflow then Overflowed(view, e) else Append(view, e);
    }

    /** The part of processEvent that holds the session's lock. */
    method ProcessPayload(cfg: Config, e: Event, now: nat) returns (emitted: seq<Conversation>, added: Stats)
      requires Valid() && CarriesBytes(e)
      modifies this
      ensures Valid() && Work(view, added, emitted) == Process(cfg, Work(old(view), NO_STATS, []), e)
      ensures lastActive == now
    {
      hide DrainSession, Track, Overflowed, Append;
      MergeMetadata(e, now);
      TrackSequence(e);
      var overflow := AppendPayload(cfg, e);
      if overflow {
        emitted, added := [], NO_STATS;
      } else {
        emitted, added := DrainParsedConversations(cfg.engine, false);
      }
    }
  }

  lemma {:induction false} PutTwice<T>(m: map<string, T>, k: string, v: T, w: T)
    ensures m[k := v][k := w] == m[k := w]
  {
  }

  lemma {:induction false} FinishIs(cfg: Config, w: World, k: string, d: Work)
    requires k in w.sessions && d == DrainSession(cfg.engine, Work(w.sessions[k], NO_STATS, []), true)
    ensures Finish(cfg, w, k) == World(w.sessions - {k}, AddStats(w.stats, d.stats), w.out + Tagged(k, d.out))
  {
  }

  /** Flushing one more session that was taken out of the store earlier. */
  lemma {:induction false} FinishNext(cfg: Config, w: World, ks: seq<string>, i: nat, d: Work)
    requires i < |ks| && ks[i] in w.sessions && ks[i] !in ks[..i]
    requires d == DrainSession(cfg.engine, Work(w.sessions[ks[i]], NO_STATS, []), true)
    ensures var before, now := FinishAll(cfg, w, ks[..i]), FinishAll(cfg, w, ks[..i + 1]);
            now.stats == AddStats(before.stats, d.stats) && now.out == before.out + Tagged(ks[i], d.out)
  {
    var before := FinishAll(cfg, w, ks[..i]);
    FinishAllSessions(cfg, w, ks[..i]);
    assert ks[..i + 1][..i] == ks[..i];
    FinishIs(cfg, before, ks[i], d);
  }

  predicate Distinct(ks: seq<string>) {
    forall i, j :: 0 <= i < j < |ks| ==> ks[i] != ks[j]
  }

  /** The entries of all under keys have been moved, in that order, and rest is what remains. */
  ghost predicate Taken<T>(all: map<string, T>, keys: seq<string>, moved: seq<T>, rest: map<string, T>) {
    && |moved| == |keys| && Distinct(keys)
    && (forall i :: 0 <= i < |keys| ==> keys[i] in all && moved[i] == all[keys[i]])
    && (forall k :: k in rest <==> k in all && k !in keys)
    && (forall k :: k in rest ==> rest[k] == all[k])
  }

  lemma {:induction false} TakenOneMore<T>(all: map<string, T>, keys: seq<string>, moved: seq<T>, rest: map<string, T>, k: string)
    requires Taken(all, keys, moved, rest) && k in rest
    ensures Taken(all, keys + [k], moved + [rest[k]], rest - {k})
  {
  }

  lemma {:induction false} ReceiveIs(cfg: Config, w: World, e: Event, d: Work)
    requires CarriesBytes(e) && d == Process(cfg, Work(GetOrFresh(w, SessionKey(e)), NO_STATS, []), e)
    ensures var k := SessionKey(e);
            Receive(cfg, w, e) == World(w.sessions[k := d.session], AddStats(w.stats, d.stats), w.out + Tagged(k, d.out))
  {
  }

  /** The second half of cleanupExpired: flush the sessions taken out of the store w, in order. */
  method FlushAll(cfg: Config, output: Output, expired: seq<StreamState>, keys: seq<string>, ghost w: World) returns (parsed: nat)
    requires |expired| == |keys| && Distinct(keys) && output.counts == w.stats && output.sent == w.out
    requires forall i :: 0 <= i < |keys| ==> FiledAs(w, keys[i], expired[i])
    modifies expired, output`counts, output`sent
    ensures output.counts == FinishAll(cfg, w, keys).stats && output.sent == FinishAll(cfg, w, keys).out
    ensures parsed == |output.sent| - |w.out|
  {
    hide DrainSession, Finish;
    parsed := 0;
    for i := 0 to |expired|
      invariant forall j :: i <= j < |keys| ==> FiledAs(w, keys[j], expired[j])
      invariant output.counts == FinishAll(cfg, w, keys[..i]).stats && output.sent == FinishAll(cfg, w, keys[..i]).out
      invariant parsed == |output.sent| - |w.out|
    {
      var emitted, added := expired[i].DrainParsedConversations(cfg.engine, true);
      output.Add(keys[i], emitted, added);
      parsed := parsed + |emitted|;
      FinishNext(cfg, w, keys, i, Work(expired[i].view, added, emitted));
    }
    assert keys[..|keys|] == keys;
  }

  ghost predicate FiledAs(w: World, key: string, s: StreamState)
    reads s
  {
    s.Valid() && s.key == key && key in w.sessions && w.sessions[key] == s.view
  }

  class SessionStore {
    var sessions: map<string, StreamState>
    ghost var objects: set<StreamState>
    ghost var views: map<string, Session>

    /** The sessions are the store's own, each is filed under its key, and views says what it holds. */
    ghost predicate Valid()
      reads this, objects
    {
      sessions.Keys == views.Keys && forall k :: k in sessions ==> Filed(k) && sessions[k].view == views[k]
    }

    ghost predicate Filed(k: string)
      requires k in sessions
      reads this, objects
    {
      sessions[k] in objects && sessions[k].key == k && sessions[k].Valid()
    }

    /** Valid but for what views says of the session that is being changed. */
    ghost predicate ValidBut(key: string)
      reads this, objects
    {
      && sessions.Keys == views.Keys
      && forall k :: k in sessions ==> Filed(k) && (k != key ==> sessions[k].view == views[k])
    }

    /** The store and the output as one value. */
    ghost function Now(output: Output): World
      reads this, output
    {
      World(views, output.counts, output.sent)
    }

    constructor ()
      ensures Valid() && views == map[] && objects == {}
    {
      sessions, objects, views := map[], {}, map[];
    }

    method GetOrCreate(key: string, now: nat) returns (s: StreamState)
      requires Valid()
      modifies this
      ensures Valid() && fresh(objects - old(objects))
      ensures key in sessions && sessions[key] == s && (key !in old(sessions) ==> s.lastActive == now)
      ensures forall k :: k in old(sessions) ==> k in sessions && sessions[k] == old(sessions)[k]
      ensures s.view == if key in old(views) then old(views)[key] else FRESH
      ensures views == if key in old(views) then old(views) else old(views)[key := FRESH]
    {
      if key in sessions {
        s := sessions[key];
      } else {
        s := new StreamState(now, key);
        sessions, objects, views := sessions[key := s], objects + {s}, views[key := FRESH];
      }
    }

    ghost method Refile(key: string)
      requires key in sessions && ValidBut(key)
      modifies this`views
      ensures Valid() && views == old(views)[key := sessions[key].view]
    {
      views := views[key := sessions[key].view];
    }

    method Remove(key: string)
      requires ValidBut(key)
      modifies this`sessions, this`views
      ensures Valid() && views == old(views) - {key}
    {
      sessions, views := sessions - {key}, views - {key};
    }

    method Flush(engine: Engine, key: string) returns (ghost d: Work, emitted: seq<Conversation>, added: Stats)
      requires Valid() && key in sessions
      modifies objects
      ensures ValidBut(key)
      ensures d == DrainSession(engine, Work(views[key], NO_STATS, []), true) && emitted == d.out && added == d.stats
    {
      emitted, added := sessions[key].DrainParsedConversations(engine, true);
      d := Work(sessions[key].view, added, emitted);
    }

    method Feed(cfg: Config, key: string, e: Event, now: nat) returns (emitted: seq<Conversation>, added: Stats)
      requires Valid() && key in sessions && CarriesBytes(e)
      modifies objects
      ensures ValidBut(key)
      ensures Work(sessions[key].view, added, emitted) == Process(cfg, Work(views[key], NO_STATS, []), e)
      ensures sessions[key].lastActive == now
      ensures forall k :: k in sessions && k != key ==> sessions[k].lastActive == old(sessions[k].lastActive)
    {
      emitted, added := sessions[key].ProcessPayload(cfg, e, now);
    }

    /** The session of a key, made if there is none, takes an event in; the others are not touched. */
    method FeedOrCreate(cfg: Config, key: string, e: Event, now: nat) returns (emitted: seq<Conversation>, added: Stats)
      requires Valid() && CarriesBytes(e)
      modifies this, objects
      ensures fresh(objects - old(objects)) && key in sessions && ValidBut(key)
      ensures views == if key in old(views) then old(views) else old(views)[key := FRESH]
      ensures Work(sessions[key].view, added, emitted) == Process(cfg, Work(views[key], NO_STATS, []), e)
      ensures sessions[key].lastActive == now
      ensures forall k :: k in old(sessions) && k != key ==> k in sessions && sessions[k].lastActive == old(sessions[k].lastActive)
    {
      hide Process, StreamState.Valid;
      var state := GetOrCreate(key, now);
      emitted, added := Feed(cfg, key, e, now);
    }

    /** The same, with the store's index brought up to date. */
    method TakeIn(cfg: Config, key: string, e: Event, now: nat, ghost w: World)
      returns (emitted: seq<Conversation>, added: Stats, ghost d: Work)
      requires Valid() && CarriesBytes(e) && views == w.sessions
      modifies this, objects
      ensures Valid() && fresh(objects - old(objects)) && views == w.sessions[key := d.session]
      ensures d == Process(cfg, Work(GetOrFresh(w, key), NO_STATS, []), e) && emitted == d.out && added == d.stats
      ensures key in sessions && sessions[key].lastActive == now
      ensures forall k :: k in old(sessions) && k != key ==> k in sessions && sessions[k].lastActive == old(sessions[k].lastActive)
    {
      hide Process, Filed, StreamState.Valid;
      emitted, added := FeedOrCreate(cfg, key, e, now);
      d := Work(sessions[key].view, added, emitted);
      PutTwice(w.sessions, key, FRESH, d.session);
      Refile(key);
    }

    /** A data event that carries bytes, in its session. */
    method ReceiveEvent(cfg: Config, output: Output, e: Event, now: nat)
      requires Valid() && CarriesBytes(e)
      modifies this, objects, output`counts, output`sent
      ensures Valid() && fresh(objects - old(objects))
      ensures Now(output) == Receive(cfg, old(Now(output)), e)
      ensures SessionKey(e) in sessions && sessions[SessionKey(e)].lastActive == now
      ensures forall k :: k in old(sessions) && k != SessionKey(e) ==> k in sessions && sessions[k].lastActive == old(sessions[k].lastActive)
    {
      hide Process, Receive, Filed, StreamState.Valid;
      ghost var before := Now(output);
      var key := SessionKey(e);
      var emitted, added, d := TakeIn(cfg, key, e, now, before);
      ReceiveIs(cfg, before, e, d);
      output.Add(key, emitted, added);
    }

    method CloseSession(engine: Engine, key: string) returns (ghost d: Work, emitted: seq<Conversation>, added: Stats)
      requires Valid() && key in sessions
      modifies this`sessions, this`views, objects
      ensures Valid() && views == old(views) - {key}
      ensures d == DrainSession(engine, Work(old(views)[key], NO_STATS, []), true) && emitted == d.out && added == d.stats
    {
      d, emitted, added := Flush(engine, key);
      Remove(key);
    }

    method HandleClose(cfg: Config, output: Output, key: string)
      requires Valid()
      modifies this`sessions, this`views, objects, output`counts, output`sent, output`closedSessions
      ensures Valid() && Now(output) == Finish(cfg, old(Now(output)), key)
      ensures output.closedSessions == old(output.closedSessions) + if key in old(sessions) then 1 else 0
    {
      hide DrainSession;
      if key in sessions {
        ghost var before := Now(output);
        var d, emitted, added := CloseSession(cfg.engine, key);
        output.Add(key, emitted, added);
        output.closedSessions := output.closedSessions + 1;
        FinishIs(cfg, before, key, d);
      }
    }

    /** The first half of cleanupExpired: take every idle session out of the map. */
    method TakeExpired(cutoff: nat) returns (expired: seq<StreamState>, keys: seq<string>)
      modifies this`sessions
      ensures Taken(old(sessions), keys, expired, sessions)
      ensures forall k :: k in old(sessions) ==> (k in keys <==> old(sessions)[k].lastActive < cutoff)
    {
      var all := sessions;
      var todo := sessions.Keys;
      expired, keys := [], [];
      while todo != {}
        invariant Taken(all, keys, expired, sessions)
        invariant todo <= sessions.Keys
        invariant forall k :: k in all && k !in todo ==> (k in keys <==> all[k].lastActive < cutoff)
        decreases |todo|
      {
        var k :| k in todo;
        todo := todo - {k};
        if sessions[k].lastActive < cutoff {
          TakenOneMore(all, keys, expired, sessions, k);
          expired, keys := expired + [sessions[k]], keys + [k];
          sessions := sessions - {k};
        }
      }
    }

    /** The same with the store's index brought up to date. */
    method TakeOut(cutoff: nat, ghost w: World) returns (expired: seq<StreamState>, keys: seq<string>)
      requires Valid() && views == w.sessions
      modifies this`sessions, this`views
      ensures Valid() && views == w.sessions - set k | k in keys
      ensures |expired| == |keys| && Distinct(keys)
      ensures forall i :: 0 <= i < |keys| ==> expired[i] in objects && FiledAs(w, keys[i], expired[i])
      ensures forall k :: k in old(sessions) ==> (k in keys <==> old(sessions)[k].lastActive < cutoff)
    {
      expired, keys := TakeExpired(cutoff);
      views := views - set k | k in keys;
    }

    /** cleanupExpired: flush every idle session once and forget it; the others stay. */
    method CleanupExpired(cfg: Config, output: Output, cutoff: nat) returns (removed: nat, parsed: nat, ghost order: seq<string>)
      requires Valid()
      modifies this`sessions, this`views, objects, output`counts, output`sent, output`expiredSessions
      ensures Valid() && Now(output) == FinishAll(cfg, old(Now(output)), order)
      ensures Distinct(order) && removed == |order| && output.expiredSessions == old(output.expiredSessions) + removed
      ensures forall k :: k in old(sessions) ==> (k in order <==> old(sessions[k].lastActive) < cutoff)
      ensures parsed == |output.sent| - |old(output.sent)|
    {
      hide Finish, FinishAll, AddStats, StreamState.Valid;
      ghost var before := Now(output);
      var expired, keys := TakeOut(cutoff, before);
      order := keys;
      parsed := FlushAll(cfg, output, expired, keys, before);
      assert forall k :: k in sessions ==> sessions[k] !in expired && Filed(k);
      removed := |expired|;
      output.expiredSessions := output.expiredSessions + removed;
      FinishAllSessions(cfg, before, keys);
    }

    /** processEvent: the store and the output become what the value model says. */
    method ProcessEvent(cfg: Config, output: Output, e: Event, now: nat)
      requires Valid()
      modifies this, objects, output
      ensures Valid() && fresh(objects - old(objects))
      ensures Now(output) == Act(cfg, old(Now(output)), Arrive(e))
      ensures CarriesBytes(e) ==> SessionKey(e) in sessions && sessions[SessionKey(e)].lastActive == now
      ensures CarriesBytes(e) ==>
                forall k :: k in old(sessions) && k != SessionKey(e) ==> k in sessions && sessions[k].lastActive == old(sessions[k].lastActive)
      ensures output.droppedMalformed == old(output.droppedMalformed) + if e.eventType == OtherEvent then 1 else 0
      ensures output.droppedNoise == old(output.droppedNoise) + if e.eventType == DataEvent && !CarriesBytes(e) then 1 else 0
    {
      if e.eventType == CloseEvent {
        HandleClose(cfg, output, SessionKey(e));
      } else if e.eventType != DataEvent {
        output.droppedMalformed := output.droppedMalformed + 1;
      } else if e.size == 0 || |e.payload| == 0 || IsCounterNoise(Payload(e)) {
        output.droppedNoise := output.droppedNoise + 1;
      } else {
        ReceiveEvent(cfg, output, e, now);
      }
    }
  }
}
