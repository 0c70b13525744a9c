/** The capture binary's session object and the methods that change it
    (cmd/karaxys-capture/process.go and h2.go). The fields it shares with the worker's session are
    a StreamState of their own. */
module CaptureWorker {
  import opened HttpTokens
  import opened Session
  import opened Capture
  import opened Worker
  import H = Http2

  /** A listing of a map, each key once, in whatever order the map was iterated. */
  ghost predicate Lists<K, V>(l: seq<(K, V)>, m: map<K, V>) {
    && (forall i :: 0 <= i < |l| ==> l[i].0 in m && m[l[i].0] == l[i].1)
    && (forall i, j :: 0 <= i < j < |l| ==> l[i].0 != l[j].0)
    && |l| == |m|
  }

  lemma {:induction false} ListsOneMore<K, V>(l: seq<(K, V)>, m: map<K, V>, k: K, v: V)
    requires Lists(l, m) && k !in m
    ensures Lists(l + [(k, v)], m[k := v])
  {
  }

  /** What one pass over the streams map finds to emit. */
  function DueIn(streams: map<nat, H.Stream>, emitted: set<nat>): map<nat, H.Exchange> {
    map id | id in streams && H.IsComplete(streams[id]) && id !in emitted :: H.Exchange(streams[id].request, streams[id].response)
  }

  lemma {:induction false} DueInIsDue(streams: map<nat, H.Stream>, codec: H.Codec, req: Bytes, resp: Bytes, emitted: set<nat>)
    requires H.Shows(streams, H.Sides(codec, H.Frames(codec, req)), H.Sides(codec, H.Frames(codec, resp)))
    ensures DueIn(streams, emitted) == Due(codec, req, resp, emitted)
  {
  }

  /** The streams already passed have been emitted if they were due. */
  ghost predicate Passed(due: map<nat, H.Exchange>, done: map<nat, H.Exchange>, todo: set<nat>) {
    forall id :: (id in done <==> id in due && id !in todo) && (id in done ==> done[id] == due[id])
  }

  /** The session alone, before it has said anything. */
  function Only(s: Stream): State {
    State(s, NO_STATS, [], [])
  }

  /** What came out is what the value model says: conversations, complete streams, counters. */
  ghost predicate Said(d: State, out: seq<Conversation>, sent: seq<(nat, H.Exchange)>, added: Stats) {
    d.out == out && d.stats == added && Lists(sent, if |d.batches| == 0 then map[] else d.batches[0].due)
  }

  lemma {:induction false} DrainH2Says(codec: H.Codec, s: Stream, sent: seq<(nat, H.Exchange)>)
    requires Lists(sent, Due(codec, WithoutPreface(s.core.reqData), WithoutPreface(s.core.respData), s.emitted))
    ensures Said(DrainH2(codec, Only(s)), [], sent, NO_STATS.(parsed := |sent|))
  {
  }

  /** What is sent: the streams that a frame of each buffer ends and that were not sent before, each with what
      the request buffer carries on it as its request and what the response buffer carries as its response. */
  ghost predicate SentRight(codec: H.Codec, req: Bytes, resp: Bytes, emitted: set<nat>, sent: seq<(nat, H.Exchange)>) {
    var fs, gs := H.Frames(codec, req), H.Frames(codec, resp);
    && (forall k :: 0 <= k < |sent| ==> H.IsExchange(codec, fs, gs, sent[k].0, sent[k].1))
    && (forall id :: (exists k :: 0 <= k < |sent| && sent[k].0 == id) <==> id !in emitted && H.Ended(codec, fs, id) && H.Ended(codec, gs, id))
  }

  lemma {:induction false} ListedAreRight(codec: H.Codec, req: Bytes, resp: Bytes, emitted: set<nat>, sent: seq<(nat, H.Exchange)>)
    requires Lists(sent, Due(codec, req, resp, emitted))
    ensures SentRight(codec, req, resp, emitted, sent)
  {
    hide H.Frames, H.Complete, H.Ended, H.IsExchange, Lists;
    var due := Due(codec, req, resp, emitted);
    forall id ensures id in due <==> id !in emitted && H.Ended(codec, H.Frames(codec, req), id) && H.Ended(codec, H.Frames(codec, resp), id) {
      H.CompleteIsOwnFrames(codec, req, resp, id);
    }
    ListsAll(sent, due);
    forall k | 0 <= k < |sent| ensures H.IsExchange(codec, H.Frames(codec, req), H.Frames(codec, resp), sent[k].0, sent[k].1) {
      H.CompleteIsOwnFrames(codec, req, resp, sent[k].0);
    }
  }

  /** Every key is listed: the list is as long as the map and repeats none. */
  lemma {:induction false} ListsAll<K(!new), V>(l: seq<(K, V)>, m: map<K, V>)
    requires Lists(l, m)
    ensures forall k :: 0 <= k < |l| ==> l[k].0 in m && m[l[k].0] == l[k].1
    ensures forall id :: id in m <==> exists k :: 0 <= k < |l| && l[k].0 == id
  {
    KeysCount(l);
    EqualSets(Keys(l), m.Keys);
    assert forall k :: 0 <= k < |l| ==> l[k].0 in Keys(l);
  }

  function Keys<K, V>(l: seq<(K, V)>): set<K> {
    set i | 0 <= i < |l| :: l[i].0
  }

  lemma {:induction false} KeysCount<K, V>(l: seq<(K, V)>)
    requires forall i, j :: 0 <= i < j < |l| ==> l[i].0 != l[j].0
    ensures |Keys(l)| == |l|
    decreases |l|
  {
    if |l| > 0 {
      var n := |l| - 1;
      KeysCount(l[..n]);
      assert Keys(l) == Keys(l[..n]) + {l[n].0};
    }
  }

  lemma {:induction false} EqualSets<K>(a: set<K>, b: set<K>)
    requires a <= b && |a| == |b|
    ensures a == b
  {
    assert |b - a| == |b| - |a|;
  }

  lemma {:induction false} PassedOneMore(due: map<nat, H.Exchange>, done: map<nat, H.Exchange>, todo: set<nat>, id: nat)
    requires Passed(due, done, todo) && id in todo
    ensures id !in done
    ensures Passed(due, if id in due then done[id := due[id]] else done, todo - {id})
  {
  }

  lemma {:induction false} PassedAll(due: map<nat, H.Exchange>, done: map<nat, H.Exchange>)
    requires Passed(due, done, {})
    ensures done == due
  {
  }

  class CaptureState {
    const core: StreamState
    var ssl: bool
    var h2: bool
    var emitted: set<nat>

    ghost predicate Valid()
      reads this, core
    {
      core.Valid()
    }

    ghost function View(): Stream
      reads this, core
    {
      Stream(core.view, ssl, h2, emitted)
    }

    constructor (now: nat, ghost key: string)
      ensures Valid() && fresh(core) && View() == START.stream
    {
      core := new StreamState(now, key);
      ssl, h2, emitted := false, false, {};
    }

    /** drainH2: strip a preface, parse both buffers afresh, emit what is newly complete. */
    method DrainStreams(codec: H.Codec) returns (sent: seq<(nat, H.Exchange)>, ghost due: map<nat, H.Exchange>)
      requires Valid()
      modifies this`emitted, core`view, core`reqData, core`respData
      ensures var req, resp := WithoutPreface(old(core.view).reqData), WithoutPreface(old(core.view).respData);
              && due == Due(codec, req, resp, old(emitted)) && Lists(sent, due)
              && Valid() && View() == Stream(old(core.view).(reqData := req, respData := resp), ssl, h2, old(emitted) + due.Keys)
              && SentRight(codec, req, resp, old(emitted), sent)
    {
      hide SentRight, H.Sides, H.Frames, H.Complete, WithoutPreface, Lists, DueIn;
      core.reqData := WithoutPreface(core.reqData);
      core.respData := WithoutPreface(core.respData);
      ghost var s := H.Sides(codec, H.Frames(codec, core.respData));
      var half := H.ParseFrames(codec, core.respData, map[], false, map[]);
      var streams := H.ParseFrames(codec, core.reqData, half, true, s);
      due := Due(codec, core.reqData, core.respData, emitted);
      DueInIsDue(streams, codec, core.reqData, core.respData, emitted);
      sent := EmitComplete(streams);
      ListedAreRight(codec, core.reqData, core.respData, old(emitted), sent);
      core.view := core.view.(reqData := core.reqData, respData := core.respData);
    }

    /** The loop of drainH2 over the streams map, whose order is unspecified. */
    method EmitComplete(streams: map<nat, H.Stream>) returns (sent: seq<(nat, H.Exchange)>)
      modifies this`emitted
      ensures Lists(sent, DueIn(streams, old(emitted))) && emitted == old(emitted) + DueIn(streams, old(emitted)).Keys
      ensures forall k :: 0 <= k < |sent| ==>
                var (id, x) := sent[k];
                && id in streams && id !in old(emitted) && streams[id].request.done && streams[id].response.done
                && x.request == streams[id].request && x.response == streams[id].response
    {
      ghost var due, done: map<nat, H.Exchange> := DueIn(streams, emitted), map[];
      var todo := streams.Keys;
      sent := [];
      assert Passed(due, done, todo) && Lists(sent, done);
      hide Passed, Lists;
      while todo != {}
        invariant todo <= streams.Keys && Passed(due, done, todo) && Lists(sent, done)
        invariant forall id :: id in emitted <==> id in old(emitted) || id in done
        decreases |todo|
      {
        var id :| id in todo;
        PassedOneMore(due, done, todo, id);
        todo := todo - {id};
        var stream := streams[id];
        if H.IsComplete(stream) && id !in emitted {
          var exchange := H.Exchange(stream.request, stream.response);
          ListsOneMore(sent, done, id, exchange);
          sent := sent + [(id, exchange)];
          done := done[id := exchange];
          emitted := emitted + {id};
        }
      }
      PassedAll(due, done);
      ListsAll(sent, done);
    }

    method DrainStream(cfg: CaptureConfig, close: bool)
      returns (out: seq<Conversation>, sent: seq<(nat, H.Exchange)>, added: Stats, ghost d: State)
      requires Valid()
      modifies this`emitted, core`view, core`reqData, core`respData, core`pending
      ensures Valid() && d == Capture.DrainStream(cfg, Only(old(View())), close)
      ensures View() == d.stream && Said(d, out, sent, added)
    {
      hide DrainSession, Due;
      out, sent, added := [], [], NO_STATS;
      d := Capture.DrainStream(cfg, Only(View()), close);
      if h2 {
        ghost var before := View();
        ghost var due;
        sent, due := DrainStreams(cfg.codec);
        added := NO_STATS.(parsed := |sent|);
        DrainH2Says(cfg.codec, before, sent);
      } else if !IsPrefaceCandidate(core.reqData) {
        out, added := core.DrainParsedConversations(cfg.base.engine, close);
      }
    }

    /** The part of processEvent that holds the session's lock. */
    method ProcessPayload(cfg: CaptureConfig, e: Event, now: nat)
      returns (out: seq<Conversation>, sent: seq<(nat, H.Exchange)>, added: Stats, ghost d: State)
      requires Valid() && CarriesBytes(e)
      modifies this, core
      ensures Valid() && d == Capture.Process(cfg, Only(old(View())), e)
      ensures View() == d.stream && Said(d, out, sent, added)
    {
      hide Capture.DrainStream, Overflowed, Append, Track;
      out, sent, added := [], [], NO_STATS;
      d := Capture.Process(cfg, Only(View()), e);
      core.MergeMetadata(e, now);
      if e.ssl && !ssl {
        core.reqData, core.respData, core.pending := [], [], [];
        core.view := core.view.(reqData := [], respData := [], pending := []);
        ssl, h2, emitted := true, false, {};
      }
      if ssl != e.ssl {
        return;
      }
      core.TrackSequence(e);
      var overflow := core.AppendPayload(cfg.base, e);
      if overflow {
        return;
      }
      if !h2 {
        h2 := HasPreface(core.reqData) || HasPreface(core.respData);
      }
      out, sent, added, d := DrainStream(cfg, false);
    }
  }
}
