/** The flow decision cache of the agent (cmd/agent/metadata.go): what a cached answer means, and why
    cleaning the cache never changes an answer. allow and update are taken as atomic. */
module FlowFilter {
  import opened Wrappers
  import opened HttpTokens

  const SNIFF_WINDOW: nat := 64
  const CLEANUP_SIZE: nat := 65536
  const MARKERS: seq<Bytes> := METHODS + STATUS

  datatype Connection = Connection(protocol: string, srcPort: int, dstPort: int, role: string)
  datatype Key = Key(pid: nat, fd: nat, generation: nat)
  datatype Event = Event(key: Key, isData: bool, connection: Connection, payload: Bytes)

  datatype Policy = Policy(targetPorts: set<int>, ignorePorts: set<int>, captureInbound: bool, captureOutbound: bool)

  datatype Entry = Entry(allow: bool, expiresAt: int)

  // ---- The simple specification -----------------------------------------------------------

  predicate MatchesAny(ports: set<int>, c: Connection) {
    c.srcPort in ports || c.dstPort in ports
  }

  /** connectionAllowed. */
  predicate Accepts(p: Policy, c: Connection) {
    && !MatchesAny(p.ignorePorts, c)
    && (c.role == "inbound" ==> p.captureInbound)
    && (c.role == "outbound" ==> p.captureOutbound)
    && (p.targetPorts == {} || MatchesAny(p.targetPorts, c))
  }

  /** A marker anywhere in the first 64 bytes. */
  predicate LooksLikeHttp(payload: Bytes) {
    First(MARKERS, if |payload| > SNIFF_WINDOW then payload[..SNIFF_WINDOW] else payload) >= 0
  }

  predicate Resolved(e: Event, metadataOK: bool) {
    metadataOK && e.connection.protocol != ""
  }

  /** What the policy says of one event; nothing of an unresolved one that shows no HTTP. */
  function Decide(p: Policy, e: Event, metadataOK: bool): Option<bool> {
    if Resolved(e, metadataOK) then Some(Accepts(p, e.connection))
    else if e.isData && LooksLikeHttp(e.payload) then Some(true)
    else None
  }

  type Flows = map<Key, Entry>

  function Live(flows: Flows, key: Key, now: int): Option<Entry> {
    if key in flows && now <= flows[key].expiresAt then Some(flows[key]) else None
  }

  /** The filter with a cache that is never cleaned. */
  datatype Spec = Spec(policy: Policy, ttl: int, flows: Flows)

  datatype Answer = Answer(allow: bool, after: Spec)

  function Ask(s: Spec, e: Event, metadataOK: bool, now: int): Answer {
    match Live(s.flows, e.key, now)
    case Some(entry) => Answer(entry.allow, s)
    case None =>
      match Decide(s.policy, e, metadataOK)
      case Some(d) => Answer(d, s.(flows := s.flows[e.key := Entry(d, now + s.ttl)]))
      case None => Answer(false, s)
  }

  datatype Action = Allow(e: Event, metadataOK: bool, now: int) | Update(policy: Policy)

  function Act(s: Spec, a: Action): Spec {
    match a
    case Allow(e, metadataOK, now) => Ask(s, e, metadataOK, now).after
    case Update(policy) => s.(policy := policy, flows := map[])
  }

  function Run(start: Spec, acts: seq<Action>): Spec {
    if |acts| == 0 then start else Act(Run(start, acts[..|acts| - 1]), acts[|acts| - 1])
  }

  // ---- What an answer means -------------------------------------------------------------------

  /** Call j asked about key, no update came after it, and entry is what the present policy says of
      what j saw. */
  predicate CameFrom(p: Policy, ttl: int, acts: seq<Action>, key: Key, entry: Entry, j: nat) {
    && j < |acts| && acts[j].Allow? && acts[j].e.key == key
    && (forall k :: j < k < |acts| ==> !acts[k].Update?)
    && Decide(p, acts[j].e, acts[j].metadataOK) == Some(entry.allow)
    && entry.expiresAt == acts[j].now + ttl
  }

  lemma {:induction false} CachedCameFrom(policy: Policy, ttl: int, acts: seq<Action>, key: Key) returns (j: nat)
    requires key in Run(Spec(policy, ttl, map[]), acts).flows
    ensures var s := Run(Spec(policy, ttl, map[]), acts); CameFrom(s.policy, ttl, acts, key, s.flows[key], j)
    ensures Run(Spec(policy, ttl, map[]), acts).ttl == ttl
    decreases |acts|
  {
    hide Decide, Live;
    var front, a := acts[..|acts| - 1], acts[|acts| - 1];
    var before, after := Run(Spec(policy, ttl, map[]), front), Run(Spec(policy, ttl, map[]), acts);
    TtlStays(Spec(policy, ttl, map[]), front);
    if key in before.flows && before.flows[key] == after.flows[key] && a.Allow? {
      j := CachedCameFrom(policy, ttl, front, key);
      assert CameFrom(before.policy, ttl, acts, key, before.flows[key], j);
    } else {
      j := |acts| - 1;
    }
  }

  lemma {:induction false} TtlStays(start: Spec, acts: seq<Action>)
    ensures Run(start, acts).ttl == start.ttl
    decreases |acts|
  {
    if |acts| > 0 {
      TtlStays(start, acts[..|acts| - 1]);
    }
  }

  /** Every answer is the present policy's word on an event of that flow: this one, or an earlier one
      no older than the time to live with no update since. A denial from the cache is a rejection by
      the present policy, an acceptance from it an acceptance by the policy or an HTTP-looking chunk;
      no answer at all counts as no. */
  lemma {:induction false} AnswersFollowPolicy(policy: Policy, ttl: int, acts: seq<Action>, e: Event, metadataOK: bool, now: int)
    ensures var s := Run(Spec(policy, ttl, map[]), acts);
            var answer := Ask(s, e, metadataOK, now).allow;
            || (Live(s.flows, e.key, now) == None && answer == (Decide(s.policy, e, metadataOK) == Some(true)))
            || exists j :: 0 <= j < |acts| && acts[j].Allow? && acts[j].e.key == e.key && now <= acts[j].now + ttl
                 && (forall k :: j < k < |acts| ==> !acts[k].Update?)
                 && (if Resolved(acts[j].e, acts[j].metadataOK) then answer == Accepts(s.policy, acts[j].e.connection)
                     else answer && acts[j].e.isData && LooksLikeHttp(acts[j].e.payload))
  {
    hide Accepts, LooksLikeHttp, Resolved;
    var s := Run(Spec(policy, ttl, map[]), acts);
    if Live(s.flows, e.key, now).Some? {
      var j := CachedCameFrom(policy, ttl, acts, e.key);
    }
  }

  // ---- What the policy accepts -----------------------------------------------------------------

  /** A flow that is asked about for the first time, or again after its answer has expired, by an event whose
      connection is known. */
  predicate Fresh(s: Spec, e: Event, now: int) {
    Live(s.flows, e.key, now) == None && Resolved(e, true)
  }

  /** The answer to such an event. */
  predicate Says(s: Spec, e: Event, now: int) {
    Ask(s, e, true, now).allow
  }

  /** Each direction has its own switch: off, it denies; and it says nothing about the other direction, or about
      a connection of which no direction is known. */
  lemma {:induction false} SwitchesAreSeparate(s: Spec, e: Event, now: int, flag: bool)
    requires Fresh(s, e, now)
    ensures var inboundSet, outboundSet := s.(policy := s.policy.(captureInbound := flag)), s.(policy := s.policy.(captureOutbound := flag));
            && (e.connection.role == "inbound" && !s.policy.captureInbound ==> !Says(s, e, now))
            && (e.connection.role == "outbound" && !s.policy.captureOutbound ==> !Says(s, e, now))
            && (e.connection.role != "inbound" ==> Says(inboundSet, e, now) == Says(s, e, now))
            && (e.connection.role != "outbound" ==> Says(outboundSet, e, now) == Says(s, e, now))
  {
  }

  /** A connection on an ignored port, at either end, is denied whatever else holds. */
  lemma {:induction false} IgnoredPortsDeny(s: Spec, e: Event, now: int)
    requires Fresh(s, e, now) && (e.connection.srcPort in s.policy.ignorePorts || e.connection.dstPort in s.policy.ignorePorts)
    ensures !Says(s, e, now)
  {
  }

  /** With both directions on and nothing ignored, the target ports decide: without any, all connections are
      accepted, and with some, those with a target port at either end. */
  lemma {:induction false} TargetPortsDecide(s: Spec, e: Event, now: int)
    requires Fresh(s, e, now) && s.policy.captureInbound && s.policy.captureOutbound
    requires e.connection.srcPort !in s.policy.ignorePorts && e.connection.dstPort !in s.policy.ignorePorts
    ensures s.policy.targetPorts == {} ==> Says(s, e, now)
    ensures s.policy.targetPorts != {} ==>
              (Says(s, e, now) <==> e.connection.srcPort in s.policy.targetPorts || e.connection.dstPort in s.policy.targetPorts)
  {
  }

  /** More targets where there are some, fewer ignored ports, or a direction switched on, deny nothing that was
      accepted. */
  lemma {:induction false} WiderPolicyAcceptsMore(p: Policy, q: Policy, c: Connection)
    requires Accepts(p, c) && q.ignorePorts <= p.ignorePorts
    requires (p.captureInbound ==> q.captureInbound) && (p.captureOutbound ==> q.captureOutbound)
    requires q.targetPorts == {} || (p.targetPorts != {} && p.targetPorts <= q.targetPorts)
    ensures Accepts(q, c)
  {
  }

  /** Without a known connection only a data event counts, and only one that shows a method or a status line
      whole within its first 64 bytes. */
  lemma {:induction false} UnresolvedNeedsHttp(s: Spec, e: Event, metadataOK: bool, now: int)
    requires Live(s.flows, e.key, now) == None && !Resolved(e, metadataOK)
    ensures Ask(s, e, metadataOK, now).allow
       <==> e.isData && exists i: nat, k: nat :: k < |MARKERS| && i + |MARKERS[k]| <= 64 && At(e.payload, i, MARKERS[k])
  {
    hide First, At;
    var seen := if |e.payload| > SNIFF_WINDOW then e.payload[..SNIFF_WINDOW] else e.payload;
    ShowsMarker(seen);
    forall i: nat, k: nat | k < |MARKERS|
      ensures At(seen, i, MARKERS[k]) <==> i + |MARKERS[k]| <= SNIFF_WINDOW && At(e.payload, i, MARKERS[k])
    {
      SeenAt(e.payload, i, MARKERS[k]);
    }
  }

  lemma {:induction false} ShowsMarker(d: Bytes)
    ensures First(MARKERS, d) >= 0 <==> exists i: nat, k: nat :: k < |MARKERS| && At(d, i, MARKERS[k])
  {
    hide At;
    if First(MARKERS, d) >= 0 {
      assert MarkAt(MARKERS, d, First(MARKERS, d));
    }
    if i: nat, k: nat :| k < |MARKERS| && At(d, i, MARKERS[k]) {
      assert MarkAt(MARKERS, d, i);
      AtIsInside(d, i, MARKERS[k]);
    }
  }

  lemma {:induction false} AtIsInside(d: Bytes, i: nat, tok: Bytes)
    requires At(d, i, tok)
    ensures i <= |d|
  {
  }

  lemma {:induction false} SeenAt(d: Bytes, i: nat, tok: Bytes)
    ensures var seen := if |d| > SNIFF_WINDOW then d[..SNIFF_WINDOW] else d;
            At(seen, i, tok) <==> i + |tok| <= SNIFF_WINDOW && At(d, i, tok)
  {
    if |d| > SNIFF_WINDOW && i + |tok| <= SNIFF_WINDOW {
      assert d[..SNIFF_WINDOW][i..i + |tok|] == d[i..i + |tok|];
    }
  }

  /** A decision is given again to every event of its flow up to the last moment of its time to live, whatever that
      event shows, and after it the event is judged afresh; what could not be decided is not remembered. */
  lemma {:induction false} DecisionsAreRemembered(s: Spec, e: Event, metadataOK: bool, now: int, f: Event, otherOK: bool, later: int)
    requires Live(s.flows, e.key, now) == None && f.key == e.key
    ensures var d, a := Decide(s.policy, e, metadataOK), Ask(s, e, metadataOK, now);
            && (d.None? ==> a == Answer(false, s))
            && (d.Some? ==> a.allow == d.value)
            && (d.Some? && later <= now + s.ttl ==> Ask(a.after, f, otherOK, later) == Answer(d.value, a.after))
            && (d.Some? && later > now + s.ttl ==> Ask(a.after, f, otherOK, later).allow == (Decide(s.policy, f, otherOK) == Some(true)))
  {
    hide Decide;
  }

  /** Asking about one flow changes nothing for another. */
  lemma {:induction false} FlowsAreSeparate(s: Spec, e: Event, metadataOK: bool, now: int, f: Event, otherOK: bool, later: int)
    requires f.key != e.key
    ensures Ask(Ask(s, e, metadataOK, now).after, f, otherOK, later).allow == Ask(s, f, otherOK, later).allow
  {
    hide Decide;
  }

  // ---- The cache that is cleaned ------------------------------------------------------------------

  /** From now on, the two maps give every lookup the same answer. */
  ghost predicate SameFrom(a: Flows, b: Flows, now: int) {
    forall key, later :: now <= later ==> Live(a, key, later) == Live(b, key, later)
  }

  lemma {:induction false} SameAfterPut(a: Flows, b: Flows, now: int, key: Key, entry: Entry)
    requires SameFrom(a, b, now)
    ensures SameFrom(a[key := entry], b[key := entry], now)
  {
    var a', b' := a[key := entry], b[key := entry];
    forall k, later | now <= later ensures Live(a', k, later) == Live(b', k, later) {
      assert Live(a, k, later) == Live(b, k, later);
    }
  }

  /** Entries that have expired may go. */
  lemma {:induction false} SameAfterDrop(a: Flows, b: Flows, now: int, dropped: Flows)
    requires SameFrom(a, b, now)
    requires forall k :: k in dropped ==> k in a && dropped[k] == a[k]
    requires forall k :: k in a && k !in dropped ==> now > a[k].expiresAt
    ensures SameFrom(dropped, b, now)
  {
    forall k, later | now <= later ensures Live(dropped, k, later) == Live(b, k, later) {
      assert Live(a, k, later) == Live(b, k, later);
    }
  }

  class Filter {
    var flows: Flows
    var policy: Policy
    const ttl: int
    ghost var spec: Spec
    ghost var clock: int

    /** The filter answers from now on as the specification would. */
    ghost predicate Valid()
      reads this
    {
      spec.policy == policy && spec.ttl == ttl && SameFrom(flows, spec.flows, clock)
    }

    constructor (ttl: int, policy: Policy, ghost now: int)
      ensures Valid() && spec == Spec(policy, ttl, map[]) && clock == now
    {
      var empty: Flows := map[];
      this.ttl, this.policy, flows := ttl, policy, empty;
      spec, clock := Spec(policy, ttl, empty), now;
    }

    /** Below the size limit nothing happens; above it, expired entries go. */
    method Cleanup(now: int)
      modifies this`flows
      ensures forall k :: k in flows ==> k in old(flows) && flows[k] == old(flows)[k]
      ensures forall k :: k in old(flows) && k !in flows ==> now > old(flows)[k].expiresAt
      ensures |old(flows)| < 65536 ==> flows == old(flows)
      ensures |old(flows)| >= 65536 ==> forall k :: k in flows ==> now <= flows[k].expiresAt
    {
      if |flows| < CLEANUP_SIZE {
        return;
      }
      var todo := flows.Keys;
      while todo != {}
        invariant todo <= flows.Keys
        invariant forall k :: k in flows ==> k in old(flows) && flows[k] == old(flows)[k]
        invariant forall k :: k in old(flows) && k !in flows ==> now > old(flows)[k].expiresAt
        invariant forall k :: k in flows && k !in todo ==> now <= flows[k].expiresAt
        decreases |todo|
      {
        var key :| key in todo;
        todo := todo - {key};
        if now > flows[key].expiresAt {
          flows := flows - {key};
        }
      }
    }

    method Lookup(key: Key, now: int) returns (found: Option<bool>)
      requires Valid() && clock <= now
      modifies this`flows, this`clock
      ensures Valid() && clock == now
      ensures found == match Live(spec.flows, key, now) case None => None case Some(entry) => Some(entry.allow)
    {
      clock := now;
      assert Live(flows, key, now) == Live(spec.flows, key, now);
      if key !in flows {
        found := None;
        Cleanup(now);
        SameAfterDrop(old(flows), spec.flows, now, flows);
      } else if now > flows[key].expiresAt {
        found := None;
        flows := flows - {key};
        Cleanup(now);
        SameAfterDrop(old(flows), spec.flows, now, flows);
      } else {
        found := Some(flows[key].allow);
      }
    }

    method Remember(key: Key, allow: bool, now: int)
      requires Valid() && clock == now
      modifies this`flows, this`spec
      ensures Valid() && spec == old(spec).(flows := old(spec).flows[key := Entry(allow, now + ttl)])
    {
      var put := Entry(allow, now + ttl);
      SameAfterPut(flows, spec.flows, now, key, put);
      flows := flows[key := put];
      spec := spec.(flows := spec.flows[key := put]);
      label Put:
      Cleanup(now);
      SameAfterDrop(old@Put(flows), spec.flows, now, flows);
    }

    /** allow: the answer, and all later ones, are those of the filter whose cache is never cleaned. */
    method Allow(e: Event, metadataOK: bool, now: int) returns (ok: bool)
      requires Valid() && clock <= now
      modifies this`flows, this`spec, this`clock
      ensures Valid() && clock == now
      ensures var answer := Ask(old(spec), e, metadataOK, now); ok == answer.allow && spec == answer.after
    {
      hide SameFrom, LooksLikeHttp;
      var found := Lookup(e.key, now);
      if found.Some? {
        return found.value;
      }
      if metadataOK && e.connection.protocol != "" {
        ok := ConnectionAllowed(e.connection);
        Remember(e.key, ok, now);
      } else if e.isData && LooksLikeHttp(e.payload) {
        ok := true;
        Remember(e.key, true, now);
      } else {
        ok := false;
      }
    }

    /** connectionAllowed, in the source's order of tests. */
    method ConnectionAllowed(c: Connection) returns (ok: bool)
      ensures ok == Accepts(policy, c)
    {
      if MatchesAny(policy.ignorePorts, c) {
        return false;
      }
      if c.role == "inbound" && !policy.captureInbound {
        return false;
      }
      if c.role == "outbound" && !policy.captureOutbound {
        return false;
      }
      if |policy.targetPorts| == 0 {
        return true;
      }
      return MatchesAny(policy.targetPorts, c);
    }

    /** update: a new policy starts with nothing cached. */
    method UpdatePolicy(policy: Policy)
      requires Valid()
      modifies this`flows, this`policy, this`spec
      ensures Valid() && spec == Act(old(spec), Update(policy))
    {
      var empty: Flows := map[];
      this.policy, flows := policy, empty;
      spec := Act(spec, Update(policy));
    }
  }
}
