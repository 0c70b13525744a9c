/** How much of a buffer reaches user space, and whether user space can tell: chunk planning and
    clamping in the tracer (bpf/tracer.bpf.c), truncation marking in the agent (cmd/agent/main.go). */
module Chunks {
  import opened Wrappers
  import opened Words

  const CHUNK: nat := 4096
  const MAX_CHUNKS: nat := 4
  const MAX_TOTAL: nat := 16384
  const MAX_SEGMENTS: nat := 6
  const TWO16: nat := 0x1_0000
  const TWO64: nat := 0x1_0000_0000_0000_0000

  type uint64 = x: nat | x < TWO64

  /** Narrowing to 32 bits. */
  function U32(x: uint64): uint32 {
    x % TWO32
  }

  /** Without a setting the limit is one chunk; zero and anything too large mean the most there is. */
  function EffectiveMax(setting: Option<uint32>): (m: uint32)
    ensures 0 < m <= MAX_TOTAL
    ensures setting.Some? && 0 < setting.value <= MAX_TOTAL ==> m == setting.value
    ensures setting == None ==> m == 4096
    ensures setting == Some(0) || (setting.Some? && setting.value > 4 * 4096) ==> m == 4 * 4096
  {
    var m := if setting.Some? then setting.value else CHUNK;
    if m == 0 || m > MAX_TOTAL then MAX_TOTAL else m
  }

  /** clamp_payload_len: masking with 4095 is the remainder by 4096. */
  function Clamp(len: uint32): (n: uint32)
    ensures n == Min(len, CHUNK - 1)
  {
    (if len >= CHUNK then CHUNK - 1 else len) % CHUNK
  }

  /** An event: where its bytes start in the source, how many were planned and how many it
      carries, and what it says about the whole. */
  datatype Event = Event(offset: nat, planned: uint32, carried: uint32, original: uint32, index: nat, count: nat)

  /** The agent's marking of an event. */
  predicate Truncated(e: Event) {
    (if e.original == 0 then e.carried else e.original) > e.carried
  }

  // ---- One buffer -----------------------------------------------------------------------

  /** The planned pieces cover [0, total) without gap or overlap, in order. */
  predicate Tiles(es: seq<Event>, total: nat) {
    && (|es| == 0 <==> total == 0)
    && (forall i :: 0 <= i < |es| ==> es[i].planned > 0 && es[i].offset == i * CHUNK)
    && (forall i :: 0 <= i < |es| - 1 ==> es[i].offset + es[i].planned == es[i + 1].offset)
    && (|es| > 0 ==> es[|es| - 1].offset + es[|es| - 1].planned == total)
  }

  lemma {:induction false} ChunkCount(size: nat)
    requires 0 < size <= MAX_TOTAL
    ensures var n := (size + CHUNK - 1) / CHUNK; 1 <= n <= MAX_CHUNKS && (n - 1) * CHUNK < size <= n * CHUNK
  {
  }

  /** emit_data_event, up to what may lose a chunk afterwards. */
  method PlanChunks(setting: Option<uint32>, count: uint32, original: uint32) returns (es: seq<Event>)
    ensures Tiles(es, Min(count, EffectiveMax(setting)))
    ensures |es| <= MAX_CHUNKS
    ensures forall i :: 0 <= i < |es| ==>
              && es[i].carried == Min(es[i].planned, CHUNK - 1)
              && es[i].original == original && es[i].index == i && es[i].count == |es|
  {
    es := [];
    if count == 0 {
      return;
    }
    var max := EffectiveMax(setting);
    var size := if count < max then count else max;
    var chunks := ((size + CHUNK - 1) / CHUNK) % TWO16;
    ChunkCount(size);
    if chunks > MAX_CHUNKS {
      chunks := MAX_CHUNKS;
    }
    assert 1 <= chunks && (chunks - 1) * CHUNK < size <= chunks * CHUNK;
    var i := 0;
    while i < MAX_CHUNKS && i < chunks && i * CHUNK < size
      invariant 0 <= i <= chunks && |es| == i
      invariant forall k :: 0 <= k < i ==>
                  && es[k].offset == k * CHUNK && es[k].planned == (if k < chunks - 1 then CHUNK else size - k * CHUNK)
                  && es[k].carried == Min(es[k].planned, CHUNK - 1)
                  && es[k].original == original && es[k].index == k && es[k].count == chunks
      decreases MAX_CHUNKS - i
    {
      var offset := i * CHUNK;
      var remaining := size - offset;
      var planned := if remaining < CHUNK then remaining else CHUNK;
      es := es + [Event(offset, planned, Clamp(planned), original, i, if 1 > chunks then 1 else chunks)];
      i := i + 1;
    }
  }

  /** An event is marked exactly when it carries less than the call moved; so an event without the
      mark is the only one of its call and holds all of it. */
  lemma {:induction false} UnmarkedIsWhole(es: seq<Event>, count: nat, total: nat, i: nat)
    requires Tiles(es, total) && total <= count < TWO32 && i < |es|
    requires forall k :: 0 <= k < |es| ==> es[k].carried == Min(es[k].planned, CHUNK - 1) && es[k].original == count
    ensures Truncated(es[i]) <==> es[i].carried < count
    ensures !Truncated(es[i]) ==> |es| == 1 && es[i].offset == 0 && es[i].carried == count
  {
    EndsInside(es, total, i);
  }

  lemma {:induction false} EndsInside(es: seq<Event>, total: nat, i: nat)
    requires Tiles(es, total) && i < |es|
    ensures es[i].offset + es[i].planned <= total
    decreases |es| - i
  {
    if i < |es| - 1 {
      EndsInside(es, total, i + 1);
    }
  }

  /** A write passes its 64-bit length through 32 bits on the way. */
  method PlanWrite(setting: Option<uint32>, length: uint64) returns (es: seq<Event>)
    ensures Tiles(es, Min(U32(length), EffectiveMax(setting)))
    ensures forall i :: 0 <= i < |es| && !Truncated(es[i]) ==>
              |es| == 1 && es[i].carried == U32(length) && (es[i].carried == length <==> length < TWO32)
  {
    es := PlanChunks(setting, U32(length), U32(length));
    forall i | 0 <= i < |es| ensures !Truncated(es[i]) ==> |es| == 1 && es[i].carried == U32(length) {
      UnmarkedIsWhole(es, U32(length), Min(U32(length), EffectiveMax(setting)), i);
    }
    LowBits(length);
  }

  /** 32 bits hold a length exactly when it is below 2^32. */
  lemma {:induction false} LowBits(length: uint64)
    ensures U32(length) == length <==> length < TWO32
  {
  }

  /** A read reports at most what the caller's buffer holds, and says how much was read. */
  method PlanRead(setting: Option<uint32>, total: uint32, bufLen: uint32) returns (es: seq<Event>)
    requires total > 0
    ensures forall i :: 0 <= i < |es| && !Truncated(es[i]) ==> |es| == 1 && es[i].offset == 0 && es[i].carried == total
    ensures forall i :: 0 <= i < |es| ==> (Truncated(es[i]) <==> es[i].carried < total)
    ensures |es| > 0 && Tiles(es, Min(Min(total, EffectiveMax(setting)), if bufLen > 0 then bufLen else total))
  {
    var max := total;
    if max > EffectiveMax(setting) {
      max := EffectiveMax(setting);
    }
    if bufLen > 0 && max > bufLen {
      max := bufLen;
    }
    es := PlanChunks(setting, max, total);
    forall i | 0 <= i < |es|
      ensures !Truncated(es[i]) ==> |es| == 1 && es[i].offset == 0 && es[i].carried == total
      ensures Truncated(es[i]) <==> es[i].carried < total
    {
      UnmarkedIsWhole(es, total, max, i);
    }
  }

  // ---- Vectors of buffers ---------------------------------------------------------------------

  /** An entry of the caller's vector: unreadable, or a base and a length. */
  datatype Entry = Unreadable | Segment(base: uint64, len: uint64)

  predicate Usable(e: Entry) {
    e.Segment? && e.base != 0 && e.len != 0
  }

  /** The entries the loops look at. */
  function Capped(entries: seq<Entry>): (es: seq<Entry>)
    ensures es <= entries && |es| == Min(|entries|, 6)
  {
    if |entries| > MAX_SEGMENTS then entries[..MAX_SEGMENTS] else entries
  }

  /** How total bytes spread over the usable entries, in order. */
  function Spread(es: seq<Entry>, total: nat): (lens: seq<nat>)
    ensures forall k :: 0 <= k < |lens| ==> 0 < lens[k] <= total
  {
    if |es| == 0 || total == 0 then []
    else if !Usable(es[0]) then Spread(es[1..], total)
    else
      var len := Min(es[0].len, total);
      [len] + Spread(es[1..], total - len)
  }

  function Sum(ns: seq<nat>): nat {
    if |ns| == 0 then 0 else ns[0] + Sum(ns[1..])
  }

  function Room(es: seq<Entry>): nat {
    if |es| == 0 then 0 else (if Usable(es[0]) then es[0].len else 0) + Room(es[1..])
  }

  /** The segments add up to what was read, as far as the usable entries reach. */
  lemma {:induction false} SpreadSum(es: seq<Entry>, total: nat)
    ensures Sum(Spread(es, total)) == Min(total, Room(es))
    decreases |es|
  {
    if |es| > 0 && total > 0 {
      if Usable(es[0]) {
        var len := Min(es[0].len, total);
        SpreadSum(es[1..], total - len);
        var lens := Spread(es, total);
        assert lens[1..] == Spread(es[1..], total - len);
      } else {
        SpreadSum(es[1..], total);
      }
    }
  }

  /** The first pass of emit_readv_events counts the segments. */
  method CountSegments(entries: seq<Entry>, total: uint32) returns (count: nat)
    ensures count == |Spread(Capped(entries), total)| <= MAX_SEGMENTS
  {
    var es, remaining: uint64 := Capped(entries), total;
    count := 0;
    var i := 0;
    while i < |es| && remaining != 0
      invariant 0 <= i <= |es| && remaining <= total && count <= i
      invariant |Spread(es, total)| == count + |Spread(es[i..], remaining)|
      decreases |es| - i
    {
      if Usable(es[i]) {
        var len := if es[i].len > remaining then U32(remaining) else U32(es[i].len);
        assert len == Min(es[i].len, remaining) > 0;
        count := count + 1;
        remaining := remaining - len;
      }
      assert es[i..][1..] == es[i + 1..];
      i := i + 1;
    }
  }

  /** The event of one segment of a read. */
  function Segment(len: uint32, index: nat, count: nat): Event {
    var size := if len > CHUNK then CHUNK else len;
    Event(0, size, Clamp(size), len, index, count)
  }

  lemma {:induction false} SegmentIs(len: uint32, index: nat, count: nat)
    ensures var e := Segment(len, index, count);
            && e.index == index && e.count == count && e.original == len && e.carried == Min(len, CHUNK - 1)
            && (!Truncated(e) <==> e.carried == len)
  {
  }

  /** Both passes of emit_readv_events on unchanged user memory: the events carry the indices
      0 to count - 1, the lengths they state spread the bytes read over the usable entries, and no
      narrowing loses a bit. */
  method PlanReadv(entries: seq<Entry>, total: uint32) returns (es: seq<Event>)
    ensures var lens := Spread(Capped(entries), total);
            && |es| == |lens| && Sum(lens) == Min(total, Room(Capped(entries)))
            && forall k :: 0 <= k < |es| ==>
                 && es[k].index == k && es[k].count == |es|
                 && es[k].original == lens[k] && es[k].carried == Min(lens[k], CHUNK - 1)
                 && (!Truncated(es[k]) <==> es[k].carried == lens[k])
  {
    hide Spread;
    SpreadSum(Capped(entries), total);
    es := [];
    var count := CountSegments(entries, total);
    if count == 0 {
      return;
    }
    var segs, remaining: uint64 := Capped(entries), total;
    ghost var lens := Spread(segs, total);
    var i := 0;
    while i < |segs| && remaining != 0
      invariant 0 <= i <= |segs| && remaining <= total
      invariant |es| <= |lens| && lens[|es|..] == Spread(segs[i..], remaining)
      invariant forall k :: 0 <= k < |es| ==>
                  && es[k].index == k && es[k].count == count && es[k].original == lens[k]
                  && es[k].carried == Min(es[k].original, CHUNK - 1)
      decreases |segs| - i
    {
      SpreadTurn(segs, i, remaining);
      if Usable(segs[i]) {
        var len := if segs[i].len > remaining then U32(remaining) else U32(segs[i].len);
        assert len == Min(segs[i].len, remaining) > 0;
        assert lens[|es|..][0] == len && lens[|es|..][1..] == lens[|es| + 1..];
        SegmentIs(len, |es|, count);
        es := es + [Segment(len, |es|, count)];
        remaining := remaining - len;
      }
      i := i + 1;
    }
    SpreadEnds(segs[i..], remaining);
  }

  lemma {:induction false} SpreadTurn(es: seq<Entry>, i: nat, remaining: nat)
    requires i < |es| && remaining > 0
    ensures Spread(es[i..], remaining)
         == if Usable(es[i]) then [Min(es[i].len, remaining)] + Spread(es[i + 1..], remaining - Min(es[i].len, remaining))
            else Spread(es[i + 1..], remaining)
  {
    assert es[i..][1..] == es[i + 1..];
  }

  lemma {:induction false} SpreadEnds(es: seq<Entry>, remaining: nat)
    requires |es| == 0 || remaining == 0
    ensures Spread(es, remaining) == []
  {
  }

  /** The usable entries, in order. */
  function UsableOf(es: seq<Entry>): (us: seq<Entry>)
    ensures forall k :: 0 <= k < |us| ==> Usable(us[k])
  {
    if |es| == 0 then []
    else if Usable(es[|es| - 1]) then UsableOf(es[..|es| - 1]) + [es[|es| - 1]]
    else UsableOf(es[..|es| - 1])
  }

  /** An entry gives an event exactly when it can be read, has a base and is not empty. */
  lemma {:induction false} UsableIff(e: Entry)
    ensures UsableOf([e]) == (match e case Unreadable => [] case Segment(base, len) => if base == 0 || len == 0 then [] else [e])
  {
    assert [e][..0] == [];
  }

  lemma {:induction false} UsableFirst(es: seq<Entry>)
    requires |es| > 0
    ensures UsableOf(es) == (if Usable(es[0]) then [es[0]] else []) + UsableOf(es[1..])
    decreases |es|
  {
    var n := |es| - 1;
    if n > 0 {
      UsableFirst(es[..n]);
      assert es[..n][1..] == es[1..][..n - 1];
    } else {
      assert es[..0] == [] && es[1..] == [];
    }
  }

  /** What is read fills the usable entries in order: each segment but the last is its whole entry, and the last
      what is left, at most its entry. */
  lemma {:induction false} SpreadFillsInOrder(es: seq<Entry>, total: nat)
    ensures var lens, us := Spread(es, total), UsableOf(es);
            && |lens| <= |us|
            && (forall k :: 0 <= k < |lens| - 1 ==> lens[k] == us[k].len)
            && (|lens| > 0 ==> lens[|lens| - 1] <= us[|lens| - 1].len)
    decreases |es|
  {
    if |es| > 0 && total > 0 {
      UsableFirst(es);
      if Usable(es[0]) {
        var len := Min(es[0].len, total);
        var later, us := Spread(es[1..], total - len), UsableOf(es[1..]);
        SpreadFillsInOrder(es[1..], total - len);
        assert UsableOf(es) == [es[0]] + us && Spread(es, total) == [len] + later;
        assert |later| > 0 ==> len == es[0].len;
      } else {
        SpreadFillsInOrder(es[1..], total);
        assert UsableOf(es) == UsableOf(es[1..]);
      }
    }
  }

  /** emit_writev_events. Here a length of 2^32 or more does lose bits: an unmarked event holds its
      whole segment exactly when the segment is shorter. */
  method PlanWritev(entries: seq<Entry>) returns (es: seq<Event>)
    ensures var us := UsableOf(Capped(entries));
            && |es| == |us|
            && forall k :: 0 <= k < |es| ==>
                 && es[k].index == k && es[k].count == |es| && es[k].original == U32(us[k].len)
                 && es[k].carried == Min(U32(us[k].len), CHUNK - 1)
                 && (!Truncated(es[k]) ==> (es[k].carried == us[k].len <==> us[k].len < TWO32))
  {
    var segs := Capped(entries);
    var count := 0;
    for i := 0 to |segs|
      invariant count == |UsableOf(segs[..i])|
    {
      assert segs[..i + 1][..i] == segs[..i];
      if Usable(segs[i]) {
        count := count + 1;
      }
    }
    assert segs[..|segs|] == segs;
    es := [];
    for i := 0 to |segs|
      invariant |es| == |UsableOf(segs[..i])| <= |UsableOf(segs)|
      invariant UsableOf(segs[..i]) <= UsableOf(segs)
      invariant forall k :: 0 <= k < |es| ==>
                  && es[k].index == k && es[k].count == count && es[k].original == U32(UsableOf(segs)[k].len)
                  && es[k].carried == Min(es[k].original, CHUNK - 1)
    {
      assert segs[..i + 1][..i] == segs[..i];
      UsableGrows(segs, i + 1);
      if Usable(segs[i]) {
        var size := U32(segs[i].len);
        if size > CHUNK {
          size := CHUNK;
        }
        es := es + [Event(0, size, Clamp(size), U32(segs[i].len), |es|, count)];
      }
    }
  }

  lemma {:induction false} UsableGrows(es: seq<Entry>, n: nat)
    requires n <= |es|
    ensures UsableOf(es[..n]) <= UsableOf(es)
    decreases |es|
  {
    if n < |es| {
      UsableGrows(es[..|es| - 1], n);
      assert es[..|es| - 1][..n] == es[..n];
    } else {
      assert es[..n] == es;
    }
  }
}
