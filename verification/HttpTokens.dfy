/** Bytes of a captured stream, the tokens that start an HTTP/1 message, and the
    resynchronisation of a buffer on the first of them
    (cmd/worker/processing.go and cmd/karaxys-capture/process.go hold the same code). */
module HttpTokens {

  newtype byte = x: int | 0 <= x < 256
  type Bytes = seq<byte>

  /** Both probe windows of the source are 16 bytes. */
  const PROBE_WINDOW: nat := 16

  const SPACE: byte := 32

  // The nine method tokens, each with its trailing space.
  const METHODS: seq<Bytes> := [
    [71, 69, 84, 32],                     // GET
    [80, 79, 83, 84, 32],                 // POST
    [80, 85, 84, 32],                     // PUT
    [80, 65, 84, 67, 72, 32],             // PATCH
    [68, 69, 76, 69, 84, 69, 32],         // DELETE
    [72, 69, 65, 68, 32],                 // HEAD
    [79, 80, 84, 73, 79, 78, 83, 32],     // OPTIONS
    [84, 82, 65, 67, 69, 32],             // TRACE
    [67, 79, 78, 78, 69, 67, 84, 32]      // CONNECT
  ]

  // "HTTP/1."
  const HTTP1: Bytes := [72, 84, 84, 80, 47, 49, 46]
  const STATUS: seq<Bytes> := [HTTP1]

  /** Token tok stands at position i of d. */
  predicate At(d: Bytes, i: nat, tok: Bytes) {
    i + |tok| <= |d| && d[i..i + |tok|] == tok
  }

  /** Some token of toks stands at position i of d. */
  predicate MarkAt(toks: seq<Bytes>, d: Bytes, i: nat) {
    exists k :: 0 <= k < |toks| && At(d, i, toks[k])
  }

  /** The first position of d at or after i where a token stands, or -1. */
  function FirstFrom(toks: seq<Bytes>, d: Bytes, i: nat): (r: int)
    ensures r == -1 ==> forall j :: i <= j <= |d| ==> !MarkAt(toks, d, j)
    ensures r != -1 ==> i <= r <= |d| && MarkAt(toks, d, r)
    ensures r != -1 ==> forall j :: i <= j < r ==> !MarkAt(toks, d, j)
    decreases |d| + 1 - i
  {
    if i > |d| then -1
    else if MarkAt(toks, d, i) then i
    else FirstFrom(toks, d, i + 1)
  }

  function First(toks: seq<Bytes>, d: Bytes): int {
    FirstFrom(toks, d, 0)
  }

  /** First is pinned down by what it finds. */
  lemma {:induction false} FirstIs(toks: seq<Bytes>, d: Bytes, r: nat)
    requires r <= |d| && MarkAt(toks, d, r)
    requires forall j :: 0 <= j < r ==> !MarkAt(toks, d, j)
    ensures First(toks, d) == r
  {
  }

  /** bytes.Index for one token. */
  function Index(d: Bytes, tok: Bytes): (r: int)
    ensures r == -1 ==> forall j :: 0 <= j <= |d| ==> !At(d, j, tok)
    ensures r != -1 ==> 0 <= r <= |d| && At(d, r, tok) && forall j :: 0 <= j < r ==> !At(d, j, tok)
  {
    var r := First([tok], d);
    assert forall j: nat :: At(d, j, tok) ==> At(d, j, [tok][0]) && MarkAt([tok], d, j);
    r
  }

  /** The search of the source: one library search per method, keeping the least hit. */
  method EarliestMethodIndex(chunk: Bytes) returns (best: int)
    ensures best == First(METHODS, chunk)
  {
    best := -1;
    for k := 0 to |METHODS|
      invariant best == -1 ==> forall m, j: nat :: 0 <= m < k ==> !At(chunk, j, METHODS[m])
      invariant best != -1 ==> 0 <= best <= |chunk| && MarkAt(METHODS, chunk, best)
      invariant best != -1 ==> forall m, j: nat :: 0 <= m < k && j < best ==> !At(chunk, j, METHODS[m])
    {
      var idx := Index(chunk, METHODS[k]);
      if idx >= 0 && (best == -1 || idx < best) {
        best := idx;
      }
    }
    if best != -1 {
      FirstIs(METHODS, chunk, best);
    }
  }

  datatype Synced = Synced(bytes: Bytes, dropped: nat)

  /** syncRequestBuffer and syncResponseBuffer are this function on METHODS and on STATUS. */
  function Sync(toks: seq<Bytes>, data: Bytes): (s: Synced)
    ensures s.dropped <= |data| && s.bytes == data[s.dropped..]
  {
    if |data| == 0 then Synced(data, 0)
    else
      var idx := First(toks, data);
      if idx > 0 then Synced(data[idx..], idx)
      else if idx == -1 && |data| > PROBE_WINDOW then
        Synced(data[|data| - PROBE_WINDOW..], |data| - PROBE_WINDOW)
      else Synced(data, 0)
  }

  datatype PayloadKind = Unknown | RequestPayload | ResponsePayload

  function ClassifyPayload(chunk: Bytes): PayloadKind {
    var reqIdx := First(METHODS, chunk);
    var respIdx := First(STATUS, chunk);
    if reqIdx >= 0 && (respIdx < 0 || reqIdx < respIdx) then RequestPayload
    else if respIdx >= 0 then ResponsePayload
    else Unknown
  }

  // ---- Why resynchronising early loses nothing --------------------------------

  /** What a token set must satisfy: no token ends strictly inside another one, and the
      probe window is long enough to hold any token of which only a part has arrived. */
  ghost predicate SyncSafe(toks: seq<Bytes>) {
    && (forall k :: 0 <= k < |toks| ==> 0 < |toks[k]| <= PROBE_WINDOW + 1)
    && (forall k, m, i: nat :: 0 <= k < |toks| && 0 <= m < |toks| && 0 < i && At(toks[k], i, toks[m]) ==>
          i + |toks[m]| == |toks[k]|)
  }

  /** Every method token has its one space at its end, and at most eight bytes. */
  lemma {:induction false} MethodsShape(k: nat)
    requires k < |METHODS|
    ensures 4 <= |METHODS[k]| <= 8
    ensures forall j :: 0 <= j < |METHODS[k]| ==> (METHODS[k][j] == SPACE <==> j == |METHODS[k]| - 1)
  {
  }

  lemma {:induction false} MethodsAreSyncSafe()
    ensures SyncSafe(METHODS)
  {
    forall k | 0 <= k < |METHODS| ensures 0 < |METHODS[k]| <= PROBE_WINDOW + 1 {
      MethodsShape(k);
    }
    forall k, m, i: nat | 0 <= k < |METHODS| && 0 <= m < |METHODS| && 0 < i && At(METHODS[k], i, METHODS[m])
      ensures i + |METHODS[m]| == |METHODS[k]|
    {
      MethodsShape(k);
      MethodsShape(m);
      var last := i + |METHODS[m]| - 1;
      assert METHODS[k][last] == METHODS[m][|METHODS[m]| - 1] == SPACE;
    }
  }

  lemma {:induction false} StatusIsSyncSafe()
    ensures SyncSafe(STATUS)
  {
  }

  /** A token standing in a prefix stands there in every extension, and one standing in the
      extension without reaching past the prefix stood in the prefix. */
  lemma {:induction false} AtPrefix(d: Bytes, x: Bytes, i: nat, tok: Bytes)
    requires i + |tok| <= |d|
    ensures At(d, i, tok) <==> At(d + x, i, tok)
  {
    assert (d + x)[i..i + |tok|] == d[i..i + |tok|];
  }

  lemma {:induction false} AtSuffix(d: Bytes, n: nat, i: nat, tok: Bytes)
    requires n <= i && n <= |d|
    ensures At(d, i, tok) <==> At(d[n..], i - n, tok)
  {
    if i + |tok| <= |d| {
      assert d[n..][i - n..i - n + |tok|] == d[i..i + |tok|];
    }
  }

  /** Of two tokens standing in d, one within the span of the other stands in that other. */
  lemma {:induction false} AtInside(d: Bytes, j: nat, outer: Bytes, r: nat, inner: Bytes)
    requires At(d, j, outer) && At(d, r, inner) && j <= r && r + |inner| <= j + |outer|
    ensures At(outer, r - j, inner)
  {
    forall t | 0 <= t < |inner| ensures outer[r - j + t] == inner[t] {
      assert outer[r - j + t] == d[j..j + |outer|][r - j + t];
      assert inner[t] == d[r..r + |inner|][t];
    }
  }

  lemma {:induction false} MarkAtSuffix(toks: seq<Bytes>, d: Bytes, n: nat, i: nat)
    requires n <= i && n <= |d|
    ensures MarkAt(toks, d, i) <==> MarkAt(toks, d[n..], i - n)
  {
    forall k | 0 <= k < |toks| ensures At(d, i, toks[k]) <==> At(d[n..], i - n, toks[k]) {
      AtSuffix(d, n, i, toks[k]);
    }
  }

  lemma {:induction false} MarkAtGrows(toks: seq<Bytes>, d: Bytes, x: Bytes, i: nat)
    requires MarkAt(toks, d, i)
    ensures MarkAt(toks, d + x, i)
  {
    var k :| 0 <= k < |toks| && At(d, i, toks[k]);
    AtPrefix(d, x, i, toks[k]);
  }

  /** A token that is new in d + x reaches past the end of d. */
  lemma {:induction false} NewMarkEndsLate(toks: seq<Bytes>, d: Bytes, x: Bytes, j: nat) returns (k: nat)
    requires MarkAt(toks, d + x, j) && !MarkAt(toks, d, j)
    ensures k < |toks| && At(d + x, j, toks[k]) && |d| < j + |toks[k]|
  {
    k :| 0 <= k < |toks| && At(d + x, j, toks[k]);
    if j + |toks[k]| <= |d| {
      AtPrefix(d, x, j, toks[k]);
    }
  }

  /** The first token of a buffer stays its first token when bytes arrive. */
  lemma {:induction false} FirstIsStable(toks: seq<Bytes>, d: Bytes, x: Bytes)
    requires SyncSafe(toks) && First(toks, d) >= 0
    ensures First(toks, d + x) == First(toks, d)
  {
    var r := First(toks, d);
    MarkAtGrows(toks, d, x, r);
    forall j | 0 <= j < r ensures !MarkAt(toks, d + x, j) {
      if MarkAt(toks, d + x, j) {
        var k := NewMarkEndsLate(toks, d, x, j);
        var m :| 0 <= m < |toks| && At(d, r, toks[m]);
        // the known token would lie strictly inside the one completed later
        AtPrefix(d, x, r, toks[m]);
        AtInside(d + x, j, toks[k], r, toks[m]);
      }
    }
    FirstIs(toks, d + x, r);
  }

  /** A token that only completes when bytes arrive starts inside the probe window. */
  lemma {:induction false} NewTokenStartsInWindow(toks: seq<Bytes>, d: Bytes, x: Bytes, j: nat)
    requires SyncSafe(toks) && First(toks, d) == -1 && MarkAt(toks, d + x, j)
    ensures |d| < j + PROBE_WINDOW + 1
  {
    if j <= |d| {
      var k := NewMarkEndsLate(toks, d, x, j);
    }
  }

  /** Cutting n bytes off the front moves the first token by n when none started there. */
  lemma {:induction false} FirstAfterCut(toks: seq<Bytes>, d: Bytes, n: nat)
    requires n <= |d| && forall j :: 0 <= j < n ==> !MarkAt(toks, d, j)
    ensures First(toks, d[n..]) == if First(toks, d) == -1 then -1 else First(toks, d) - n
  {
    forall j: nat | j <= |d| - n ensures MarkAt(toks, d[n..], j) <==> MarkAt(toks, d, j + n) {
      MarkAtSuffix(toks, d, n, j + n);
    }
    var q := First(toks, d[n..]);
    assert q >= 0 ==> MarkAt(toks, d, q + n);
    if First(toks, d) >= 0 {
      FirstIs(toks, d[n..], First(toks, d) - n);
    }
  }

  /** Resynchronisation is a homomorphism: trimming early and then receiving x leaves the
      bytes that trimming once leaves, and the dropped counts add up. */
  lemma {:induction false} SyncHomomorphism(toks: seq<Bytes>, d: Bytes, x: Bytes)
    requires SyncSafe(toks)
    ensures Sync(toks, Sync(toks, d).bytes + x).bytes == Sync(toks, d + x).bytes
    ensures Sync(toks, d).dropped + Sync(toks, Sync(toks, d).bytes + x).dropped == Sync(toks, d + x).dropped
  {
    var s := Sync(toks, d);
    if s.dropped > 0 {
      var whole := d + x;
      assert s.bytes + x == whole[s.dropped..];
      forall j | 0 <= j < s.dropped ensures !MarkAt(toks, whole, j) {
        if First(toks, d) > 0 {
          FirstIsStable(toks, d, x);
        } else if MarkAt(toks, whole, j) {
          NewTokenStartsInWindow(toks, d, x, j);
        }
      }
      FirstAfterCut(toks, whole, s.dropped);
      if First(toks, d) > 0 {
        FirstIsStable(toks, d, x);
        assert First(toks, whole) == s.dropped;
        assert Sync(toks, whole[s.dropped..]) == Synced(whole[s.dropped..], 0);
      } else if First(toks, whole) == -1 {
        assert |whole| > PROBE_WINDOW;
      }
    } else {
      assert s.bytes == d;
    }
  }

  /** A buffer that starts with a token is left alone, whatever follows. */
  lemma {:induction false} SyncKeepsMarkedBuffer(toks: seq<Bytes>, d: Bytes)
    requires MarkAt(toks, d, 0)
    ensures Sync(toks, d) == Synced(d, 0)
  {
    FirstIs(toks, d, 0);
  }

  lemma {:induction false} SyncIdempotent(toks: seq<Bytes>, d: Bytes)
    requires SyncSafe(toks)
    ensures Sync(toks, Sync(toks, d).bytes) == Synced(Sync(toks, d).bytes, 0)
  {
    SyncHomomorphism(toks, d, []);
    assert Sync(toks, d).bytes + [] == Sync(toks, d).bytes && d + [] == d;
  }

  // ---- What the searches and cuts come to -------------------------------------

  /** Bytes as text. */
  function Text(d: Bytes): (s: string)
    ensures |s| == |d| && forall i :: 0 <= i < |d| ==> s[i] as int == d[i] as int
  {
    seq(|d|, i requires 0 <= i < |d| => d[i] as char)
  }

  lemma {:induction false} TokensAreSpelled()
    ensures |METHODS| == 9
    ensures Text(METHODS[0]) == "GET " && Text(METHODS[1]) == "POST " && Text(METHODS[2]) == "PUT "
    ensures Text(METHODS[3]) == "PATCH " && Text(METHODS[4]) == "DELETE " && Text(METHODS[5]) == "HEAD "
    ensures Text(METHODS[6]) == "OPTIONS " && Text(METHODS[7]) == "TRACE " && Text(METHODS[8]) == "CONNECT "
    ensures |STATUS| == 1 && Text(STATUS[0]) == "HTTP/1."
  {
  }

  /** A token stands at i and none before it. */
  predicate FirstAt(toks: seq<Bytes>, d: Bytes, i: nat) {
    MarkAt(toks, d, i) && forall j: nat :: j < i ==> !MarkAt(toks, d, j)
  }

  /** A buffer that holds a token is cut to its first one, wherever that stands; of one that holds none the
      last 16 bytes stay. */
  lemma {:induction false} SyncIs(toks: seq<Bytes>, data: Bytes)
    requires forall k :: 0 <= k < |toks| ==> |toks[k]| > 0
    ensures forall i: nat :: FirstAt(toks, data, i) ==> i < |data| && Sync(toks, data) == Synced(data[i..], i)
    ensures (forall i: nat :: !MarkAt(toks, data, i)) ==>
              |Sync(toks, data).bytes| == if |data| < 16 then |data| else 16
  {
    forall i: nat | FirstAt(toks, data, i) ensures i < |data| && First(toks, data) == i {
      FirstIs(toks, data, i);
    }
  }

  /** A chunk is a request exactly when a method token stands in it with no status token before it or at the
      same place, whatever bytes come first; a response exactly when a status token stands in it and no method
      token before it; and of unknown kind exactly when it holds no token at all. */
  lemma {:induction false} ClassifyIs(chunk: Bytes)
    ensures ClassifyPayload(chunk) == RequestPayload
       <==> exists i: nat :: MarkAt(METHODS, chunk, i) && forall j: nat :: j <= i ==> !MarkAt(STATUS, chunk, j)
    ensures ClassifyPayload(chunk) == ResponsePayload
       <==> exists i: nat :: MarkAt(STATUS, chunk, i) && forall j: nat :: j < i ==> !MarkAt(METHODS, chunk, j)
    ensures ClassifyPayload(chunk) == Unknown
       <==> forall i: nat :: !MarkAt(METHODS, chunk, i) && !MarkAt(STATUS, chunk, i)
  {
    hide MarkAt;
    var q, s := First(METHODS, chunk), First(STATUS, chunk);
    NoMarkBeyond(METHODS, chunk);
    NoMarkBeyond(STATUS, chunk);
    assert q >= 0 ==> MarkAt(METHODS, chunk, q);
    assert s >= 0 ==> MarkAt(STATUS, chunk, s);
    if q >= 0 && q == s {
      NoSharedPlace(chunk, q);
    }
  }

  lemma {:induction false} NoMarkBeyond(toks: seq<Bytes>, d: Bytes)
    ensures forall i: nat :: MarkAt(toks, d, i) ==> i <= |d|
  {
  }

  lemma {:induction false} FirstTwo(d: Bytes, i: nat, tok: Bytes)
    requires |tok| >= 2
    ensures At(d, i, tok) ==> d[i] == tok[0] && d[i + 1] == tok[1]
  {
    if At(d, i, tok) {
      assert d[i..i + |tok|][0] == d[i] && d[i..i + |tok|][1] == d[i + 1];
    }
  }

  lemma {:induction false} MethodIsNoStatusLine(k: nat)
    requires k < |METHODS|
    ensures |METHODS[k]| >= 2 && (METHODS[k][0] != HTTP1[0] || METHODS[k][1] != HTTP1[1])
  {
  }

  /** No method begins as a status line does. */
  lemma {:induction false} NoSharedPlace(d: Bytes, i: nat)
    requires MarkAt(METHODS, d, i)
    ensures !MarkAt(STATUS, d, i)
  {
    hide At;
    var k :| 0 <= k < |METHODS| && At(d, i, METHODS[k]);
    MethodIsNoStatusLine(k);
    FirstTwo(d, i, METHODS[k]);
    FirstTwo(d, i, HTTP1);
  }
}
