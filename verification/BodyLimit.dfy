/** The limit on bodies, on a small framing with the source's limited reader: streams that keep within it
    meet the condition chunk independence asks for, and on any other two chunkings differ
    (cmd/worker/processing.go). */
module BodyLimit {
  import opened Words
  import opened HttpTokens
  import opened HttpParsing
  import opened Drain
  import opened Session
  import opened Reassembly
  import opened Routing
  import Accounting

  /** The framing of HeadersOnly, with a body whose length is the last byte before the blank line. */
  function Declared(d: Bytes): nat {
    if HeadLength(d) > 4 then d[HeadLength(d) - 5] as nat else 0
  }

  /** The body bytes that are there: the reader takes at most one more than the limit, and closing the
      body then swallows whatever else has arrived of it. */
  function Arrived(d: Bytes): nat {
    Min(Declared(d), |d| - HeadLength(d))
  }

  function Limited(max: nat): Library {
    Library(
      d => if MarkAt(METHODS, d, 0) && HeadLength(d) > 0
           then Message(Request(false, d[..HeadLength(d)], d[HeadLength(d)..HeadLength(d) + Min(Arrived(d), max)]),
                        Arrived(d) == Declared(d) || Arrived(d) > max, |d| - HeadLength(d) - Arrived(d))
           else NoHead,
      HeadersOnly.readResponse)
  }

  /** A request with n bytes of head and len of body stands at the front of b. */
  predicate Sized(b: Bytes, n: nat, len: nat) {
    MarkAt(METHODS, b, 0) && HeadLength(b) == n > 0 && Declared(b) == len
  }

  /** The request at the front goes over the limit, and two bytes of that have arrived. */
  predicate Over(max: nat, b: Bytes) {
    MarkAt(METHODS, b, 0) && HeadLength(b) > 0 && Declared(b) > max + 1 && |b| - HeadLength(b) > max + 1
  }

  /** Every buffer the loop hands to the parser on its way through d is fine. */
  ghost predicate AllMeet<T(!new)>(toks: seq<Bytes>, parse: Parser<T>, fine: Bytes -> bool, d: Bytes)
    decreases |d|
  {
    var s := ScanFor(toks, parse)(d);
    && fine(Sync(toks, d).bytes)
    && (s.found.Ready? ==> AllMeet(toks, parse, fine, d[s.skipped + s.found.consumed..]))
  }

  /** No request that the loop meets on its way through d goes over the limit. */
  ghost predicate WithinLimit(max: nat, d: Bytes) {
    AllMeet(METHODS, RequestParser(Limited(max)), b => !Over(max, b), d)
  }

  // ---- What the library makes of a part of a request ----------------------------------------------

  lemma {:induction false} MethodBytes(k: nat, i: nat)
    requires k < |METHODS| && i < |METHODS[k]|
    ensures METHODS[k][i] >= 32
  {
  }

  /** The token lies before the blank line. */
  lemma {:induction false} TokenInHead(b: Bytes, k: nat)
    requires k < |METHODS| && At(b, 0, METHODS[k]) && HeadLength(b) > 0
    ensures |METHODS[k]| <= HeadLength(b)
  {
    var e := First([BLANK_LINE], b);
    assert At(b, e, BLANK_LINE) && b[e..e + 4][0] == 13 == b[e];
    if e < |METHODS[k]| {
      assert b[..|METHODS[k]|][e] == METHODS[k][e] == 13;
      MethodBytes(k, e);
    }
  }

  lemma {:induction false} HeadOfPart(b: Bytes, k: nat)
    requires 0 < HeadLength(b) <= k <= |b|
    ensures HeadLength(b[..k]) == HeadLength(b)
  {
    var e := First([BLANK_LINE], b);
    assert b[..k] + b[k..] == b;
    assert At(b, e, [BLANK_LINE][0]);
    AtPrefix(b[..k], b[k..], e, [BLANK_LINE][0]);
    forall j: nat | j < e ensures !MarkAt([BLANK_LINE], b[..k], j) {
      if MarkAt([BLANK_LINE], b[..k], j) {
        MarkAtGrows([BLANK_LINE], b[..k], b[k..], j);
      }
    }
    FirstIs([BLANK_LINE], b[..k], e);
  }

  lemma {:induction false} PartIsSized(b: Bytes, n: nat, len: nat, k: nat)
    requires Sized(b, n, len) && n <= k <= |b|
    ensures Sized(b[..k], n, len)
  {
    HeadOfPart(b, k);
    var t :| 0 <= t < |METHODS| && At(b, 0, METHODS[t]);
    TokenInHead(b, t);
    assert b[..k] + b[k..] == b;
    AtPrefix(b[..k], b[k..], 0, METHODS[t]);
  }

  lemma {:induction false} GrownIsSized(b: Bytes, n: nat, len: nat, x: Bytes)
    requires Sized(b, n, len)
    ensures Sized(b + x, n, len)
  {
    HeadLengthIsStable(b, x);
    MarkAtGrows(METHODS, b, x, 0);
    assert n > 4 ==> (b + x)[..n][n - 5] == b[..n][n - 5];
  }

  lemma {:induction false} ParseSized(max: nat, b: Bytes, n: nat, len: nat)
    requires Sized(b, n, len)
    ensures var have := Min(len, |b| - n);
            ParseOneRequest(Limited(max), b)
              == if have == len || have > max then Ready(Request(false, b[..n], b[n..n + Min(have, max)]), n + have) else NotReady
  {
    hide MarkAt, HeadLength;
  }

  lemma {:induction false} ReadyIsSized(max: nat, b: Bytes)
    requires ParseOneRequest(Limited(max), b).Ready?
    ensures Sized(b, HeadLength(b), Declared(b))
  {
    hide MarkAt, HeadLength;
  }

  lemma {:induction false} ArrivedSettles(max: nat, len: nat, have: nat, more: nat)
    requires Min(len, have) == len || Min(len, have) > max
    requires len <= max + 1 || have + more <= max + 1
    ensures Min(len, have + more) == Min(len, have)
  {
  }

  lemma {:induction false} SizedIsKept(max: nat, b: Bytes, x: Bytes, n: nat, len: nat)
    requires Sized(b, n, len) && Sized(b + x, n, len) && (len <= max + 1 || |b + x| - n <= max + 1)
    requires ParseOneRequest(Limited(max), b).Ready?
    ensures ParseOneRequest(Limited(max), b + x) == ParseOneRequest(Limited(max), b)
  {
    hide Sized, ParseOneRequest, Limited, Min;
    HeadFits(b, n, len);
    ParseSized(max, b, n, len);
    ParseSized(max, b + x, n, len);
    ArrivedSettles(max, len, |b| - n, |x|);
    var m := Min(Min(len, |b| - n), max);
    LessOf(len, |b| - n, max);
    assert (b + x)[..n] == b[..n] && (b + x)[n..n + m] == b[n..n + m];
  }

  lemma {:induction false} LessOf(len: nat, have: nat, max: nat)
    ensures Min(Min(len, have), max) <= have
  {
  }

  lemma {:induction false} HeadFits(b: Bytes, n: nat, len: nat)
    requires Sized(b, n, len)
    ensures 0 < n <= |b|
  {
  }

  /** A request that is not over the limit, once recognised, stays what it is. */
  lemma {:induction false} NotOverIsKept(max: nat, b: Bytes, x: Bytes)
    requires !Over(max, b + x)
    ensures Kept(METHODS, RequestParser(Limited(max)), b, x)
  {
    hide MarkAt, HeadLength, Declared, ParseOneRequest, Limited;
    if ParseOneRequest(Limited(max), b).Ready? {
      ReadyIsSized(max, b);
      GrownIsSized(b, HeadLength(b), Declared(b), x);
      SizedIsKept(max, b, x, HeadLength(b), Declared(b));
    }
  }

  lemma {:induction false} OverGrows(max: nat, b: Bytes, x: Bytes)
    requires Over(max, b)
    ensures Over(max, b + x)
  {
    GrownIsSized(b, HeadLength(b), Declared(b), x);
  }

  /** What is fine with more bytes is kept when they come, and was fine without them. */
  ghost predicate FineIsKept<T(!new)>(toks: seq<Bytes>, parse: Parser<T>, fine: Bytes -> bool) {
    forall d, x :: fine(Sync(toks, d + x).bytes) ==> Kept(toks, parse, Sync(toks, d).bytes, x) && fine(Sync(toks, d).bytes)
  }

  lemma {:induction false} AllMeetIsKept<T(!new)>(toks: seq<Bytes>, parse: Parser<T>, fine: Bytes -> bool, d: Bytes, x: Bytes)
    requires SyncSafe(toks) && FineIsKept(toks, parse, fine) && AllMeet(toks, parse, fine, d + x)
    ensures LoopKept(toks, parse, d, x) && AllMeet(toks, parse, fine, d)
    decreases |d|
  {
    hide SyncSafe, Kept, ScanFor, Sync;
    KeptForetells(toks, parse, d, x);
    var s := ScanFor(toks, parse)(d);
    if s.found.Ready? {
      var n := s.skipped + s.found.consumed;
      assert (d + x)[n..] == d[n..] + x;
      AllMeetIsKept(toks, parse, fine, d[n..], x);
    }
  }

  lemma {:induction false} LimitedIsKept(max: nat)
    ensures FineIsKept(METHODS, RequestParser(Limited(max)), b => !Over(max, b))
  {
    hide Over, Kept, Sync, Limited, RequestParser;
    forall d, x | !Over(max, Sync(METHODS, d + x).bytes)
      ensures Kept(METHODS, RequestParser(Limited(max)), Sync(METHODS, d).bytes, x) && !Over(max, Sync(METHODS, d).bytes)
    {
      FrontIsKept(max, d, x);
    }
  }

  /** Within the limit, the loop keeps what it has recognised in any part of a stream. */
  lemma {:induction false} WithinIsKept(max: nat, d: Bytes, x: Bytes)
    requires WithinLimit(max, d + x)
    ensures LoopKept(METHODS, RequestParser(Limited(max)), d, x)
    ensures WithinLimit(max, d)
  {
    hide LoopKept, AllMeet, FineIsKept, SyncSafe, Over, Limited, RequestParser;
    MethodsAreSyncSafe();
    LimitedIsKept(max);
    AllMeetIsKept(METHODS, RequestParser(Limited(max)), b => !Over(max, b), d, x);
  }

  lemma {:induction false} FrontIsKept(max: nat, d: Bytes, x: Bytes)
    requires !Over(max, Sync(METHODS, d + x).bytes)
    ensures Kept(METHODS, RequestParser(Limited(max)), Sync(METHODS, d).bytes, x)
    ensures !Over(max, Sync(METHODS, d).bytes)
  {
    hide Over, Kept, Sync, Limited, SyncSafe, MarkAt;
    var b := Sync(METHODS, d).bytes;
    MethodsAreSyncSafe();
    SyncHomomorphism(METHODS, d, x);
    if MarkAt(METHODS, b, 0) {
      MarkAtGrows(METHODS, b, x, 0);
      SyncKeepsMarkedBuffer(METHODS, b + x);
      NotOverIsKept(max, b, x);
      if Over(max, b) {
        OverGrows(max, b, x);
      }
    } else {
      UnmarkedIsKept(max, b, x);
    }
  }

  lemma {:induction false} UnmarkedIsKept(max: nat, b: Bytes, x: Bytes)
    requires !MarkAt(METHODS, b, 0)
    ensures Kept(METHODS, RequestParser(Limited(max)), b, x) && !Over(max, b)
  {
    hide MarkAt, HeadLength;
  }

  // ---- Within the limit chunks do not matter --------------------------------------------------------

  lemma {:induction false} ResponsesAreKept(max: nat, q: Request, d: Bytes, x: Bytes)
    ensures Kept(STATUS, ResponseParser(Limited(max), q, false), d, x)
  {
    hide MarkAt, HeadLength;
    HeadersOnlyIsStable();
    assert ResponseKept(HeadersOnly, d, x, q);
    assert ParseOneResponse(Limited(max), d, q, false) == ParseOneResponse(HeadersOnly, d, q, false);
    assert ParseOneResponse(Limited(max), d + x, q, false) == ParseOneResponse(HeadersOnly, d + x, q, false);
  }

  /** Streams within the limit meet the condition that confluence asks for. */
  lemma {:induction false} LimitMeetsCondition(max: nat, r: Bytes, s: Bytes)
    requires WithinLimit(max, r)
    ensures KeepsStreams(Limited(max), r, s)
  {
    hide LoopKept, AnswersKeptOn, WithinLimit, Loop, Limited, Kept, RequestParser;
    forall j, k | 0 <= j <= k <= |r| ensures LoopKept(METHODS, RequestParser(Limited(max)), r[..j], r[j..k]) {
      assert r[..k] + r[k..] == r && r[..j] + r[j..k] == r[..k];
      WithinIsKept(max, r[..k], r[k..]);
      WithinIsKept(max, r[..j], r[j..k]);
    }
    AnswersAreKept(max, s, Loop(EngineOf(Limited(max)).requests, r).messages);
  }

  lemma {:induction false} AnswersAreKept(max: nat, s: Bytes, rs: seq<Request>)
    ensures AnswersKeptOn(STATUS, (q: Request) => ResponseParser(Limited(max), q, false), s, rs)
  {
    hide AnswersKept, Limited, Kept;
    var f := (q: Request) => ResponseParser(Limited(max), q, false);
    forall q, d, x ensures Kept(STATUS, f(q), d, x) {
      ResponsesAreKept(max, q, d, x);
    }
    forall j, k | 0 <= j <= k <= |s| ensures AnswersKept(STATUS, f, s[..j], s[j..k], rs) {
      AnswersAlwaysKept(STATUS, f, s[..j], s[j..k], rs);
    }
  }

  // ---- Over the limit they do -------------------------------------------------------------------------

  function ScanOf(max: nat): Scanner<Request> {
    ScanFor(METHODS, RequestParser(Limited(max)))
  }

  function LeftOf(max: nat, w: Bytes): Bytes {
    Loop(ScanOf(max), w).rest
  }

  /** The parts of a stream that hold the head of its first request are resynchronised alike. */
  lemma {:induction false} FrontOfPart(r: Bytes, j: nat, n: nat, len: nat)
    requires var s := Sync(METHODS, r); Sized(s.bytes, n, len) && s.dropped + n <= j <= |r|
    ensures var s := Sync(METHODS, r); Sync(METHODS, r[..j]) == Synced(s.bytes[..j - s.dropped], s.dropped)
  {
    hide HeadLength, Declared;
    var s := Sync(METHODS, r);
    var p, q := s.dropped, r[..j];
    assert q + r[j..] == r && s.bytes == r[p..];
    MarkAtSuffix(METHODS, r, p, p);
    forall i: nat | i < p ensures !MarkAt(METHODS, q, i) {
      if MarkAt(METHODS, q, i) {
        MarkAtGrows(METHODS, q, r[j..], i);
      }
    }
    PartIsSized(s.bytes, n, len, j - p);
    assert s.bytes[..j - p] == q[p..];
    MarkAtSuffix(METHODS, q, p, p);
    FirstIs(METHODS, q, p);
  }

  lemma {:induction false} ScanIs(max: nat, d: Bytes)
    ensures ScanOf(max)(d) == Scan(Sync(METHODS, d).dropped, ParseOneRequest(Limited(max), Sync(METHODS, d).bytes))
  {
    hide Limited, ParseOneRequest, Sync;
  }

  /** What one turn of the loop does on a part of a stream that holds the head of its first request: the
      request is taken when its body is there, or more of it than the limit. */
  lemma {:induction false} ScanOfPart(max: nat, r: Bytes, j: nat, n: nat, len: nat)
    requires var s := Sync(METHODS, r); Sized(s.bytes, n, len) && s.dropped + n <= j <= |r|
    ensures var p, now := Sync(METHODS, r).dropped, ScanOf(max)(r[..j]);
            var have := Min(len, j - p - n);
            && now.skipped == p
            && (now.found.Ready? <==> have == len || have > max)
            && (now.found.Ready? ==> now.found.consumed == n + have)
  {
    hide Sized, Limited, ParseOneRequest, Sync, ScanOf, Min;
    var s := Sync(METHODS, r);
    FrontOfPart(r, j, n, len);
    ScanIs(max, r[..j]);
    HeadFits(s.bytes, n, len);
    PartIsSized(s.bytes, n, len, j - s.dropped);
    ParseSized(max, s.bytes[..j - s.dropped], n, len);
  }

  /** The same request at the front of a buffer. */
  lemma {:induction false} ScanOfSized(max: nat, b: Bytes, n: nat, len: nat)
    requires Sized(b, n, len)
    ensures var now, have := ScanOf(max)(b), Min(len, |b| - n);
            && now.skipped == 0
            && (now.found.Ready? <==> have == len || have > max)
            && (now.found.Ready? ==> now.found.consumed == n + have)
  {
    hide Limited, ParseOneRequest, Sync, ScanOf, Min, MarkAt, HeadLength, Declared;
    ScanIs(max, b);
    SyncKeepsMarkedBuffer(METHODS, b);
    ParseSized(max, b, n, len);
  }

  lemma {:induction false} TakenWhole(max: nat, w: Bytes)
    requires var s := ScanOf(max)(w); s.found.Ready? && s.skipped + s.found.consumed == |w|
    ensures LeftOf(max, w) == []
  {
    hide ScanOf;
    assert w[|w|..] == [];
    assert Fits([], ScanOf(max)([]));
  }

  lemma {:induction false} NotTaken(max: nat, w: Bytes)
    requires ScanOf(max)(w).found.NotReady?
    ensures LeftOf(max, w) == w[ScanOf(max)(w).skipped..]
  {
    hide ScanOf;
  }

  /** Cut the stream r after j bytes: all of that is taken. Cut it a byte earlier, and go on with two bytes
      at once: all of that is taken too, one byte more. */
  ghost predicate CutsDiffer(max: nat, r: Bytes, j: nat) {
    && 0 < j < |r| && WithinLimit(max, r[..j])
    && LeftOf(max, r[..j]) == [] && LeftOf(max, LeftOf(max, r[..j - 1]) + r[j - 1..j + 1]) == []
  }

  lemma {:induction false} OverHere(max: nat, r: Bytes) returns (j: nat)
    requires Over(max, Sync(METHODS, r).bytes)
    ensures 0 < j < |r|
    ensures LeftOf(max, r[..j]) == [] && LeftOf(max, LeftOf(max, r[..j - 1]) + r[j - 1..j + 1]) == []
    ensures ScanOf(max)(r[..j]).found.Ready? && !Over(max, Sync(METHODS, r[..j]).bytes)
    ensures var s := ScanOf(max)(r[..j]); s.skipped + s.found.consumed == j
  {
    hide MarkAt, HeadLength, Declared, Sync, ScanOf, LeftOf;
    var s := Sync(METHODS, r);
    var p, b, n, len := s.dropped, s.bytes, HeadLength(s.bytes), Declared(s.bytes);
    assert b == r[p..];
    j := p + n + max + 1;
    HeadFits(b, n, len);
    ScanOfPart(max, r, j, n, len);
    TakenWhole(max, r[..j]);
    FrontOfPart(r, j, n, len);
    PartIsSized(b, n, len, n + max + 1);
    OneEarlier(max, r, p, n, len);
  }

  lemma {:induction false} OneEarlier(max: nat, r: Bytes, p: nat, n: nat, len: nat)
    requires p == Sync(METHODS, r).dropped && Sized(Sync(METHODS, r).bytes, n, len) && len > max + 1 && p + n + max + 2 <= |r|
    ensures var j := p + n + max + 1; LeftOf(max, LeftOf(max, r[..j - 1]) + r[j - 1..j + 1]) == []
  {
    hide Sized, Sync, ScanOf, LeftOf;
    var b, j := Sync(METHODS, r).bytes, p + n + max + 1;
    assert b == r[p..];
    HeadFits(b, n, len);
    ScanOfPart(max, r, j - 1, n, len);
    NotTaken(max, r[..j - 1]);
    var w := b[..n + max + 2];
    assert r[..j - 1][p..] + r[j - 1..j + 1] == w;
    PartIsSized(b, n, len, n + max + 2);
    ScanOfSized(max, w, n, len);
    TakenWhole(max, w);
  }

  lemma {:induction false} WithinUnfolds(max: nat, d: Bytes)
    ensures WithinLimit(max, d) ==> !Over(max, Sync(METHODS, d).bytes)
    ensures ScanOf(max)(d).found.NotReady? && !Over(max, Sync(METHODS, d).bytes) ==> WithinLimit(max, d)
  {
    hide AllMeet, Over, Sync, Limited, ScanFor, RequestParser;
    AllMeetUnfolds(METHODS, RequestParser(Limited(max)), b => !Over(max, b), d);
  }

  lemma {:induction false} WithinGoesOn(max: nat, d: Bytes, n: nat)
    requires var s := ScanOf(max)(d); s.found.Ready? && n == s.skipped + s.found.consumed
    requires !Over(max, Sync(METHODS, d).bytes)
    ensures n <= |d| && (WithinLimit(max, d) <==> WithinLimit(max, d[n..]))
  {
    hide AllMeet, Over, Sync, Limited, ScanFor, RequestParser;
    AllMeetGoesOn(METHODS, RequestParser(Limited(max)), b => !Over(max, b), d, n);
  }

  lemma {:induction false} AllMeetUnfolds<T(!new)>(toks: seq<Bytes>, parse: Parser<T>, fine: Bytes -> bool, d: Bytes)
    ensures AllMeet(toks, parse, fine, d) ==> fine(Sync(toks, d).bytes)
    ensures ScanFor(toks, parse)(d).found.NotReady? && fine(Sync(toks, d).bytes) ==> AllMeet(toks, parse, fine, d)
  {
  }

  lemma {:induction false} AllMeetGoesOn<T(!new)>(toks: seq<Bytes>, parse: Parser<T>, fine: Bytes -> bool, d: Bytes, n: nat)
    requires var s := ScanFor(toks, parse)(d); s.found.Ready? && n == s.skipped + s.found.consumed && fine(Sync(toks, d).bytes)
    ensures n <= |d| && (AllMeet(toks, parse, fine, d) <==> AllMeet(toks, parse, fine, d[n..]))
  {
    hide ScanFor, Sync;
  }

  lemma {:induction false} NothingIsWithin(max: nat)
    ensures WithinLimit(max, [])
  {
    hide Limited, ParseOneRequest;
    WithinUnfolds(max, []);
    assert Fits([], ScanOf(max)([]));
  }

  /** The first request of r, taken from r, is taken alike from any longer part of r. */
  lemma {:induction false} TakenFromPart(max: nat, r: Bytes, i: nat)
    requires !Over(max, Sync(METHODS, r).bytes) && ScanOf(max)(r).found.Ready?
    requires var s := ScanOf(max)(r); s.skipped + s.found.consumed <= i <= |r|
    ensures var s, t := ScanOf(max)(r), ScanOf(max)(r[..i]);
            t.found.Ready? && t.skipped + t.found.consumed == s.skipped + s.found.consumed
    ensures !Over(max, Sync(METHODS, r[..i]).bytes)
  {
    hide Over, Sync, ScanOf, Limited, ParseOneRequest, MarkAt, HeadLength, Declared;
    var b, p := Sync(METHODS, r).bytes, Sync(METHODS, r).dropped;
    ScanIs(max, r);
    ReadyIsSized(max, b);
    var n, len := HeadLength(b), Declared(b);
    HeadFits(b, n, len);
    assert r[..|r|] == r && |b| == |r| - p;
    ScanOfPart(max, r, |r|, n, len);
    ScanOfPart(max, r, i, n, len);
    FrontOfPart(r, i, n, len);
    assert b[..i - p] + b[i - p..] == b;
    if Over(max, b[..i - p]) {
      OverGrows(max, b[..i - p], b[i - p..]);
    }
  }

  lemma {:induction false} LeftAfterTaken(max: nat, r: Bytes, i: nat)
    requires !Over(max, Sync(METHODS, r).bytes) && ScanOf(max)(r).found.Ready?
    requires var s := ScanOf(max)(r); s.skipped + s.found.consumed <= i <= |r|
    ensures var m := ScanOf(max)(r).skipped + ScanOf(max)(r).found.consumed;
            && LeftOf(max, r[..i]) == LeftOf(max, r[m..][..i - m])
            && (WithinLimit(max, r[m..][..i - m]) ==> WithinLimit(max, r[..i]))
  {
    hide Over, Sync, ScanOf, WithinLimit;
    TakenFromPart(max, r, i);
    var m := ScanOf(max)(r).skipped + ScanOf(max)(r).found.consumed;
    WithinGoesOn(max, r[..i], m);
    assert r[..i][m..] == r[m..][..i - m];
  }

  /** A stream that goes over the limit has two such cuts. */
  lemma {:induction false} FirstOver(max: nat, r: Bytes) returns (j: nat)
    requires !WithinLimit(max, r)
    ensures CutsDiffer(max, r, j)
    decreases |r|
  {
    hide Over, Sync, ScanOf, LeftOf, WithinLimit;
    WithinUnfolds(max, r);
    if Over(max, Sync(METHODS, r).bytes) {
      j := OverHere(max, r);
      WithinGoesOn(max, r[..j], j);
      NothingIsWithin(max);
      assert r[..j][j..] == [];
    } else {
      var m := ScanOf(max)(r).skipped + ScanOf(max)(r).found.consumed;
      WithinGoesOn(max, r, m);
      var rest := r[m..];
      var i := FirstOver(max, rest);
      j := m + i;
      LeftAfterTaken(max, r, j);
      LeftAfterTaken(max, r, j - 1);
      assert r[j - 1..j + 1] == rest[i - 1..i + 1];
    }
  }

  // ---- The exact condition -------------------------------------------------------------------------------

  /** Chunks of a request side alone, in any sizes. */
  ghost predicate Requesting(es: seq<Event>, w: Bytes) {
    RequestStream(es) == w && ResponseStream(es) == []
  }

  /** All captures of w end with the same buffer and the same requests waiting. */
  ghost predicate ChunksAgree(cfg: Config, w: Bytes) {
    forall es, fs :: Requesting(es, w) && Requesting(fs, w) ==>
      && Run(cfg, es).session.reqData == Run(cfg, fs).session.reqData
      && Requests(Run(cfg, es).session.pending) == Requests(Run(cfg, fs).session.pending)
  }

  lemma {:induction false} ShortIsRequest(p: Bytes)
    requires 0 < |p| <= 2
    ensures var e := ChunkOf(p, Read, false); CarriesBytes(e) && RequestBytes(e) == p && ResponseBytes(e) == []
  {
    var e := ChunkOf(p, Read, false);
    assert Payload(e) == p;
    forall k: nat, i: nat | k < |METHODS| ensures !At(p, i, METHODS[k]) {
      MethodsShape(k);
    }
    assert First(METHODS, p) == -1 && First(STATUS, p) == -1;
  }

  lemma {:induction false} ChunkAdds(es: seq<Event>, w: Bytes, p: Bytes)
    requires Requesting(es, w) && 0 < |p| <= 2
    ensures Requesting(es + [ChunkOf(p, Read, false)], w + p)
  {
    hide ChunkOf, RequestStream, ResponseStream;
    ShortIsRequest(p);
    StreamsOfOne(ChunkOf(p, Read, false));
    StreamsJoin(es, [ChunkOf(p, Read, false)]);
  }

  lemma {:induction false} BytesRequest(w: Bytes)
    ensures Requesting(BytesOf(w, Read, false), w)
  {
    BytesOfIsChunking(w, Read, false);
  }

  lemma {:induction false} RunOneMore(cfg: Config, es: seq<Event>, p: Bytes)
    requires 0 < |p| <= 2 && |Run(cfg, es).session.reqData| + |p| <= cfg.maxStreamBytes
    ensures Run(cfg, es + [ChunkOf(p, Read, false)]).session.reqData
         == Loop(cfg.engine.requests, Run(cfg, es).session.reqData + p).rest
  {
    hide ChunkOf, Loop, AnswerLoop, RequestStream;
    var e := ChunkOf(p, Read, false);
    ShortIsRequest(p);
    assert (es + [e])[..|es|] == es;
    ProcessDrains(cfg, Run(cfg, es), e, p);
  }

  lemma {:induction false} ProcessDrains(cfg: Config, w: Work, e: Event, p: Bytes)
    requires CarriesBytes(e) && RequestBytes(e) == p && |p| > 0 && |w.session.reqData| + |p| <= cfg.maxStreamBytes
    ensures Process(cfg, w, e).session.reqData == Loop(cfg.engine.requests, w.session.reqData + p).rest
  {
    hide Loop, AnswerLoop, ClassifyPayload;
    DrainContents(cfg.engine, w.(session := Append(Admit(w.session, e), e)), false);
  }

  /** Two captures of a stream that goes over the limit: byte by byte, and with the last two bytes at once. */
  lemma {:induction false} OverDiffers(max: nat, cfg: Config, r: Bytes, j: nat)
    requires cfg.engine == EngineOf(Limited(max)) && |r| <= cfg.maxStreamBytes && CutsDiffer(max, r, j)
    ensures !ChunksAgree(cfg, r[..j + 1])
  {
    hide Run, ChunkOf, Loop, WithinLimit, Requesting, LeftOf, KeepsStreams, Limited, EngineOf, ScanOf, ScanFor;
    var a, b := BytesOf(r[..j], Read, false), BytesOf(r[..j - 1], Read, false);
    BytesRequest(r[..j]);
    BytesRequest(r[..j - 1]);
    DrainedBytes(max, cfg, r, j);
    OneByteStays(max, r[j]);
    RunOneMore(cfg, a, [r[j]]);
    RunOneMore(cfg, b, r[j - 1..j + 1]);
    assert [] + [r[j]] == [r[j]];
    ChunkAdds(a, r[..j], [r[j]]);
    ChunkAdds(b, r[..j - 1], r[j - 1..j + 1]);
    assert r[..j] + [r[j]] == r[..j + 1] && r[..j - 1] + r[j - 1..j + 1] == r[..j + 1];
    LeftIsLoop(max, cfg, Run(cfg, b).session.reqData + r[j - 1..j + 1]);
    LeftIsLoop(max, cfg, [r[j]]);
  }

  lemma {:induction false} LeftIsLoop(max: nat, cfg: Config, w: Bytes)
    requires cfg.engine == EngineOf(Limited(max))
    ensures LeftOf(max, w) == Loop(cfg.engine.requests, w).rest
  {
    hide Loop, Limited;
  }

  lemma {:induction false} OneByteStays(max: nat, b: byte)
    ensures LeftOf(max, [b]) == [b]
  {
    hide Limited, ParseOneRequest, HeadLength;
    ByteShowsNothing(b, Read, false);
    ScanIs(max, [b]);
    ShortIsNotReady(max, b);
  }

  lemma {:induction false} ShortIsNotReady(max: nat, b: byte)
    ensures Sync(METHODS, [b]) == Synced([b], 0) && ParseOneRequest(Limited(max), [b]).NotReady?
  {
    hide HeadLength;
    forall k: nat | k < |METHODS| ensures !At([b], 0, METHODS[k]) {
      MethodsShape(k);
    }
    assert !MarkAt(METHODS, [b], 0);
  }

  /** The two captures up to the cuts: within the limit, so they are the drains of what they have read. */
  lemma {:induction false} DrainedBytes(max: nat, cfg: Config, r: Bytes, j: nat)
    requires cfg.engine == EngineOf(Limited(max)) && |r| <= cfg.maxStreamBytes && CutsDiffer(max, r, j)
    ensures Run(cfg, BytesOf(r[..j], Read, false)).session.reqData == []
    ensures var b := Run(cfg, BytesOf(r[..j - 1], Read, false)).session.reqData;
            b == LeftOf(max, r[..j - 1]) && |b| < j
  {
    hide Run, Loop, WithinLimit, LeftOf, KeepsStreams, StableStreams, Limited, EngineOf, ScanOf, ScanFor;
    assert r[..j][..j - 1] == r[..j - 1] && r[..j - 1] + [r[j - 1]] == r[..j];
    WithinIsKept(max, r[..j - 1], [r[j - 1]]);
    DrainedRun(max, cfg, r[..j]);
    DrainedRun(max, cfg, r[..j - 1]);
  }

  lemma {:induction false} DrainedRun(max: nat, cfg: Config, w: Bytes)
    requires cfg.engine == EngineOf(Limited(max)) && |w| <= cfg.maxStreamBytes && WithinLimit(max, w)
    ensures var d := Run(cfg, BytesOf(w, Read, false)).session.reqData; d == LeftOf(max, w) && |d| <= |w|
  {
    hide Run, WithinLimit, KeepsStreams, StableStreams, Limited, RequestStream, ResponseStream;
    var es := BytesOf(w, Read, false);
    BytesRequest(w);
    LimitMeetsCondition(max, w, []);
    EngineOfIsStable(Limited(max), w, []);
    Accounting.ShortStreamsDoNotOverflow(cfg, es);
    RunIsDrainOfStreams(cfg, es);
  }

  /** The exact condition: whatever parts of r have been captured, chunks do not matter, exactly when no
      request in it goes over the limit by two bytes or more that are there. */
  lemma {:induction false} ChunksAgreeIffWithin(max: nat, cfg: Config, r: Bytes)
    requires cfg.engine == EngineOf(Limited(max)) && |r| <= cfg.maxStreamBytes
    ensures (forall n :: 0 <= n <= |r| ==> ChunksAgree(cfg, r[..n])) <==> WithinLimit(max, r)
  {
    hide ChunksAgree, WithinLimit, Limited, CutsDiffer, EngineOf, ScanOf, ScanFor;
    if WithinLimit(max, r) {
      forall n | 0 <= n <= |r| ensures ChunksAgree(cfg, r[..n]) {
        assert r[..n] + r[n..] == r;
        WithinIsKept(max, r[..n], r[n..]);
        WithinAgrees(max, cfg, r[..n]);
      }
    } else {
      var j := FirstOver(max, r);
      CutIsInside(max, r, j);
      OverDiffers(max, cfg, r, j);
    }
  }

  lemma {:induction false} CutIsInside(max: nat, r: Bytes, j: nat)
    requires CutsDiffer(max, r, j)
    ensures 0 < j < |r|
  {
  }

  lemma {:induction false} WithinAgrees(max: nat, cfg: Config, w: Bytes)
    requires cfg.engine == EngineOf(Limited(max)) && |w| <= cfg.maxStreamBytes && WithinLimit(max, w)
    ensures ChunksAgree(cfg, w)
  {
    hide Run, WithinLimit, KeepsStreams, StableStreams, Limited, EngineOf, ScanOf, ScanFor;
    LimitMeetsCondition(max, w, []);
    forall es, fs | Requesting(es, w) && Requesting(fs, w)
      ensures Run(cfg, es).session.reqData == Run(cfg, fs).session.reqData
      ensures Requests(Run(cfg, es).session.pending) == Requests(Run(cfg, fs).session.pending)
    {
      Accounting.ShortStreamsDoNotOverflow(cfg, es);
      Accounting.ShortStreamsDoNotOverflow(cfg, fs);
      SourceConfluence(Limited(max), cfg.maxStreamBytes, es, fs);
    }
  }
}
