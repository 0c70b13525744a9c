/** When the request loop of a capture session can leave the start of the HTTP/2 preface: what a stream
    leaves when only a part of it has been drained (cmd/karaxys-capture/process.go). */
module Cuts {
  import opened HttpTokens
  import opened HttpParsing
  import opened Drain
  import opened Session
  import opened Reassembly
  import opened Routing
  import opened Capture

  // ---- Streams ------------------------------------------------------------------------------

  /** What a run on all of r leaves of it. */
  function Left(engine: Engine, r: Bytes): Bytes {
    Loop(engine.requests, r).rest
  }

  /** The request buffer when r[..k] had been drained and the rest of r was only added. */
  function CutLeaves(engine: Engine, r: Bytes, k: nat): Bytes
    requires k <= |r|
  {
    Left(engine, r[..k]) + r[k..]
  }

  /** The response buffer when the first j and m bytes of the streams had been drained and the rest of s
      was only added. */
  function AnswersLeave(engine: Engine, r: Bytes, s: Bytes, j: nat, m: nat): Bytes
    requires j <= |r| && m <= |s|
  {
    AnswerLoop(engine.responses(false), s[..m], Loop(engine.requests, r[..j]).messages).drained.rest + s[m..]
  }

  /** Some way of draining a part of r leaves the start of a preface. */
  ghost predicate CanBeHeld(engine: Engine, r: Bytes) {
    exists k: nat :: k <= |r| && IsPrefaceCandidate(CutLeaves(engine, r, k))
  }

  /** No way of draining a part of r leaves the preface at the front. */
  ghost predicate NoRequestPreface(engine: Engine, r: Bytes) {
    forall k: nat :: k <= |r| ==> !HasPreface(CutLeaves(engine, r, k))
  }

  ghost predicate NoResponsePreface(engine: Engine, r: Bytes, s: Bytes) {
    forall j: nat, m: nat :: j <= |r| && m <= |s| ==> !HasPreface(AnswersLeave(engine, r, s, j, m))
  }

  predicate IsPart(d: Bytes) {
    |d| < |PREFACE| && d == PREFACE[..|d|]
  }

  function Tail(d: Bytes): Bytes {
    if |d| <= PROBE_WINDOW then d else d[|d| - PROBE_WINDOW..]
  }

  /** The request loop finds nothing in d and keeps its last 16 bytes. */
  predicate Ignored(engine: Engine, d: Bytes) {
    Loop(engine.requests, d).messages == [] && Left(engine, d) == Tail(d)
  }

  /** So it does with every start of a preface that some cut of the stream r leaves on the way. */
  ghost predicate IgnoresPreface(engine: Engine, r: Bytes) {
    forall j: nat, k: nat :: k <= j <= |r| && IsPart(CutLeaves(engine, r[..j], k)) ==> Ignored(engine, CutLeaves(engine, r[..j], k))
  }

  ghost predicate Good(engine: Engine, r: Bytes, s: Bytes) {
    StableStreams(engine, r, s) && SettledEngine(engine) && IgnoresPreface(engine, r)
  }

  // ---- The source's engine ----------------------------------------------------------------------

  lemma {:induction false} PrefaceSpaces(i: nat)
    requires i < |PREFACE| && PREFACE[i] == SPACE
    ensures i == 3 || i == 5
  {
  }

  lemma {:induction false} AtEach(d: Bytes, i: nat, tok: Bytes, t: nat)
    requires At(d, i, tok) && t < |tok|
    ensures d[i + t] == tok[t]
  {
    assert d[i..i + |tok|][t] == tok[t];
  }

  lemma {:induction false} FourLong(k: nat)
    requires k < |METHODS| && |METHODS[k]| == 4
    ensures METHODS[k][0] != 80 || METHODS[k][1] != 82
  {
  }

  /** The spaces of the preface are too near its front and each other for a method token. */
  lemma {:induction false} NoMethodAt(d: Bytes, i: nat, k: nat)
    requires IsPart(d) && k < |METHODS|
    ensures !At(d, i, METHODS[k])
  {
    MethodsShape(k);
    var tok := METHODS[k];
    var last := |tok| - 1;
    if At(d, i, tok) {
      hide At;
      AtEach(d, i, tok, last);
      PrefaceSpaces(i + last);
      if i + last == 5 {
        AtEach(d, i, tok, 3 - i);
      } else {
        AtEach(d, i, tok, 0);
        AtEach(d, i, tok, 1);
        FourLong(k);
      }
    }
  }

  lemma {:induction false} NoMethodInPreface(d: Bytes)
    requires IsPart(d)
    ensures First(METHODS, d) == -1
  {
    hide At;
    forall i: nat, k: nat | k < |METHODS| ensures !At(d, i, METHODS[k]) {
      NoMethodAt(d, i, k);
    }
  }

  lemma {:induction false} KeptWhenStuck<T(!new)>(toks: seq<Bytes>, parse: Parser<T>, d: Bytes, y: Bytes)
    requires SyncSafe(toks) && ScanFor(toks, parse)(d).found.NotReady? && LoopKept(toks, parse, d + y, [])
    ensures Kept(toks, parse, Sync(toks, Loop(ScanFor(toks, parse), d).rest + y).bytes, [])
  {
    hide SyncSafe, Kept;
    SyncHomomorphism(toks, d, y);
    assert Loop(ScanFor(toks, parse), d).rest == Sync(toks, d).bytes;
  }

  /** What the loop leaves of d, with y behind it, the parser meets on its way through d + y too. */
  lemma {:induction false} KeptAtCut<T(!new)>(toks: seq<Bytes>, parse: Parser<T>, d: Bytes, y: Bytes)
    requires SyncSafe(toks) && LoopKept(toks, parse, d, y) && LoopKept(toks, parse, d + y, [])
    ensures Kept(toks, parse, Sync(toks, Loop(ScanFor(toks, parse), d).rest + y).bytes, [])
    decreases |d|
  {
    hide SyncSafe, Kept, ScanFor, Sync;
    KeptForetells(toks, parse, d, y);
    var s := ScanFor(toks, parse)(d);
    if s.found.Ready? {
      var n := s.skipped + s.found.consumed;
      assert (d + y)[n..] == d[n..] + y;
      KeptAtCut(toks, parse, d[n..], y);
    } else {
      KeptWhenStuck(toks, parse, d, y);
    }
  }

  lemma {:induction false} NothingToParse(toks: seq<Bytes>, parse: Parser<Request>, d: Bytes)
    requires Kept(toks, parse, Tail(d), []) && First(toks, d) == -1
    ensures parse(Tail(d)).NotReady?
  {
    hide MarkAt;
    MarkAtSuffix(toks, d, |d| - |Tail(d)|, |d| - |Tail(d)|);
  }

  lemma {:induction false} NothingFound(toks: seq<Bytes>, parse: Parser<Request>, d: Bytes)
    requires First(toks, d) == -1 && parse(Tail(d)).NotReady?
    ensures Loop(ScanFor(toks, parse), d).messages == [] && Loop(ScanFor(toks, parse), d).rest == Tail(d)
  {
    assert Sync(toks, d) == Synced(Tail(d), |d| - |Tail(d)|);
  }

  lemma {:induction false} SyncKeepsTail(toks: seq<Bytes>, d: Bytes)
    requires First(toks, d) == -1
    ensures Sync(toks, d).bytes == Tail(d)
  {
  }

  lemma {:induction false} CutFindsNothing(toks: seq<Bytes>, parse: Parser<Request>, r: Bytes, k: nat)
    requires SyncSafe(toks) && KeptOn(toks, parse, r) && k <= |r|
    requires First(toks, Loop(ScanFor(toks, parse), r[..k]).rest + r[k..]) == -1
    ensures parse(Tail(Loop(ScanFor(toks, parse), r[..k]).rest + r[k..])).NotReady?
  {
    hide SyncSafe, First, Loop, Tail, LoopKept, Kept, Sync, ScanFor;
    var cut := Loop(ScanFor(toks, parse), r[..k]).rest + r[k..];
    assert LoopKept(toks, parse, r[..k], r[k..|r|]) && LoopKept(toks, parse, r[..|r|], r[|r|..|r|]);
    assert r[k..|r|] == r[k..] && r[..k] + r[k..] == r && r[..|r|] == r && r[|r|..|r|] == [];
    KeptAtCut(toks, parse, r[..k], r[k..]);
    SyncKeepsTail(toks, cut);
    NothingToParse(toks, parse, cut);
  }

  lemma {:induction false} CutIgnored(toks: seq<Bytes>, parse: Parser<Request>, r: Bytes, k: nat)
    requires SyncSafe(toks) && KeptOn(toks, parse, r) && k <= |r|
    requires First(toks, Loop(ScanFor(toks, parse), r[..k]).rest + r[k..]) == -1
    ensures var scan := ScanFor(toks, parse);
            var cut := Loop(scan, r[..k]).rest + r[k..];
            Loop(scan, cut).messages == [] && Loop(scan, cut).rest == Tail(cut)
  {
    hide SyncSafe, First, Loop, Tail, KeptOn, ScanFor;
    CutFindsNothing(toks, parse, r, k);
    NothingFound(toks, parse, Loop(ScanFor(toks, parse), r[..k]).rest + r[k..]);
  }

  lemma {:induction false} SourceIgnores(lib: Library, r: Bytes, k: nat)
    requires KeepsRequests(lib, r) && k <= |r| && IsPart(CutLeaves(EngineOf(lib), r, k))
    ensures Ignored(EngineOf(lib), CutLeaves(EngineOf(lib), r, k))
  {
    hide First, IsPart, Loop, Tail, KeptOn, ScanFor, SyncSafe;
    MethodsAreSyncSafe();
    NoMethodInPreface(CutLeaves(EngineOf(lib), r, k));
    CutIgnored(METHODS, RequestParser(lib), r, k);
  }

  lemma {:induction false} KeptOnFront<T(!new)>(toks: seq<Bytes>, parse: Parser<T>, w: Bytes, n: nat)
    requires KeptOn(toks, parse, w) && n <= |w|
    ensures KeptOn(toks, parse, w[..n])
  {
    hide LoopKept;
    forall j, k | 0 <= j <= k <= n ensures LoopKept(toks, parse, w[..n][..j], w[..n][j..k]) {
      assert w[..n][..j] == w[..j] && w[..n][j..k] == w[j..k];
    }
  }

  lemma {:induction false} KeepsFront(lib: Library, w: Bytes, n: nat)
    requires KeepsRequests(lib, w) && n <= |w|
    ensures KeepsRequests(lib, w[..n])
  {
    hide KeptOn;
    KeptOnFront(METHODS, RequestParser(lib), w, n);
  }

  lemma {:induction false} StreamsKeepRequests(lib: Library, r: Bytes, s: Bytes)
    requires KeepsStreams(lib, r, s)
    ensures KeepsRequests(lib, r)
  {
    hide KeepsRequests, AnswersKeptOn;
  }

  /** The source's loops ignore the starts of a preface in every stream in which the library keeps what it
      has recognised. */
  lemma {:induction false} SourceIsGood(lib: Library, r: Bytes, s: Bytes)
    requires KeepsStreams(lib, r, s)
    ensures Good(EngineOf(lib), r, s)
  {
    hide KeepsRequests, AnswersKeptOn, StableStreams, SettledEngine, Loop, EngineOf, CutLeaves, IsPart, Ignored;
    EngineOfIsStable(lib, r, s);
    EngineOfSettles(lib);
    forall j: nat, k: nat | k <= j <= |r| && IsPart(CutLeaves(EngineOf(lib), r[..j], k))
      ensures Ignored(EngineOf(lib), CutLeaves(EngineOf(lib), r[..j], k))
    {
      KeepsFront(lib, r, j);
      SourceIgnores(lib, r[..j], k);
    }
  }

  // ---- Buffers are ends of their streams --------------------------------------------------------

  lemma {:induction false} CandidateIsPart(d: Bytes)
    requires IsPrefaceCandidate(d) && !HasPreface(d)
    ensures IsPart(d) && |d| > 0
  {
  }

  lemma {:induction false} CutGrows(engine: Engine, r: Bytes, x: Bytes, k: nat)
    requires k <= |r|
    ensures CutLeaves(engine, r + x, k) == CutLeaves(engine, r, k) + x
    ensures EndsWith(r, CutLeaves(engine, r, k))
  {
    assert (r + x)[..k] == r[..k] && (r + x)[k..] == r[k..] + x;
    LoopLeavesEnd(engine.requests, r[..k]);
    EndGrows(r[..k], Left(engine, r[..k]), r[k..]);
    assert r[..k] + r[k..] == r;
  }

  lemma {:induction false} LeftOfCut(engine: Engine, r: Bytes, k: nat)
    requires StableOn(engine.requests, r) && k <= |r|
    ensures Left(engine, CutLeaves(engine, r, k)) == Left(engine, r)
  {
    hide LoopForetells, Loop;
    assert LoopForetells(engine.requests, r[..k], r[k..|r|]) && r[k..|r|] == r[k..];
    LoopComposes(engine.requests, r[..k], r[k..]);
    assert r[..k] + r[k..] == r;
  }

  lemma {:induction false} AnswersGrow(engine: Engine, r: Bytes, s: Bytes, x: Bytes, y: Bytes, j: nat, m: nat)
    requires j <= |r| && m <= |s|
    ensures AnswersLeave(engine, r + x, s + y, j, m) == AnswersLeave(engine, r, s, j, m) + y
    ensures EndsWith(s, AnswersLeave(engine, r, s, j, m))
  {
    hide Loop, AnswerLoop;
    var f, rs := engine.responses(false), Loop(engine.requests, r[..j]).messages;
    assert (r + x)[..j] == r[..j] && (s + y)[..m] == s[..m] && (s + y)[m..] == s[m..] + y;
    Associates(AnswerLoop(f, s[..m], rs).drained.rest, s[m..], y);
    AnswerLoopLeavesEnd(f, s[..m], rs);
    EndGrows(s[..m], AnswerLoop(f, s[..m], rs).drained.rest, s[m..]);
    assert s[..m] + s[m..] == s;
  }

  /** Without the preface anywhere in the two streams no cut leaves it. */
  lemma {:induction false} NowhereMeansNever(engine: Engine, r: Bytes, s: Bytes)
    requires forall j: nat :: !At(r, j, PREFACE) && !At(s, j, PREFACE)
    ensures NoRequestPreface(engine, r) && NoResponsePreface(engine, r, s)
  {
    hide At, HasPreface, CutLeaves, AnswersLeave;
    forall k: nat | k <= |r| ensures !HasPreface(CutLeaves(engine, r, k)) {
      CutGrows(engine, r, [], k);
      EndHasNone(r, CutLeaves(engine, r, k));
    }
    forall j: nat, m: nat | j <= |r| && m <= |s| ensures !HasPreface(AnswersLeave(engine, r, s, j, m)) {
      AnswersGrow(engine, r, s, [], [], j, m);
      EndHasNone(s, AnswersLeave(engine, r, s, j, m));
    }
  }

  lemma {:induction false} EndHasNone(d: Bytes, x: Bytes)
    requires EndsWith(d, x) && !At(d, |d| - |x|, PREFACE)
    ensures !HasPreface(x)
  {
    AtSuffix(d, |d| - |x|, |d| - |x|, PREFACE);
    assert At(x, 0, PREFACE) <==> HasPreface(x);
  }

  lemma {:induction false} NoRequestPrefaceFront(engine: Engine, r: Bytes, x: Bytes)
    requires NoRequestPreface(engine, r + x)
    ensures NoRequestPreface(engine, r)
  {
    hide HasPreface, CutLeaves;
    forall k: nat | k <= |r| ensures !HasPreface(CutLeaves(engine, r, k)) {
      CutGrows(engine, r, x, k);
      PrefaceStays(CutLeaves(engine, r, k), x);
    }
  }

  lemma {:induction false} NoResponsePrefaceFront(engine: Engine, r: Bytes, s: Bytes, x: Bytes, y: Bytes)
    requires NoResponsePreface(engine, r + x, s + y)
    ensures NoResponsePreface(engine, r, s)
  {
    hide HasPreface, AnswersLeave;
    forall j: nat, m: nat | j <= |r| && m <= |s| ensures !HasPreface(AnswersLeave(engine, r, s, j, m)) {
      AnswersGrow(engine, r, s, x, y, j, m);
      PrefaceStays(AnswersLeave(engine, r, s, j, m), y);
    }
  }

  lemma {:induction false} IgnoresFront(engine: Engine, r: Bytes, n: nat)
    requires IgnoresPreface(engine, r) && n <= |r|
    ensures IgnoresPreface(engine, r[..n])
  {
    hide CutLeaves, IsPart, Ignored;
    forall j: nat, k: nat | k <= j <= n && IsPart(CutLeaves(engine, r[..n][..j], k))
      ensures Ignored(engine, CutLeaves(engine, r[..n][..j], k))
    {
      assert r[..n][..j] == r[..j];
    }
  }

  lemma {:induction false} IgnoredCut(engine: Engine, r: Bytes, k: nat)
    requires IgnoresPreface(engine, r) && k <= |r| && IsPart(CutLeaves(engine, r, k))
    ensures Ignored(engine, CutLeaves(engine, r, k))
  {
    hide CutLeaves, IsPart, Ignored;
    assert r[..|r|] == r;
  }

  lemma {:induction false} GoodFront(engine: Engine, r: Bytes, s: Bytes, x: Bytes, y: Bytes)
    requires Good(engine, r + x, s + y)
    ensures Good(engine, r, s)
  {
    hide StableStreams, SettledEngine, IgnoresPreface;
    StableFront(engine, r, s, x, y);
    IgnoresFront(engine, r + x, |r|);
    assert (r + x)[..|r|] == r;
  }

  lemma {:induction false} PartFront(d: Bytes, x: Bytes)
    requires IsPart(d + x)
    ensures IsPart(d)
  {
    assert d == (d + x)[..|d|] == PREFACE[..|d + x|][..|d|];
  }

  lemma {:induction false} WholeCut(engine: Engine, r: Bytes)
    ensures CutLeaves(engine, r, |r|) == Left(engine, r)
  {
    assert r[..|r|] == r && r[|r|..] == [];
  }

  // ---- The condition in plain terms -----------------------------------------------------------------------

  /** At most 16 bytes are left of the start of a preface, and those are left again. */
  lemma {:induction false} LeftIsShort(engine: Engine, r: Bytes)
    requires StableOn(engine.requests, r) && IgnoresPreface(engine, r) && IsPart(Left(engine, r))
    ensures |Left(engine, r)| <= PROBE_WINDOW
  {
    hide StableOn, IgnoresPreface, IsPart, Left, CutLeaves;
    WholeCut(engine, r);
    IgnoredCut(engine, r, |r|);
    LeftOfCut(engine, r, |r|);
  }

  /** t bytes ago the request loop left the first 16 bytes of the preface, and they go on with it. */
  predicate HeldSince(engine: Engine, r: Bytes, t: nat) {
    && t <= |r| && PROBE_WINDOW + t < |PREFACE|
    && Left(engine, r[..|r| - t]) == PREFACE[..PROBE_WINDOW]
    && r[|r| - t..] == PREFACE[PROBE_WINDOW..PROBE_WINDOW + t]
  }

  lemma {:induction false} CutOfFront(engine: Engine, r: Bytes, k: nat, t: nat)
    requires k + t <= |r|
    ensures CutLeaves(engine, r, k) == CutLeaves(engine, r[..|r| - t], k) + r[|r| - t..]
  {
    hide Left;
    assert r[..|r| - t][..k] == r[..k];
    assert r[k..] == r[..|r| - t][k..] + r[|r| - t..];
  }

  lemma {:induction false} PartSplits(d: Bytes, x: Bytes)
    requires IsPart(d + x) && |d| == PROBE_WINDOW
    ensures d == PREFACE[..PROBE_WINDOW] && x == PREFACE[PROBE_WINDOW..PROBE_WINDOW + |x|]
    ensures IsPart(d) && Tail(d) == d && PROBE_WINDOW + |x| < |PREFACE|
  {
    PartFront(d, x);
    assert x == (d + x)[|d|..] == PREFACE[..|d + x|][|d|..];
  }

  lemma {:induction false} LongCut(engine: Engine, r: Bytes, k: nat)
    requires StableOn(engine.requests, r) && IgnoresPreface(engine, r)
    requires k <= |r| && IsPart(CutLeaves(engine, r, k)) && |CutLeaves(engine, r, k)| > PROBE_WINDOW
    ensures HeldSince(engine, r, |CutLeaves(engine, r, k)| - PROBE_WINDOW)
  {
    hide StableOn, IgnoresPreface, Left, IsPart, Tail;
    StableOnPart(engine, r, k);
    IgnoresFront(engine, r, k);
    var t := |CutLeaves(engine, r, k)| - PROBE_WINDOW;
    PartFront(Left(engine, r[..k]), r[k..]);
    LeftIsShort(engine, r[..k]);
    var q, x := r[..|r| - t], r[|r| - t..];
    CutOfFront(engine, r, k, t);
    PartSplits(CutLeaves(engine, q, k), x);
    StableOnPart(engine, r, |r| - t);
    IgnoresFront(engine, r, |r| - t);
    IgnoredCut(engine, q, k);
    LeftOfCut(engine, q, k);
  }

  lemma {:induction false} StableOnPart(engine: Engine, r: Bytes, n: nat)
    requires StableOn(engine.requests, r) && n <= |r|
    ensures StableOn(engine.requests, r[..n])
  {
    assert r[..n] + r[n..] == r;
    StableOnFront(engine.requests, r[..n], r[n..]);
  }

  /** A stream can be held back exactly when draining it leaves the start of a preface, up to 16 bytes, or
      did so up to seven bytes before its end and those bytes only continue the preface. */
  lemma {:induction false} CanBeHeldIff(engine: Engine, r: Bytes)
    requires StableOn(engine.requests, r) && IgnoresPreface(engine, r) && NoRequestPreface(engine, r)
    ensures CanBeHeld(engine, r)
       <==> IsPrefaceCandidate(Left(engine, r)) || exists t: nat :: 1 <= t <= 7 && HeldSince(engine, r, t)
  {
    hide StableOn, IgnoresPreface, Left, CutLeaves, HeldSince, IsPart, IsPrefaceCandidate, HasPreface;
    WholeCut(engine, r);
    if CanBeHeld(engine, r) {
      var k: nat :| k <= |r| && IsPrefaceCandidate(CutLeaves(engine, r, k));
      CandidateIsPart(CutLeaves(engine, r, k));
      LeftOfCut(engine, r, k);
      ShortCut(engine, r, k);
    }
    if t: nat :| 1 <= t <= 7 && HeldSince(engine, r, t) {
      SinceIsCut(engine, r, t);
    }
  }

  lemma {:induction false} ShortCut(engine: Engine, r: Bytes, k: nat)
    requires StableOn(engine.requests, r) && IgnoresPreface(engine, r)
    requires k <= |r| && IsPart(CutLeaves(engine, r, k)) && |CutLeaves(engine, r, k)| > 0
    ensures IsPrefaceCandidate(Left(engine, r)) || exists t: nat :: 1 <= t <= 7 && HeldSince(engine, r, t)
  {
    hide StableOn, IgnoresPreface, Left, CutLeaves, HeldSince;
    if |CutLeaves(engine, r, k)| <= PROBE_WINDOW {
      IgnoredCut(engine, r, k);
      LeftOfCut(engine, r, k);
    } else {
      LongCut(engine, r, k);
      assert |PREFACE| == 24;
    }
  }

  lemma {:induction false} SinceIsCut(engine: Engine, r: Bytes, t: nat)
    requires HeldSince(engine, r, t)
    ensures t <= |r| && IsPrefaceCandidate(CutLeaves(engine, r, |r| - t))
  {
    var n := PROBE_WINDOW + t;
    assert PREFACE[..PROBE_WINDOW] + PREFACE[PROBE_WINDOW..n] == PREFACE[..n];
  }
}
