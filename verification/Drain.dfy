/** The two parse loops of drainParsedConversations as functions of their buffers, and why
    running them early or late makes no difference. */
module Drain {
  import opened HttpTokens
  import opened HttpParsing

  // ---- One turn of a loop: resynchronise on a token set, then try to parse ----

  type Parser<T> = f: Bytes -> Parsed<T> | forall d :: f(d).Ready? ==> 0 < f(d).consumed <= |d|
    witness (d: Bytes) => NotReady

  datatype Scan<+T> = Scan(skipped: nat, found: Parsed<T>)

  predicate Fits<T>(d: Bytes, s: Scan<T>) {
    s.skipped <= |d| && (s.found.Ready? ==> 0 < s.found.consumed <= |d| - s.skipped)
  }

  type Scanner<T> = f: Bytes -> Scan<T> | forall d :: Fits(d, f(d))
    witness (d: Bytes) => Scan(0, NotReady)

  function ScanFor<T>(toks: seq<Bytes>, parse: Parser<T>): Scanner<T> {
    var scan := (d: Bytes) => Scan(Sync(toks, d).dropped, parse(Sync(toks, d).bytes));
    assert forall d :: Fits(d, scan(d)) by {
      forall d ensures Fits(d, scan(d)) {
        var s := Sync(toks, d);
        assert parse(s.bytes).Ready? ==> 0 < parse(s.bytes).consumed <= |s.bytes|;
      }
    }
    scan
  }

  // ---- The loops --------------------------------------------------------------

  datatype Drained<T> = Drained(rest: Bytes, messages: seq<T>, trimmed: nat, consumed: nat) {
    /** This drain, and after it another one. */
    function Then(later: Drained<T>): Drained<T> {
      Drained(later.rest, messages + later.messages, trimmed + later.trimmed, consumed + later.consumed)
    }
  }

  function Took<T>(m: T, trimmed: nat, consumed: nat): Drained<T> {
    Drained([], [m], trimmed, consumed)
  }

  /** The request loop. Every byte is trimmed, consumed or kept. */
  function Loop<T>(scan: Scanner<T>, d: Bytes): (r: Drained<T>)
    ensures |d| == r.trimmed + r.consumed + |r.rest|
    decreases |d|
  {
    var s := scan(d);
    if s.found.NotReady? then Drained(d[s.skipped..], [], s.skipped, 0)
    else Took(s.found.value, s.skipped, s.found.consumed).Then(Loop(scan, d[s.skipped + s.found.consumed..]))
  }

  /** What the response loop did, and the requests still waiting after it. */
  datatype Answered<Q, T> = Answered(drained: Drained<T>, left: seq<Q>)

  /** The response loop: one answer for each waiting request, oldest first. The buffer is not
      even resynchronised while no request waits. */
  function AnswerLoop<Q, T>(scanFor: Q -> Scanner<T>, d: Bytes, waiting: seq<Q>): (r: Answered<Q, T>)
    decreases |waiting|
  {
    if |waiting| == 0 then Answered(Drained(d, [], 0, 0), waiting)
    else
      var s := scanFor(waiting[0])(d);
      if s.found.NotReady? then Answered(Drained(d[s.skipped..], [], s.skipped, 0), waiting)
      else
        var tail := AnswerLoop(scanFor, d[s.skipped + s.found.consumed..], waiting[1..]);
        Answered(Took(s.found.value, s.skipped, s.found.consumed).Then(tail.drained), tail.left)
  }

  /** First in, first out: k answers leave all requests but the first k, and no byte is lost. */
  lemma {:induction false} AnswerLoopCounts<Q, T>(scanFor: Q -> Scanner<T>, d: Bytes, waiting: seq<Q>)
    ensures var r := AnswerLoop(scanFor, d, waiting);
            && |d| == r.drained.trimmed + r.drained.consumed + |r.drained.rest|
            && |r.drained.messages| <= |waiting|
            && r.left == waiting[|r.drained.messages|..]
    decreases |waiting|
  {
    if |waiting| > 0 {
      var s := scanFor(waiting[0])(d);
      if s.found.Ready? {
        AnswerLoopCounts(scanFor, d[s.skipped + s.found.consumed..], waiting[1..]);
      }
    }
  }

  // ---- In the order of the bytes ------------------------------------------------

  function EndBefore(ends: seq<nat>, k: nat): nat
    requires k <= |ends|
  {
    if k == 0 then 0 else ends[k - 1]
  }

  /** What a turn finds at position b of d is m, and ends at e. */
  ghost predicate Between<T(!new)>(turn: Scanner<T>, d: Bytes, b: nat, e: nat, m: T) {
    && b <= e <= |d| && turn(d[b..]).found.Ready? && turn(d[b..]).found.value == m
    && b + turn(d[b..]).skipped + turn(d[b..]).found.consumed == e
  }

  /** Message k is what turn k finds where message k - 1 has ended, and ends at ends[k]. */
  ghost predicate OneAfterAnother<T(!new)>(turns: seq<Scanner<T>>, d: Bytes, ms: seq<T>, ends: seq<nat>) {
    |ends| == |ms| <= |turns| && forall k :: 0 <= k < |ms| ==> Between(turns[k], d, EndBefore(ends, k), ends[k], ms[k])
  }

  lemma {:induction false} BetweenFurther<T(!new)>(turn: Scanner<T>, d: Bytes, n: nat, b: nat, e: nat, m: T)
    requires n <= |d| && Between(turn, d[n..], b, e, m)
    ensures Between(turn, d, n + b, n + e, m)
  {
    assert d[n + b..] == d[n..][b..];
  }

  function Shift(n: nat, ends: seq<nat>): (all: seq<nat>)
    ensures |all| == |ends| + 1 && all[0] == n && forall k :: 0 <= k < |ends| ==> all[k + 1] == n + ends[k]
  {
    [n] + seq(|ends|, k requires 0 <= k < |ends| => n + ends[k])
  }

  lemma {:induction false} EachBetween<T(!new)>(turns: seq<Scanner<T>>, d: Bytes, ms: seq<T>, ends: seq<nat>, k: nat)
    requires OneAfterAnother(turns, d, ms, ends) && k < |ms|
    ensures |ends| == |ms| <= |turns| && Between(turns[k], d, EndBefore(ends, k), ends[k], ms[k])
  {
    hide Between, EndBefore;
  }

  lemma {:induction false} TailBetween<T(!new)>(turns: seq<Scanner<T>>, d: Bytes, n: nat, ms: seq<T>, ends: seq<nat>, k: nat)
    requires |turns| > 0 && n <= |d| && OneAfterAnother(turns[1..], d[n..], ms, ends) && k < |ms|
    ensures |ends| == |ms| < |turns| && Between(turns[k + 1], d, EndBefore(Shift(n, ends), k + 1), Shift(n, ends)[k + 1], ms[k])
  {
    hide Between, OneAfterAnother, Shift;
    EachBetween(turns[1..], d[n..], ms, ends, k);
    BetweenFurther(turns[1..][k], d, n, EndBefore(ends, k), ends[k], ms[k]);
  }

  lemma {:induction false} AllBetween<T(!new)>(turns: seq<Scanner<T>>, d: Bytes, ms: seq<T>, ends: seq<nat>)
    requires |ends| == |ms| <= |turns| && forall k :: 0 <= k < |ms| ==> Between(turns[k], d, EndBefore(ends, k), ends[k], ms[k])
    ensures OneAfterAnother(turns, d, ms, ends)
  {
  }

  lemma {:induction false} ThenTheRest<T(!new)>(turns: seq<Scanner<T>>, d: Bytes, m: T, n: nat, ms: seq<T>, ends: seq<nat>)
    requires |turns| > 0 && Between(turns[0], d, 0, n, m) && n <= |d| && OneAfterAnother(turns[1..], d[n..], ms, ends)
    ensures OneAfterAnother(turns, d, [m] + ms, Shift(n, ends))
    ensures EndBefore(Shift(n, ends), |ends| + 1) == n + EndBefore(ends, |ends|)
  {
    hide Between, OneAfterAnother;
    SameLengths(turns[1..], d[n..], ms, ends);
    var all := Shift(n, ends);
    forall k | 0 <= k < |ms| + 1 ensures Between(turns[k], d, EndBefore(all, k), all[k], ([m] + ms)[k]) {
      if k > 0 {
        TailBetween(turns, d, n, ms, ends, k - 1);
      }
    }
    AllBetween(turns, d, [m] + ms, all);
  }

  lemma {:induction false} SameLengths<T(!new)>(turns: seq<Scanner<T>>, d: Bytes, ms: seq<T>, ends: seq<nat>)
    requires OneAfterAnother(turns, d, ms, ends)
    ensures |ends| == |ms| <= |turns|
  {
  }

  lemma {:induction false} FirstTurn<T(!new)>(turn: Scanner<T>, d: Bytes)
    requires turn(d).found.Ready?
    ensures var s := turn(d); Between(turn, d, 0, s.skipped + s.found.consumed, s.found.value) && s.skipped + s.found.consumed <= |d|
  {
    assert Fits(d, turn(d)) && d[0..] == d;
  }

  lemma {:induction false} NoneAfter<T(!new)>(turns: seq<Scanner<T>>, d: Bytes)
    ensures OneAfterAnother(turns, d, [], [])
  {
  }

  /** Where the loops stop: behind the last message, at bytes in which the next turn finds nothing. */
  ghost predicate StopsAt<T(!new)>(turn: Scanner<T>, d: Bytes, e: nat, rest: Bytes) {
    e <= |d| && turn(d[e..]).found.NotReady? && Fits(d[e..], turn(d[e..])) && rest == d[e..][turn(d[e..]).skipped..]
  }

  lemma {:induction false} StopsFurther<T(!new)>(turn: Scanner<T>, d: Bytes, n: nat, e: nat, rest: Bytes)
    requires n <= |d| && StopsAt(turn, d[n..], e, rest)
    ensures StopsAt(turn, d, n + e, rest)
  {
    assert d[n + e..] == d[n..][e..];
  }

  lemma {:induction false} StopsHere<T(!new)>(turn: Scanner<T>, d: Bytes)
    requires turn(d).found.NotReady?
    ensures StopsAt(turn, d, 0, d[turn(d).skipped..])
  {
    assert Fits(d, turn(d)) && d[0..] == d;
  }

  /** The request loop reads its messages one after another from the front of the buffer, until a turn finds none. */
  lemma {:induction false} LoopInOrder<T(!new)>(scan: Scanner<T>, d: Bytes) returns (ends: seq<nat>)
    ensures var r := Loop(scan, d);
            OneAfterAnother(seq(|r.messages|, _ => scan), d, r.messages, ends) && StopsAt(scan, d, EndBefore(ends, |ends|), r.rest)
    decreases |d|
  {
    hide OneAfterAnother, StopsAt, Between;
    var s := scan(d);
    if s.found.NotReady? {
      ends := [];
      NoneAfter(seq(0, _ => scan), d);
      StopsHere(scan, d);
    } else {
      var n, ms := s.skipped + s.found.consumed, Loop(scan, d[s.skipped + s.found.consumed..]).messages;
      var turns := seq(|ms| + 1, _ => scan);
      FirstTurn(scan, d);
      var later := LoopInOrder(scan, d[n..]);
      assert turns[1..] == seq(|ms|, _ => scan);
      ThenTheRest(turns, d, s.found.value, n, ms, later);
      StopsFurther(scan, d, n, EndBefore(later, |later|), Loop(scan, d).rest);
      ends := Shift(n, later);
    }
  }

  function Turns<Q, T>(scanFor: Q -> Scanner<T>, waiting: seq<Q>): (turns: seq<Scanner<T>>)
    ensures |turns| == |waiting| && forall i :: 0 <= i < |waiting| ==> turns[i] == scanFor(waiting[i])
  {
    seq(|waiting|, i requires 0 <= i < |waiting| => scanFor(waiting[i]))
  }

  lemma {:induction false} LaterTurns<Q, T>(scanFor: Q -> Scanner<T>, waiting: seq<Q>)
    requires |waiting| > 0
    ensures Turns(scanFor, waiting)[0] == scanFor(waiting[0]) && Turns(scanFor, waiting)[1..] == Turns(scanFor, waiting[1..])
  {
  }

  /** Where the response loop stops: when no request waits any more, or as the request loop does. */
  ghost predicate AnswersStopAt<Q, T(!new)>(scanFor: Q -> Scanner<T>, waiting: seq<Q>, k: nat, d: Bytes, e: nat, rest: Bytes) {
    && k <= |waiting| && e <= |d|
    && if k < |waiting| then StopsAt(scanFor(waiting[k]), d, e, rest) else rest == d[e..]
  }

  lemma {:induction false} AnswersStopFurther<Q, T(!new)>(scanFor: Q -> Scanner<T>, waiting: seq<Q>, k: nat, d: Bytes, n: nat, e: nat, rest: Bytes)
    requires |waiting| > 0 && n <= |d| && AnswersStopAt(scanFor, waiting[1..], k, d[n..], e, rest)
    ensures AnswersStopAt(scanFor, waiting, k + 1, d, n + e, rest)
  {
    hide StopsAt;
    if k < |waiting[1..]| {
      StopsFurther(scanFor(waiting[1..][k]), d, n, e, rest);
    } else {
      assert d[n + e..] == d[n..][e..];
    }
  }

  lemma {:induction false} AnswersStopHere<Q, T(!new)>(scanFor: Q -> Scanner<T>, waiting: seq<Q>, d: Bytes)
    requires |waiting| > 0 ==> scanFor(waiting[0])(d).found.NotReady?
    ensures AnswersStopAt(scanFor, waiting, 0, d, 0, if |waiting| > 0 then d[scanFor(waiting[0])(d).skipped..] else d)
  {
    hide StopsAt;
    if |waiting| > 0 {
      StopsHere(scanFor(waiting[0]), d);
    } else {
      assert d[0..] == d;
    }
  }

  /** The response loop does the same, message k as the answer to the k-th request that waits, until no request
      waits or a turn finds none. */
  lemma {:induction false} AnswersInOrder<Q, T(!new)>(scanFor: Q -> Scanner<T>, d: Bytes, waiting: seq<Q>) returns (ends: seq<nat>)
    ensures var a := AnswerLoop(scanFor, d, waiting).drained;
            && OneAfterAnother(Turns(scanFor, waiting), d, a.messages, ends)
            && AnswersStopAt(scanFor, waiting, |a.messages|, d, EndBefore(ends, |ends|), a.rest)
    decreases |waiting|
  {
    hide OneAfterAnother, Between, Turns, StopsAt, AnswersStopAt;
    ends := [];
    NoneAfter(Turns(scanFor, waiting), d);
    if |waiting| == 0 {
      AnswersStopHere(scanFor, waiting, d);
    } else {
      var s := scanFor(waiting[0])(d);
      if s.found.NotReady? {
        AnswersStopHere(scanFor, waiting, d);
      } else {
        var n, tail := s.skipped + s.found.consumed, waiting[1..];
        FirstTurn(scanFor(waiting[0]), d);
        var later := AnswersInOrder(scanFor, d[n..], tail);
        var a := AnswerLoop(scanFor, d[n..], tail).drained;
        LaterTurns(scanFor, waiting);
        SameLengths(Turns(scanFor, tail), d[n..], a.messages, later);
        ThenTheRest(Turns(scanFor, waiting), d, s.found.value, n, a.messages, later);
        AnswersStopFurther(scanFor, waiting, |a.messages|, d, n, EndBefore(later, |later|), a.rest);
        ends := Shift(n, later);
      }
    }
  }

  // ---- What is left is an end of the buffer -----------------------------------

  predicate EndsWith(d: Bytes, x: Bytes) {
    |x| <= |d| && d[|d| - |x|..] == x
  }

  lemma {:induction false} NothingEnds(d: Bytes)
    ensures EndsWith(d, [])
  {
  }

  lemma {:induction false} EndOfEnd(d: Bytes, x: Bytes, y: Bytes)
    requires EndsWith(d, x) && EndsWith(x, y)
    ensures EndsWith(d, y)
  {
    assert d[|d| - |y|..] == d[|d| - |x|..][|x| - |y|..];
  }

  lemma {:induction false} LoopLeavesEnd<T>(scan: Scanner<T>, d: Bytes)
    ensures EndsWith(d, Loop(scan, d).rest)
    decreases |d|
  {
    var s := scan(d);
    if s.found.Ready? {
      LoopLeavesEnd(scan, d[s.skipped + s.found.consumed..]);
    }
  }

  lemma {:induction false} AnswerLoopLeavesEnd<Q, T>(scanFor: Q -> Scanner<T>, d: Bytes, waiting: seq<Q>)
    ensures EndsWith(d, AnswerLoop(scanFor, d, waiting).drained.rest)
    decreases |waiting|
  {
    if |waiting| > 0 {
      var s := scanFor(waiting[0])(d);
      if s.found.Ready? {
        AnswerLoopLeavesEnd(scanFor, d[s.skipped + s.found.consumed..], waiting[1..]);
      }
    }
  }

  lemma {:induction false} EndGrows(d: Bytes, x: Bytes, y: Bytes)
    requires EndsWith(d, x)
    ensures EndsWith(d + y, x + y)
  {
    assert (d + y)[|d + y| - |x + y|..] == d[|d| - |x|..] + y;
  }

  // ---- Draining early is draining late ----------------------------------------

  /** What a turn on d says about a turn on d + x: a message found is found again; without
      one, the skipped bytes are skipped either way. */
  ghost predicate Foretells<T(!new)>(scan: Scanner<T>, d: Bytes, x: Bytes) {
    var now, later := scan(d), scan(d + x);
    if now.found.Ready? then later == now
    else
      var afresh := scan(d[now.skipped..] + x);
      later == afresh.(skipped := now.skipped + afresh.skipped)
  }

  /** Every turn of the loop on d foretells what it does on d + x. */
  ghost predicate LoopForetells<T(!new)>(scan: Scanner<T>, d: Bytes, x: Bytes)
    decreases |d|
  {
    var s := scan(d);
    Foretells(scan, d, x) && (s.found.Ready? ==> LoopForetells(scan, d[s.skipped + s.found.consumed..], x))
  }

  ghost predicate AnswersForetell<Q(!new), T(!new)>(scanFor: Q -> Scanner<T>, d: Bytes, x: Bytes, waiting: seq<Q>)
    decreases |waiting|
  {
    |waiting| == 0 ||
    var s := scanFor(waiting[0])(d);
    && Foretells(scanFor(waiting[0]), d, x)
    && (s.found.Ready? ==> AnswersForetell(scanFor, d[s.skipped + s.found.consumed..], x, waiting[1..]))
  }

  /** Wherever the stream w is cut in two, and wherever it ends, the loop on the first part foretells. */
  ghost predicate StableOn<T(!new)>(scan: Scanner<T>, w: Bytes) {
    forall j, k :: 0 <= j <= k <= |w| ==> LoopForetells(scan, w[..j], w[j..k])
  }

  ghost predicate AnswersStableOn<Q(!new), T(!new)>(scanFor: Q -> Scanner<T>, w: Bytes, waiting: seq<Q>) {
    forall j, k :: 0 <= j <= k <= |w| ==> AnswersForetell(scanFor, w[..j], w[j..k], waiting)
  }

  lemma {:induction false} StableOnFront<T(!new)>(scan: Scanner<T>, w: Bytes, x: Bytes)
    requires StableOn(scan, w + x)
    ensures StableOn(scan, w) && LoopForetells(scan, w, x)
  {
    hide LoopForetells;
    var all := w + x;
    assert LoopForetells(scan, all[..|w|], all[|w|..|all|]);
    assert all[..|w|] == w && all[|w|..|all|] == x;
    forall j, k | 0 <= j <= k <= |w| ensures LoopForetells(scan, w[..j], w[j..k]) {
      assert all[..j] == w[..j] && all[j..k] == w[j..k];
    }
  }

  lemma {:induction false} AnswersStableOnFront<Q(!new), T(!new)>(scanFor: Q -> Scanner<T>, w: Bytes, x: Bytes, waiting: seq<Q>, more: seq<Q>)
    requires AnswersStableOn(scanFor, w + x, waiting + more)
    ensures AnswersStableOn(scanFor, w, waiting) && AnswersForetell(scanFor, w, x, waiting)
  {
    hide AnswersForetell;
    var all := w + x;
    assert AnswersForetell(scanFor, all[..|w|], all[|w|..|all|], waiting + more);
    assert all[..|w|] == w && all[|w|..|all|] == x;
    FewerForetell(scanFor, w, x, waiting, more);
    forall j, k | 0 <= j <= k <= |w| ensures AnswersForetell(scanFor, w[..j], w[j..k], waiting) {
      assert all[..j] == w[..j] && all[j..k] == w[j..k];
      FewerForetell(scanFor, w[..j], w[j..k], waiting, more);
    }
  }

  lemma {:induction false} FewerForetell<Q(!new), T(!new)>(scanFor: Q -> Scanner<T>, d: Bytes, x: Bytes, waiting: seq<Q>, more: seq<Q>)
    requires AnswersForetell(scanFor, d, x, waiting + more)
    ensures AnswersForetell(scanFor, d, x, waiting)
    decreases |waiting|
  {
    if |waiting| > 0 {
      assert (waiting + more)[0] == waiting[0] && (waiting + more)[1..] == waiting[1..] + more;
      var s := scanFor(waiting[0])(d);
      if s.found.Ready? {
        FewerForetell(scanFor, d[s.skipped + s.found.consumed..], x, waiting[1..], more);
      }
    }
  }

  lemma {:induction false} ThenAssociates<T>(a: Drained<T>, b: Drained<T>, c: Drained<T>)
    ensures a.Then(b).Then(c) == a.Then(b.Then(c))
  {
    assert a.messages + (b.messages + c.messages) == (a.messages + b.messages) + c.messages;
  }

  lemma {:induction false} ThenAfterNothing<T>(n: nat, rest: Bytes, b: Drained<T>)
    ensures Drained(rest, [], n, 0).Then(b) == b.(trimmed := n + b.trimmed)
  {
    assert [] + b.messages == b.messages;
  }

  /** Bytes that a turn would skip anyway may be gone before the loop starts. */
  lemma {:induction false} LoopSkips<T>(scan: Scanner<T>, w: Bytes, m: nat)
    requires m <= |w|
    requires var s := scan(w[m..]); scan(w) == s.(skipped := m + s.skipped)
    ensures var after := Loop(scan, w[m..]); Loop(scan, w) == after.(trimmed := m + after.trimmed)
  {
    var s := scan(w[m..]);
    if s.found.Ready? {
      var n := s.skipped + s.found.consumed;
      assert w[m..][n..] == w[m + n..];
    } else {
      assert w[m..][s.skipped..] == w[m + s.skipped..];
    }
  }

  /** A message found in d is taken first from d + x. */
  lemma {:induction false} LoopTakes<T(!new)>(scan: Scanner<T>, d: Bytes, x: Bytes)
    requires Foretells(scan, d, x) && scan(d).found.Ready?
    ensures var s := scan(d);
            var n := s.skipped + s.found.consumed;
            Loop(scan, d + x) == Took(s.found.value, s.skipped, s.found.consumed).Then(Loop(scan, d[n..] + x))
  {
    var n := scan(d).skipped + scan(d).found.consumed;
    assert (d + x)[n..] == d[n..] + x;
  }

  lemma {:induction false} AnswerLoopSkips<Q, T>(scanFor: Q -> Scanner<T>, w: Bytes, m: nat, waiting: seq<Q>)
    requires m <= |w| && |waiting| > 0
    requires var s := scanFor(waiting[0])(w[m..]); scanFor(waiting[0])(w) == s.(skipped := m + s.skipped)
    ensures var after := AnswerLoop(scanFor, w[m..], waiting);
            AnswerLoop(scanFor, w, waiting)
              == after.(drained := after.drained.(trimmed := m + after.drained.trimmed))
  {
    var s := scanFor(waiting[0])(w[m..]);
    if s.found.Ready? {
      var n := s.skipped + s.found.consumed;
      assert w[m..][n..] == w[m + n..];
    } else {
      assert w[m..][s.skipped..] == w[m + s.skipped..];
    }
  }

  /** Draining d, and later what is left of it together with x, is draining d + x once. */
  lemma {:induction false} LoopComposes<T(!new)>(scan: Scanner<T>, d: Bytes, x: Bytes)
    requires LoopForetells(scan, d, x)
    ensures var now := Loop(scan, d);
            Loop(scan, d + x) == now.Then(Loop(scan, now.rest + x))
    decreases |d|
  {
    var s := scan(d);
    if s.found.Ready? {
      var n := s.skipped + s.found.consumed;
      LoopTakes(scan, d, x);
      LoopComposes(scan, d[n..], x);
      var tail := Loop(scan, d[n..]);
      ThenAssociates(Took(s.found.value, s.skipped, s.found.consumed), tail, Loop(scan, tail.rest + x));
    } else {
      assert (d + x)[s.skipped..] == d[s.skipped..] + x;
      LoopSkips(scan, d + x, s.skipped);
      ThenAfterNothing(s.skipped, d[s.skipped..], Loop(scan, d[s.skipped..] + x));
    }
  }

  /** A response found in d answers the oldest request first from d + x. */
  lemma {:induction false} AnswerLoopTakes<Q, T(!new)>(scanFor: Q -> Scanner<T>, d: Bytes, x: Bytes, waiting: seq<Q>, more: seq<Q>)
    requires |waiting| > 0 && Foretells(scanFor(waiting[0]), d, x) && scanFor(waiting[0])(d).found.Ready?
    ensures var s := scanFor(waiting[0])(d);
            var tail := AnswerLoop(scanFor, d[s.skipped + s.found.consumed..] + x, waiting[1..] + more);
            AnswerLoop(scanFor, d + x, waiting + more)
              == Answered(Took(s.found.value, s.skipped, s.found.consumed).Then(tail.drained), tail.left)
  {
    var n := scanFor(waiting[0])(d).skipped + scanFor(waiting[0])(d).found.consumed;
    assert (d + x)[n..] == d[n..] + x;
    assert (waiting + more)[1..] == waiting[1..] + more;
  }

  /** Answering from d, then from what is left and x once more requests wait, is answering
      all of them from d + x. */
  ghost predicate AnswersCompose<Q(!new), T(!new)>(scanFor: Q -> Scanner<T>, d: Bytes, x: Bytes, waiting: seq<Q>, more: seq<Q>) {
    var now := AnswerLoop(scanFor, d, waiting);
    var later := AnswerLoop(scanFor, now.drained.rest + x, now.left + more);
    AnswerLoop(scanFor, d + x, waiting + more) == Answered(now.drained.Then(later.drained), later.left)
  }

  lemma {:induction false} AnswersComposeAfterOne<Q(!new), T(!new)>(scanFor: Q -> Scanner<T>, d: Bytes, x: Bytes, waiting: seq<Q>, more: seq<Q>)
    requires |waiting| > 0 && Foretells(scanFor(waiting[0]), d, x) && scanFor(waiting[0])(d).found.Ready?
    requires var s := scanFor(waiting[0])(d);
             AnswersCompose(scanFor, d[s.skipped + s.found.consumed..], x, waiting[1..], more)
    ensures AnswersCompose(scanFor, d, x, waiting, more)
  {
    AnswerLoopTakes(scanFor, d, x, waiting, more);
    var s := scanFor(waiting[0])(d);
    var tail := AnswerLoop(scanFor, d[s.skipped + s.found.consumed..], waiting[1..]);
    var later := AnswerLoop(scanFor, tail.drained.rest + x, tail.left + more);
    ThenAssociates(Took(s.found.value, s.skipped, s.found.consumed), tail.drained, later.drained);
  }

  lemma {:induction false} AnswersComposeWhenStuck<Q(!new), T(!new)>(scanFor: Q -> Scanner<T>, d: Bytes, x: Bytes, waiting: seq<Q>, more: seq<Q>)
    requires |waiting| > 0 && Foretells(scanFor(waiting[0]), d, x) && scanFor(waiting[0])(d).found.NotReady?
    ensures AnswersCompose(scanFor, d, x, waiting, more)
  {
    var s := scanFor(waiting[0])(d);
    assert (d + x)[s.skipped..] == d[s.skipped..] + x;
    AnswerLoopSkips(scanFor, d + x, s.skipped, waiting + more);
    ThenAfterNothing(s.skipped, d[s.skipped..], AnswerLoop(scanFor, d[s.skipped..] + x, waiting + more).drained);
  }

  lemma {:induction false} AnswerLoopComposes<Q(!new), T(!new)>(scanFor: Q -> Scanner<T>, d: Bytes, x: Bytes, waiting: seq<Q>, more: seq<Q>)
    requires AnswersForetell(scanFor, d, x, waiting)
    ensures AnswersCompose(scanFor, d, x, waiting, more)
    decreases |waiting|
  {
    if |waiting| == 0 {
      assert waiting + more == more;
      ThenAfterNothing(0, d, AnswerLoop(scanFor, d + x, more).drained);
    } else {
      var s := scanFor(waiting[0])(d);
      if s.found.Ready? {
        AnswerLoopComposes(scanFor, d[s.skipped + s.found.consumed..], x, waiting[1..], more);
        AnswersComposeAfterOne(scanFor, d, x, waiting, more);
      } else {
        AnswersComposeWhenStuck(scanFor, d, x, waiting, more);
      }
    }
  }

  // ---- What a drain leaves behind, a second drain leaves alone -----------------

  ghost predicate Settles<T(!new)>(scan: Scanner<T>, d: Bytes) {
    scan(d).found.NotReady? ==> scan(d[scan(d).skipped..]) == Scan(0, NotReady)
  }

  ghost predicate SettledScan<T(!new)>(scan: Scanner<T>) {
    forall d :: Settles(scan, d)
  }

  lemma {:induction false} LoopSettles<T(!new)>(scan: Scanner<T>, d: Bytes)
    requires SettledScan(scan)
    ensures var r := Loop(scan, d).rest; Loop(scan, r) == Drained(r, [], 0, 0)
    decreases |d|
  {
    var s := scan(d);
    if s.found.Ready? {
      LoopSettles(scan, d[s.skipped + s.found.consumed..]);
    } else {
      assert Settles(scan, d);
    }
  }

  lemma {:induction false} AnswerLoopSettles<Q(!new), T(!new)>(scanFor: Q -> Scanner<T>, d: Bytes, waiting: seq<Q>)
    requires forall q :: SettledScan(scanFor(q))
    ensures var r := AnswerLoop(scanFor, d, waiting);
            AnswerLoop(scanFor, r.drained.rest, r.left) == Answered(Drained(r.drained.rest, [], 0, 0), r.left)
    decreases |waiting|
  {
    if |waiting| > 0 {
      var s := scanFor(waiting[0])(d);
      if s.found.Ready? {
        AnswerLoopSettles(scanFor, d[s.skipped + s.found.consumed..], waiting[1..]);
      } else {
        assert Settles(scanFor(waiting[0]), d);
      }
    }
  }

  // ---- Scanning on a safe token set is stable and settles ----------------------

  ghost predicate Kept<T(!new)>(toks: seq<Bytes>, parse: Parser<T>, d: Bytes, x: Bytes) {
    parse(d).Ready? ==> MarkAt(toks, d, 0) && parse(d + x) == parse(d)
  }

  /** The same for every buffer the loop hands to the parser on its way through d. */
  ghost predicate LoopKept<T(!new)>(toks: seq<Bytes>, parse: Parser<T>, d: Bytes, x: Bytes)
    decreases |d|
  {
    var s := ScanFor(toks, parse)(d);
    && Kept(toks, parse, Sync(toks, d).bytes, x)
    && (s.found.Ready? ==> LoopKept(toks, parse, d[s.skipped + s.found.consumed..], x))
  }

  ghost predicate AnswersKept<Q(!new), T(!new)>(toks: seq<Bytes>, parseFor: Q -> Parser<T>, d: Bytes, x: Bytes, waiting: seq<Q>)
    decreases |waiting|
  {
    |waiting| == 0 ||
    var s := ScanFor(toks, parseFor(waiting[0]))(d);
    && Kept(toks, parseFor(waiting[0]), Sync(toks, d).bytes, x)
    && (s.found.Ready? ==> AnswersKept(toks, parseFor, d[s.skipped + s.found.consumed..], x, waiting[1..]))
  }

  ghost predicate KeptOn<T(!new)>(toks: seq<Bytes>, parse: Parser<T>, w: Bytes) {
    forall j, k :: 0 <= j <= k <= |w| ==> LoopKept(toks, parse, w[..j], w[j..k])
  }

  ghost predicate AnswersKeptOn<Q(!new), T(!new)>(toks: seq<Bytes>, parseFor: Q -> Parser<T>, w: Bytes, waiting: seq<Q>) {
    forall j, k :: 0 <= j <= k <= |w| ==> AnswersKept(toks, parseFor, w[..j], w[j..k], waiting)
  }

  lemma {:induction false} KeptForetells<T(!new)>(toks: seq<Bytes>, parse: Parser<T>, d: Bytes, x: Bytes)
    requires SyncSafe(toks) && Kept(toks, parse, Sync(toks, d).bytes, x)
    ensures Foretells(ScanFor(toks, parse), d, x)
  {
    SyncHomomorphism(toks, d, x);
    var s := Sync(toks, d).bytes;
    if parse(s).Ready? {
      MarkAtGrows(toks, s, x, 0);
      SyncKeepsMarkedBuffer(toks, s + x);
    }
  }

  lemma {:induction false} LoopKeptForetells<T(!new)>(toks: seq<Bytes>, parse: Parser<T>, d: Bytes, x: Bytes)
    requires SyncSafe(toks) && LoopKept(toks, parse, d, x)
    ensures LoopForetells(ScanFor(toks, parse), d, x)
    decreases |d|
  {
    hide SyncSafe, Kept, Foretells, ScanFor;
    KeptForetells(toks, parse, d, x);
    var s := ScanFor(toks, parse)(d);
    if s.found.Ready? {
      LoopKeptForetells(toks, parse, d[s.skipped + s.found.consumed..], x);
    }
  }

  lemma {:induction false} AnswersKeptForetell<Q(!new), T(!new)>(
      toks: seq<Bytes>, parseFor: Q -> Parser<T>, scanFor: Q -> Scanner<T>, d: Bytes, x: Bytes, waiting: seq<Q>)
    requires SyncSafe(toks) && AnswersKept(toks, parseFor, d, x, waiting)
    requires forall q :: scanFor(q) == ScanFor(toks, parseFor(q))
    ensures AnswersForetell(scanFor, d, x, waiting)
    decreases |waiting|
  {
    hide SyncSafe, Kept, Foretells, ScanFor, Sync;
    if |waiting| > 0 {
      var scan := scanFor(waiting[0]);
      assert scan == ScanFor(toks, parseFor(waiting[0]));
      KeptForetells(toks, parseFor(waiting[0]), d, x);
      if scan(d).found.Ready? {
        AnswersKeptForetell(toks, parseFor, scanFor, d[scan(d).skipped + scan(d).found.consumed..], x, waiting[1..]);
      }
    }
  }

  /** A parser that keeps what it has recognised in any buffer does so in those of the loops. */
  lemma {:induction false} AlwaysKept<T(!new)>(toks: seq<Bytes>, parse: Parser<T>, d: Bytes, x: Bytes)
    requires forall d, x :: Kept(toks, parse, d, x)
    ensures LoopKept(toks, parse, d, x)
    decreases |d|
  {
    hide Kept, ScanFor;
    var s := ScanFor(toks, parse)(d);
    if s.found.Ready? {
      AlwaysKept(toks, parse, d[s.skipped + s.found.consumed..], x);
    }
  }

  lemma {:induction false} AnswersAlwaysKept<Q(!new), T(!new)>(
      toks: seq<Bytes>, parseFor: Q -> Parser<T>, d: Bytes, x: Bytes, waiting: seq<Q>)
    requires forall q, d, x :: Kept(toks, parseFor(q), d, x)
    ensures AnswersKept(toks, parseFor, d, x, waiting)
    decreases |waiting|
  {
    hide Kept, ScanFor;
    if |waiting| > 0 {
      var s := ScanFor(toks, parseFor(waiting[0]))(d);
      if s.found.Ready? {
        AnswersAlwaysKept(toks, parseFor, d[s.skipped + s.found.consumed..], x, waiting[1..]);
      }
    }
  }

  lemma {:induction false} ScanForSettles<T(!new)>(toks: seq<Bytes>, parse: Parser<T>)
    requires SyncSafe(toks)
    ensures SettledScan(ScanFor(toks, parse))
  {
    var scan := ScanFor(toks, parse);
    forall d ensures Settles(scan, d) {
      SyncIdempotent(toks, d);
    }
  }
}
