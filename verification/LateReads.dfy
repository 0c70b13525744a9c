/** Reads that are still in flight when their descriptor is closed: the only events stamped with an older
    generation than the descriptor's (bpf/tracer.bpf.c). */
module LateReads {
  import opened Words
  import opened Wrappers
  import opened Kernel

  // ---- What one step can change ------------------------------------------------------------------

  /** A close that the tracer sees, of that descriptor. */
  predicate ClosesFd(x: Turn, fd: Fd) {
    && x.action.Close? && x.action.t.pid in x.env.traced && Capturable(x.env, x.action.raw)
    && FdOf(x.action.t, x.action.raw) == fd
  }

  predicate InFlight(st: State, t: Thread, fd: Fd, generation: nat) {
    t in st.inFlight && st.inFlight[t] == ReadContext(fd, generation)
  }

  /** The log has grown by events of t on fd, stamped with g, and by nothing else. */
  ghost predicate Says(st: State, s: State, t: Thread, fd: Fd, g: nat) {
    && st.log <= s.log
    && forall i :: |st.log| <= i < |s.log| ==> s.log[i].thread == t && s.log[i].fd == fd && s.log[i].generation == g && s.log[i].current == Gen(st, fd)
  }

  ghost predicate SameGens(st: State, s: State) {
    forall fd :: Gen(s, fd) == Gen(st, fd)
  }

  /** Reads in flight are those from before, or have just been entered with the present generation. */
  ghost predicate ReadsFollow(st: State, s: State) {
    forall t :: t in s.inFlight ==>
      || (t in st.inFlight && s.inFlight[t] == st.inFlight[t])
      || s.inFlight[t].generation == Gen(st, s.inFlight[t].fd)
  }

  /** New events are current, or those of a read in flight. */
  ghost predicate EventsFollow(st: State, s: State) {
    && st.log <= s.log
    && forall i :: |st.log| <= i < |s.log| ==>
         s.log[i].current == Gen(st, s.log[i].fd) && (IsCurrent(s.log[i]) || InFlight(st, s.log[i].thread, s.log[i].fd, s.log[i].generation))
  }

  ghost predicate Follows(st: State, s: State) {
    ReadsFollow(st, s) && EventsFollow(st, s)
  }

  lemma {:induction false} ChunkSays(env: Env, st: State, t: Thread, fd: Fd, g: nat, dir: Direction, fromRead: bool, fate: Fate)
    ensures var s := EmitChunk(env, st, t, fd, g, dir, fromRead, fate);
            Says(st, s, t, fd, g) && SameGens(st, s) && s.inFlight == st.inFlight
  {
    hide TupleAllowed;
  }

  lemma {:induction false} ChunksSay(env: Env, st: State, t: Thread, fd: Fd, g: nat, dir: Direction, fromRead: bool, fates: seq<Fate>)
    ensures var s := EmitChunks(env, st, t, fd, g, dir, fromRead, fates);
            Says(st, s, t, fd, g) && SameGens(st, s) && s.inFlight == st.inFlight
    decreases |fates|
  {
    hide EmitChunk, Gen;
    if |fates| > 0 {
      ChunksSay(env, st, t, fd, g, dir, fromRead, fates[..|fates| - 1]);
      ChunkSays(env, EmitChunks(env, st, t, fd, g, dir, fromRead, fates[..|fates| - 1]), t, fd, g, dir, fromRead, fates[|fates| - 1]);
    }
  }

  lemma {:induction false} ControlSays(st: State, t: Thread, fd: Fd, reserved: bool)
    ensures var s := EmitControl(st, t, fd, Gen(st, fd), reserved);
            Says(st, s, t, fd, Gen(st, fd)) && SameGens(st, s) && s.inFlight == st.inFlight
  {
  }

  /** A step that says current things only and starts or ends no call but, at most, a read just entered. */
  lemma {:induction false} CurrentFollows(st: State, s: State, t: Thread, fd: Fd)
    requires Says(st, s, t, fd, Gen(st, fd)) && ReadsFollow(st, s)
    ensures Follows(st, s)
  {
  }

  lemma {:induction false} BindFollows(st: State, t: Thread, fd: Fd, a: Addr, reserved: bool)
    ensures Follows(st, DoBind(st, fd, a)) && SameGens(st, DoBind(st, fd, a))
    ensures Follows(st, DoConnect(st, t, fd, a, reserved)) && SameGens(st, DoConnect(st, t, fd, a, reserved))
  {
    var s := UpdateTuple(InitGen(st, fd), fd, Gen(st, fd), a, Outbound, false);
    assert SameGens(st, s) && s.inFlight == st.inFlight && s.log == st.log;
    hide UpdateTuple, EmitControl;
    ControlSays(s, t, fd, reserved);
    CurrentFollows(st, DoConnect(st, t, fd, a, reserved), t, fd);
  }

  lemma {:induction false} PromoteSame(st: State, t: Thread, fd: Fd, g: nat, addr: Option<Addr>)
    ensures var s := Promote(st, t, fd, g, addr); SameGens(st, s) && s.inFlight == st.inFlight && s.log == st.log
  {
  }

  lemma {:induction false} AcceptEnterFollows(st: State, t: Thread, fd: Fd)
    ensures Follows(st, DoAcceptEnter(st, t, fd)) && SameGens(st, DoAcceptEnter(st, t, fd))
  {
  }

  lemma {:induction false} AcceptExitFollows(st: State, t: Thread, ret: int, addr: Option<Addr>, reserved: bool)
    ensures Follows(st, DoAcceptExit(st, t, ret, addr, reserved)) && SameGens(st, DoAcceptExit(st, t, ret, addr, reserved))
  {
    hide Promote, EmitControl;
    if ret >= 0 {
      var f := FdOf(t, ret);
      assert SameGens(st, InitGen(st, f));
      PromoteSame(InitGen(st, f), t, f, Gen(st, f), addr);
      var s := Promote(InitGen(st, f), t, f, Gen(st, f), addr).(accepts := st.accepts - {t});
      assert SameGens(st, s) && s.inFlight == st.inFlight && s.log == st.log;
      ControlSays(s, t, f, reserved);
      CurrentFollows(st, DoAcceptExit(st, t, ret, addr, reserved), t, f);
    }
  }

  lemma {:induction false} WriteFollows(env: Env, st: State, t: Thread, fd: Fd, fates: seq<Fate>)
    ensures Follows(st, DoWrite(env, st, t, fd, fates)) && SameGens(st, DoWrite(env, st, t, fd, fates))
  {
    hide TupleAllowed, EmitChunks;
    var s := Touch(InitGen(st, fd), t, fd);
    ChunksSay(env, s, t, fd, Gen(st, fd), Write, false, fates);
    CurrentFollows(st, DoWrite(env, st, t, fd, fates), t, fd);
  }

  lemma {:induction false} ReadEnterFollows(env: Env, st: State, t: Thread, fd: Fd, readable: bool)
    ensures Follows(st, DoReadEnter(env, st, t, fd, readable)) && SameGens(st, DoReadEnter(env, st, t, fd, readable))
  {
    hide TupleAllowed;
  }

  lemma {:induction false} ReadExitFollows(env: Env, st: State, t: Thread, ret: int, fates: seq<Fate>)
    ensures Follows(st, DoReadExit(env, st, t, ret, fates)) && SameGens(st, DoReadExit(env, st, t, ret, fates))
  {
    hide EmitChunks;
    if t in st.inFlight {
      var c := st.inFlight[t];
      ChunksSay(env, st, t, c.fd, c.generation, Read, true, fates);
      var s := DoReadExit(env, st, t, ret, fates);
      assert forall fd :: Gen(s, fd) == Gen(st, fd);
      ReadSays(st, s, t, c);
    }
  }

  lemma {:induction false} ReadSays(st: State, s: State, t: Thread, c: ReadContext)
    requires t in st.inFlight && st.inFlight[t] == c && Says(st, s, t, c.fd, c.generation)
    ensures EventsFollow(st, s)
  {
    assert InFlight(st, t, c.fd, c.generation);
    forall i | |st.log| <= i < |s.log|
      ensures s.log[i].current == Gen(st, s.log[i].fd) && InFlight(st, s.log[i].thread, s.log[i].fd, s.log[i].generation)
    {
    }
  }

  lemma {:induction false} CloseFollows(env: Env, st: State, t: Thread, fd: Fd, reserved: bool)
    ensures var s := DoClose(env, st, t, fd, reserved);
            && Follows(st, s) && s.inFlight == st.inFlight && Gen(s, fd) == Gen(st, fd) + 1
            && forall f :: f != fd ==> Gen(s, f) == Gen(st, f)
  {
    hide TupleAllowed, EmitControl;
    var g, s := Gen(st, fd), Touch(InitGen(st, fd), t, fd);
    assert SameGens(st, s) && s.log == st.log && s.inFlight == st.inFlight;
    ControlSays(s, t, fd, reserved);
    var said := if TupleAllowed(env, s, fd, g) then EmitControl(s, t, fd, g, reserved) else s;
    assert SameGens(st, said) && Says(st, said, t, fd, g);
    CurrentFollows(st, DoClose(env, st, t, fd, reserved), t, fd);
  }

  lemma {:induction false} SslFollows(env: Env, st: State, t: Thread, dir: Direction, ok: bool, fates: seq<Fate>)
    ensures Follows(st, DoSslExit(env, st, t, dir, ok, fates)) && SameGens(st, DoSslExit(env, st, t, dir, ok, fates))
  {
    hide EmitChunks;
    if (t, dir) in st.ssl && t in st.lastFd {
      var s, fd := st.(ssl := st.ssl - {(t, dir)}), Fd(t.pid, st.lastFd[t]);
      ChunksSay(env, InitGen(s, fd), t, fd, Gen(s, fd), dir, false, fates);
      if ok {
        CurrentFollows(st, DoSslExit(env, st, t, dir, ok, fates), t, fd);
      }
    }
  }

  /** Reads in flight and new events follow from what was there, and only a traced close moves a
      generation, that of its descriptor, by one. */
  ghost predicate Frames(x: Turn, st: State, s: State) {
    && Follows(st, s)
    && forall fd :: Gen(s, fd) == Gen(st, fd) || (ClosesFd(x, fd) && Gen(s, fd) == Gen(st, fd) + 1 && s.inFlight == st.inFlight)
  }

  lemma {:induction false} Framed(x: Turn, st: State, s: State)
    requires Follows(st, s) && SameGens(st, s)
    ensures Frames(x, st, s)
  {
    hide Follows;
  }

  lemma {:induction false} SameBooksFrame(x: Turn, st: State, s: State)
    requires s.gens == st.gens && s.inFlight == st.inFlight && s.log == st.log
    ensures Frames(x, st, s)
  {
  }

  lemma {:induction false} CloseFrames(x: Turn, st: State, t: Thread, fd: Fd, reserved: bool)
    requires ClosesFd(x, fd)
    ensures Frames(x, st, DoClose(x.env, st, t, fd, reserved))
  {
    hide Follows, DoClose, ClosesFd;
    CloseFollows(x.env, st, t, fd, reserved);
  }

  lemma {:induction false} StepFollows(x: Turn, st: State)
    ensures Frames(x, st, Step(x.env, st, x.action))
  {
    hide DoBind, DoConnect, DoAcceptEnter, DoAcceptExit, DoWrite, DoReadEnter, DoReadExit, DoClose, DoSslExit, Frames, Follows, SameGens;
    var s := Step(x.env, st, x.action);
    SameBooksFrame(x, st, st);
    match x.action
    case Remember(i, tuple) => SameBooksFrame(x, st, s);
    case Bind(t, raw, addr) =>
      if addr.Some? {
        BindFollows(st, t, FdOf(t, raw), addr.value, false);
        Framed(x, st, DoBind(st, FdOf(t, raw), addr.value));
      }
    case Connect(t, raw, addr, reserved) =>
      if addr.Some? {
        BindFollows(st, t, FdOf(t, raw), addr.value, reserved);
        Framed(x, st, DoConnect(st, t, FdOf(t, raw), addr.value, reserved));
      }
    case AcceptEnter(t, raw) =>
      AcceptEnterFollows(st, t, FdOf(t, raw));
      Framed(x, st, DoAcceptEnter(st, t, FdOf(t, raw)));
    case AcceptExit(t, ret, addr, reserved) =>
      AcceptExitFollows(st, t, ret, addr, reserved);
      Framed(x, st, DoAcceptExit(st, t, ret, addr, reserved));
    case WriteCall(t, raw, fates) =>
      WriteFollows(x.env, st, t, FdOf(t, raw), fates);
      Framed(x, st, DoWrite(x.env, st, t, FdOf(t, raw), fates));
    case ReadEnter(t, raw, readable) =>
      ReadEnterFollows(x.env, st, t, FdOf(t, raw), readable);
      Framed(x, st, DoReadEnter(x.env, st, t, FdOf(t, raw), readable));
    case ReadExit(t, ret, fates) =>
      ReadExitFollows(x.env, st, t, ret, fates);
      Framed(x, st, DoReadExit(x.env, st, t, ret, fates));
    case Close(t, raw, reserved) =>
      if t.pid in x.env.traced && Capturable(x.env, raw) { CloseFrames(x, st, t, FdOf(t, raw), reserved); }
    case SslEnter(t, dir) => SameBooksFrame(x, st, s);
    case SslExit(t, dir, ok, fates) =>
      SslFollows(x.env, st, t, dir, ok, fates);
      Framed(x, st, s);
  }

  // ---- Every late event was cut short by a close ------------------------------------------------------

  /** Step k is a traced close that ended generation g of fd while thread t had a read of exactly that
      generation in flight. */
  predicate CutShort(ts: seq<Turn>, k: nat, t: Thread, fd: Fd, g: nat) {
    k < |ts| && ClosesFd(ts[k], fd) && Gen(Run(ts[..k]), fd) == g && InFlight(Run(ts[..k]), t, fd, g)
  }

  ghost predicate WasCutShort(ts: seq<Turn>, t: Thread, fd: Fd, g: nat) {
    exists k: nat :: CutShort(ts, k, t, fd, g)
  }

  lemma {:induction false} CutShortStays(ts: seq<Turn>, t: Thread, fd: Fd, g: nat)
    requires |ts| > 0 && WasCutShort(ts[..|ts| - 1], t, fd, g)
    ensures WasCutShort(ts, t, fd, g)
  {
    hide Run, InFlight, ClosesFd;
    var front := ts[..|ts| - 1];
    var k: nat :| CutShort(front, k, t, fd, g);
    assert front[..k] == ts[..k] && front[k] == ts[k];
    assert CutShort(ts, k, t, fd, g);
  }

  /** Reads in flight, and events, are of the present generation or were cut short. */
  ghost predicate Explained(ts: seq<Turn>, st: State) {
    && (forall t :: t in st.inFlight ==>
          st.inFlight[t].generation == Gen(st, st.inFlight[t].fd) || WasCutShort(ts, t, st.inFlight[t].fd, st.inFlight[t].generation))
    && (forall i :: 0 <= i < |st.log| ==> IsCurrent(st.log[i]) || WasCutShort(ts, st.log[i].thread, st.log[i].fd, st.log[i].generation))
  }

  lemma {:induction false} RunIsExplained(ts: seq<Turn>)
    ensures Explained(ts, Run(ts))
    decreases |ts|
  {
    if |ts| > 0 {
      var front := ts[..|ts| - 1];
      RunIsExplained(front);
      StepFollows(ts[|ts| - 1], Run(front));
      ReadsStayExplained(ts);
      EventsStayExplained(ts);
    }
  }

  lemma {:induction false} ReadsStayExplained(ts: seq<Turn>)
    requires |ts| > 0 && Explained(ts[..|ts| - 1], Run(ts[..|ts| - 1]))
    requires Frames(ts[|ts| - 1], Run(ts[..|ts| - 1]), Run(ts))
    ensures var s := Run(ts);
            forall t :: t in s.inFlight ==>
              s.inFlight[t].generation == Gen(s, s.inFlight[t].fd) || WasCutShort(ts, t, s.inFlight[t].fd, s.inFlight[t].generation)
  {
    hide Run, Gen, ClosesFd, WasCutShort;
    var front, x := ts[..|ts| - 1], ts[|ts| - 1];
    var st, s := Run(front), Run(ts);
    forall t | t in s.inFlight
      ensures s.inFlight[t].generation == Gen(s, s.inFlight[t].fd) || WasCutShort(ts, t, s.inFlight[t].fd, s.inFlight[t].generation)
    {
      var c := s.inFlight[t];
      if t in st.inFlight && st.inFlight[t] == c && c.generation != Gen(st, c.fd) {
        CutShortStays(ts, t, c.fd, c.generation);
      } else if Gen(s, c.fd) != Gen(st, c.fd) {
        CutShortNow(ts, t, c);
      }
    }
  }

  lemma {:induction false} CutShortNow(ts: seq<Turn>, t: Thread, c: ReadContext)
    requires |ts| > 0
    requires var st := Run(ts[..|ts| - 1]); t in st.inFlight && st.inFlight[t] == c && c.generation == Gen(st, c.fd)
    requires ClosesFd(ts[|ts| - 1], c.fd)
    ensures WasCutShort(ts, t, c.fd, c.generation)
  {
    hide Run, Gen, ClosesFd;
    assert CutShort(ts, |ts| - 1, t, c.fd, c.generation);
  }

  lemma {:induction false} EventsStayExplained(ts: seq<Turn>)
    requires |ts| > 0 && Explained(ts[..|ts| - 1], Run(ts[..|ts| - 1])) && EventsFollow(Run(ts[..|ts| - 1]), Run(ts))
    ensures var es := Run(ts).log;
            forall i :: 0 <= i < |es| ==> IsCurrent(es[i]) || WasCutShort(ts, es[i].thread, es[i].fd, es[i].generation)
  {
    hide Run, Gen, WasCutShort;
    var front := ts[..|ts| - 1];
    var st, es := Run(front), Run(ts).log;
    forall i | 0 <= i < |es| ensures IsCurrent(es[i]) || WasCutShort(ts, es[i].thread, es[i].fd, es[i].generation) {
      var e := es[i];
      if i < |st.log| {
        assert e == st.log[i];
      }
      if !IsCurrent(e) {
        CutShortStays(ts, e.thread, e.fd, e.generation);
      }
    }
  }

  /** Over any interleaving: every event that carries an older generation than its descriptor had is of a
      read, entered by the same thread in that generation and still in flight when a traced close of exactly
      that descriptor ended it. */
  lemma {:induction false} LateEventsWereCutShort(ts: seq<Turn>)
    ensures var es := Run(ts).log;
            forall i :: 0 <= i < |es| && !IsCurrent(es[i]) ==> es[i].fromRead && WasCutShort(ts, es[i].thread, es[i].fd, es[i].generation)
  {
    hide Run, WasCutShort;
    RunIsExplained(ts);
    StampsNeverRepeat(ts);
  }

  /** So on a descriptor that no traced close has caught with a read in flight all stamps are distinct, and
      increase in the order of submission. */
  lemma {:induction false} StampsAreUnique(ts: seq<Turn>, fd: Fd)
    requires forall k: nat, t: Thread, g: nat :: !CutShort(ts, k, t, fd, g)
    ensures var es := Run(ts).log;
            forall i, j :: 0 <= i < j < |es| && es[i].fd == fd && es[j].fd == fd ==> StampBefore(es[i], es[j])
  {
    hide Run, CutShort;
    LateEventsWereCutShort(ts);
    StampsNeverRepeat(ts);
    var es := Run(ts).log;
    forall i | 0 <= i < |es| && es[i].fd == fd ensures IsCurrent(es[i]) {
      assert !WasCutShort(ts, es[i].thread, fd, es[i].generation);
    }
  }

  // ---- One such event ----------------------------------------------------------------------------------

  const OPEN_ENV := Env({7}, false, true, true, {}, false, {})
  const SENT := Fate(true, true, false)

  lemma {:induction false} OneChunk(st: State, t: Thread, fd: Fd, generation: nat, dir: Direction, fromRead: bool)
    requires st.tuples == map[]
    ensures EmitChunks(OPEN_ENV, st, t, fd, generation, dir, fromRead, [SENT]) == Submit(Touch(st, t, fd), t, fd, generation, fromRead)
  {
    assert [SENT][..0] == [];
  }

  /** From any state without tuples: a write, a close, and the exit of a read in flight since before. */
  lemma {:induction false} LateRead(st: State, t: Thread, u: Thread, fd: Fd)
    requires st.tuples == map[] && t in st.inFlight && st.inFlight[t] == ReadContext(fd, Gen(st, fd)) && Seq(st, fd) == 0
    ensures var wrote := DoWrite(OPEN_ENV, st, u, fd, [SENT]);
            var closed := DoClose(OPEN_ENV, wrote, u, fd, true);
            var g := Gen(st, fd);
            DoReadExit(OPEN_ENV, closed, t, 1, [SENT]).log
              == st.log + [Entry(u, fd, g, 0, g, false)] + [Entry(u, fd, g, 1, g, false)] + [Entry(t, fd, g, 0, g + 1, true)]
  {
    hide EmitChunks;
    var g := Gen(st, fd);
    OneChunk(Touch(InitGen(st, fd), u, fd), u, fd, g, Write, false);
    var wrote := DoWrite(OPEN_ENV, st, u, fd, [SENT]);
    assert wrote.log == st.log + [Entry(u, fd, g, 0, g, false)] && Gen(wrote, fd) == g && Seq(wrote, fd) == 1;
    var closed := DoClose(OPEN_ENV, wrote, u, fd, true);
    assert closed.log == wrote.log + [Entry(u, fd, g, 1, g, false)] && Gen(closed, fd) == g + 1 && Seq(closed, fd) == 0;
    assert closed.tuples == map[] && closed.inFlight == st.inFlight;
    OneChunk(closed, t, fd, g, Read, true);
  }

  /** The late event repeats the stamp of the first one: stamps are unique among current events only. */
  lemma {:induction false} LateReadRepeatsStamp(t: Thread, u: Thread)
    requires t.pid == 7 && u.pid == 7 && t != u
    ensures var es := Run([Turn(OPEN_ENV, ReadEnter(t, 5, true)), Turn(OPEN_ENV, WriteCall(u, 5, [SENT])),
                           Turn(OPEN_ENV, Close(u, 5, true)), Turn(OPEN_ENV, ReadExit(t, 1, [SENT]))]).log;
            && |es| == 3 && es[0].fd == es[2].fd
            && (es[0].generation, es[0].seqno) == (es[2].generation, es[2].seqno)
            && IsCurrent(es[0]) && !IsCurrent(es[2])
  {
    hide DoReadEnter, DoWrite, DoClose, DoReadExit;
    var fd := Fd(7, 5);
    var a, b := Turn(OPEN_ENV, ReadEnter(t, 5, true)), Turn(OPEN_ENV, WriteCall(u, 5, [SENT]));
    var c, d := Turn(OPEN_ENV, Close(u, 5, true)), Turn(OPEN_ENV, ReadExit(t, 1, [SENT]));
    assert [] + [a] == [a] && [a] + [b] == [a, b] && [a, b] + [c] == [a, b, c] && [a, b, c] + [d] == [a, b, c, d];
    RunOneMore([], a);
    RunOneMore([a], b);
    RunOneMore([a, b], c);
    RunOneMore([a, b, c], d);
    var entered := DoReadEnter(OPEN_ENV, BOOT, t, fd, true);
    assert Run([a]) == entered;
    assert Run([a, b]) == DoWrite(OPEN_ENV, entered, u, fd, [SENT]);
    EnteredFirst(t, fd);
    LateRead(entered, t, u, fd);
  }

  lemma {:induction false} EnteredFirst(t: Thread, fd: Fd)
    ensures var st := DoReadEnter(OPEN_ENV, BOOT, t, fd, true);
            && st.tuples == map[] && st.log == [] && t in st.inFlight && st.inFlight[t] == ReadContext(fd, 1)
            && Gen(st, fd) == 1 && Seq(st, fd) == 0
  {
  }

  lemma {:induction false} RunOneMore(ts: seq<Turn>, x: Turn)
    ensures Run(ts + [x]) == Step(x.env, Run(ts), x.action)
  {
    assert (ts + [x])[..|ts|] == ts;
  }
}
