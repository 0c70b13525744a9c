/** What the handlers of the tracer write: socket tuples, events and their numbers, and which calls they look at
    at all (bpf/tracer.bpf.c). */
module Handlers {
  import opened Wrappers
  import opened Words
  import opened Kernel

  // ---- Which calls are looked at ----------------------------------------------------------------

  /** A call that a filter keeps out: its process is not traced, its descriptor is a standard stream that is not
      captured, its direction is switched off, or its address cannot be read. */
  predicate KeptOut(env: Env, a: Action) {
    match a
    case Bind(t, raw, addr) => t.pid !in env.traced || (raw <= 2 && !env.stdio) || addr.None?
    case Connect(t, raw, addr, _) => t.pid !in env.traced || (raw <= 2 && !env.stdio) || addr.None?
    case AcceptEnter(t, raw) => t.pid !in env.traced || (raw <= 2 && !env.stdio)
    case AcceptExit(t, _, _, _) => t.pid !in env.traced
    case WriteCall(t, raw, _) => t.pid !in env.traced || (raw <= 2 && !env.stdio) || !env.captureWrites
    case ReadEnter(t, raw, _) => t.pid !in env.traced || (raw <= 2 && !env.stdio) || !env.captureReads
    case ReadExit(t, _, _) => t.pid !in env.traced
    case Close(t, raw, _) => t.pid !in env.traced || (raw <= 2 && !env.stdio)
    case SslEnter(t, _) => t.pid !in env.traced
    case _ => false
  }

  lemma {:induction false} KeptOutChangesNothing(env: Env, st: State, a: Action)
    requires KeptOut(env, a)
    ensures Step(env, st, a) == st
  {
    hide DoBind, DoConnect, DoAcceptEnter, DoAcceptExit, DoWrite, DoReadEnter, DoReadExit, DoClose;
  }

  /** No port of the socket is ignored, and if there are target ports and both ends are known, one is a target.
      A port counts when it is known and not 0. */
  predicate Meets(env: Env, t: Tuple) {
    && (t.local && t.localPort != 0 ==> t.localPort !in env.ignoredPorts)
    && (t.remote && t.remotePort != 0 ==> t.remotePort !in env.ignoredPorts)
    && (env.targetsOn && t.local && t.remote ==>
          (t.localPort != 0 && t.localPort in env.targetPorts) || (t.remotePort != 0 && t.remotePort in env.targetPorts))
  }

  ghost predicate Allowed(env: Env, st: State, fd: Fd, g: nat) {
    SocketKey(fd, g) in st.tuples ==> Meets(env, st.tuples[SocketKey(fd, g)])
  }

  lemma {:induction false} AllowedIs(env: Env, st: State, fd: Fd, g: nat)
    ensures TupleAllowed(env, st, fd, g) <==> Allowed(env, st, fd, g)
  {
  }

  // ---- Sockets ------------------------------------------------------------------------------------

  function TupleAt(st: State, k: SocketKey): Tuple {
    if k in st.tuples then st.tuples[k] else NO_TUPLE
  }

  /** Only the tuple under k may differ; generations and what the threads are doing do not. */
  ghost predicate OnlyTuple(st: State, s: State, k: SocketKey) {
    && (forall j :: j != k ==> (j in s.tuples <==> j in st.tuples) && (j in st.tuples ==> s.tuples[j] == st.tuples[j]))
    && (forall fd :: Gen(s, fd) == Gen(st, fd))
    && s.inFlight == st.inFlight && s.lastFd == st.lastFd && s.ssl == st.ssl
  }

  /** One control event of t on fd with the next number, if there was room for it. */
  ghost predicate SaysControl(st: State, s: State, t: Thread, fd: Fd, reserved: bool) {
    && s.log == st.log + (if reserved then [Entry(t, fd, Gen(st, fd), Seq(st, fd), Gen(st, fd), false)] else [])
    && Seq(s, fd) == Seq(st, fd) + (if reserved then 1 else 0)
    && forall f :: f != fd ==> Seq(s, f) == Seq(st, f)
  }

  lemma {:induction false} ControlBooks(st: State, x: State, t: Thread, fd: Fd, reserved: bool)
    requires x.log == st.log && x.seqs == st.seqs && forall f :: Gen(x, f) == Gen(st, f)
    ensures var s := EmitControl(x, t, fd, Gen(st, fd), reserved);
            SaysControl(st, s, t, fd, reserved) && s == x.(log := s.log, seqs := s.seqs)
  {
  }

  function FamilyOf(a: Addr, was: Tuple): nat {
    if a.family == 2 || a.family == 10 then a.family else was.family
  }

  /** A connect files the peer: its port as the remote one, the role outbound, the local half as it was. */
  lemma {:induction false} ConnectSaysPeer(env: Env, st: State, t: Thread, raw: int, a: Addr, reserved: bool)
    requires !KeptOut(env, Connect(t, raw, Some(a), reserved))
    ensures var fd := FdOf(t, raw);
            var k := SocketKey(fd, Gen(st, fd));
            var s, was := Step(env, st, Connect(t, raw, Some(a), reserved)), TupleAt(st, k);
            && k in s.tuples && s.tuples[k].remote && s.tuples[k].remotePort == a.port && s.tuples[k].role == Outbound
            && s.tuples[k].local == was.local && s.tuples[k].localPort == was.localPort && s.tuples[k].family == FamilyOf(a, was)
            && OnlyTuple(st, s, k) && s.accepts == st.accepts && SaysControl(st, s, t, fd, reserved)
  {
    hide UpdateTuple, EmitControl, SaysControl;
    var fd := FdOf(t, raw);
    var x := UpdateTuple(InitGen(st, fd), fd, Gen(st, fd), a, Outbound, false);
    Updated(InitGen(st, fd), fd, Gen(st, fd), a, Outbound, false);
    ControlBooks(st, x, t, fd, reserved);
  }

  /** A bind files the socket's own port and the role inbound, the remote half as it was, and says nothing. */
  lemma {:induction false} BindSaysLocal(env: Env, st: State, t: Thread, raw: int, a: Addr)
    requires !KeptOut(env, Bind(t, raw, Some(a)))
    ensures var fd := FdOf(t, raw);
            var k := SocketKey(fd, Gen(st, fd));
            var s, was := Step(env, st, Bind(t, raw, Some(a))), TupleAt(st, k);
            && k in s.tuples && s.tuples[k].local && s.tuples[k].localPort == a.port && s.tuples[k].role == Inbound
            && s.tuples[k].remote == was.remote && s.tuples[k].remotePort == was.remotePort && s.tuples[k].family == FamilyOf(a, was)
            && OnlyTuple(st, s, k) && s.accepts == st.accepts && SaysControl(st, s, t, fd, false)
  {
  }

  /** The listener of an accept that t is in, when its own port is known. */
  predicate ListenerKnown(st: State, t: Thread) {
    t in st.accepts && st.accepts[t].listener in st.tuples && st.tuples[st.accepts[t].listener].local
  }

  predicate PeerKnown(st: State, t: Thread, addr: Option<Addr>) {
    t in st.accepts && addr.Some?
  }

  /** The accepted socket k as filed from what is known: the listener's own port as the local one, the peer's as
      the remote one, and with either the role inbound; what is not known stays as it was. */
  ghost predicate Described(st: State, s: State, t: Thread, addr: Option<Addr>, k: SocketKey) {
    var was, now := TupleAt(st, k), TupleAt(s, k);
    && (k in s.tuples <==> k in st.tuples || ListenerKnown(st, t) || PeerKnown(st, t, addr))
    && now.local == (was.local || ListenerKnown(st, t)) && now.remote == (was.remote || PeerKnown(st, t, addr))
    && now.localPort == (if ListenerKnown(st, t) then st.tuples[st.accepts[t].listener].localPort else was.localPort)
    && now.remotePort == (if PeerKnown(st, t, addr) then addr.value.port else was.remotePort)
    && now.role == (if ListenerKnown(st, t) || PeerKnown(st, t, addr) then Inbound else was.role)
  }

  lemma {:induction false} PromoteDescribes(st: State, t: Thread, fd: Fd, g: nat, addr: Option<Addr>)
    ensures var s, k := Promote(st, t, fd, g, addr), SocketKey(fd, g);
            && Described(st, s, t, addr, k) && s == st.(tuples := s.tuples)
            && forall j :: j != k ==> (j in s.tuples <==> j in st.tuples) && (j in st.tuples ==> s.tuples[j] == st.tuples[j])
  {
    hide UpdateTuple;
    if ListenerKnown(st, t) {
      var l := st.tuples[st.accepts[t].listener];
      var first := UpdateTuple(st, fd, g, Addr(l.family, l.localPort), Inbound, true);
      Updated(st, fd, g, Addr(l.family, l.localPort), Inbound, true);
      if addr.Some? {
        Updated(first, fd, g, addr.value, Inbound, false);
      }
    } else if PeerKnown(st, t, addr) {
      Updated(st, fd, g, addr.value, Inbound, false);
    }
  }

  lemma {:induction false} AcceptSays(st: State, t: Thread, ret: nat, addr: Option<Addr>, reserved: bool)
    ensures var fd := FdOf(t, ret);
            var k := SocketKey(fd, Gen(st, fd));
            var s := DoAcceptExit(st, t, ret, addr, reserved);
            s.accepts == st.accepts - {t} && OnlyTuple(st, s, k) && Described(st, s, t, addr, k) && SaysControl(st, s, t, fd, reserved)
  {
    hide Promote, ListenerKnown, PeerKnown, EmitControl, SaysControl;
    var fd := FdOf(t, ret);
    var init := InitGen(st, fd);
    PromoteDescribes(init, t, fd, Gen(st, fd), addr);
    SameForInit(st, fd, t, addr);
    ControlBooks(st, Promote(init, t, fd, Gen(st, fd), addr).(accepts := st.accepts - {t}), t, fd, reserved);
  }

  /** An accept describes its socket and forgets that it was under way; a failed one only forgets. */
  lemma {:induction false} AcceptSaysBoth(env: Env, st: State, t: Thread, ret: int, addr: Option<Addr>, reserved: bool)
    requires !KeptOut(env, AcceptExit(t, ret, addr, reserved))
    ensures var fd := FdOf(t, ret);
            var k := SocketKey(fd, Gen(st, fd));
            var s := Step(env, st, AcceptExit(t, ret, addr, reserved));
            && s.accepts == st.accepts - {t} && OnlyTuple(st, s, k)
            && (ret >= 0 ==> Described(st, s, t, addr, k) && SaysControl(st, s, t, fd, reserved))
            && (ret < 0 ==> s == st.(accepts := st.accepts - {t}))
  {
    hide Described, SaysControl;
    if ret >= 0 {
      hide DoAcceptExit, OnlyTuple;
      AcceptSays(st, t, ret, addr, reserved);
    }
  }

  lemma {:induction false} SameForInit(st: State, fd: Fd, t: Thread, addr: Option<Addr>)
    ensures var init := InitGen(st, fd);
            && (ListenerKnown(init, t) <==> ListenerKnown(st, t)) && (PeerKnown(init, t, addr) <==> PeerKnown(st, t, addr))
            && (ListenerKnown(st, t) ==> t in st.accepts && st.accepts[t].listener in st.tuples)
            && (PeerKnown(st, t, addr) ==> addr.Some?)
            && (forall f :: Gen(init, f) == Gen(st, f))
  {
  }

  lemma {:induction false} Updated(st: State, fd: Fd, g: nat, a: Addr, role: Role, isLocal: bool)
    ensures var k := SocketKey(fd, g);
            var s, was := UpdateTuple(st, fd, g, a, role, isLocal), TupleAt(st, k);
            && k in s.tuples && s.tuples[k].role == role && s.tuples[k].family == FamilyOf(a, was)
            && (if isLocal then s.tuples[k].local && s.tuples[k].localPort == a.port else s.tuples[k].local == was.local && s.tuples[k].localPort == was.localPort)
            && (if isLocal then s.tuples[k].remote == was.remote && s.tuples[k].remotePort == was.remotePort else s.tuples[k].remote && s.tuples[k].remotePort == a.port)
            && (forall j :: j != k ==> (j in s.tuples <==> j in st.tuples) && (j in st.tuples ==> s.tuples[j] == st.tuples[j]))
            && s == st.(tuples := s.tuples)
  {
  }

  // ---- Data events ----------------------------------------------------------------------------------

  /** A chunk for which there was room, that could be copied, and that is no noise. */
  predicate Sent(f: Fate) {
    f.reserved && f.copied && !f.noise
  }

  /** A chunk takes a number once there is room for it, so one lost after that leaves a hole in the numbers. */
  function Numbers(fates: seq<Fate>): nat {
    if |fates| == 0 then 0 else Numbers(fates[..|fates| - 1]) + if fates[|fates| - 1].reserved then 1 else 0
  }

  /** The events of these chunks, numbered from first. */
  function Events(t: Thread, fd: Fd, g: nat, first: nat, current: nat, fromRead: bool, fates: seq<Fate>): seq<Entry> {
    if |fates| == 0 then []
    else
      var front, f := fates[..|fates| - 1], fates[|fates| - 1];
      Events(t, fd, g, first, current, fromRead, front)
        + if Sent(f) then [Entry(t, fd, g, first + Numbers(front), current, fromRead)] else []
  }

  /** Events on fd stamped with g and the next numbers, if their direction is on and the socket is let through;
      nothing of any other descriptor. */
  ghost predicate SaysChunks(env: Env, st: State, s: State, t: Thread, fd: Fd, g: nat, dir: Direction, fromRead: bool, fates: seq<Fate>) {
    var on := On(env, dir) && Allowed(env, st, fd, g);
    && s.log == st.log + (if on then Events(t, fd, g, Seq(st, fd), Gen(st, fd), fromRead, fates) else [])
    && Seq(s, fd) == Seq(st, fd) + (if on then Numbers(fates) else 0)
    && (forall f :: f != fd ==> Seq(s, f) == Seq(st, f))
  }

  /** Nothing but events, numbers and, if the thread was at work, the descriptor it used last. */
  ghost predicate OnlyBooks(st: State, s: State, t: Thread, fd: Fd, worked: bool) {
    s == st.(log := s.log, seqs := s.seqs, lastFd := if worked then st.lastFd[t := fd.fd] else st.lastFd)
  }

  predicate On(env: Env, dir: Direction) {
    if dir == Read then env.captureReads else env.captureWrites
  }

  lemma {:induction false} ChunkSaid(env: Env, st: State, t: Thread, fd: Fd, g: nat, dir: Direction, fromRead: bool, f: Fate)
    ensures var s := EmitChunk(env, st, t, fd, g, dir, fromRead, f);
            var on := On(env, dir) && Allowed(env, st, fd, g);
            && s.log == st.log + (if on && Sent(f) then [Entry(t, fd, g, Seq(st, fd), Gen(st, fd), fromRead)] else [])
            && Seq(s, fd) == Seq(st, fd) + (if on && f.reserved then 1 else 0)
            && (forall o :: o != fd ==> Seq(s, o) == Seq(st, o)) && OnlyBooks(st, s, t, fd, On(env, dir))
  {
    hide TupleAllowed, Allowed;
    AllowedIs(env, st, fd, g);
    AllowedIs(env, Touch(st, t, fd), fd, g);
    SameAllowed(env, st, Touch(st, t, fd), fd, g);
  }

  lemma {:induction false} SameAllowed(env: Env, st: State, s: State, fd: Fd, g: nat)
    requires s.tuples == st.tuples
    ensures Allowed(env, s, fd, g) <==> Allowed(env, st, fd, g)
  {
  }

  lemma {:induction false} ChunksSaid(env: Env, st: State, t: Thread, fd: Fd, g: nat, dir: Direction, fromRead: bool, fates: seq<Fate>)
    ensures var s := EmitChunks(env, st, t, fd, g, dir, fromRead, fates);
            SaysChunks(env, st, s, t, fd, g, dir, fromRead, fates) && OnlyBooks(st, s, t, fd, On(env, dir) && |fates| > 0)
    decreases |fates|
  {
    hide EmitChunk, Allowed, Seq, Gen, On;
    if |fates| > 0 {
      var front := fates[..|fates| - 1];
      var x := EmitChunks(env, st, t, fd, g, dir, fromRead, front);
      ChunksSaid(env, st, t, fd, g, dir, fromRead, front);
      SameAllowed(env, st, x, fd, g);
      SameGen(st, x, fd);
      ChunkSaid(env, x, t, fd, g, dir, fromRead, fates[|fates| - 1]);
    }
  }

  lemma {:induction false} SameGen(st: State, s: State, fd: Fd)
    requires s.gens == st.gens
    ensures Gen(s, fd) == Gen(st, fd)
  {
  }

  // ---- Calls that move data -------------------------------------------------------------------------

  /** The call is looked at: its descriptor is the last its thread used, with a generation. */
  lemma {:induction false} TouchedBooks(env: Env, st: State, t: Thread, fd: Fd)
    ensures var s := Touch(InitGen(st, fd), t, fd);
            && s == st.(gens := s.gens, lastFd := st.lastFd[t := fd.fd]) && (forall f :: Gen(s, f) == Gen(st, f))
            && (forall f :: Seq(s, f) == Seq(st, f)) && (Allowed(env, s, fd, Gen(st, fd)) <==> Allowed(env, st, fd, Gen(st, fd)))
  {
  }

  /** A write says its chunks on its own descriptor, under the present generation. */
  lemma {:induction false} WriteSays(env: Env, st: State, t: Thread, raw: int, fates: seq<Fate>)
    requires !KeptOut(env, WriteCall(t, raw, fates))
    ensures var fd := FdOf(t, raw);
            var s := Step(env, st, WriteCall(t, raw, fates));
            && SaysChunks(env, st, s, t, fd, Gen(st, fd), Write, false, fates)
            && s.lastFd == st.lastFd[t := fd.fd] && s.tuples == st.tuples && s.inFlight == st.inFlight
            && (forall f :: Gen(s, f) == Gen(st, f))
  {
    var fd := FdOf(t, raw);
    WriteBooks(env, st, t, fd, fates);
    hide DoWrite, SaysChunks, Allowed, Gen;
  }

  lemma {:induction false} WriteBooks(env: Env, st: State, t: Thread, fd: Fd, fates: seq<Fate>)
    requires env.captureWrites
    ensures var s := DoWrite(env, st, t, fd, fates);
            && SaysChunks(env, st, s, t, fd, Gen(st, fd), Write, false, fates)
            && s.lastFd == st.lastFd[t := fd.fd] && s.tuples == st.tuples && s.inFlight == st.inFlight
            && (forall f :: Gen(s, f) == Gen(st, f))
  {
    hide EmitChunks, Allowed, TupleAllowed, Touch, InitGen, Events;
    var x := Touch(InitGen(st, fd), t, fd);
    TouchedBooks(env, st, t, fd);
    AllowedIs(env, x, fd, Gen(st, fd));
    ChunksSaid(env, x, t, fd, Gen(st, fd), Write, false, fates);
    assert st.log + [] == st.log;
  }

  /** A read is remembered with its descriptor and the generation of the moment, if the socket is let through. */
  lemma {:induction false} ReadEnterSays(env: Env, st: State, t: Thread, raw: int, readable: bool)
    requires !KeptOut(env, ReadEnter(t, raw, readable))
    ensures var fd := FdOf(t, raw);
            var s := Step(env, st, ReadEnter(t, raw, readable));
            && s.log == st.log && s.lastFd == st.lastFd[t := fd.fd] && s.tuples == st.tuples
            && s.inFlight == (if readable && Allowed(env, st, fd, Gen(st, fd)) then st.inFlight[t := ReadContext(fd, Gen(st, fd))] else st.inFlight)
            && (forall f :: Gen(s, f) == Gen(st, f) && Seq(s, f) == Seq(st, f))
  {
    hide TupleAllowed, Allowed;
    var fd := FdOf(t, raw);
    TouchedBooks(env, st, t, fd);
    AllowedIs(env, Touch(InitGen(st, fd), t, fd), fd, Gen(st, fd));
  }

  /** The end of a read says its chunks on the descriptor, and under the generation, that it was entered with;
      nothing when it failed or reads are off. The read is forgotten. */
  lemma {:induction false} ReadExitSays(env: Env, st: State, t: Thread, ret: int, fates: seq<Fate>)
    requires !KeptOut(env, ReadExit(t, ret, fates)) && t in st.inFlight
    ensures var c := st.inFlight[t];
            var s := Step(env, st, ReadExit(t, ret, fates));
            && SaysChunks(env, st, s, t, c.fd, c.generation, Read, true, if ret > 0 then fates else [])
            && s.lastFd == (if env.captureReads && ret > 0 && fates != [] then st.lastFd[t := c.fd.fd] else st.lastFd)
            && s.inFlight == st.inFlight - {t} && s.tuples == st.tuples && (forall f :: Gen(s, f) == Gen(st, f))
  {
    hide EmitChunks, Allowed;
    var c := st.inFlight[t];
    ChunksSaid(env, st, t, c.fd, c.generation, Read, true, fates);
  }

  /** What a close leaves behind: its event, if there is room and the socket is let through, and no tuple. */
  ghost predicate Closed(env: Env, st: State, s: State, t: Thread, fd: Fd, reserved: bool) {
    var g := Gen(st, fd);
    && s.log == st.log + (if reserved && Allowed(env, st, fd, g) then [Entry(t, fd, g, Seq(st, fd), g, false)] else [])
    && s.tuples == st.tuples - {SocketKey(fd, g)} && s.lastFd == st.lastFd[t := fd.fd] && s.inFlight == st.inFlight
    && (forall f :: f != fd ==> Gen(s, f) == Gen(st, f) && Seq(s, f) == Seq(st, f))
  }

  lemma {:induction false} CloseBooks(env: Env, st: State, t: Thread, fd: Fd, reserved: bool)
    ensures Closed(env, st, DoClose(env, st, t, fd, reserved), t, fd, reserved)
  {
    hide TupleAllowed, Allowed;
    TouchedBooks(env, st, t, fd);
    AllowedIs(env, Touch(InitGen(st, fd), t, fd), fd, Gen(st, fd));
  }

  /** A close says so once, under the generation it ends. */
  lemma {:induction false} CloseSays(env: Env, st: State, t: Thread, raw: int, reserved: bool)
    requires !KeptOut(env, Close(t, raw, reserved))
    ensures Closed(env, st, Step(env, st, Close(t, raw, reserved)), t, FdOf(t, raw), reserved)
  {
    hide DoClose, Closed;
    CloseBooks(env, st, t, FdOf(t, raw), reserved);
  }

  lemma {:induction false} SslBooks(env: Env, st: State, t: Thread, fd: Fd, dir: Direction, fates: seq<Fate>)
    ensures var x := InitGen(st.(ssl := st.ssl - {(t, dir)}), fd);
            var s := EmitChunks(env, x, t, fd, Gen(st, fd), dir, false, fates);
            && SaysChunks(env, st, s, t, fd, Gen(st, fd), dir, false, fates) && OnlyBooks(x, s, t, fd, On(env, dir) && |fates| > 0)
            && (forall f :: Gen(s, f) == Gen(st, f))
  {
    hide EmitChunks, Allowed, Events;
    var x := InitGen(st.(ssl := st.ssl - {(t, dir)}), fd);
    SameAllowed(env, st, x, fd, Gen(st, fd));
    ChunksSaid(env, x, t, fd, Gen(st, fd), dir, false, fates);
  }

  /** The end of a TLS call says its chunks on the descriptor its thread used last, under the present generation. */
  lemma {:induction false} SslExitSays(env: Env, st: State, t: Thread, dir: Direction, ok: bool, fates: seq<Fate>)
    requires (t, dir) in st.ssl && t in st.lastFd
    ensures var fd := Fd(t.pid, st.lastFd[t]);
            var s := Step(env, st, SslExit(t, dir, ok, fates));
            && SaysChunks(env, st, s, t, fd, Gen(st, fd), dir, false, if ok then fates else [])
            && s.ssl == st.ssl - {(t, dir)} && s.lastFd == st.lastFd && s.tuples == st.tuples && s.inFlight == st.inFlight
            && (forall f :: Gen(s, f) == Gen(st, f))
  {
    if ok {
      hide EmitChunks, SaysChunks, InitGen, Gen;
      SslBooks(env, st, t, Fd(t.pid, st.lastFd[t]), dir, fates);
      InitIsOfGens(st.(ssl := st.ssl - {(t, dir)}), Fd(t.pid, st.lastFd[t]));
    } else {
      hide EmitChunks, Allowed;
    }
  }

  lemma {:induction false} InitIsOfGens(st: State, fd: Fd)
    ensures InitGen(st, fd) == st.(gens := InitGen(st, fd).gens)
  {
  }

  lemma {:induction false} SslExitOfNothing(env: Env, st: State, t: Thread, dir: Direction, ok: bool, fates: seq<Fate>)
    requires (t, dir) !in st.ssl || t !in st.lastFd
    ensures Step(env, st, SslExit(t, dir, ok, fates)) == st.(ssl := st.ssl - {(t, dir)})
  {
  }

  /** The begin of an accept, or of a TLS call, is remembered for its thread and says nothing. */
  lemma {:induction false} EntersAreRemembered(env: Env, st: State, t: Thread, raw: int, dir: Direction)
    ensures var fd, s := FdOf(t, raw), Step(env, st, AcceptEnter(t, raw));
            !KeptOut(env, AcceptEnter(t, raw)) ==>
              && s.accepts == st.accepts[t := AcceptContext(SocketKey(fd, Gen(st, fd)))]
              && s == st.(accepts := s.accepts, gens := s.gens) && forall f :: Gen(s, f) == Gen(st, f)
    ensures !KeptOut(env, SslEnter(t, dir)) ==> Step(env, st, SslEnter(t, dir)) == st.(ssl := st.ssl + {(t, dir)})
  {
  }

  /** User space writes back the tuple of exactly the descriptor and generation of an event. */
  lemma {:induction false} UserSpaceWrites(env: Env, st: State, i: nat, tuple: Tuple)
    requires i < |st.log|
    ensures var k := SocketKey(st.log[i].fd, st.log[i].generation);
            Step(env, st, Remember(i, tuple)) == st.(tuples := st.tuples[k := tuple])
  {
  }

  // ---- Threads do not meddle with each other -----------------------------------------------------------

  /** What is remembered for t is the same in both states. */
  ghost predicate SameFor(st: State, s: State, t: Thread) {
    && (t in s.lastFd <==> t in st.lastFd) && (t in st.lastFd ==> s.lastFd[t] == st.lastFd[t])
    && (t in s.inFlight <==> t in st.inFlight) && (t in st.inFlight ==> s.inFlight[t] == st.inFlight[t])
    && (t in s.accepts <==> t in st.accepts) && (t in st.accepts ==> s.accepts[t] == st.accepts[t])
    && forall dir :: (t, dir) in s.ssl <==> (t, dir) in st.ssl
  }

  predicate IsBy(a: Action, t: Thread) {
    !a.Remember? && a.t == t
  }

  lemma {:induction false} SameForBoth(st: State, x: State, s: State, t: Thread)
    requires SameFor(st, x, t) && SameFor(x, s, t)
    ensures SameFor(st, s, t)
  {
  }

  lemma {:induction false} SameMaps(st: State, s: State, t: Thread)
    requires s.lastFd == st.lastFd && s.inFlight == st.inFlight && s.accepts == st.accepts && s.ssl == st.ssl
    ensures SameFor(st, s, t)
  {
  }

  lemma {:induction false} OtherTouches(st: State, u: Thread, fd: Fd, t: Thread)
    requires u != t
    ensures SameFor(st, Touch(InitGen(st, fd), u, fd), t)
  {
  }

  lemma {:induction false} OtherChunks(env: Env, st: State, u: Thread, fd: Fd, g: nat, dir: Direction, fromRead: bool, fates: seq<Fate>, t: Thread)
    requires u != t
    ensures SameFor(st, EmitChunks(env, st, u, fd, g, dir, fromRead, fates), t)
  {
    hide EmitChunks, SaysChunks;
    ChunksSaid(env, st, u, fd, g, dir, fromRead, fates);
  }

  lemma {:induction false} ControlSame(st: State, u: Thread, fd: Fd, g: nat, reserved: bool, t: Thread)
    ensures SameFor(st, EmitControl(st, u, fd, g, reserved), t)
  {
  }

  lemma {:induction false} OtherSockets(st: State, u: Thread, fd: Fd, a: Addr, reserved: bool, t: Thread)
    ensures SameFor(st, DoBind(st, fd, a), t) && SameFor(st, DoConnect(st, u, fd, a, reserved), t)
  {
    hide UpdateTuple, EmitControl, SameFor;
    Updated(InitGen(st, fd), fd, Gen(st, fd), a, Inbound, true);
    Updated(InitGen(st, fd), fd, Gen(st, fd), a, Outbound, false);
    SameMaps(st, DoBind(st, fd, a), t);
    var x := UpdateTuple(InitGen(st, fd), fd, Gen(st, fd), a, Outbound, false);
    SameMaps(st, x, t);
    ControlSame(x, u, fd, Gen(st, fd), reserved, t);
    SameForBoth(st, x, DoConnect(st, u, fd, a, reserved), t);
  }

  lemma {:induction false} OtherAccepts(st: State, u: Thread, ret: int, addr: Option<Addr>, reserved: bool, t: Thread)
    requires u != t
    ensures SameFor(st, DoAcceptExit(st, u, ret, addr, reserved), t)
  {
    if ret >= 0 {
      hide Promote, EmitControl;
      var f := FdOf(u, ret);
      PromoteDescribes(InitGen(st, f), u, f, Gen(st, f), addr);
      var x := Promote(InitGen(st, f), u, f, Gen(st, f), addr).(accepts := st.accepts - {u});
      ControlSame(x, u, f, Gen(st, f), reserved, t);
    }
  }

  lemma {:induction false} OtherEnters(env: Env, st: State, u: Thread, fd: Fd, readable: bool, t: Thread)
    requires u != t
    ensures SameFor(st, DoAcceptEnter(st, u, fd), t) && SameFor(st, DoReadEnter(env, st, u, fd, readable), t)
  {
    hide TupleAllowed;
  }

  lemma {:induction false} OtherWrites(env: Env, st: State, u: Thread, fd: Fd, fates: seq<Fate>, t: Thread)
    requires u != t
    ensures SameFor(st, DoWrite(env, st, u, fd, fates), t)
  {
    hide EmitChunks, TupleAllowed, SameFor, Touch, InitGen;
    var x := Touch(InitGen(st, fd), u, fd);
    OtherTouches(st, u, fd, t);
    OtherChunks(env, x, u, fd, Gen(st, fd), Write, false, fates, t);
    SameForBoth(st, x, EmitChunks(env, x, u, fd, Gen(st, fd), Write, false, fates), t);
  }

  lemma {:induction false} OtherCloses(env: Env, st: State, u: Thread, fd: Fd, reserved: bool, t: Thread)
    requires u != t
    ensures SameFor(st, DoClose(env, st, u, fd, reserved), t)
  {
    hide TupleAllowed, SameFor, Touch, InitGen, EmitControl;
    var x := Touch(InitGen(st, fd), u, fd);
    var said := if TupleAllowed(env, x, fd, Gen(st, fd)) then EmitControl(x, u, fd, Gen(st, fd), reserved) else x;
    OtherTouches(st, u, fd, t);
    ControlSame(x, u, fd, Gen(st, fd), reserved, t);
    SameMaps(x, x, t);
    SameForBoth(st, x, said, t);
    SameMaps(said, DoClose(env, st, u, fd, reserved), t);
    SameForBoth(st, said, DoClose(env, st, u, fd, reserved), t);
  }

  lemma {:induction false} OtherReads(env: Env, st: State, u: Thread, ret: int, fates: seq<Fate>, t: Thread)
    requires u != t
    ensures SameFor(st, DoReadExit(env, st, u, ret, fates), t)
  {
    hide EmitChunks;
    if u in st.inFlight {
      var c := st.inFlight[u];
      OtherChunks(env, st, u, c.fd, c.generation, Read, true, fates, t);
    }
  }

  lemma {:induction false} OtherTls(env: Env, st: State, u: Thread, dir: Direction, ok: bool, fates: seq<Fate>, t: Thread)
    requires u != t
    ensures SameFor(st, DoSslExit(env, st, u, dir, ok, fates), t)
  {
    hide EmitChunks;
    var x := st.(ssl := st.ssl - {(u, dir)});
    if u in st.lastFd {
      var fd := Fd(u.pid, st.lastFd[u]);
      OtherChunks(env, InitGen(x, fd), u, fd, Gen(x, fd), dir, false, fates, t);
    }
  }

  /** What is remembered for a thread is changed by its own calls only. */
  lemma {:induction false} OthersLeaveIt(env: Env, st: State, a: Action, t: Thread)
    requires !IsBy(a, t)
    ensures SameFor(st, Step(env, st, a), t)
  {
    hide DoBind, DoConnect, DoAcceptEnter, DoAcceptExit, DoWrite, DoReadEnter, DoReadExit, DoClose, DoSslExit, SameFor;
    SameMaps(st, st, t);
    match a
    case Bind(u, raw, addr) => if addr.Some? { OtherSockets(st, u, FdOf(u, raw), addr.value, false, t); }
    case Connect(u, raw, addr, reserved) => if addr.Some? { OtherSockets(st, u, FdOf(u, raw), addr.value, reserved, t); }
    case AcceptEnter(u, raw) => OtherEnters(env, st, u, FdOf(u, raw), false, t);
    case AcceptExit(u, ret, addr, reserved) => OtherAccepts(st, u, ret, addr, reserved, t);
    case WriteCall(u, raw, fates) => OtherWrites(env, st, u, FdOf(u, raw), fates, t);
    case ReadEnter(u, raw, readable) => OtherEnters(env, st, u, FdOf(u, raw), readable, t);
    case ReadExit(u, ret, fates) => OtherReads(env, st, u, ret, fates, t);
    case Close(u, raw, reserved) => OtherCloses(env, st, u, FdOf(u, raw), reserved, t);
    case SslEnter(u, dir) => OtherSslEnters(st, u, dir, t);
    case SslExit(u, dir, ok, fates) => OtherTls(env, st, u, dir, ok, fates, t);
    case _ => SameMaps(st, Step(env, st, a), t);
  }

  lemma {:induction false} OtherSslEnters(st: State, u: Thread, dir: Direction, t: Thread)
    requires u != t
    ensures SameFor(st, st.(ssl := st.ssl + {(u, dir)}), t)
  {
  }

  function StepAll(st: State, ts: seq<Turn>): State {
    if |ts| == 0 then st else Step(ts[|ts| - 1].env, StepAll(st, ts[..|ts| - 1]), ts[|ts| - 1].action)
  }

  lemma {:induction false} OthersLeaveItAll(st: State, ts: seq<Turn>, t: Thread)
    requires forall i :: 0 <= i < |ts| ==> !IsBy(ts[i].action, t)
    ensures SameFor(st, StepAll(st, ts), t)
    decreases |ts|
  {
    hide Step;
    if |ts| > 0 {
      OthersLeaveItAll(st, ts[..|ts| - 1], t);
      OthersLeaveIt(ts[|ts| - 1].env, StepAll(st, ts[..|ts| - 1]), ts[|ts| - 1].action, t);
    }
  }

  /** The call a TLS library makes underneath: a write, or the begin of a read, on raw. */
  predicate TouchesFd(x: Turn, t: Thread, raw: int) {
    && !KeptOut(x.env, x.action)
    && ((x.action.WriteCall? && x.action.t == t && x.action.raw == raw) || (x.action.ReadEnter? && x.action.t == t && x.action.raw == raw))
  }

  /** The plaintext of a TLS call is filed under the descriptor that its thread has written to or begun to read
      from last, whatever other threads and user space do in between, and under that descriptor's generation now. */
  lemma {:induction false} PlaintextFollowsItsThread(st: State, x: Turn, t: Thread, raw: int, others: seq<Turn>, env: Env, dir: Direction, fates: seq<Fate>)
    requires TouchesFd(x, t, raw) && (t, dir) in st.ssl && forall i :: 0 <= i < |others| ==> !IsBy(others[i].action, t)
    ensures var before := StepAll(Step(x.env, st, x.action), others);
            var after := Step(env, before, SslExit(t, dir, true, fates));
            SaysChunks(env, before, after, t, FdOf(t, raw), Gen(before, FdOf(t, raw)), dir, false, fates)
  {
    hide StepAll, SaysChunks, Step;
    var touched := Step(x.env, st, x.action);
    assert t in touched.lastFd && touched.lastFd[t] == FdOf(t, raw).fd && (t, dir) in touched.ssl by {
      TouchIsKept(st, x, t, raw, dir);
    }
    OthersLeaveItAll(touched, others, t);
    SslExitSays(env, StepAll(touched, others), t, dir, true, fates);
  }

  lemma {:induction false} TouchIsKept(st: State, x: Turn, t: Thread, raw: int, dir: Direction)
    requires TouchesFd(x, t, raw) && (t, dir) in st.ssl
    ensures var s := Step(x.env, st, x.action); t in s.lastFd && s.lastFd[t] == FdOf(t, raw).fd && (t, dir) in s.ssl
  {
    hide EmitChunks, SaysChunks, TupleAllowed, DoWrite, DoReadEnter;
    var fd := FdOf(t, raw);
    match x.action
    case WriteCall(u, r, fates) => WriteTouches(x.env, st, t, fd, fates);
    case ReadEnter(u, r, readable) => ReadTouches(x.env, st, t, fd, readable);
    case _ =>
  }

  lemma {:induction false} WriteTouches(env: Env, st: State, t: Thread, fd: Fd, fates: seq<Fate>)
    ensures var s := DoWrite(env, st, t, fd, fates); s.lastFd == st.lastFd[t := fd.fd] && s.ssl == st.ssl
  {
    hide EmitChunks, SaysChunks, TupleAllowed, On;
    ChunksSaid(env, Touch(InitGen(st, fd), t, fd), t, fd, Gen(st, fd), Write, false, fates);
  }

  lemma {:induction false} ReadTouches(env: Env, st: State, t: Thread, fd: Fd, readable: bool)
    ensures var s := DoReadEnter(env, st, t, fd, readable); s.lastFd == st.lastFd[t := fd.fd] && s.ssl == st.ssl
  {
    hide TupleAllowed;
  }

  // ---- What is in the log ----------------------------------------------------------------------------------

  /** The call in which e was said: by that thread, past every filter of the moment. */
  predicate SaidBy(x: Turn, st: State, e: Entry) {
    && !KeptOut(x.env, x.action)
    && match x.action
       case Connect(t, raw, _, reserved) => reserved && e.thread == t && e.fd == FdOf(t, raw)
       case AcceptExit(t, ret, _, reserved) => reserved && ret >= 0 && e.thread == t && e.fd == FdOf(t, ret)
       case Close(t, raw, reserved) => reserved && e.thread == t && e.fd == FdOf(t, raw)
       case WriteCall(t, raw, _) => e.thread == t && e.fd == FdOf(t, raw)
       case ReadExit(t, ret, _) => ret > 0 && x.env.captureReads && e.thread == t && t in st.inFlight && st.inFlight[t] == ReadContext(e.fd, e.generation)
       case SslExit(t, dir, ok, _) =>
         && ok && On(x.env, dir)
         && e.thread == t && (t, dir) in st.ssl && t in st.lastFd && e.fd == Fd(t.pid, st.lastFd[t])
       case _ => false
  }

  /** Sockets that a filter holds back say nothing after the tuple is known. */
  ghost predicate LetThrough(x: Turn, st: State, e: Entry) {
    x.action.Connect? || x.action.AcceptExit? || Allowed(x.env, st, e.fd, e.generation)
  }

  ghost predicate Accounted(x: Turn, st: State, s: State) {
    st.log <= s.log && forall i :: |st.log| <= i < |s.log| ==> SaidBy(x, st, s.log[i]) && LetThrough(x, st, s.log[i])
  }

  ghost predicate AllBy(es: seq<Entry>, t: Thread, fd: Fd, g: nat) {
    forall i :: 0 <= i < |es| ==> es[i].thread == t && es[i].fd == fd && es[i].generation == g
  }

  lemma {:induction false} EventsAre(t: Thread, fd: Fd, g: nat, first: nat, current: nat, fromRead: bool, fates: seq<Fate>)
    ensures AllBy(Events(t, fd, g, first, current, fromRead, fates), t, fd, g)
    decreases |fates|
  {
    if |fates| > 0 {
      var front := fates[..|fates| - 1];
      EventsAre(t, fd, g, first, current, fromRead, front);
    }
  }

  lemma {:induction false} ChunksAccounted(x: Turn, st: State, s: State, t: Thread, fd: Fd, g: nat, dir: Direction, fromRead: bool, fates: seq<Fate>)
    requires SaysChunks(x.env, st, s, t, fd, g, dir, fromRead, fates)
    requires On(x.env, dir) && |fates| > 0 ==> Speaks(x, st, t, fd, g)
    ensures Accounted(x, st, s)
  {
    hide SaidBy, Allowed;
    var es := Events(t, fd, g, Seq(st, fd), Gen(st, fd), fromRead, fates);
    EventsAre(t, fd, g, Seq(st, fd), Gen(st, fd), fromRead, fates);
    forall i | |st.log| <= i < |s.log| ensures SaidBy(x, st, s.log[i]) && LetThrough(x, st, s.log[i]) {
      assert s.log[i] == es[i - |st.log|];
    }
  }

  /** Whatever t says in this turn on fd, stamped with g, is said by the turn. */
  ghost predicate Speaks(x: Turn, st: State, t: Thread, fd: Fd, g: nat) {
    forall e: Entry | e.thread == t && e.fd == fd && e.generation == g :: SaidBy(x, st, e)
  }

  lemma {:induction false} StepAccounted(x: Turn, st: State)
    ensures Accounted(x, st, Step(x.env, st, x.action))
  {
    hide Step, SaysChunks, Allowed, OnlyTuple, Described;
    if KeptOut(x.env, x.action) {
      KeptOutChangesNothing(x.env, st, x.action);
    } else {
      match x.action
      case Bind(t, raw, addr) => BindSaysLocal(x.env, st, t, raw, addr.value);
      case Connect(t, raw, addr, reserved) => ConnectSaysPeer(x.env, st, t, raw, addr.value, reserved);
      case AcceptEnter(t, raw) => EntersAreRemembered(x.env, st, t, raw, Read);
      case AcceptExit(t, ret, addr, reserved) => AcceptSaysBoth(x.env, st, t, ret, addr, reserved);
      case WriteCall(t, raw, fates) =>
        WriteSays(x.env, st, t, raw, fates);
        ChunksAccounted(x, st, Step(x.env, st, x.action), t, FdOf(t, raw), Gen(st, FdOf(t, raw)), Write, false, fates);
      case ReadEnter(t, raw, readable) => ReadEnterSays(x.env, st, t, raw, readable);
      case ReadExit(t, ret, fates) => ReadAccounted(x, st, t, ret, fates);
      case Close(t, raw, reserved) => CloseSays(x.env, st, t, raw, reserved);
      case SslEnter(t, dir) => EntersAreRemembered(x.env, st, t, 0, dir);
      case SslExit(t, dir, ok, fates) => SslAccounted(x, st, t, dir, ok, fates);
      case _ => UserSpaceSaysNothing(x.env, st, x.action);
    }
  }

  lemma {:induction false} UserSpaceSaysNothing(env: Env, st: State, a: Action)
    requires a.Remember?
    ensures Step(env, st, a).log == st.log
  {
  }

  lemma {:induction false} ReadAccounted(x: Turn, st: State, t: Thread, ret: int, fates: seq<Fate>)
    requires x.action == ReadExit(t, ret, fates) && !KeptOut(x.env, x.action)
    ensures Accounted(x, st, Step(x.env, st, x.action))
  {
    hide SaysChunks, Allowed, EmitChunks;
    if t in st.inFlight {
      hide Step;
      var c := st.inFlight[t];
      ReadExitSays(x.env, st, t, ret, fates);
      ChunksAccounted(x, st, Step(x.env, st, x.action), t, c.fd, c.generation, Read, true, if ret > 0 then fates else []);
    }
  }

  lemma {:induction false} SslAccounted(x: Turn, st: State, t: Thread, dir: Direction, ok: bool, fates: seq<Fate>)
    requires x.action == SslExit(t, dir, ok, fates)
    ensures Accounted(x, st, Step(x.env, st, x.action))
  {
    hide SaysChunks, Allowed, Step;
    if (t, dir) in st.ssl && t in st.lastFd {
      var fd := Fd(t.pid, st.lastFd[t]);
      SslExitSays(x.env, st, t, dir, ok, fates);
      ChunksAccounted(x, st, Step(x.env, st, x.action), t, fd, Gen(st, fd), dir, false, if ok then fates else []);
    } else {
      SslExitOfNothing(x.env, st, t, dir, ok, fates);
    }
  }

  /** Event i of the log was said in turn k. */
  ghost predicate SaidIn(ts: seq<Turn>, k: nat, e: Entry) {
    k < |ts| && SaidBy(ts[k], Run(ts[..k]), e) && LetThrough(ts[k], Run(ts[..k]), e)
  }

  ghost predicate WasSaid(ts: seq<Turn>, e: Entry) {
    exists k: nat :: SaidIn(ts, k, e)
  }

  ghost predicate AllSaid(ts: seq<Turn>, es: seq<Entry>) {
    forall i :: 0 <= i < |es| ==> WasSaid(ts, es[i])
  }

  /** Over every run: no event is in the log that was not said in a call of its own thread which every filter let
      through at that moment: the process traced, the descriptor captured, the direction on, the ports allowed. */
  lemma {:induction false} LoggedWasLetThrough(ts: seq<Turn>)
    ensures AllSaid(ts, Run(ts).log)
    decreases |ts|
  {
    hide Step, SaidBy, LetThrough, AllSaid;
    if |ts| == 0 {
      NothingSaid(ts);
    } else {
      var front, n := ts[..|ts| - 1], |ts| - 1;
      LoggedWasLetThrough(front);
      StepAccounted(ts[n], Run(front));
      MoreSaid(ts, Run(front).log, Run(ts).log);
    }
  }

  lemma {:induction false} NothingSaid(ts: seq<Turn>)
    ensures AllSaid(ts, [])
  {
  }

  lemma {:induction false} MoreSaid(ts: seq<Turn>, before: seq<Entry>, es: seq<Entry>)
    requires |ts| > 0 && AllSaid(ts[..|ts| - 1], before) && before <= es
    requires forall i :: |before| <= i < |es| ==> SaidIn(ts, |ts| - 1, es[i])
    ensures AllSaid(ts, es)
  {
    hide WasSaid;
    forall i | 0 <= i < |es| ensures WasSaid(ts, es[i]) {
      if i < |before| {
        assert es[i] == before[i];
        SaidStays(ts, es[i]);
      } else {
        SaidLast(ts, es[i]);
      }
    }
  }

  lemma {:induction false} SaidStays(ts: seq<Turn>, e: Entry)
    requires |ts| > 0 && WasSaid(ts[..|ts| - 1], e)
    ensures WasSaid(ts, e)
  {
    hide Run, SaidBy, LetThrough;
    var front := ts[..|ts| - 1];
    var k: nat :| SaidIn(front, k, e);
    assert front[..k] == ts[..k];
    assert SaidIn(ts, k, e);
  }

  lemma {:induction false} SaidLast(ts: seq<Turn>, e: Entry)
    requires |ts| > 0 && SaidIn(ts, |ts| - 1, e)
    ensures WasSaid(ts, e)
  {
  }
}
