/** The tracer's bookkeeping of file descriptors: generations, sequence numbers, socket tuples and
    calls in flight. Each handler is one step; counters do not wrap and maps never fill
    (bpf/tracer.bpf.c). */
module Kernel {
  import opened Wrappers
  import opened Words

  /** fd_key packs the pair into 64 bits; or-ing in a 32-bit descriptor is adding it. */
  function FdKey(pid: nat, fd: nat): (k: nat)
    requires pid < TWO32 && fd < TWO32
    ensures k < TWO32 * TWO32 && k / TWO32 == pid && k % TWO32 == fd
  {
    pid * TWO32 + fd
  }

  // ---- State --------------------------------------------------------------------------

  /** fd_key names the pair, so the maps are keyed by the pair itself. */
  datatype Fd = Fd(pid: nat, fd: nat)
  datatype Thread = Thread(pid: nat, tid: nat)
  datatype SocketKey = SocketKey(fd: Fd, generation: nat)

  datatype Role = UnknownRole | Inbound | Outbound
  datatype Addr = Addr(family: nat, port: nat)

  /** A port counts only when its flag is up. */
  datatype Tuple = Tuple(family: nat, localPort: nat, remotePort: nat, role: Role, local: bool, remote: bool)

  const NO_TUPLE := Tuple(0, 0, 0, UnknownRole, false, false)

  datatype ReadContext = ReadContext(fd: Fd, generation: nat)
  datatype AcceptContext = AcceptContext(listener: SocketKey)

  /** A submitted event: its stamp, the thread in whose call it was made, and what was true then. */
  datatype Entry = Entry(thread: Thread, fd: Fd, generation: nat, seqno: nat, current: nat, fromRead: bool)

  datatype State = State(gens: map<Fd, nat>, seqs: map<Fd, nat>, tuples: map<SocketKey, Tuple>,
                         inFlight: map<Thread, ReadContext>, accepts: map<Thread, AcceptContext>,
                         lastFd: map<Thread, nat>, ssl: set<(Thread, Direction)>, log: seq<Entry>)

  const BOOT := State(map[], map[], map[], map[], map[], map[], {}, [])

  /** What user space has configured at the moment of a step. */
  datatype Env = Env(traced: set<nat>, stdio: bool, captureReads: bool, captureWrites: bool,
                     ignoredPorts: set<nat>, targetsOn: bool, targetPorts: set<nat>)

  // ---- Filters ------------------------------------------------------------------------

  predicate Capturable(env: Env, raw: int) {
    raw > 2 || env.stdio
  }

  predicate Enabled(env: Env, dir: Direction) {
    if dir == Read then env.captureReads else env.captureWrites
  }

  predicate PortIn(t: Tuple, ports: set<nat>) {
    || (t.local && t.localPort != 0 && t.localPort in ports)
    || (t.remote && t.remotePort != 0 && t.remotePort in ports)
  }

  predicate TupleAllowed(env: Env, st: State, fd: Fd, generation: nat) {
    var key := SocketKey(fd, generation);
    key in st.tuples ==>
      var t := st.tuples[key];
      !PortIn(t, env.ignoredPorts) && !(env.targetsOn && t.local && t.remote && !PortIn(t, env.targetPorts))
  }

  // ---- Small updates --------------------------------------------------------------------

  /** What get_or_init_generation returns. */
  function Gen(st: State, fd: Fd): nat {
    if fd in st.gens then st.gens[fd] else 1
  }

  function InitGen(st: State, fd: Fd): State {
    st.(gens := st.gens[fd := Gen(st, fd)])
  }

  /** What next_seq returns. */
  function Seq(st: State, fd: Fd): nat {
    if fd in st.seqs then st.seqs[fd] else 0
  }

  function TakeSeq(st: State, fd: Fd): State {
    st.(seqs := st.seqs[fd := Seq(st, fd) + 1])
  }

  function Touch(st: State, t: Thread, fd: Fd): State {
    st.(lastFd := st.lastFd[t := fd.fd])
  }

  function Submit(st: State, t: Thread, fd: Fd, generation: nat, fromRead: bool): State {
    TakeSeq(st, fd).(log := st.log + [Entry(t, fd, generation, Seq(st, fd), Gen(st, fd), fromRead)])
  }

  function UpdateTuple(st: State, fd: Fd, generation: nat, a: Addr, role: Role, isLocal: bool): State {
    var key := SocketKey(fd, generation);
    var was := if key in st.tuples then st.tuples[key] else NO_TUPLE;
    var family := if a.family == 2 || a.family == 10 then a.family else was.family;
    var now := if isLocal then was.(family := family, localPort := a.port, local := true, role := role)
               else was.(family := family, remotePort := a.port, remote := true, role := role);
    st.(tuples := st.tuples[key := now])
  }

  // ---- Emitting -------------------------------------------------------------------------

  /** How one planned chunk fares: a full ring buffer, a failed copy and noise each lose it. */
  datatype Fate = Fate(reserved: bool, copied: bool, noise: bool)

  /** A chunk that is reserved takes a sequence number, whether or not it is submitted. */
  function EmitChunk(env: Env, st: State, t: Thread, fd: Fd, generation: nat, dir: Direction, fromRead: bool, fate: Fate): State {
    if !Enabled(env, dir) then st
    else
      var touched := Touch(st, t, fd);
      if !TupleAllowed(env, st, fd, generation) || !fate.reserved then touched
      else if !fate.copied || fate.noise then TakeSeq(touched, fd)
      else Submit(touched, t, fd, generation, fromRead)
  }

  function EmitChunks(env: Env, st: State, t: Thread, fd: Fd, generation: nat, dir: Direction, fromRead: bool, fates: seq<Fate>): State {
    if |fates| == 0 then st
    else EmitChunk(env, EmitChunks(env, st, t, fd, generation, dir, fromRead, fates[..|fates| - 1]),
                   t, fd, generation, dir, fromRead, fates[|fates| - 1])
  }

  function EmitControl(st: State, t: Thread, fd: Fd, generation: nat, reserved: bool): State {
    if reserved then Submit(st, t, fd, generation, false) else st
  }

  // ---- Handlers ---------------------------------------------------------------------------

  datatype Action =
    | Bind(t: Thread, raw: int, addr: Option<Addr>)
    | Connect(t: Thread, raw: int, addr: Option<Addr>, reserved: bool)
    | AcceptEnter(t: Thread, raw: int)
    | AcceptExit(t: Thread, ret: int, addr: Option<Addr>, reserved: bool)
    | WriteCall(t: Thread, raw: int, fates: seq<Fate>)
    | ReadEnter(t: Thread, raw: int, readable: bool)
    | ReadExit(t: Thread, ret: int, fates: seq<Fate>)
    | Close(t: Thread, raw: int, reserved: bool)
    | SslEnter(t: Thread, dir: Direction)
    | SslExit(t: Thread, dir: Direction, ok: bool, fates: seq<Fate>)
    // user space writes back what it resolved for an event it has received
    | Remember(i: nat, tuple: Tuple)

  function FdOf(t: Thread, raw: int): Fd {
    Fd(t.pid, raw % TWO32)
  }

  function DoBind(st: State, fd: Fd, a: Addr): State {
    UpdateTuple(InitGen(st, fd), fd, Gen(st, fd), a, Inbound, true)
  }

  function DoConnect(st: State, t: Thread, fd: Fd, a: Addr, reserved: bool): State {
    EmitControl(UpdateTuple(InitGen(st, fd), fd, Gen(st, fd), a, Outbound, false), t, fd, Gen(st, fd), reserved)
  }

  function DoAcceptEnter(st: State, t: Thread, fd: Fd): State {
    var s := InitGen(st, fd);
    s.(accepts := s.accepts[t := AcceptContext(SocketKey(fd, Gen(st, fd)))])
  }

  /** The accepted socket inherits the listener's local port and gets its peer's. */
  function Promote(st: State, t: Thread, fd: Fd, generation: nat, addr: Option<Addr>): State {
    if t !in st.accepts then st
    else
      var key := st.accepts[t].listener;
      var first := if key in st.tuples && st.tuples[key].local
        then UpdateTuple(st, fd, generation, Addr(st.tuples[key].family, st.tuples[key].localPort), Inbound, true) else st;
      if addr.Some? then UpdateTuple(first, fd, generation, addr.value, Inbound, false) else first
  }

  function DoAcceptExit(st: State, t: Thread, ret: int, addr: Option<Addr>, reserved: bool): State {
    if ret < 0 then st.(accepts := st.accepts - {t})
    else
      var fd := FdOf(t, ret);
      var promoted := Promote(InitGen(st, fd), t, fd, Gen(st, fd), addr);
      EmitControl(promoted.(accepts := st.accepts - {t}), t, fd, Gen(st, fd), reserved)
  }

  function DoWrite(env: Env, st: State, t: Thread, fd: Fd, fates: seq<Fate>): State {
    var s := Touch(InitGen(st, fd), t, fd);
    if TupleAllowed(env, s, fd, Gen(st, fd)) then EmitChunks(env, s, t, fd, Gen(st, fd), Write, false, fates) else s
  }

  /** The generation of the moment is kept with the call. */
  function DoReadEnter(env: Env, st: State, t: Thread, fd: Fd, readable: bool): State {
    var s := Touch(InitGen(st, fd), t, fd);
    if TupleAllowed(env, s, fd, Gen(st, fd)) && readable
    then s.(inFlight := s.inFlight[t := ReadContext(fd, Gen(st, fd))]) else s
  }

  function DoReadExit(env: Env, st: State, t: Thread, ret: int, fates: seq<Fate>): State {
    if t !in st.inFlight then st
    else
      var c := st.inFlight[t];
      var s := if Enabled(env, Read) && ret > 0 then EmitChunks(env, st, t, c.fd, c.generation, Read, true, fates) else st;
      s.(inFlight := s.inFlight - {t})
  }

  function DoClose(env: Env, st: State, t: Thread, fd: Fd, reserved: bool): State {
    var g := Gen(st, fd);
    var s := Touch(InitGen(st, fd), t, fd);
    var said := if TupleAllowed(env, s, fd, g) then EmitControl(s, t, fd, g, reserved) else s;
    said.(tuples := said.tuples - {SocketKey(fd, g)}, gens := said.gens[fd := g + 1], seqs := said.seqs - {fd})
  }

  /** The descriptor is the one the thread used last, the generation the current one. */
  function DoSslExit(env: Env, st: State, t: Thread, dir: Direction, ok: bool, fates: seq<Fate>): State {
    if (t, dir) !in st.ssl then st
    else
      var s := st.(ssl := st.ssl - {(t, dir)});
      if !ok || t !in s.lastFd then s
      else
        var fd := Fd(t.pid, s.lastFd[t]);
        EmitChunks(env, InitGen(s, fd), t, fd, Gen(s, fd), dir, false, fates)
  }

  predicate IsKernel(a: Action) {
    !a.Remember?
  }

  function Step(env: Env, st: State, a: Action): State {
    match a
    case Remember(i, tuple) =>
      if i < |st.log| then st.(tuples := st.tuples[SocketKey(st.log[i].fd, st.log[i].generation) := tuple]) else st
    case SslExit(t, dir, ok, fates) => DoSslExit(env, st, t, dir, ok, fates)
    case _ =>
      if a.t.pid !in env.traced then st
      else
        match a
        case Bind(t, raw, addr) =>
          if Capturable(env, raw) && addr.Some? then DoBind(st, FdOf(t, raw), addr.value) else st
        case Connect(t, raw, addr, reserved) =>
          if Capturable(env, raw) && addr.Some? then DoConnect(st, t, FdOf(t, raw), addr.value, reserved) else st
        case AcceptEnter(t, raw) =>
          if Capturable(env, raw) then DoAcceptEnter(st, t, FdOf(t, raw)) else st
        case AcceptExit(t, ret, addr, reserved) => DoAcceptExit(st, t, ret, addr, reserved)
        case WriteCall(t, raw, fates) =>
          if Enabled(env, Write) && Capturable(env, raw) then DoWrite(env, st, t, FdOf(t, raw), fates) else st
        case ReadEnter(t, raw, readable) =>
          if Enabled(env, Read) && Capturable(env, raw) then DoReadEnter(env, st, t, FdOf(t, raw), readable) else st
        case ReadExit(t, ret, fates) => DoReadExit(env, st, t, ret, fates)
        case Close(t, raw, reserved) =>
          if Capturable(env, raw) then DoClose(env, st, t, FdOf(t, raw), reserved) else st
        case SslEnter(t, dir) => st.(ssl := st.ssl + {(t, dir)})
  }

  datatype Turn = Turn(env: Env, action: Action)

  function Run(ts: seq<Turn>): State {
    if |ts| == 0 then BOOT else Step(ts[|ts| - 1].env, Run(ts[..|ts| - 1]), ts[|ts| - 1].action)
  }

  // ---- Stamps -------------------------------------------------------------------------------

  /** The event carries the generation its descriptor had when it was stamped. */
  predicate IsCurrent(e: Entry) {
    e.generation == e.current
  }

  predicate StampBefore(a: Entry, b: Entry) {
    a.generation < b.generation || (a.generation == b.generation && a.seqno < b.seqno)
  }

  /** Stamps of current events on one descriptor strictly increase. */
  ghost predicate StampsIncrease(es: seq<Entry>) {
    forall i, j :: 0 <= i < j < |es| && es[i].fd == es[j].fd && IsCurrent(es[i]) && IsCurrent(es[j]) ==>
      StampBefore(es[i], es[j])
  }

  /** What the present state says about an event already submitted; only a read can be late. */
  ghost predicate Past(st: State, e: Entry) {
    && e.generation <= e.current <= Gen(st, e.fd)
    && (e.current == Gen(st, e.fd) ==> e.seqno < Seq(st, e.fd))
    && (e.generation < e.current ==> e.fromRead)
  }

  ghost predicate Inv(st: State) {
    && StampsIncrease(st.log)
    && (forall i :: 0 <= i < |st.log| ==> Past(st, st.log[i]))
    && (forall t :: t in st.inFlight ==> st.inFlight[t].generation <= Gen(st, st.inFlight[t].fd))
    && (forall k :: k in st.tuples ==> k.generation <= Gen(st, k.fd))
  }

  /** No generation or sequence number has gone back. */
  ghost predicate Later(st: State, s: State) {
    && (forall fd :: Gen(s, fd) == Gen(st, fd) && Seq(st, fd) <= Seq(s, fd))
    && s.inFlight == st.inFlight
  }

  lemma {:induction false} SubmitKeeps(st: State, t: Thread, fd: Fd, generation: nat, fromRead: bool)
    requires Inv(st) && generation <= Gen(st, fd) && (generation < Gen(st, fd) ==> fromRead)
    ensures Inv(Submit(st, t, fd, generation, fromRead)) && Later(st, Submit(st, t, fd, generation, fromRead))
  {
    var s := Submit(st, t, fd, generation, fromRead);
    forall i | 0 <= i < |s.log| ensures Past(s, s.log[i]) {
      assert i < |st.log| ==> Past(st, st.log[i]);
    }
    forall i | 0 <= i < |st.log| && s.log[i].fd == fd && IsCurrent(s.log[i]) && IsCurrent(s.log[|st.log|])
      ensures StampBefore(s.log[i], s.log[|st.log|])
    {
      assert Past(st, st.log[i]);
    }
  }

  lemma {:induction false} TakeSeqKeeps(st: State, fd: Fd)
    requires Inv(st)
    ensures Inv(TakeSeq(st, fd)) && Later(st, TakeSeq(st, fd))
  {
    var s := TakeSeq(st, fd);
    forall i | 0 <= i < |s.log| ensures Past(s, s.log[i]) {
      assert Past(st, st.log[i]);
    }
  }

  /** Steps that leave generations, sequence numbers and the log alone. */
  lemma {:induction false} SameBooks(st: State, s: State)
    requires Inv(st) && s.log == st.log && s.seqs == st.seqs && (forall fd :: Gen(s, fd) == Gen(st, fd))
    requires forall t :: t in s.inFlight ==> s.inFlight[t].generation <= Gen(st, s.inFlight[t].fd)
    requires forall k :: k in s.tuples ==> k.generation <= Gen(st, k.fd)
    ensures Inv(s)
  {
    forall i | 0 <= i < |s.log| ensures Past(s, s.log[i]) {
      assert Past(st, st.log[i]);
    }
  }

  lemma {:induction false} EmitChunkKeeps(env: Env, st: State, t: Thread, fd: Fd, generation: nat, dir: Direction, fromRead: bool, fate: Fate)
    requires Inv(st) && generation <= Gen(st, fd) && (generation < Gen(st, fd) ==> fromRead)
    ensures var s := EmitChunk(env, st, t, fd, generation, dir, fromRead, fate); Inv(s) && Later(st, s)
  {
    hide TupleAllowed;
    var touched := Touch(st, t, fd);
    SameBooks(st, touched);
    hide Inv, Submit, TakeSeq;
    SubmitKeeps(touched, t, fd, generation, fromRead);
    TakeSeqKeeps(touched, fd);
  }

  lemma {:induction false} EmitChunksKeep(env: Env, st: State, t: Thread, fd: Fd, generation: nat, dir: Direction, fromRead: bool, fates: seq<Fate>)
    requires Inv(st) && generation <= Gen(st, fd) && (generation < Gen(st, fd) ==> fromRead)
    ensures var s := EmitChunks(env, st, t, fd, generation, dir, fromRead, fates); Inv(s) && Later(st, s)
    decreases |fates|
  {
    hide Inv, EmitChunk, Gen, Seq;
    if |fates| > 0 {
      EmitChunksKeep(env, st, t, fd, generation, dir, fromRead, fates[..|fates| - 1]);
      var s := EmitChunks(env, st, t, fd, generation, dir, fromRead, fates[..|fates| - 1]);
      EmitChunkKeeps(env, s, t, fd, generation, dir, fromRead, fates[|fates| - 1]);
    }
  }

  lemma {:induction false} TouchKeeps(st: State, t: Thread, fd: Fd)
    requires Inv(st)
    ensures var s := Touch(InitGen(st, fd), t, fd); Inv(s) && Later(st, s)
  {
    SameBooks(st, Touch(InitGen(st, fd), t, fd));
  }

  lemma {:induction false} InitGenKeeps(st: State, fd: Fd)
    requires Inv(st)
    ensures Inv(InitGen(st, fd)) && Later(st, InitGen(st, fd))
  {
    SameBooks(st, InitGen(st, fd));
  }

  lemma {:induction false} UpdateTupleKeeps(st: State, fd: Fd, generation: nat, a: Addr, role: Role, isLocal: bool)
    requires Inv(st) && generation <= Gen(st, fd)
    ensures var s := UpdateTuple(st, fd, generation, a, role, isLocal); Inv(s) && Later(st, s)
  {
    SameBooks(st, UpdateTuple(st, fd, generation, a, role, isLocal));
  }

  lemma {:induction false} EmitControlKeeps(st: State, t: Thread, fd: Fd, generation: nat, reserved: bool)
    requires Inv(st) && generation == Gen(st, fd)
    ensures var s := EmitControl(st, t, fd, generation, reserved); Inv(s) && Later(st, s)
  {
    SubmitKeeps(st, t, fd, generation, false);
  }

  lemma {:induction false} CloseKeeps(st: State, s: State, fd: Fd)
    requires Inv(st) && s.log == st.log && s.inFlight == st.inFlight
    requires s.gens == st.gens[fd := Gen(st, fd) + 1] && s.seqs == st.seqs - {fd}
    requires forall k :: k in s.tuples ==> k in st.tuples
    ensures Inv(s)
  {
    forall i | 0 <= i < |s.log| ensures Past(s, s.log[i]) {
      assert Past(st, st.log[i]);
    }
  }

  // ---- Every handler keeps the books ------------------------------------------------------------

  lemma {:induction false} BindAndConnectKeep(st: State, t: Thread, fd: Fd, a: Addr, reserved: bool)
    requires Inv(st)
    ensures Inv(DoBind(st, fd, a)) && Inv(DoConnect(st, t, fd, a, reserved))
  {
    hide Inv, UpdateTuple, EmitControl;
    var g := Gen(st, fd);
    InitGenKeeps(st, fd);
    UpdateTupleKeeps(InitGen(st, fd), fd, g, a, Inbound, true);
    UpdateTupleKeeps(InitGen(st, fd), fd, g, a, Outbound, false);
    EmitControlKeeps(UpdateTuple(InitGen(st, fd), fd, g, a, Outbound, false), t, fd, g, reserved);
  }

  lemma {:induction false} PromoteKeeps(st: State, t: Thread, fd: Fd, generation: nat, addr: Option<Addr>)
    requires Inv(st) && generation == Gen(st, fd)
    ensures var s := Promote(st, t, fd, generation, addr); Inv(s) && Later(st, s)
  {
    hide Inv, UpdateTuple;
    if t in st.accepts {
      var key := st.accepts[t].listener;
      var first := st;
      if key in st.tuples && st.tuples[key].local {
        var a := Addr(st.tuples[key].family, st.tuples[key].localPort);
        UpdateTupleKeeps(st, fd, generation, a, Inbound, true);
        first := UpdateTuple(st, fd, generation, a, Inbound, true);
      }
      if addr.Some? {
        UpdateTupleKeeps(first, fd, generation, addr.value, Inbound, false);
      }
    }
  }

  lemma {:induction false} AcceptExitKeeps(st: State, t: Thread, ret: int, addr: Option<Addr>, reserved: bool)
    requires Inv(st)
    ensures Inv(DoAcceptExit(st, t, ret, addr, reserved))
  {
    if ret < 0 {
      SameBooks(st, st.(accepts := st.accepts - {t}));
    } else {
      var fd := FdOf(t, ret);
      InitGenKeeps(st, fd);
      PromoteKeeps(InitGen(st, fd), t, fd, Gen(st, fd), addr);
      var promoted := Promote(InitGen(st, fd), t, fd, Gen(st, fd), addr);
      hide Promote;
      SameBooks(promoted, promoted.(accepts := st.accepts - {t}));
      hide Inv;
      EmitControlKeeps(promoted.(accepts := st.accepts - {t}), t, fd, Gen(st, fd), reserved);
    }
  }

  lemma {:induction false} WriteKeeps(env: Env, st: State, t: Thread, fd: Fd, fates: seq<Fate>)
    requires Inv(st)
    ensures Inv(DoWrite(env, st, t, fd, fates))
  {
    hide Inv;
    TouchKeeps(st, t, fd);
    EmitChunksKeep(env, Touch(InitGen(st, fd), t, fd), t, fd, Gen(st, fd), Write, false, fates);
  }

  lemma {:induction false} ReadEnterKeeps(env: Env, st: State, t: Thread, fd: Fd, readable: bool)
    requires Inv(st)
    ensures Inv(DoReadEnter(env, st, t, fd, readable))
  {
    TouchKeeps(st, t, fd);
    var s := Touch(InitGen(st, fd), t, fd);
    SameBooks(s, DoReadEnter(env, st, t, fd, readable));
  }

  lemma {:induction false} ReadExitKeeps(env: Env, st: State, t: Thread, ret: int, fates: seq<Fate>)
    requires Inv(st)
    ensures Inv(DoReadExit(env, st, t, ret, fates))
  {
    if t in st.inFlight {
      var c := st.inFlight[t];
      EmitChunksKeep(env, st, t, c.fd, c.generation, Read, true, fates);
      var s := if Enabled(env, Read) && ret > 0 then EmitChunks(env, st, t, c.fd, c.generation, Read, true, fates) else st;
      SameBooks(s, s.(inFlight := s.inFlight - {t}));
    }
  }

  lemma {:induction false} DoCloseKeeps(env: Env, st: State, t: Thread, fd: Fd, reserved: bool)
    requires Inv(st)
    ensures Inv(DoClose(env, st, t, fd, reserved))
  {
    hide Inv, TupleAllowed, EmitControl;
    TouchKeeps(st, t, fd);
    var s := Touch(InitGen(st, fd), t, fd);
    EmitControlKeeps(s, t, fd, Gen(st, fd), reserved);
    var said := if TupleAllowed(env, s, fd, Gen(st, fd)) then EmitControl(s, t, fd, Gen(st, fd), reserved) else s;
    CloseKeeps(said, DoClose(env, st, t, fd, reserved), fd);
  }

  lemma {:induction false} SslExitKeeps(env: Env, st: State, t: Thread, dir: Direction, ok: bool, fates: seq<Fate>)
    requires Inv(st)
    ensures Inv(DoSslExit(env, st, t, dir, ok, fates))
  {
    if (t, dir) in st.ssl {
      var s := st.(ssl := st.ssl - {(t, dir)});
      SameBooks(st, s);
      if ok && t in s.lastFd {
        hide Inv;
        var fd := Fd(t.pid, s.lastFd[t]);
        InitGenKeeps(s, fd);
        EmitChunksKeep(env, InitGen(s, fd), t, fd, Gen(s, fd), dir, false, fates);
      }
    }
  }

  lemma {:induction false} EnterKeeps(st: State, t: Thread, fd: Fd, dir: Direction)
    requires Inv(st)
    ensures Inv(DoAcceptEnter(st, t, fd)) && Inv(st.(ssl := st.ssl + {(t, dir)}))
  {
    SameBooks(st, DoAcceptEnter(st, t, fd));
    SameBooks(st, st.(ssl := st.ssl + {(t, dir)}));
  }

  lemma {:induction false} UserStepKeeps(env: Env, st: State, a: Action)
    requires Inv(st) && !IsKernel(a)
    ensures Inv(Step(env, st, a))
  {
    if a.i < |st.log| {
      assert Past(st, st.log[a.i]);
      SameBooks(st, Step(env, st, a));
    }
  }

  lemma {:induction false} StepKeeps(env: Env, st: State, a: Action)
    requires Inv(st)
    ensures Inv(Step(env, st, a))
  {
    hide Inv, DoBind, DoConnect, DoAcceptEnter, DoAcceptExit, DoWrite, DoReadEnter, DoReadExit, DoClose, DoSslExit;
    match a
    case Remember(i, tuple) => UserStepKeeps(env, st, a);
    case Bind(t, raw, addr) =>
      if addr.Some? { BindAndConnectKeep(st, t, FdOf(t, raw), addr.value, false); }
    case Connect(t, raw, addr, reserved) =>
      if addr.Some? { BindAndConnectKeep(st, t, FdOf(t, raw), addr.value, reserved); }
    case AcceptEnter(t, raw) => EnterKeeps(st, t, FdOf(t, raw), Read);
    case AcceptExit(t, ret, addr, reserved) => AcceptExitKeeps(st, t, ret, addr, reserved);
    case WriteCall(t, raw, fates) => WriteKeeps(env, st, t, FdOf(t, raw), fates);
    case ReadEnter(t, raw, readable) => ReadEnterKeeps(env, st, t, FdOf(t, raw), readable);
    case ReadExit(t, ret, fates) => ReadExitKeeps(env, st, t, ret, fates);
    case Close(t, raw, reserved) => DoCloseKeeps(env, st, t, FdOf(t, raw), reserved);
    case SslEnter(t, dir) => EnterKeeps(st, t, Fd(0, 0), dir);
    case SslExit(t, dir, ok, fates) => SslExitKeeps(env, st, t, dir, ok, fates);
  }

  lemma {:induction false} RunKeeps(ts: seq<Turn>)
    ensures Inv(Run(ts))
    decreases |ts|
  {
    if |ts| > 0 {
      hide Step;
      RunKeeps(ts[..|ts| - 1]);
      StepKeeps(ts[|ts| - 1].env, Run(ts[..|ts| - 1]), ts[|ts| - 1].action);
    }
  }

  // ---- Results ----------------------------------------------------------------------------------

  /** In any interleaving of handlers and user-space writes: stamps of current events increase
      strictly on every descriptor, and only a read is ever stamped with an older generation. */
  lemma {:induction false} StampsNeverRepeat(ts: seq<Turn>)
    ensures var es := Run(ts).log;
            && StampsIncrease(es)
            && (forall i :: 0 <= i < |es| ==> es[i].generation <= es[i].current)
            && (forall i :: 0 <= i < |es| && !IsCurrent(es[i]) ==> es[i].fromRead)
  {
    RunKeeps(ts);
    var st := Run(ts);
    assert forall i :: 0 <= i < |st.log| ==> Past(st, st.log[i]);
  }

  /** Nothing on fd is as new as its generation, which has no tuple and starts at number 0. */
  ghost predicate StartsAfresh(st: State, fd: Fd) {
    && Seq(st, fd) == 0
    && (forall k :: k in st.tuples && k.fd == fd ==> k.generation < Gen(st, fd))
    && (forall i :: 0 <= i < |st.log| && st.log[i].fd == fd ==> st.log[i].generation < Gen(st, fd))
  }

  lemma {:induction false} DoCloseStartsAfresh(env: Env, st: State, t: Thread, fd: Fd, reserved: bool)
    requires Inv(st)
    ensures var s := DoClose(env, st, t, fd, reserved);
            StartsAfresh(s, fd) && Gen(s, fd) == Gen(st, fd) + 1 && SocketKey(fd, Gen(st, fd)) !in s.tuples
  {
    hide TupleAllowed, EmitControl;
    var g := Gen(st, fd);
    TouchKeeps(st, t, fd);
    var s := Touch(InitGen(st, fd), t, fd);
    EmitControlKeeps(s, t, fd, g, reserved);
    var said := if TupleAllowed(env, s, fd, g) then EmitControl(s, t, fd, g, reserved) else s;
    assert Inv(said) && Gen(said, fd) == g;
    assert forall i :: 0 <= i < |said.log| && said.log[i].fd == fd ==> Past(said, said.log[i]);
  }

  /** A traced close ends the generation: the next one starts at sequence number 0, newer than every
      event and tuple there is, so without a tuple. */
  lemma {:induction false} CloseStartsAfresh(ts: seq<Turn>, env: Env, t: Thread, raw: int, reserved: bool)
    requires t.pid in env.traced && Capturable(env, raw)
    ensures var before, fd := Run(ts), FdOf(t, raw);
            var st := Step(env, before, Close(t, raw, reserved));
            StartsAfresh(st, fd) && Gen(st, fd) == Gen(before, fd) + 1 && SocketKey(fd, Gen(before, fd)) !in st.tuples
  {
    hide Inv, Run, DoClose;
    RunKeeps(ts);
    DoCloseStartsAfresh(env, Run(ts), t, FdOf(t, raw), reserved);
  }

  /** No tuple is ever filed under a generation that has not begun. */
  lemma {:induction false} TuplesAreNotAhead(ts: seq<Turn>, k: SocketKey)
    requires k in Run(ts).tuples
    ensures k.generation <= Gen(Run(ts), k.fd)
  {
    RunKeeps(ts);
  }

  // ---- Accepted sockets --------------------------------------------------------------------------

  lemma {:induction false} BoundListener(st: State, t: Thread, listener: Fd, a: Addr)
    requires a.family == 2 || a.family == 10
    ensures var waiting := DoAcceptEnter(DoBind(st, listener, a), t, listener);
            var key := SocketKey(listener, Gen(st, listener));
            && t in waiting.accepts && waiting.accepts[t].listener == key
            && key in waiting.tuples && waiting.tuples[key].local && waiting.tuples[key].localPort == a.port
            && (forall k :: k != key ==> (k in waiting.tuples <==> k in st.tuples))
            && (forall fd :: Gen(waiting, fd) == Gen(st, fd))
  {
    var bound := DoBind(st, listener, a);
    assert Gen(bound, listener) == Gen(st, listener);
  }

  lemma {:induction false} PromotedTuple(st: State, t: Thread, fd: Fd, generation: nat, peer: Addr)
    requires peer.family == 2 || peer.family == 10
    requires t in st.accepts && st.accepts[t].listener in st.tuples && st.tuples[st.accepts[t].listener].local
    requires SocketKey(fd, generation) !in st.tuples
    ensures Promote(st, t, fd, generation, Some(peer)).tuples
         == st.tuples[SocketKey(fd, generation) := Tuple(peer.family, st.tuples[st.accepts[t].listener].localPort, peer.port, Inbound, true, true)]
  {
  }

  /** A listener bound at a, then a connection accepted from peer on a descriptor without a tuple: the
      new socket is described by the listener's port and the peer's, under its own generation, and
      no other tuple changes. */
  lemma {:induction false} AcceptedSocketIsDescribed(st: State, t: Thread, listener: Fd, a: Addr, ret: nat, peer: Addr, reserved: bool)
    requires a.family == 2 || a.family == 10
    requires peer.family == 2 || peer.family == 10
    requires FdOf(t, ret) != listener && SocketKey(FdOf(t, ret), Gen(st, FdOf(t, ret))) !in st.tuples
    ensures var waiting := DoAcceptEnter(DoBind(st, listener, a), t, listener);
            var s := DoAcceptExit(waiting, t, ret, Some(peer), reserved);
            var key := SocketKey(FdOf(t, ret), Gen(st, FdOf(t, ret)));
            && s.tuples == waiting.tuples[key := Tuple(peer.family, a.port, peer.port, Inbound, true, true)]
            && t !in s.accepts
  {
    hide DoBind, DoAcceptEnter, Promote, UpdateTuple;
    BoundListener(st, t, listener, a);
    var waiting, fd := DoAcceptEnter(DoBind(st, listener, a), t, listener), FdOf(t, ret);
    PromotedTuple(InitGen(waiting, fd), t, fd, Gen(st, fd), peer);
  }

  // ---- Kernel steps alone -------------------------------------------------------------------------

  /** Every tuple belongs to the present generation of its descriptor. */
  ghost predicate TuplesAreCurrent(st: State) {
    forall k :: k in st.tuples ==> k.generation == Gen(st, k.fd)
  }

  ghost predicate SameTuples(st: State, s: State) {
    s.tuples == st.tuples && forall fd :: Gen(s, fd) == Gen(st, fd)
  }

  lemma {:induction false} EmitChunkTuples(env: Env, st: State, t: Thread, fd: Fd, generation: nat, dir: Direction, fromRead: bool, fate: Fate)
    ensures SameTuples(st, EmitChunk(env, st, t, fd, generation, dir, fromRead, fate))
  {
    hide TupleAllowed;
  }

  lemma {:induction false} EmitChunksTuples(env: Env, st: State, t: Thread, fd: Fd, generation: nat, dir: Direction, fromRead: bool, fates: seq<Fate>)
    ensures SameTuples(st, EmitChunks(env, st, t, fd, generation, dir, fromRead, fates))
    decreases |fates|
  {
    hide EmitChunk, Gen;
    if |fates| > 0 {
      EmitChunksTuples(env, st, t, fd, generation, dir, fromRead, fates[..|fates| - 1]);
      EmitChunkTuples(env, EmitChunks(env, st, t, fd, generation, dir, fromRead, fates[..|fates| - 1]),
                      t, fd, generation, dir, fromRead, fates[|fates| - 1]);
    }
  }

  lemma {:induction false} PromoteTuples(st: State, t: Thread, fd: Fd, addr: Option<Addr>)
    requires TuplesAreCurrent(st)
    ensures TuplesAreCurrent(Promote(st, t, fd, Gen(st, fd), addr))
    ensures forall f :: Gen(Promote(st, t, fd, Gen(st, fd), addr), f) == Gen(st, f)
  {
  }

  lemma {:induction false} WriteTuples(env: Env, st: State, t: Thread, fd: Fd, fates: seq<Fate>)
    requires TuplesAreCurrent(st)
    ensures TuplesAreCurrent(DoWrite(env, st, t, fd, fates))
  {
    hide TupleAllowed, EmitChunks;
    EmitChunksTuples(env, Touch(InitGen(st, fd), t, fd), t, fd, Gen(st, fd), Write, false, fates);
  }

  lemma {:induction false} ReadExitTuples(env: Env, st: State, t: Thread, ret: int, fates: seq<Fate>)
    requires TuplesAreCurrent(st)
    ensures TuplesAreCurrent(DoReadExit(env, st, t, ret, fates))
  {
    hide EmitChunks;
    if t in st.inFlight {
      EmitChunksTuples(env, st, t, st.inFlight[t].fd, st.inFlight[t].generation, Read, true, fates);
    }
  }

  lemma {:induction false} SslExitTuples(env: Env, st: State, t: Thread, dir: Direction, ok: bool, fates: seq<Fate>)
    requires TuplesAreCurrent(st)
    ensures TuplesAreCurrent(DoSslExit(env, st, t, dir, ok, fates))
  {
    hide EmitChunks;
    if (t, dir) in st.ssl && t in st.lastFd {
      var s, fd := st.(ssl := st.ssl - {(t, dir)}), Fd(t.pid, st.lastFd[t]);
      EmitChunksTuples(env, InitGen(s, fd), t, fd, Gen(s, fd), dir, false, fates);
    }
  }

  lemma {:induction false} SameTuplesKeep(st: State, s: State)
    requires TuplesAreCurrent(st) && SameTuples(st, s)
    ensures TuplesAreCurrent(s)
  {
  }

  lemma {:induction false} AcceptExitTuples(st: State, t: Thread, ret: int, addr: Option<Addr>, reserved: bool)
    requires TuplesAreCurrent(st)
    ensures TuplesAreCurrent(DoAcceptExit(st, t, ret, addr, reserved))
  {
    hide TuplesAreCurrent, Promote;
    var done := DoAcceptExit(st, t, ret, addr, reserved);
    if ret < 0 {
      SameTuplesKeep(st, done);
    } else {
      var fd := FdOf(t, ret);
      SameTuplesKeep(st, InitGen(st, fd));
      PromoteTuples(InitGen(st, fd), t, fd, addr);
      SameTuplesKeep(Promote(InitGen(st, fd), t, fd, Gen(st, fd), addr), done);
    }
  }

  lemma {:induction false} BindAndConnectTuples(st: State, t: Thread, fd: Fd, a: Addr, reserved: bool)
    requires TuplesAreCurrent(st)
    ensures TuplesAreCurrent(DoBind(st, fd, a)) && TuplesAreCurrent(DoConnect(st, t, fd, a, reserved))
  {
  }

  lemma {:induction false} EnterTuples(env: Env, st: State, t: Thread, fd: Fd, readable: bool)
    requires TuplesAreCurrent(st)
    ensures TuplesAreCurrent(DoReadEnter(env, st, t, fd, readable)) && TuplesAreCurrent(DoAcceptEnter(st, t, fd))
  {
    hide TupleAllowed;
  }

  lemma {:induction false} CloseTuples(env: Env, st: State, t: Thread, fd: Fd, reserved: bool)
    requires TuplesAreCurrent(st)
    ensures TuplesAreCurrent(DoClose(env, st, t, fd, reserved))
  {
    hide TupleAllowed;
    var s := DoClose(env, st, t, fd, reserved);
    assert forall k :: k in s.tuples ==> k in st.tuples && k != SocketKey(fd, Gen(st, fd));
    assert forall f :: f != fd ==> Gen(s, f) == Gen(st, f);
  }

  lemma {:induction false} StepKeepsTuplesCurrent(env: Env, st: State, a: Action)
    requires TuplesAreCurrent(st) && IsKernel(a)
    ensures TuplesAreCurrent(Step(env, st, a))
  {
    hide DoBind, DoConnect, DoAcceptEnter, DoAcceptExit, DoWrite, DoReadEnter, DoReadExit, DoClose, DoSslExit;
    match a
    case Bind(t, raw, addr) =>
      if addr.Some? { BindAndConnectTuples(st, t, FdOf(t, raw), addr.value, false); }
    case Connect(t, raw, addr, reserved) =>
      if addr.Some? { BindAndConnectTuples(st, t, FdOf(t, raw), addr.value, reserved); }
    case AcceptEnter(t, raw) => EnterTuples(env, st, t, FdOf(t, raw), false);
    case AcceptExit(t, ret, addr, reserved) => AcceptExitTuples(st, t, ret, addr, reserved);
    case WriteCall(t, raw, fates) => WriteTuples(env, st, t, FdOf(t, raw), fates);
    case ReadEnter(t, raw, readable) => EnterTuples(env, st, t, FdOf(t, raw), readable);
    case ReadExit(t, ret, fates) => ReadExitTuples(env, st, t, ret, fates);
    case Close(t, raw, reserved) => CloseTuples(env, st, t, FdOf(t, raw), reserved);
    case SslEnter(t, dir) =>
    case SslExit(t, dir, ok, fates) => SslExitTuples(env, st, t, dir, ok, fates);
  }

  /** Left to itself the kernel keeps tuples of present generations only. */
  lemma {:induction false} KernelTuplesAreCurrent(ts: seq<Turn>)
    requires forall i :: 0 <= i < |ts| ==> IsKernel(ts[i].action)
    ensures TuplesAreCurrent(Run(ts))
    decreases |ts|
  {
    if |ts| > 0 {
      hide Step;
      KernelTuplesAreCurrent(ts[..|ts| - 1]);
      StepKeepsTuplesCurrent(ts[|ts| - 1].env, Run(ts[..|ts| - 1]), ts[|ts| - 1].action);
    }
  }
}
