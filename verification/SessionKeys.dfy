/** sessionKey: the text that names a session, and why distinct connections get distinct names
    (cmd/worker/processing.go, the same code in cmd/karaxys-capture/process.go). */
module SessionKeys {
  import opened Session

  // ---- Decimal text -------------------------------------------------------------

  function Digit(n: nat): char
    requires n < 10
  {
    (48 + n) as char
  }

  function Dec(n: nat): string {
    if n < 10 then [Digit(n)] else Dec(n / 10) + [Digit(n % 10)]
  }

  /** Go's %d of a signed integer. */
  function DecInt(n: int): string {
    if n < 0 then "-" + Dec(-n) else Dec(n)
  }

  // ---- The key --------------------------------------------------------------------

  predicate UsesPidFd(e: Event) {
    || (e.meta.captureSource == "ebpf" && e.pid != 0 && e.fd != 0)
    || !(e.meta.connection.protocol != "" && e.meta.connection.srcIP != "" && e.meta.connection.dstIP != "")
  }

  function PidFdKey(pid: nat, fd: nat, generation: nat): string {
    "pidfd:" + (Dec(pid) + ("-" + (Dec(fd) + ("-" + Dec(generation)))))
  }

  function ConnKey(c: Connection, generation: nat): string {
    "conn:" + (c.protocol + (":" +
      (((c.srcIP + (":" + DecInt(c.srcPort))) + ("-" +
       ((c.dstIP + (":" + DecInt(c.dstPort))) + (":" + Dec(generation))))))))
  }

  function SessionKey(e: Event): string {
    if UsesPidFd(e) then PidFdKey(e.pid, e.fd, e.generation) else ConnKey(e.meta.connection, e.generation)
  }

  // ---- Reading text back ------------------------------------------------------------

  lemma {:induction false} DecIsDigits(n: nat)
    ensures |Dec(n)| > 0
    ensures ':' !in Dec(n) && '-' !in Dec(n)
    decreases n
  {
    if n >= 10 {
      DecIsDigits(n / 10);
    }
  }

  lemma {:induction false} DecInjective(m: nat, n: nat)
    requires Dec(m) == Dec(n)
    ensures m == n
    decreases m
  {
    DecIsDigits(m / 10);
    DecIsDigits(n / 10);
    var a, b := Dec(m), Dec(n);
    assert a[|a| - 1] == Digit(m % 10) && b[|b| - 1] == Digit(n % 10);
    if m >= 10 && n >= 10 {
      assert Dec(m / 10) == a[..|a| - 1] == b[..|b| - 1] == Dec(n / 10);
      DecInjective(m / 10, n / 10);
    }
  }

  /** Text up to the first mark is determined by the whole. */
  lemma {:induction false} SplitAtFirst(a: string, b: string, a': string, b': string, mark: char)
    requires mark !in a && mark !in a' && a + ([mark] + b) == a' + ([mark] + b')
    ensures a == a' && b == b'
  {
    var s, s' := a + ([mark] + b), a' + ([mark] + b');
    assert s[|a|] == mark && s'[|a'|] == mark;
    assert forall i :: 0 <= i < |a| ==> s[i] == a[i] != mark;
    assert forall i :: 0 <= i < |a'| ==> s'[i] == a'[i] != mark;
    assert |a| == |a'|;
    assert s[..|a|] == a && s'[..|a'|] == a' && s[|a| + 1..] == b && s'[|a'| + 1..] == b';
  }

  /** Text after the last mark is determined by the whole. */
  lemma {:induction false} SplitAtLast(a: string, b: string, a': string, b': string, mark: char)
    requires mark !in b && mark !in b' && a + ([mark] + b) == a' + ([mark] + b')
    ensures a == a' && b == b'
  {
    var s, s' := a + ([mark] + b), a' + ([mark] + b');
    assert s[|a|] == mark && s'[|a'|] == mark;
    assert forall i :: |a| < i < |s| ==> s[i] == b[i - |a| - 1] != mark;
    assert forall i :: |a'| < i < |s'| ==> s'[i] == b'[i - |a'| - 1] != mark;
    assert |a| == |a'|;
    assert s[..|a|] == a && s'[..|a'|] == a' && s[|a| + 1..] == b && s'[|a'| + 1..] == b';
  }

  // ---- Distinct connections, distinct keys --------------------------------------------

  /** Distinct (pid, fd, generation) triples have distinct keys. */
  lemma {:induction false} PidFdKeysAreDistinct(p: nat, f: nat, g: nat, p': nat, f': nat, g': nat)
    requires PidFdKey(p, f, g) == PidFdKey(p', f', g')
    ensures p == p' && f == f' && g == g'
  {
    DecIsDigits(p);
    DecIsDigits(p');
    DecIsDigits(f);
    DecIsDigits(f');
    var s, s' := Dec(p) + ("-" + (Dec(f) + ("-" + Dec(g)))), Dec(p') + ("-" + (Dec(f') + ("-" + Dec(g'))));
    assert s == PidFdKey(p, f, g)[6..] && s' == PidFdKey(p', f', g')[6..];
    SplitAtFirst(Dec(p), Dec(f) + ("-" + Dec(g)), Dec(p'), Dec(f') + ("-" + Dec(g')), '-');
    SplitAtFirst(Dec(f), Dec(g), Dec(f'), Dec(g'), '-');
    DecInjective(p, p');
    DecInjective(f, f');
    DecInjective(g, g');
  }

  /** A key of one kind is never a key of the other. */
  lemma {:induction false} KindsAreDistinct(p: nat, f: nat, g: nat, c: Connection, h: nat)
    ensures PidFdKey(p, f, g) != ConnKey(c, h)
  {
    assert PidFdKey(p, f, g)[0] == 'p' && ConnKey(c, h)[0] == 'c';
  }

  /** What a connection must look like for its key to name it. */
  predicate Nameable(c: Connection) {
    ':' !in c.protocol && '-' !in c.srcIP
  }

  lemma {:induction false} DecIntText(n: int)
    ensures ':' !in DecInt(n) && |DecInt(n)| > 0
    ensures '-' in DecInt(n) <==> n < 0
    ensures n < 0 ==> DecInt(n) == "-" + Dec(-n)
  {
    DecIsDigits(if n < 0 then -n else n);
    assert n < 0 ==> DecInt(n)[0] == '-';
  }

  lemma {:induction false} DecIntInjective(m: int, n: int)
    requires DecInt(m) == DecInt(n)
    ensures m == n
  {
    DecIntText(m);
    DecIntText(n);
    if m < 0 {
      assert Dec(-m) == DecInt(m)[1..] == DecInt(n)[1..] == Dec(-n);
      DecInjective(-m, -n);
    } else {
      DecInjective(m, n);
    }
  }

  /** Address, port and what follows them are determined by the text, a minus sign included: the first
      hyphen stands right after a colon exactly when it is one. */
  lemma {:induction false} SourceIsDetermined(ip: string, port: int, tail: string, ip': string, port': int, tail': string)
    requires '-' !in ip && '-' !in ip'
    requires (ip + (":" + DecInt(port))) + ("-" + tail) == (ip' + (":" + DecInt(port'))) + ("-" + tail')
    ensures ip == ip' && port == port' && tail == tail'
  {
    DecIntText(port);
    DecIntText(port');
    var head, rest := FirstPart(ip, port), RestPart(port, tail);
    var head', rest' := FirstPart(ip', port'), RestPart(port', tail');
    Regrouped(ip, port, tail);
    Regrouped(ip', port', tail');
    SplitAtFirst(head, rest, head', rest', '-');
    assert (port < 0) == (port' < 0) by {
      LastOfHead(ip, port);
      LastOfHead(ip', port');
    }
    if port < 0 {
      assert ip == head[..|head| - 1] == head'[..|head'| - 1] == ip';
      DecIsDigits(-port);
      DecIsDigits(-port');
      SplitAtFirst(Dec(-port), tail, Dec(-port'), tail', '-');
      DecInjective(-port, -port');
    } else {
      SplitAtLast(ip, DecInt(port), ip', DecInt(port'), ':');
      DecIntInjective(port, port');
    }
  }

  function FirstPart(ip: string, port: int): string {
    if port < 0 then ip + ":" else ip + (":" + DecInt(port))
  }

  function RestPart(port: int, tail: string): string {
    if port < 0 then Dec(-port) + ("-" + tail) else tail
  }

  lemma {:induction false} Regrouped(ip: string, port: int, tail: string)
    requires '-' !in ip
    ensures (ip + (":" + DecInt(port))) + ("-" + tail) == FirstPart(ip, port) + ("-" + RestPart(port, tail))
    ensures '-' !in FirstPart(ip, port)
  {
    hide Dec;
    DecIntText(port);
    if port < 0 {
      Shifted(ip, ":", "-", Dec(-port), "-" + tail);
    }
  }

  lemma {:induction false} Shifted(a: string, b: string, c: string, d: string, e: string)
    ensures (a + (b + (c + d))) + e == (a + b) + (c + (d + e))
  {
    assert (a + (b + (c + d))) + e == (((a + b) + c) + d) + e;
    assert (a + b) + (c + (d + e)) == (((a + b) + c) + d) + e;
  }

  lemma {:induction false} LastOfHead(ip: string, port: int)
    ensures var h := FirstPart(ip, port); |h| > 0 && (h[|h| - 1] == ':' <==> port < 0)
  {
    DecIntText(port);
    var h, d := FirstPart(ip, port), DecInt(port);
    if port >= 0 {
      assert h[|h| - 1] == d[|d| - 1] && d[|d| - 1] in d;
    }
  }

  lemma {:induction false} ConnKeysAreDistinct(c: Connection, g: nat, c': Connection, g': nat)
    requires Nameable(c) && Nameable(c') && ConnKey(c, g) == ConnKey(c', g')
    ensures c.protocol == c'.protocol && c.srcIP == c'.srcIP && c.srcPort == c'.srcPort
    ensures c.dstIP == c'.dstIP && c.dstPort == c'.dstPort && g == g'
  {
    var src, src' := c.srcIP + (":" + DecInt(c.srcPort)), c'.srcIP + (":" + DecInt(c'.srcPort));
    var dst, dst' := c.dstIP + (":" + DecInt(c.dstPort)), c'.dstIP + (":" + DecInt(c'.dstPort));
    var tail, tail' := dst + (":" + Dec(g)), dst' + (":" + Dec(g'));
    DecIntText(c.dstPort);
    DecIntText(c'.dstPort);
    DecIsDigits(g);
    DecIsDigits(g');
    assert ConnKey(c, g)[5..] == c.protocol + (":" + (src + ("-" + tail)))
        && ConnKey(c', g')[5..] == c'.protocol + (":" + (src' + ("-" + tail')));
    SplitAtFirst(c.protocol, src + ("-" + tail), c'.protocol, src' + ("-" + tail'), ':');
    SourceIsDetermined(c.srcIP, c.srcPort, tail, c'.srcIP, c'.srcPort, tail');
    SplitAtLast(dst, Dec(g), dst', Dec(g'), ':');
    SplitAtLast(c.dstIP, DecInt(c.dstPort), c'.dstIP, DecInt(c'.dstPort), ':');
    DecIntInjective(c.dstPort, c'.dstPort);
    DecInjective(g, g');
  }

  /** What a key stands for: two events share a session exactly when these agree. */
  datatype Identity = ByFd(pid: nat, fd: nat, generation: nat)
                    | ByConnection(protocol: string, srcIP: string, srcPort: int, dstIP: string, dstPort: int, gen: nat)

  function IdentityOf(e: Event): Identity {
    var c := e.meta.connection;
    if UsesPidFd(e) then ByFd(e.pid, e.fd, e.generation)
    else ByConnection(c.protocol, c.srcIP, c.srcPort, c.dstIP, c.dstPort, e.generation)
  }

  lemma {:induction false} KeyNamesIdentity(e: Event, f: Event)
    requires !UsesPidFd(e) ==> Nameable(e.meta.connection)
    requires !UsesPidFd(f) ==> Nameable(f.meta.connection)
    ensures SessionKey(e) == SessionKey(f) <==> IdentityOf(e) == IdentityOf(f)
  {
    if UsesPidFd(e) && UsesPidFd(f) {
      if SessionKey(e) == SessionKey(f) {
        PidFdKeysAreDistinct(e.pid, e.fd, e.generation, f.pid, f.fd, f.generation);
      }
    } else if UsesPidFd(e) {
      KindsAreDistinct(e.pid, e.fd, e.generation, f.meta.connection, f.generation);
    } else if UsesPidFd(f) {
      KindsAreDistinct(f.pid, f.fd, f.generation, e.meta.connection, e.generation);
    } else if SessionKey(e) == SessionKey(f) {
      ConnKeysAreDistinct(e.meta.connection, e.generation, f.meta.connection, f.generation);
    }
  }

  /** Without the condition two connections can share a key: a hyphen in the source address
      moves the border between the two ends, whatever the parts are. */
  lemma {:induction false} HyphenMakesKeysCollide(protocol: string, a: string, x: int, b: string, y: int, d: string, z: int, g: nat)
    ensures var c := Connection(protocol, a + (":" + DecInt(x) + "-" + b), y, d, z, "", "");
            var c' := Connection(protocol, a, x, b + (":" + DecInt(y) + "-" + d), z, "", "");
            c != c' && ConnKey(c, g) == ConnKey(c', g)
  {
    var c := Connection(protocol, a + (":" + DecInt(x) + "-" + b), y, d, z, "", "");
    var c' := Connection(protocol, a, x, b + (":" + DecInt(y) + "-" + d), z, "", "");
    assert |c.srcIP| > |c'.srcIP|;
    Regroup(a, ":" + DecInt(x), "-", b, ":" + DecInt(y), d, ":" + DecInt(z), ":" + Dec(g));
  }

  lemma {:induction false} Regroup(a: string, x: string, h: string, b: string, y: string, d: string, z: string, g: string)
    ensures ((a + (x + h + b)) + y) + (h + ((d + z) + g)) == (a + x) + (h + (((b + (y + h + d)) + z) + g))
  {
    var flat := ((((((((a + x) + h) + b) + y) + h) + d) + z) + g);
    assert ((a + (x + h + b)) + y) + (h + ((d + z) + g)) == flat;
    assert (a + x) + (h + (((b + (y + h + d)) + z) + g)) == flat;
  }

  // ---- Which kind of key, and its text ------------------------------------------------

  /** The key is by descriptor exactly when the event comes from the kernel's probes and has one, whatever its
      connection, or when its connection is not known in full. */
  lemma {:induction false} ByDescriptorIff(e: Event)
    ensures SessionKey(e) == PidFdKey(e.pid, e.fd, e.generation)
       <==> ((e.meta.captureSource == "ebpf" && e.pid != 0 && e.fd != 0)
             || e.meta.connection.protocol == "" || e.meta.connection.srcIP == "" || e.meta.connection.dstIP == "")
    ensures SessionKey(e) == ConnKey(e.meta.connection, e.generation)
       <==> (!(e.meta.captureSource == "ebpf" && e.pid != 0 && e.fd != 0)
             && e.meta.connection.protocol != "" && e.meta.connection.srcIP != "" && e.meta.connection.dstIP != "")
  {
    hide PidFdKey, ConnKey;
    KindsAreDistinct(e.pid, e.fd, e.generation, e.meta.connection, e.generation);
  }

  /** So the events of one descriptor stay in one session when its connection becomes known half-way. */
  lemma {:induction false} DescriptorKeepsItsSession(e: Event, f: Event)
    requires e.meta.captureSource == "ebpf" && f.meta.captureSource == "ebpf" && e.pid != 0 && e.fd != 0
    requires e.pid == f.pid && e.fd == f.fd
    ensures SessionKey(e) == SessionKey(f) <==> e.generation == f.generation
  {
    hide PidFdKey, ConnKey;
    ByDescriptorIff(e);
    ByDescriptorIff(f);
    if SessionKey(e) == SessionKey(f) {
      PidFdKeysAreDistinct(e.pid, e.fd, e.generation, f.pid, f.fd, f.generation);
    }
  }

  lemma {:induction false} DecDigits(n: nat)
    ensures n < 10 ==> Dec(n) == [(48 + n) as char]
    ensures 10 <= n < 100 ==> Dec(n) == [(48 + n / 10) as char, (48 + n % 10) as char]
  {
    if 10 <= n < 100 {
      assert Dec(n / 10) == [Digit(n / 10)];
    }
  }

  lemma {:induction false} PidFdKeyIsSpelled()
    ensures PidFdKey(42, 17, 3) == "pidfd:42-17-3"
  {
    hide Dec;
    DecDigits(42);
    DecDigits(17);
    DecDigits(3);
  }

  lemma {:induction false} ConnKeyIsSpelled()
    ensures ConnKey(Connection("tcp", "::1", 80, "::2", 95, "ipv6", "outbound"), 3) == "conn:tcp:::1:80-::2:95:3"
  {
    hide Dec;
    DecDigits(80);
    DecDigits(95);
    DecDigits(3);
  }
}
