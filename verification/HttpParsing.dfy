/** parseOneRequest and parseOneResponse around the library parsers, which stay a parameter. */
module HttpParsing {
  import opened HttpTokens

  /** isHead is the source's case-insensitive test of the method against HEAD. */
  datatype Request = Request(isHead: bool, head: Bytes, body: Bytes)

  /** contentLength is -1 when the message has none; chunked is hasChunkedTransfer. */
  datatype Response = Response(statusCode: int, contentLength: int, chunked: bool, head: Bytes, body: Bytes)

  /** What the library makes of a buffer: no message head, or a message, whether its body was
      read to its end, and how many bytes of the buffer are left unread. */
  datatype Raw<+T> = NoHead | Message(value: T, bodyComplete: bool, unread: nat)

  datatype Library = Library(
    readRequest: Bytes -> Raw<Request>,
    readResponse: (Bytes, Request) -> Raw<Response>)

  datatype Parsed<+T> = NotReady | Ready(value: T, consumed: nat)

  function Complete<T>(d: Bytes, raw: Raw<T>): (p: Parsed<T>)
    ensures p.Ready? ==> 0 < p.consumed <= |d|
  {
    match raw
    case NoHead => NotReady
    case Message(value, bodyComplete, unread) =>
      if bodyComplete && |d| - unread > 0 then Ready(value, |d| - unread) else NotReady
  }

  function ParseOneRequest(lib: Library, d: Bytes): (p: Parsed<Request>)
    ensures p.Ready? ==> 0 < p.consumed <= |d|
  {
    if |d| == 0 then NotReady else Complete(d, lib.readRequest(d))
  }

  predicate ResponseHasNoBody(req: Request, resp: Response) {
    || req.isHead
    || 100 <= resp.statusCode < 200
    || resp.statusCode == 204
    || resp.statusCode == 304
  }

  predicate NeedsCloseBoundary(req: Request, resp: Response) {
    !ResponseHasNoBody(req, resp) && resp.contentLength < 0 && !resp.chunked
  }

  function ParseOneResponse(lib: Library, d: Bytes, req: Request, allowCloseDelimited: bool): (p: Parsed<Response>)
    ensures p.Ready? ==> 0 < p.consumed <= |d|
  {
    if |d| == 0 then NotReady else
      var raw := lib.readResponse(d, req);
      if raw.Message? && !allowCloseDelimited && NeedsCloseBoundary(req, raw.value) then NotReady
      else Complete(d, raw)
  }

  /** The end of the response can be told from the response itself: it has no body, or a length, or is
      chunked. Any other ends with its connection (section 6.3 of RFC 9112). */
  predicate Delimited(q: Request, r: Response) {
    || q.isHead || (100 <= r.statusCode && r.statusCode <= 199) || r.statusCode == 204 || r.statusCode == 304
    || r.contentLength >= 0
    || r.chunked
  }

  /** The library read a message from d to the end of its body, using up at least one byte. */
  predicate WasRead<T(==)>(raw: Raw<T>, d: Bytes, m: T) {
    raw.Message? && raw.value == m && raw.bodyComplete && raw.unread < |d|
  }

  /** A request is recognised exactly when the library read it to its end. */
  lemma {:induction false} RequestsAreRead(lib: Library, d: Bytes)
    ensures var p := ParseOneRequest(lib, d);
            && (p.Ready? ==> WasRead(lib.readRequest(d), d, p.value) && p.consumed + lib.readRequest(d).unread == |d|)
            && (forall q :: WasRead(lib.readRequest(d), d, q) ==> p.Ready?)
  {
  }

  /** A response is recognised exactly when the library read it to its end and, while the connection is
      open, its end can be told; what only the end of the connection delimits waits for the close. */
  lemma {:induction false} ResponsesWaitForTheirEnd(lib: Library, d: Bytes, q: Request, close: bool)
    ensures var p := ParseOneResponse(lib, d, q, close);
            && (p.Ready? ==> WasRead(lib.readResponse(d, q), d, p.value) && p.consumed + lib.readResponse(d, q).unread == |d|)
            && (p.Ready? ==> close || Delimited(q, p.value))
            && (forall r :: WasRead(lib.readResponse(d, q), d, r) && (close || Delimited(q, r)) ==> p.Ready?)
  {
  }

  // ---- What chunk independence asks of the library -----------------------------

  /** A request recognised in d begins with a token and is recognised the same in d + x. */
  ghost predicate RequestKept(lib: Library, d: Bytes, x: Bytes) {
    ParseOneRequest(lib, d).Ready? ==>
      MarkAt(METHODS, d, 0) && ParseOneRequest(lib, d + x) == ParseOneRequest(lib, d)
  }

  ghost predicate ResponseKept(lib: Library, d: Bytes, x: Bytes, req: Request) {
    ParseOneResponse(lib, d, req, false).Ready? ==>
      MarkAt(STATUS, d, 0) && ParseOneResponse(lib, d + x, req, false) == ParseOneResponse(lib, d, req, false)
  }

  /** The same on all buffers there could be: more than the theorems ask, and more than a parser with a
      body limit gives. */
  ghost predicate StableRequests(lib: Library) {
    forall d, x :: RequestKept(lib, d, x)
  }

  ghost predicate StableResponses(lib: Library) {
    forall d, x, req :: ResponseKept(lib, d, x, req)
  }

  ghost predicate Stable(lib: Library) {
    StableRequests(lib) && StableResponses(lib)
  }

  // ---- A small library that keeps the contract ---------------------------------

  const BLANK_LINE: Bytes := [13, 10, 13, 10]

  /** Bytes up to and including the first blank line, or 0. */
  function HeadLength(d: Bytes): (n: nat)
    ensures n <= |d|
  {
    var e := First([BLANK_LINE], d);
    if e >= 0 then
      assert At(d, e, [BLANK_LINE][0]);
      e + 4
    else 0
  }

  /** Messages without a body: a token, then everything up to a blank line. */
  const HeadersOnly: Library := Library(
    d => if MarkAt(METHODS, d, 0) && HeadLength(d) > 0
         then Message(Request(false, d[..HeadLength(d)], []), true, |d| - HeadLength(d)) else NoHead,
    (d, req) => if MarkAt(STATUS, d, 0) && HeadLength(d) > 0
                then Message(Response(200, 0, false, d[..HeadLength(d)], []), true, |d| - HeadLength(d)) else NoHead)

  lemma {:induction false} HeadLengthIsStable(d: Bytes, x: Bytes)
    requires HeadLength(d) > 0
    ensures HeadLength(d + x) == HeadLength(d) && (d + x)[..HeadLength(d)] == d[..HeadLength(d)]
  {
    assert SyncSafe([BLANK_LINE]);
    FirstIsStable([BLANK_LINE], d, x);
  }

  /** The contract is met by a real framing, so the theorems that assume it are not empty. */
  lemma {:induction false} HeadersOnlyIsStable()
    ensures Stable(HeadersOnly)
  {
    forall d, x ensures RequestKept(HeadersOnly, d, x) {
      if ParseOneRequest(HeadersOnly, d).Ready? {
        HeadLengthIsStable(d, x);
        MarkAtGrows(METHODS, d, x, 0);
      }
    }
    forall d, x, req ensures ResponseKept(HeadersOnly, d, x, req) {
      if ParseOneResponse(HeadersOnly, d, req, false).Ready? {
        HeadLengthIsStable(d, x);
        MarkAtGrows(STATUS, d, x, 0);
      }
    }
  }
}
