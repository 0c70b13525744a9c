/** The disk spool: one record a line, appended, read back whole and emptied
    (cmd/agent/producer.go). */
module DiskSpool {
  import opened Wrappers
  import opened HttpTokens
  import B = Base64

  datatype Message = Message(key: Bytes, value: Bytes)
  datatype Record = Record(createdAt: Bytes, reason: Bytes, key: Bytes, value: Bytes)

  const NEWLINE: byte := 10

  /** The scanner's buffer: a line has to fit with its line end. */
  const MAX_LINE: nat := 16 * 1024 * 1024
  const DEFAULT_LIMIT: nat := 128 * 1024 * 1024

  // ---- JSON, left to the library --------------------------------------------------------

  datatype Json = Json(marshal: Record -> Bytes, unmarshal: Bytes -> Option<Record>)

  predicate Plain(s: Bytes) {
    forall i :: 0 <= i < |s| ==> 32 <= s[i] < 127
  }

  predicate PlainRecord(r: Record) {
    Plain(r.createdAt) && Plain(r.reason) && Plain(r.key) && Plain(r.value)
  }

  /** Of a record of plain text the library makes one line, and key and value can be read back. */
  ghost predicate Kept(json: Json, r: Record) {
    PlainRecord(r) ==>
      var line := json.marshal(r);
      && B.NoLineEnds(line)
      && json.unmarshal(line).Some?
      && json.unmarshal(line).value.key == r.key && json.unmarshal(line).value.value == r.value
  }

  ghost predicate Faithful(json: Json) {
    forall r :: Kept(json, r)
  }

  /** A stand-in that keeps the contract: key, a separator, value. */
  const TwoFields: Json := Json(
    (r: Record) => r.key + [31] + r.value,
    (line: Bytes) => var i := Index(line, [31]);
                     if i < 0 then None else Some(Record([], [], line[..i], line[i + 1..])))

  lemma {:induction false} TwoFieldsIsFaithful()
    ensures Faithful(TwoFields)
  {
    forall r ensures Kept(TwoFields, r) {
      if PlainRecord(r) {
        var line := r.key + [31] + r.value;
        assert At(line, |r.key|, [31]) by {
          assert line[|r.key|..|r.key| + 1] == [31];
        }
        var i := Index(line, [31]);
        assert line[i..i + 1] == [31] && line[i] == 31;
        assert i == |r.key|;
        assert line[..i] == r.key && line[i + 1..] == r.value;
      }
    }
  }

  // ---- Records and lines -------------------------------------------------------------------

  function RecordOf(createdAt: Bytes, reason: Bytes, m: Message): Record {
    Record(createdAt, reason, B.Encode(m.key), B.Encode(m.value))
  }

  function Join(json: Json, rs: seq<Record>): Bytes {
    if |rs| == 0 then [] else json.marshal(rs[0]) + [NEWLINE] + Join(json, rs[1..])
  }

  function Lines(b: Bytes): (ls: seq<Bytes>)
    decreases |b|
  {
    if |b| == 0 then []
    else
      var i := Index(b, [NEWLINE]);
      if i < 0 then [b]
      else
        assert At(b, i, [NEWLINE]);
        [b[..i]] + Lines(b[i + 1..])
  }

  /** The library drops a carriage return before the line end. */
  function DropCr(line: Bytes): Bytes {
    if |line| > 0 && line[|line| - 1] == 13 then line[..|line| - 1] else line
  }

  /** What a line yields: unreadable lines and empty values are passed over. */
  function ParseLine(json: Json, line: Bytes): seq<Message> {
    match json.unmarshal(DropCr(line))
    case None => []
    case Some(r) =>
      match B.Decode(r.value)
      case None => []
      case Some(value) =>
        if |value| == 0 then []
        else [Message(match B.Decode(r.key) case None => [] case Some(key) => key, value)]
  }

  function ParseLines(json: Json, ls: seq<Bytes>): seq<Message> {
    if |ls| == 0 then [] else ParseLine(json, ls[0]) + ParseLines(json, ls[1..])
  }

  predicate TooLong(line: Bytes) {
    |line| >= MAX_LINE
  }

  /** readAll on the bytes of the file; a line that does not fit fails the whole reading. */
  function Read(json: Json, b: Bytes): Option<seq<Message>> {
    var ls := Lines(b);
    if exists i :: 0 <= i < |ls| && TooLong(ls[i]) then None else Some(ParseLines(json, ls))
  }

  // ---- Reading back what was written ----------------------------------------------------------

  lemma {:induction false} EncodedIsPlain(d: Bytes)
    ensures Plain(B.Encode(d))
    decreases |d|
  {
    if |d| > 2 {
      EncodedIsPlain(d[3..]);
    }
  }

  /** The first newline of a line, a newline and more is the one after the line. */
  lemma {:induction false} FirstLine(line: Bytes, rest: Bytes)
    requires B.NoLineEnds(line)
    ensures Lines(line + [NEWLINE] + rest) == [line] + Lines(rest)
  {
    var b := line + [NEWLINE] + rest;
    assert At(b, |line|, [NEWLINE]) by {
      assert b[|line|..|line| + 1] == [NEWLINE];
    }
    var i := Index(b, [NEWLINE]);
    assert b[i..i + 1] == [NEWLINE] && b[i] == NEWLINE;
    assert i == |line|;
    assert b[..i] == line && b[i + 1..] == rest;
  }

  function Marshalled(json: Json, rs: seq<Record>): (ls: seq<Bytes>)
    ensures |ls| == |rs| && forall i :: 0 <= i < |rs| ==> ls[i] == json.marshal(rs[i])
  {
    if |rs| == 0 then [] else [json.marshal(rs[0])] + Marshalled(json, rs[1..])
  }

  lemma {:induction false} LinesOfJoin(json: Json, rs: seq<Record>)
    requires Faithful(json) && forall i :: 0 <= i < |rs| ==> PlainRecord(rs[i])
    ensures Lines(Join(json, rs)) == Marshalled(json, rs)
    decreases |rs|
  {
    if |rs| > 0 {
      assert Kept(json, rs[0]);
      LinesOfJoin(json, rs[1..]);
      FirstLine(json.marshal(rs[0]), Join(json, rs[1..]));
    }
  }

  lemma {:induction false} JoinOneMore(json: Json, rs: seq<Record>, r: Record)
    ensures Join(json, rs + [r]) == Join(json, rs) + (json.marshal(r) + [NEWLINE])
    decreases |rs|
  {
    if |rs| == 0 {
      assert [] + [r] == [r];
      assert Join(json, [r][1..]) == [];
    } else {
      assert (rs + [r])[1..] == rs[1..] + [r];
      JoinOneMore(json, rs[1..], r);
      var x, y := json.marshal(rs[0]) + [NEWLINE], json.marshal(r) + [NEWLINE];
      assert x + (Join(json, rs[1..]) + y) == (x + Join(json, rs[1..])) + y;
    }
  }

  /** The messages of records written by write, those with an empty value left out. */
  function Recovered(rs: seq<Record>): seq<Message> {
    if |rs| == 0 then []
    else
      (match B.Decode(rs[0].value)
       case None => []
       case Some(value) =>
         if |value| == 0 then []
         else [Message(match B.Decode(rs[0].key) case None => [] case Some(key) => key, value)])
      + Recovered(rs[1..])
  }

  lemma {:induction false} ParseMarshalled(json: Json, rs: seq<Record>)
    requires Faithful(json) && forall i :: 0 <= i < |rs| ==> PlainRecord(rs[i])
    ensures ParseLines(json, Marshalled(json, rs)) == Recovered(rs)
    decreases |rs|
  {
    if |rs| > 0 {
      assert Kept(json, rs[0]);
      ParseMarshalled(json, rs[1..]);
      assert Marshalled(json, rs)[1..] == Marshalled(json, rs[1..]);
    }
  }

  /** Reading a file of records gives their messages, unless one of its lines is too long for the
      scanner: then reading fails, and with it every replay. */
  lemma {:induction false} ReadJoin(json: Json, rs: seq<Record>)
    requires Faithful(json) && forall i :: 0 <= i < |rs| ==> PlainRecord(rs[i])
    ensures Read(json, Join(json, rs))
         == if exists i :: 0 <= i < |rs| && TooLong(json.marshal(rs[i])) then None else Some(Recovered(rs))
  {
    LinesOfJoin(json, rs);
    ParseMarshalled(json, rs);
    var ls := Marshalled(json, rs);
    if i :| 0 <= i < |rs| && TooLong(json.marshal(rs[i])) {
      assert TooLong(ls[i]);
    }
  }

  lemma {:induction false} LinesBehindJoin(json: Json, rs: seq<Record>, x: Bytes)
    requires Faithful(json) && forall i :: 0 <= i < |rs| ==> PlainRecord(rs[i])
    ensures Lines(Join(json, rs) + x) == Marshalled(json, rs) + Lines(x)
    decreases |rs|
  {
    hide Lines;
    if |rs| == 0 {
      assert [] + x == x && [] + Lines(x) == Lines(x);
    } else {
      assert Kept(json, rs[0]);
      var line, rest := json.marshal(rs[0]), Join(json, rs[1..]);
      LinesBehindJoin(json, rs[1..], x);
      FirstLine(line, rest + x);
      assert (line + [NEWLINE] + rest) + x == line + [NEWLINE] + (rest + x);
      assert ([line] + Marshalled(json, rs[1..])) + Lines(x) == [line] + (Marshalled(json, rs[1..]) + Lines(x));
    }
  }

  lemma {:induction false} ParseLinesJoin(json: Json, ls: seq<Bytes>, more: seq<Bytes>)
    ensures ParseLines(json, ls + more) == ParseLines(json, ls) + ParseLines(json, more)
    decreases |ls|
  {
    if |ls| == 0 {
      assert ls + more == more;
    } else {
      assert (ls + more)[1..] == ls[1..] + more;
      ParseLinesJoin(json, ls[1..], more);
    }
  }

  /** A line that cannot be read, or whose value is no base64, costs its own message only: the messages before
      it and behind it are read as if it were not there. */
  lemma {:induction false} DamagedLineIsPassedOver(json: Json, rs: seq<Record>, bad: Bytes, more: seq<Record>)
    requires Faithful(json) && B.NoLineEnds(bad) && !TooLong(bad)
    requires (forall i :: 0 <= i < |rs| ==> PlainRecord(rs[i]) && !TooLong(json.marshal(rs[i])))
    requires (forall i :: 0 <= i < |more| ==> PlainRecord(more[i]) && !TooLong(json.marshal(more[i])))
    requires json.unmarshal(bad) == None || B.Decode(json.unmarshal(bad).value.value) == None
    ensures Read(json, Join(json, rs) + (bad + [NEWLINE] + Join(json, more))) == Some(Recovered(rs) + Recovered(more))
  {
    hide Lines, Recovered;
    var ls, ms := Marshalled(json, rs), Marshalled(json, more);
    LinesBehindJoin(json, rs, bad + [NEWLINE] + Join(json, more));
    FirstLine(bad, Join(json, more));
    LinesOfJoin(json, more);
    ParseLinesJoin(json, ls, [bad] + ms);
    ParseMarshalled(json, rs);
    ParseMarshalled(json, more);
    assert ([bad] + ms)[1..] == ms && ParseLine(json, bad) == [];
    assert ParseLines(json, [bad] + ms) == ParseLines(json, ms);
    forall i | 0 <= i < |ls + ([bad] + ms)| ensures !TooLong((ls + ([bad] + ms))[i]) {
      if i > |ls| {
        assert (ls + ([bad] + ms))[i] == ms[i - |ls| - 1] == json.marshal(more[i - |ls| - 1]);
      }
    }
  }

  // ---- Messages through the spool and back --------------------------------------------------------

  predicate Stamped(stamps: seq<(Bytes, Bytes)>, n: nat) {
    |stamps| == n && forall i :: 0 <= i < n ==> Plain(stamps[i].0) && Plain(stamps[i].1)
  }

  function RecordsOf(ms: seq<Message>, stamps: seq<(Bytes, Bytes)>): (rs: seq<Record>)
    requires |stamps| == |ms|
    ensures |rs| == |ms| && forall i :: 0 <= i < |ms| ==> rs[i] == RecordOf(stamps[i].0, stamps[i].1, ms[i])
  {
    if |ms| == 0 then [] else [RecordOf(stamps[0].0, stamps[0].1, ms[0])] + RecordsOf(ms[1..], stamps[1..])
  }

  function NonEmpty(ms: seq<Message>): seq<Message> {
    if |ms| == 0 then []
    else (if |ms[0].value| == 0 then [] else [ms[0]]) + NonEmpty(ms[1..])
  }

  lemma {:induction false} RecoveredOfRecords(ms: seq<Message>, stamps: seq<(Bytes, Bytes)>)
    requires |stamps| == |ms|
    ensures Recovered(RecordsOf(ms, stamps)) == NonEmpty(ms)
    decreases |ms|
  {
    if |ms| > 0 {
      B.RoundTrip(ms[0].key);
      B.RoundTrip(ms[0].value);
      RecoveredOfRecords(ms[1..], stamps[1..]);
      var rs := RecordsOf(ms, stamps);
      assert rs[1..] == RecordsOf(ms[1..], stamps[1..]);
    }
  }

  lemma {:induction false} RecordsArePlain(ms: seq<Message>, stamps: seq<(Bytes, Bytes)>)
    requires Stamped(stamps, |ms|)
    ensures forall i :: 0 <= i < |ms| ==> PlainRecord(RecordsOf(ms, stamps)[i])
  {
    forall i | 0 <= i < |ms| ensures PlainRecord(RecordsOf(ms, stamps)[i]) {
      EncodedIsPlain(ms[i].key);
      EncodedIsPlain(ms[i].value);
    }
  }

  /** The round trip: a file of messages, each in a line that fits, reads back as the messages with
      a value, in the order written, keys and values byte for byte. */
  lemma {:induction false} SpoolRoundTrip(json: Json, ms: seq<Message>, stamps: seq<(Bytes, Bytes)>)
    requires Faithful(json) && Stamped(stamps, |ms|)
    requires forall i :: 0 <= i < |ms| ==> !TooLong(json.marshal(RecordOf(stamps[i].0, stamps[i].1, ms[i])))
    ensures Read(json, Join(json, RecordsOf(ms, stamps))) == Some(NonEmpty(ms))
  {
    RecordsArePlain(ms, stamps);
    ReadJoin(json, RecordsOf(ms, stamps));
    RecoveredOfRecords(ms, stamps);
  }

  function Prepend(ms: seq<Message>, r: Option<seq<Message>>): Option<seq<Message>> {
    if r.None? then None else Some(ms + r.value)
  }

  lemma {:induction false} PrependTwice(ms: seq<Message>, ns: seq<Message>, r: Option<seq<Message>>)
    ensures Prepend(ms, Prepend(ns, r)) == Prepend(ms + ns, r)
  {
    if r.Some? {
      assert ms + (ns + r.value) == (ms + ns) + r.value;
    }
  }

  /** One turn of the scanner. */
  lemma {:induction false} ReadTurn(json: Json, b: Bytes)
    requires |b| > 0
    ensures var i := Index(b, [NEWLINE]);
            var line, rest := if i < 0 then b else b[..i], if i < 0 then [] else b[i + 1..];
            Read(json, b) == if TooLong(line) then None else Prepend(ParseLine(json, line), Read(json, rest))
  {
    var i := Index(b, [NEWLINE]);
    var line, rest := if i < 0 then b else b[..i], if i < 0 then [] else b[i + 1..];
    assert Lines(b) == [line] + Lines(rest);
    AnyTooLong(line, Lines(rest));
    assert ([line] + Lines(rest))[1..] == Lines(rest);
  }

  lemma {:induction false} AnyTooLong(line: Bytes, ls: seq<Bytes>)
    ensures (exists k :: 0 <= k < |[line] + ls| && TooLong(([line] + ls)[k]))
       <==> TooLong(line) || exists k :: 0 <= k < |ls| && TooLong(ls[k])
  {
    var all := [line] + ls;
    if k :| 0 <= k < |ls| && TooLong(ls[k]) {
      assert all[k + 1] == ls[k];
    }
    if TooLong(line) {
      assert all[0] == line;
    }
  }

  // ---- The file -----------------------------------------------------------------------------------

  /** Which of the file operations succeed; a failed write leaves the file as it was. */
  datatype Io = Io(stat: bool, truncate: bool, append: bool, open: bool)

  class Spool {
    const json: Json
    const maxBytes: nat
    var file: Option<Bytes>
    ghost var records: seq<Record>

    /** The file, if there is one, holds the records and nothing else. */
    ghost predicate Valid()
      reads this
    {
      && Faithful(json) && maxBytes > 0
      && (forall i :: 0 <= i < |records| ==> PlainRecord(records[i]))
      && Join(json, records) == if file.Some? then file.value else []
    }

    constructor (json: Json, limit: int)
      requires Faithful(json)
      ensures Valid() && records == [] && file == None
      ensures this.json == json && maxBytes == (if limit <= 0 then DEFAULT_LIMIT else limit)
    {
      this.json := json;
      maxBytes := if limit <= 0 then DEFAULT_LIMIT else limit;
      file, records := None, [];
    }

    ghost predicate IsFull()
      reads this
    {
      file.Some? && |file.value| >= maxBytes
    }

    /** enforceLimitLocked: a file at the limit is emptied, whatever it held. */
    method EnforceLimit(io: Io) returns (ok: bool)
      requires Valid()
      modifies this`file, this`records
      ensures Valid()
      ensures records == if old(IsFull()) && io.stat && io.truncate then [] else old(records)
      ensures ok ==> !IsFull()
      ensures ok <==> old(file.None?) || (io.stat && (!old(IsFull()) || io.truncate))
    {
      if file.None? {
        return true;
      }
      if !io.stat {
        return false;
      }
      if |file.value| < maxBytes {
        return true;
      }
      if io.truncate {
        file, records := Some([]), [];
      }
      return io.truncate;
    }

    /** A successful write adds the message's record to what the limit left; the file then is at most
        the limit less one, and this record, long. A failed one adds nothing. */
    method Write(createdAt: Bytes, reason: Bytes, m: Message, io: Io) returns (ok: bool)
      requires Valid() && Plain(createdAt) && Plain(reason)
      modifies this`file, this`records
      ensures Valid()
      ensures var kept := if old(IsFull()) && io.stat && io.truncate then [] else old(records);
              records == if ok then kept + [RecordOf(createdAt, reason, m)] else kept
      ensures ok ==> file.Some? && |file.value| <= maxBytes - 1 + |json.marshal(RecordOf(createdAt, reason, m))| + 1
      ensures ok <==> io.append && (old(file.None?) || (io.stat && (!old(IsFull()) || io.truncate)))
    {
      ok := EnforceLimit(io);
      if !ok {
        return;
      }
      if !io.append {
        return false;
      }
      var record := RecordOf(createdAt, reason, m);
      var line := json.marshal(record) + [NEWLINE];
      EncodedIsPlain(m.key);
      EncodedIsPlain(m.value);
      JoinOneMore(json, records, record);
      file := Some(if file.Some? then file.value + line else line);
      records := records + [record];
      assert [] + line == line;
    }

    /** readAllLocked: the scanner's loop. */
    method ReadAll(io: Io) returns (result: Option<seq<Message>>)
      requires Valid()
      ensures file.Some? && !io.open ==> result == None
      ensures file.None? || io.open ==> result == Read(json, if file.Some? then file.value else [])
    {
      if file.None? {
        return Some([]);
      }
      if !io.open {
        return None;
      }
      var rest, messages := file.value, [];
      assert Prepend([], Read(json, rest)) == Read(json, rest) by {
        assert Read(json, rest).Some? ==> [] + Read(json, rest).value == Read(json, rest).value;
      }
      while |rest| > 0
        invariant Read(json, file.value) == Prepend(messages, Read(json, rest))
        decreases |rest|
      {
        ReadTurn(json, rest);
        var i := Index(rest, [NEWLINE]);
        var line := if i < 0 then rest else rest[..i];
        if TooLong(line) {
          return None;
        }
        rest := if i < 0 then [] else rest[i + 1..];
        PrependTwice(messages, ParseLine(json, line), Read(json, rest));
        messages := messages + ParseLine(json, line);
      }
      assert messages + [] == messages;
      result := Some(messages);
    }

    /** drainAll: the messages, and the file emptied if there are any. */
    method DrainAll(io: Io) returns (result: Option<seq<Message>>)
      requires Valid()
      modifies this`file, this`records
      ensures Valid()
      ensures result.Some? ==> result.value == Recovered(old(records))
      ensures records == if result.Some? && |result.value| > 0 then [] else old(records)
      ensures (exists i :: 0 <= i < |old(records)| && TooLong(json.marshal(old(records)[i]))) ==> result == None
      ensures result == None ==>
                || !io.open || !io.truncate
                || exists i :: 0 <= i < |old(records)| && TooLong(json.marshal(old(records)[i]))
    {
      ReadJoin(json, records);
      result := ReadAll(io);
      if result.None? || |result.value| == 0 {
        return;
      }
      if !io.truncate {
        return None;
      }
      file, records := Some([]), [];
    }
  }
}
