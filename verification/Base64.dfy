/** Standard base64 with padding (section 4 of RFC 4648), as the disk spool uses it. */
module Base64 {
  import opened Wrappers
  import opened HttpTokens

  const PAD: byte := 61

  function Letter(n: nat): (b: byte)
    requires n < 64
    ensures b != PAD && b != 10 && b != 13
  {
    if n < 26 then (65 + n) as byte
    else if n < 52 then (71 + n) as byte
    else if n < 62 then (n - 4) as byte
    else if n == 62 then 43
    else 47
  }

  /** The value of a letter, or 64. */
  function Value(b: byte): (n: nat)
    ensures n <= 64
    ensures n < 64 ==> Letter(n) == b
  {
    var c := b as nat;
    if 65 <= c <= 90 then c - 65
    else if 97 <= c <= 122 then c - 71
    else if 48 <= c <= 57 then c + 4
    else if c == 43 then 62
    else if c == 47 then 63
    else 64
  }

  // Three bytes are four sextets, and back.
  function Sextet0(a: byte): (n: nat) ensures n < 64 { a as nat / 4 }
  function Sextet1(a: byte, b: byte): (n: nat) ensures n < 64 { a as nat % 4 * 16 + b as nat / 16 }
  function Sextet2(b: byte, c: byte): (n: nat) ensures n < 64 { b as nat % 16 * 4 + c as nat / 64 }
  function Sextet3(c: byte): (n: nat) ensures n < 64 { c as nat % 64 }

  function Byte0(p: nat, q: nat): byte requires p < 64 && q < 64 { (p * 4 + q / 16) as byte }
  function Byte1(q: nat, r: nat): byte requires q < 64 && r < 64 { (q % 16 * 16 + r / 4) as byte }
  function Byte2(r: nat, t: nat): byte requires r < 64 && t < 64 { (r % 4 * 64 + t) as byte }

  lemma {:induction false} BitsRoundTrip(a: byte, b: byte, c: byte)
    ensures Byte0(Sextet0(a), Sextet1(a, b)) == a
    ensures Byte1(Sextet1(a, b), Sextet2(b, c)) == b
    ensures Byte2(Sextet2(b, c), Sextet3(c)) == c
  {
  }

  function Encode(d: Bytes): Bytes {
    if |d| == 0 then []
    else if |d| == 1 then [Letter(Sextet0(d[0])), Letter(Sextet1(d[0], 0)), PAD, PAD]
    else if |d| == 2 then [Letter(Sextet0(d[0])), Letter(Sextet1(d[0], d[1])), Letter(Sextet2(d[1], 0)), PAD]
    else
      [Letter(Sextet0(d[0])), Letter(Sextet1(d[0], d[1])), Letter(Sextet2(d[1], d[2])), Letter(Sextet3(d[2]))]
      + Encode(d[3..])
  }

  /** Only the last group may be padded; bits left over in it are ignored. */
  function DecodeGroups(s: Bytes): Option<Bytes> {
    if |s| == 0 then Some([])
    else if |s| < 4 then None
    else
      var p, q, r, t := Value(s[0]), Value(s[1]), Value(s[2]), Value(s[3]);
      if p == 64 || q == 64 then None
      else if |s| == 4 && s[3] == PAD then
        if s[2] == PAD then Some([Byte0(p, q)])
        else if r == 64 then None
        else Some([Byte0(p, q), Byte1(q, r)])
      else if r == 64 || t == 64 then None
      else
        match DecodeGroups(s[4..])
        case None => None
        case Some(rest) =>
          Some([Byte0(p, q), Byte1(q, r), Byte2(r, t)] + rest)
  }

  /** The library ignores line ends in its input. */
  function WithoutLineEnds(s: Bytes): Bytes {
    if |s| == 0 then []
    else if s[0] == 10 || s[0] == 13 then WithoutLineEnds(s[1..])
    else [s[0]] + WithoutLineEnds(s[1..])
  }

  function Decode(s: Bytes): Option<Bytes> {
    DecodeGroups(WithoutLineEnds(s))
  }

  predicate NoLineEnds(s: Bytes) {
    forall i :: 0 <= i < |s| ==> s[i] != 10 && s[i] != 13
  }

  lemma {:induction false} ValueOfLetter(n: nat)
    requires n < 64
    ensures Value(Letter(n)) == n
  {
  }

  lemma {:induction false} NothingToRemove(s: Bytes)
    requires NoLineEnds(s)
    ensures WithoutLineEnds(s) == s
    decreases |s|
  {
    if |s| > 0 {
      NothingToRemove(s[1..]);
      assert [s[0]] + s[1..] == s;
    }
  }

  /** Encoded text has no line end, and four letters for every three bytes begun. */
  lemma {:induction false} EncodedShape(d: Bytes)
    ensures NoLineEnds(Encode(d)) && |Encode(d)| == (|d| + 2) / 3 * 4
    decreases |d|
  {
    if |d| > 2 {
      EncodedShape(d[3..]);
    }
  }

  lemma {:induction false} GroupsRoundTrip(d: Bytes)
    ensures DecodeGroups(Encode(d)) == Some(d)
    decreases |d|
  {
    hide Letter, Value, Sextet0, Sextet1, Sextet2, Sextet3, Byte0, Byte1, Byte2;
    if |d| > 0 {
      var a, b, c := d[0], if |d| > 1 then d[1] else 0, if |d| > 2 then d[2] else 0;
      BitsRoundTrip(a, b, c);
      ValueOfLetter(Sextet0(a));
      ValueOfLetter(Sextet1(a, b));
      ValueOfLetter(Sextet2(b, c));
      ValueOfLetter(Sextet3(c));
      if |d| == 1 {
        assert d == [a];
      } else if |d| == 2 {
        assert d == [a, b];
      } else {
        GroupsRoundTrip(d[3..]);
        assert Encode(d)[4..] == Encode(d[3..]);
        assert d == [a, b, c] + d[3..];
      }
    }
  }

  /** Decoding undoes encoding, for all bytes. */
  lemma {:induction false} RoundTrip(d: Bytes)
    ensures Decode(Encode(d)) == Some(d)
  {
    EncodedShape(d);
    NothingToRemove(Encode(d));
    GroupsRoundTrip(d);
  }

  // ---- The alphabet, and what can be decoded -------------------------------------------------

  /** Table 1 of RFC 4648: three runs of letters and digits, each in order, and two signs. */
  lemma {:induction false} LettersAreTheAlphabet(n: nat)
    ensures Text([Letter(0), Letter(25), Letter(26), Letter(51), Letter(52), Letter(61), Letter(62), Letter(63)]) == "AZaz09+/"
    ensures n < 61 && n != 25 && n != 51 ==> Letter(n + 1) as int == Letter(n) as int + 1
  {
  }

  /** "f", "fo", "foo" and "foob" of section 10 of RFC 4648. */
  lemma {:induction false} VectorsOfTheStandard()
    ensures Text(Encode([102])) == "Zg==" && Text(Encode([102, 111])) == "Zm8="
    ensures Text(Encode([102, 111, 111])) == "Zm9v" && Text(Encode([102, 111, 111, 98])) == "Zm9vYg=="
  {
    assert Encode([]) == [];
    assert [102, 111, 111][3..] == [] && [102, 111, 111, 98][3..] == [98];
    assert Encode([98]) == [89, 103, 61, 61];
    assert Encode([102, 111, 111]) == [90, 109, 57, 118];
  }

  /** Position i of an encoded text of n bytes: a letter, or padding as one of the last two or the last. */
  predicate FitsAt(s: Bytes, i: nat)
    requires i < |s|
  {
    Value(s[i]) < 64 || (s[i] == PAD && (i == |s| - 1 || (i == |s| - 2 && s[i + 1] == PAD)))
  }

  predicate WellFormed(s: Bytes) {
    |s| % 4 == 0 && forall i :: 0 <= i < |s| ==> FitsAt(s, i)
  }

  lemma {:induction false} OneGroupDecodesIff(s: Bytes)
    requires |s| == 4
    ensures DecodeGroups(s).Some? <==> WellFormed(s)
  {
    assert s[4..] == [];
    assert WellFormed(s) <==> FitsAt(s, 0) && FitsAt(s, 1) && FitsAt(s, 2) && FitsAt(s, 3);
  }

  lemma {:induction false} WellFormedTail(s: Bytes)
    requires |s| >= 8
    ensures WellFormed(s) <==> WellFormed(s[4..]) && Value(s[0]) < 64 && Value(s[1]) < 64 && Value(s[2]) < 64 && Value(s[3]) < 64
  {
    hide Value;
    forall i | 0 <= i < |s| - 4 ensures FitsAt(s[4..], i) <==> FitsAt(s, i + 4) {
    }
    if WellFormed(s) {
      assert FitsAt(s, 0) && FitsAt(s, 1) && FitsAt(s, 2) && FitsAt(s, 3);
    }
    if WellFormed(s[4..]) {
      forall i | 4 <= i < |s| ensures FitsAt(s, i) {
        assert FitsAt(s[4..], i - 4);
      }
    }
  }

  /** Decoding fails exactly on texts that are no groups of four letters, the last perhaps padded. */
  lemma {:induction false} DecodesIff(s: Bytes)
    ensures DecodeGroups(s).Some? <==> WellFormed(s)
    decreases |s|
  {
    hide Value;
    if |s| == 4 {
      OneGroupDecodesIff(s);
    } else if |s| > 4 {
      DecodesIff(s[4..]);
      if |s| >= 8 {
        WellFormedTail(s);
        ValuesAreSmall(s);
      } else {
        assert |s[4..]| % 4 != 0 && |s| % 4 != 0;
      }
    }
  }

  lemma {:induction false} ValuesAreSmall(s: Bytes)
    ensures forall i :: 0 <= i < |s| ==> Value(s[i]) <= 64
  {
  }
}
