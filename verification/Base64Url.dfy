/** The URL-safe base64 alphabet of section 5 of RFC 4648, and the lenient decoder that reads it. */
module Base64Url {
  import opened Common
  import opened Bytes

  type Sextet = n: int | 0 <= n < 64

  const PAD: char := '='

  function Letter(v: Sextet): char {
    if v < 26 then ('A' as int + v) as char
    else if v < 52 then ('a' as int + v - 26) as char
    else if v < 62 then ('0' as int + v - 52) as char
    else if v == 62 then '-'
    else '_'
  }

  /** The decoder also takes the two symbols of the standard alphabet. */
  function Value(c: char): Option<Sextet> {
    if 'A' <= c <= 'Z' then Some(c as int - 'A' as int)
    else if 'a' <= c <= 'z' then Some(c as int - 'a' as int + 26)
    else if '0' <= c <= '9' then Some(c as int - '0' as int + 52)
    else if c == '-' || c == '+' then Some(62)
    else if c == '_' || c == '/' then Some(63)
    else None
  }

  // ---------------------------------------------------------------- encoding

  function Quad(a: Byte, b: Byte, c: Byte): (text: string)
    ensures |text| == 4
  {
    [Letter(a / 4), Letter(a % 4 * 16 + b / 16), Letter(b % 16 * 4 + c / 64), Letter(c % 64)]
  }

  function Encode(b: seq<Byte>): string {
    if b == [] then ""
    else if |b| == 1 then [Letter(b[0] / 4), Letter(b[0] % 4 * 16), PAD, PAD]
    else if |b| == 2 then [Letter(b[0] / 4), Letter(b[0] % 4 * 16 + b[1] / 16), Letter(b[1] % 16 * 4), PAD]
    else Quad(b[0], b[1], b[2]) + Encode(b[3..])
  }

  /** The text without the padding at its end. */
  function StripPads(text: string): string {
    if text != "" && text[|text| - 1] == PAD then StripPads(text[..|text| - 1]) else text
  }

  function Unpadded(b: seq<Byte>): string {
    StripPads(Encode(b))
  }

  // ---------------------------------------------------------------- decoding

  /** What a scan may carry from the sextets read so far in its group of four. */
  predicate Carries(quad: nat, left: nat) {
    || quad == 0
    || (quad == 1 && left < 64)
    || (quad == 2 && left < 16)
    || (quad == 3 && left < 4)
  }

  function Emit(b: Byte, rest: Option<seq<Byte>>): Option<seq<Byte>> {
    match rest
    case None => None
    case Some(bytes) => Some([b] + bytes)
  }

  /**
    The scan with `quad` sextets of the current group read, `left` bits carried and `pads`
    padding signs seen.  Signs outside the alphabet are skipped, enough padding ends the scan,
    and text that ends inside a group is refused.
   */
  function Scan(text: string, quad: nat, left: nat, pads: nat): Option<seq<Byte>>
    requires Carries(quad, left)
  {
    if text == "" then (if quad == 0 then Some([]) else None)
    else if text[0] == PAD then
      if quad < 2 then Scan(text[1..], quad, left, pads)
      else if quad + pads + 1 >= 4 then Some([])
      else Scan(text[1..], quad, left, pads + 1)
    else
      match Value(text[0])
      case None => Scan(text[1..], quad, left, pads)
      case Some(v) =>
        if quad == 0 then Scan(text[1..], 1, v, 0)
        else if quad == 1 then Emit(left * 4 + v / 16, Scan(text[1..], 2, v % 16, 0))
        else if quad == 2 then Emit(left * 16 + v / 4, Scan(text[1..], 3, v % 4, 0))
        else Emit(left * 64 + v, Scan(text[1..], 0, 0, 0))
  }

  predicate Ascii(text: string) {
    forall k :: 0 <= k < |text| ==> text[k] as int < 128
  }

  function Pads(n: nat): string {
    seq(n, _ => PAD)
  }

  /** Decoding of text whose padding was stripped: pad to a whole group, then scan. */
  function DecodeUnpadded(text: string): Option<seq<Byte>> {
    if Ascii(text) then Scan(text + Pads((-|text|) % 4), 0, 0, 0) else None
  }

  // ---------------------------------------------------------------- round trip

  /** A sign of the URL-safe alphabet; none of them needs escaping in a query. */
  predicate UrlSafe(c: char) {
    'A' <= c <= 'Z' || 'a' <= c <= 'z' || '0' <= c <= '9' || c == '-' || c == '_'
  }

  lemma LetterRoundTrip(v: Sextet)
    ensures Value(Letter(v)) == Some(v) && Letter(v) != PAD && UrlSafe(Letter(v))
  {
  }

  /** The unpadded form, written directly. */
  function Bare(b: seq<Byte>): string {
    if b == [] then ""
    else if |b| == 1 then [Letter(b[0] / 4), Letter(b[0] % 4 * 16)]
    else if |b| == 2 then [Letter(b[0] / 4), Letter(b[0] % 4 * 16 + b[1] / 16), Letter(b[1] % 16 * 4)]
    else Quad(b[0], b[1], b[2]) + Bare(b[3..])
  }

  /** The padding signs that complete the last group. */
  function Missing(n: nat): nat {
    if n % 3 == 0 then 0 else 3 - n % 3
  }

  lemma MissingRepeats(n: nat)
    requires n > 2
    ensures Missing(n) == Missing(n - 3) && (n + 2) / 3 == (n - 3 + 2) / 3 + 1
  {
  }

  lemma {:induction false} EncodeIsBarePadded(b: seq<Byte>)
    ensures Encode(b) == Bare(b) + Pads(Missing(|b|))
  {
    hide Letter, Quad;
    if |b| > 2 {
      hide Missing, Pads;
      EncodeIsBarePadded(b[3..]);
      MissingRepeats(|b|);
    }
  }

  /** Completed, the text is one group of four for every three bytes begun. */
  lemma {:induction false} BareLength(b: seq<Byte>)
    ensures |Bare(b)| + Missing(|b|) == (|b| + 2) / 3 * 4
  {
    hide Letter, Quad;
    if |b| > 2 {
      hide Missing;
      BareLength(b[3..]);
      MissingRepeats(|b|);
    }
  }

  lemma {:induction false} BareIsUrlSafe(b: seq<Byte>)
    ensures forall k :: 0 <= k < |Bare(b)| ==> UrlSafe(Bare(b)[k])
  {
    forall v: Sextet ensures UrlSafe(Letter(v)) {
      LetterRoundTrip(v);
    }
    hide Letter, UrlSafe;
    if |b| > 2 {
      BareIsUrlSafe(b[3..]);
    }
  }

  lemma {:induction false} StripsAllPads(text: string, n: nat)
    requires forall k :: 0 <= k < |text| ==> UrlSafe(text[k])
    ensures StripPads(text + Pads(n)) == text
  {
    var padded := text + Pads(n);
    if n == 0 {
      assert padded == text;
    } else {
      assert padded[..|padded| - 1] == text + Pads(n - 1);
      StripsAllPads(text, n - 1);
    }
  }

  /** Reading one letter. */
  lemma ScanLetter(v: Sextet, rest: string, quad: nat, left: nat)
    requires Carries(quad, left)
    ensures Scan([Letter(v)] + rest, quad, left, 0) ==
            if quad == 0 then Scan(rest, 1, v, 0)
            else if quad == 1 then Emit(left * 4 + v / 16, Scan(rest, 2, v % 16, 0))
            else if quad == 2 then Emit(left * 16 + v / 4, Scan(rest, 3, v % 4, 0))
            else Emit(left * 64 + v, Scan(rest, 0, 0, 0))
  {
    LetterRoundTrip(v);
    hide Letter, Value, UrlSafe;
    assert ([Letter(v)] + rest)[1..] == rest;
  }

  /** Two bytes split over the six-bit border and put together again. */
  lemma Regroup(a: Byte, b: Byte, c: Byte)
    ensures var v, w := a % 4 * 16 + b / 16, b % 16 * 4 + c / 64;
            && v < 64 && w < 64
            && v / 16 == a % 4 && v % 16 == b / 16
            && w / 4 == b % 16 && w % 4 == c / 64
    ensures a / 4 * 4 + a % 4 == a && b / 16 * 16 + b % 16 == b && c / 64 * 64 + c % 64 == c
  {
  }

  /** A whole group scans back to its three bytes and leaves the scan where it was. */
  lemma QuadRoundTrip(a: Byte, b: Byte, c: Byte, rest: string)
    ensures Scan(Quad(a, b, c) + rest, 0, 0, 0) == Emit(a, Emit(b, Emit(c, Scan(rest, 0, 0, 0))))
  {
    hide Scan, Letter;
    Regroup(a, b, c);
    var t3 := [Letter(c % 64)] + rest;
    var t2 := [Letter(b % 16 * 4 + c / 64)] + t3;
    var t1 := [Letter(a % 4 * 16 + b / 16)] + t2;
    assert Quad(a, b, c) + rest == [Letter(a / 4)] + t1;
    ScanLetter(a / 4, t1, 0, 0);
    ScanLetter(a % 4 * 16 + b / 16, t2, 1, a / 4);
    ScanLetter(b % 16 * 4 + c / 64, t3, 2, b / 16);
    ScanLetter(c % 64, rest, 3, c / 64);
  }

  lemma ScanPads()
    ensures Scan([PAD, PAD], 2, 0, 0) == Some([]) && Scan([PAD], 3, 0, 0) == Some([]) && Scan("", 0, 0, 0) == Some([])
  {
  }

  lemma OneRoundTrip(a: Byte)
    ensures Scan(Encode([a]), 0, 0, 0) == Some([a])
  {
    hide Scan, Letter;
    Regroup(a, 0, 0);
    assert a % 4 * 16 / 16 == a % 4 && a % 4 * 16 % 16 == 0;
    var t1 := [Letter(a % 4 * 16)] + [PAD, PAD];
    assert Encode([a]) == [Letter(a / 4)] + t1;
    ScanLetter(a / 4, t1, 0, 0);
    ScanLetter(a % 4 * 16, [PAD, PAD], 1, a / 4);
    ScanPads();
    assert [a] + [] == [a];
  }

  lemma TwoRoundTrip(a: Byte, b: Byte)
    ensures Scan(Encode([a, b]), 0, 0, 0) == Some([a, b])
  {
    hide Scan, Letter;
    Regroup(a, b, 0);
    assert b % 16 * 4 / 4 == b % 16 && b % 16 * 4 % 4 == 0;
    var t2 := [Letter(b % 16 * 4)] + [PAD];
    var t1 := [Letter(a % 4 * 16 + b / 16)] + t2;
    assert Encode([a, b]) == [Letter(a / 4)] + t1;
    ScanLetter(a / 4, t1, 0, 0);
    ScanLetter(a % 4 * 16 + b / 16, t2, 1, a / 4);
    ScanLetter(b % 16 * 4, [PAD], 2, b / 16);
    ScanPads();
    assert [a] + ([b] + []) == [a, b];
  }

  lemma EmitGroup(b: seq<Byte>)
    requires |b| > 2
    ensures Emit(b[0], Emit(b[1], Emit(b[2], Some(b[3..])))) == Some(b)
  {
    assert b == [b[0]] + ([b[1]] + ([b[2]] + b[3..]));
  }

  lemma {:induction false} ScanRoundTrip(b: seq<Byte>)
    ensures Scan(Encode(b), 0, 0, 0) == Some(b)
  {
    hide Scan, Quad, Letter, Emit;
    if |b| == 0 {
      ScanPads();
    } else if |b| == 1 {
      OneRoundTrip(b[0]);
      assert b == [b[0]];
    } else if |b| == 2 {
      TwoRoundTrip(b[0], b[1]);
      assert b == [b[0], b[1]];
    } else {
      ScanRoundTrip(b[3..]);
      QuadRoundTrip(b[0], b[1], b[2], Encode(b[3..]));
      EmitGroup(b);
    }
  }

  lemma PadsBack(n: int, missing: int)
    requires (n + missing) % 4 == 0 && 0 <= missing < 4
    ensures (-n) % 4 == missing
  {
  }

  lemma BareEmpty(b: seq<Byte>)
    ensures Bare(b) == "" <==> b == []
  {
  }

  /** Stripping the padding loses nothing, and the text needs no escaping in a query. */
  lemma Base64RoundTrip(b: seq<Byte>)
    ensures DecodeUnpadded(Unpadded(b)) == Some(b)
    ensures forall k :: 0 <= k < |Unpadded(b)| ==> UrlSafe(Unpadded(b)[k])
    ensures Unpadded(b) == "" <==> b == []
  {
    hide Scan, Encode, Letter, Quad, StripPads, Bare, Pads;
    EncodeIsBarePadded(b);
    BareLength(b);
    PadsBack(|Bare(b)|, Missing(|b|));
    BareIsUrlSafe(b);
    BareEmpty(b);
    StripsAllPads(Bare(b), Missing(|b|));
    ScanRoundTrip(b);
    assert Ascii(Bare(b));
  }

  // ---------------------------------------------------------------- what the decoder accepts

  /** The signs the decoder reads: the two alphabets of RFC 4648, sections 4 and 5; all others it skips. */
  lemma SignsRead(c: char)
    ensures Value(c).Some? <==> UrlSafe(c) || c == '+' || c == '/'
    ensures Value('+') == Some(62) && Value('/') == Some(63)
  {
  }

  lemma ForeignSignIsSkipped(c: char, rest: string, quad: nat, left: nat, pads: nat)
    requires Carries(quad, left) && !UrlSafe(c) && c != '+' && c != '/' && c != PAD
    ensures Scan([c] + rest, quad, left, pads) == Scan(rest, quad, left, pads)
  {
    SignsRead(c);
    hide Value, UrlSafe;
    assert ([c] + rest)[1..] == rest;
  }

  /** A group that is begun has to be completed by letters or by all its padding. */
  lemma PaddingCompletes(left: nat)
    requires left < 4
    ensures Scan([PAD, PAD], 2, left, 0) == Some([]) && Scan([PAD], 3, left, 0) == Some([])
    ensures Scan([PAD], 2, left, 0) == None && Scan([PAD, PAD, PAD], 1, left, 0) == None
    ensures Scan("", 1, left, 0) == Scan("", 2, left, 0) == Scan("", 3, left, 0) == None
  {
    assert [PAD, PAD][1..] == [PAD] && [PAD][1..] == "" && [PAD, PAD, PAD][1..] == [PAD, PAD];
    assert Scan([PAD], 2, left, 1) == Some([]);
    assert Scan([PAD, PAD], 1, left, 0) == Scan([PAD], 1, left, 0) == Scan("", 1, left, 0);
  }

  function Letters(vs: seq<Sextet>): string {
    seq(|vs|, k requires 0 <= k < |vs| => Letter(vs[k]))
  }

  lemma LettersShift(vs: seq<Sextet>, tail: string)
    requires vs != []
    ensures Letters(vs) + tail == [Letter(vs[0])] + (Letters(vs[1..]) + tail)
  {
    hide Letter;
    assert Letters(vs) == [Letter(vs[0])] + Letters(vs[1..]);
  }

  lemma GroupScans(vs: seq<Sextet>, tail: string)
    requires |vs| >= 4
    ensures Scan(Letters(vs) + tail, 0, 0, 0).Some? <==> Scan(Letters(vs[4..]) + tail, 0, 0, 0).Some?
  {
    hide Scan, Letters, Letter;
    var t1, t2, t3, t4 := vs[1..], vs[2..], vs[3..], vs[4..];
    assert t1[1..] == t2 && t2[1..] == t3 && t3[1..] == t4;
    LettersShift(vs, tail);
    LettersShift(t1, tail);
    LettersShift(t2, tail);
    LettersShift(t3, tail);
    ScanLetter(vs[0], Letters(t1) + tail, 0, 0);
    ScanLetter(vs[1], Letters(t2) + tail, 1, vs[0]);
    ScanLetter(vs[2], Letters(t3) + tail, 2, vs[1] % 16);
    ScanLetter(vs[3], Letters(t4) + tail, 3, vs[2] % 4);
  }

  lemma RestScans(vs: seq<Sextet>)
    requires |vs| < 4
    ensures Scan(Letters(vs) + Pads((-|vs|) % 4), 0, 0, 0).Some? <==> |vs| != 1
  {
    var tail := Pads((-|vs|) % 4);
    hide Letter, Pads;
    if |vs| == 0 {
      assert Letters(vs) + tail == "" by { PadsAre(); }
    } else {
      var t1 := vs[1..];
      LettersShift(vs, tail);
      ScanLetter(vs[0], Letters(t1) + tail, 0, 0);
      hide Scan;
      if |vs| == 1 {
        PadsAre();
        assert Letters(t1) + tail == [PAD, PAD, PAD];
        LonePads(vs[0]);
      } else {
        var t2 := t1[1..];
        LettersShift(t1, tail);
        ScanLetter(t1[0], Letters(t2) + tail, 1, vs[0]);
        if |vs| == 2 {
          PadsAre();
          assert Letters(t2) + tail == [PAD, PAD];
          LonePads(t1[0] % 16);
        } else {
          LettersShift(t2, tail);
          ScanLetter(t2[0], Letters(t2[1..]) + tail, 2, t1[0] % 16);
          PadsAre();
          assert Letters(t2[1..]) + tail == [PAD];
          LonePads(t2[0] % 4);
        }
      }
    }
  }

  lemma PadsAre()
    ensures Pads(0) == "" && Pads(1) == [PAD] && Pads(2) == [PAD, PAD] && Pads(3) == [PAD, PAD, PAD]
    ensures -1 % 4 == 3 && -2 % 4 == 2 && -3 % 4 == 1 && 0 % 4 == 0
  {
  }

  lemma LonePads(left: nat)
    ensures left < 64 ==> Scan([PAD, PAD, PAD], 1, left, 0) == None
    ensures left < 16 ==> Scan([PAD, PAD], 2, left, 0) == Some([])
    ensures left < 4 ==> Scan([PAD], 3, left, 0) == Some([])
  {
    assert [PAD, PAD][1..] == [PAD] && [PAD][1..] == "" && [PAD, PAD, PAD][1..] == [PAD, PAD];
    assert left < 16 ==> Scan([PAD], 2, left, 1) == Some([]);
    assert left < 64 ==> Scan([PAD, PAD], 1, left, 0) == Scan([PAD], 1, left, 0) == Scan("", 1, left, 0);
  }

  lemma LessFour(n: int, m: int)
    requires n == m + 4
    ensures (-n) % 4 == (-m) % 4 && n % 4 == m % 4
  {
  }

  /** Text of the alphabet decodes exactly when its length leaves no single letter over. */
  lemma {:induction false} LettersDecode(vs: seq<Sextet>)
    ensures Scan(Letters(vs) + Pads((-|vs|) % 4), 0, 0, 0).Some? <==> |vs| % 4 != 1
  {
    hide Scan, Letters, Pads;
    if |vs| < 4 {
      RestScans(vs);
    } else {
      var rest := vs[4..];
      LettersDecode(rest);
      LessFour(|vs|, |rest|);
      GroupScans(vs, Pads((-|vs|) % 4));
    }
  }
}
