/** Byte strings and the UTF-8 form of text. */
module Bytes {
  import opened Common

  type Byte = n: int | 0 <= n < 256

  /** Continuation bytes a character needs after its leading byte. */
  function Tails(c: char): nat {
    var n := c as int;
    if n < 0x80 then 0 else if n < 0x800 then 1 else if n < 0x1_0000 then 2 else 3
  }

  /** The high part of `n` above `k` groups of six bits. */
  function High(n: nat, k: nat): nat {
    if k == 0 then n else High(n / 64, k - 1)
  }

  /** The low `k` groups of six bits as continuation bytes. */
  function Low(n: nat, k: nat): (b: seq<Byte>)
    ensures |b| == k
  {
    if k == 0 then [] else Low(n / 64, k - 1) + [0x80 + n % 64]
  }

  /** What a leading byte adds to the high part, by the number of continuation bytes. */
  function Marker(k: nat): int {
    if k == 0 then 0 else if k == 1 then 0xC0 else if k == 2 then 0xE0 else 0xF0
  }

  lemma HighFits(c: char)
    ensures High(c as int, Tails(c)) <
            if Tails(c) == 0 then 0x80 else if Tails(c) == 1 then 0x20 else if Tails(c) == 2 then 0x10 else 0x08
  {
    var n := c as int;
    assert Tails(c) == 1 ==> High(n, 1) == High(n / 64, 0);
    assert Tails(c) == 2 ==> High(n, 2) == High(n / 64, 1) == High(n / 64 / 64, 0);
    assert Tails(c) == 3 ==> High(n, 3) == High(n / 64, 2) == High(n / 64 / 64, 1) == High(n / 64 / 64 / 64, 0);
  }

  function EncodeChar(c: char): seq<Byte> {
    HighFits(c);
    [Marker(Tails(c)) + High(c as int, Tails(c))] + Low(c as int, Tails(c))
  }

  function Utf8Encode(text: string): seq<Byte> {
    if text == "" then [] else EncodeChar(text[0]) + Utf8Encode(text[1..])
  }

  /** The continuation bytes a leading byte announces; a continuation byte cannot lead. */
  function Announced(lead: Byte): Option<nat> {
    if lead < 0x80 then Some(0)
    else if 0xC0 <= lead < 0xE0 then Some(1)
    else if 0xE0 <= lead < 0xF0 then Some(2)
    else if 0xF0 <= lead < 0xF8 then Some(3)
    else None
  }

  /** The number a high part and continuation bytes stand for. */
  function Join(high: nat, b: seq<Byte>): Option<nat> {
    if b == [] then Some(high)
    else
      var last: int := b[|b| - 1];
      if !(0x80 <= last < 0xC0) then None
      else
        match Join(high, b[..|b| - 1])
        case None => None
        case Some(n) => Some(n * 64 + (last - 0x80))
  }

  /** A number as a character, unless it is none or was written longer than it has to be. */
  function Scalar(n: nat, tails: nat): Option<char> {
    if (n < 0xD800 || 0xE000 <= n < 0x11_0000) && Tails(n as char) == tails then Some(n as char) else None
  }

  /** Strict decoding: nothing at all when some byte is out of place. */
  function Utf8Decode(b: seq<Byte>): Option<string> {
    if b == [] then Some("")
    else
      match Announced(b[0])
      case None => None
      case Some(k) =>
        var lead: int := b[0];
        if k >= |b| || lead < Marker(k) then None
        else
          match Join(lead - Marker(k), b[1..k + 1])
          case None => None
          case Some(n) =>
            match (Scalar(n, k), Utf8Decode(b[k + 1..]))
            case (Some(c), Some(rest)) => Some([c] + rest)
            case _ => None
  }

  lemma {:induction false} JoinSplit(n: nat, k: nat)
    ensures Join(High(n, k), Low(n, k)) == Some(n)
  {
    if k > 0 {
      JoinSplit(n / 64, k - 1);
      assert Low(n, k)[..k - 1] == Low(n / 64, k - 1);
    }
  }

  /** One character: how its bytes announce, split and join. */
  lemma CharRoundTrip(c: char)
    ensures var e, k := EncodeChar(c), Tails(c);
            && |e| == k + 1 && Announced(e[0]) == Some(k) && Marker(k) <= e[0]
            && Join(e[0] as int - Marker(k), e[1..]) == Some(c as int) && Scalar(c as int, k) == Some(c)
  {
    HighFits(c);
    JoinSplit(c as int, Tails(c));
    assert EncodeChar(c)[1..] == Low(c as int, Tails(c));
    hide High, Low, Join;
  }

  lemma {:induction false} Utf8RoundTrip(text: string)
    ensures Utf8Decode(Utf8Encode(text)) == Some(text)
  {
    hide EncodeChar, Join, Scalar, Tails, Marker, Announced;
    if text != "" {
      var c, e, rest := text[0], EncodeChar(text[0]), Utf8Encode(text[1..]);
      CharRoundTrip(c);
      assert (e + rest)[0] == e[0] && (e + rest)[1..|e|] == e[1..] && (e + rest)[|e|..] == rest;
      Utf8RoundTrip(text[1..]);
      assert [c] + text[1..] == text;
    }
  }

  /** The lengths and ranges of section 3 of RFC 3629: one byte for ASCII, else a lead byte and continuation bytes. */
  lemma EncodedForm(c: char)
    ensures var e, n := EncodeChar(c), c as int;
            && |e| == (if n < 128 then 1 else if n < 2048 then 2 else if n < 65536 then 3 else 4)
            && (if |e| == 1 then e[0] == n
                else if |e| == 2 then 192 <= e[0] < 224 else if |e| == 3 then 224 <= e[0] < 240 else 240 <= e[0] < 248)
            && forall k :: 1 <= k < |e| ==> 128 <= e[k] < 192
  {
    HighFits(c);
    LowContinues(c as int, Tails(c));
    assert Tails(c) == 0 ==> High(c as int, 0) == c as int;
    hide High, Low;
  }

  lemma {:induction false} LowContinues(n: nat, k: nat)
    ensures forall i :: 0 <= i < k ==> 128 <= Low(n, k)[i] < 192
  {
    if k > 0 {
      LowContinues(n / 64, k - 1);
    }
  }

  lemma {:induction false} JoinUnique(high: nat, b: seq<Byte>)
    ensures var n := Join(high, b);
            n.Some? ==> High(n.value, |b|) == high && Low(n.value, |b|) == b
  {
    var n := Join(high, b);
    if b != [] && n.Some? {
      var init := b[..|b| - 1];
      JoinUnique(high, init);
      assert n.value / 64 == Join(high, init).value;
      assert b == init + [b[|b| - 1]];
    }
  }

  lemma CharIsStrict(b: seq<Byte>, k: nat, n: nat, c: char)
    requires |b| == k + 1 && Marker(k) <= b[0]
    requires Join(b[0] as int - Marker(k), b[1..]) == Some(n) && Scalar(n, k) == Some(c)
    ensures EncodeChar(c) == b
  {
    JoinUnique(b[0] as int - Marker(k), b[1..]);
    assert Tails(c) == k && c as int == n;
    assert b == [b[0]] + b[1..];
    hide High, Low, Join, Scalar, Tails, Announced;
  }

  /** Decoding is strict: only the encoding of a text decodes to it. */
  lemma {:induction false} Utf8DecodeIsStrict(b: seq<Byte>)
    ensures var t := Utf8Decode(b);
            t.Some? ==> Utf8Encode(t.value) == b
  {
    hide EncodeChar, Join, Scalar, Announced, Marker;
    var t := Utf8Decode(b);
    if b != [] && t.Some? {
      var k := Announced(b[0]).value;
      var head, rest := b[..k + 1], b[k + 1..];
      var n := Join(b[0] as int - Marker(k), b[1..k + 1]).value;
      var c := Scalar(n, k).value;
      assert head[1..] == b[1..k + 1];
      CharIsStrict(head, k, n, c);
      Utf8DecodeIsStrict(rest);
      assert t.value == [c] + Utf8Decode(rest).value;
      assert t.value[1..] == Utf8Decode(rest).value;
      assert b == head + rest;
    }
  }
}
