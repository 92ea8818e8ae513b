/** The opaque page cursor: a timestamp and an order id, as URL-safe text. */
module Cursor {
  import opened Common
  import opened Bytes
  import opened Base64Url

  /** A timestamp; `aware` when it carries its offset from UTC. */
  datatype Stamp = Stamp(instant: int, aware: bool)

  /** The position of a row in the history. */
  datatype Key = Key(createdAt: Stamp, id: string)

  /** The calendar library: timestamps to text and back; text that is no timestamp gives nothing. */
  datatype Calendar = Calendar(format: Stamp -> string, parse: string -> Option<Stamp>)

  /** ISO text of an aware timestamp holds no bar and reads back as that timestamp. */
  ghost predicate Faithful(cal: Calendar) {
    forall t: Stamp :: t.aware ==> '|' !in cal.format(t) && cal.parse(cal.format(t)) == Some(t)
  }

  datatype Parsed = FirstPage | From(key: Key) | Malformed

  function EncodeCursor(cal: Calendar, key: Key): string {
    Unpadded(Utf8Encode(cal.format(key.createdAt) + "|" + key.id))
  }

  /** The parts before and after the first bar, when there is one. */
  function Partition(text: string): Option<(string, string)> {
    if text == "" then None
    else if text[0] == '|' then Some(("", text[1..]))
    else
      match Partition(text[1..])
      case None => None
      case Some((before, after)) => Some(([text[0]] + before, after))
  }

  function ReadKey(cal: Calendar, text: string): Parsed {
    match Partition(text)
    case None => Malformed
    case Some((ts, id)) =>
      match cal.parse(ts)
      case None => Malformed
      case Some(t) => if id == "" || !t.aware then Malformed else From(Key(t, id))
  }

  function ParseCursor(cal: Calendar, cursor: Option<string>): Parsed {
    if cursor.None? || cursor.value == "" then FirstPage
    else
      match DecodeUnpadded(cursor.value)
      case None => Malformed
      case Some(raw) =>
        match Utf8Decode(raw)
        case None => Malformed
        case Some(text) => ReadKey(cal, text)
  }

  lemma {:induction false} PartitionAtBar(before: string, after: string)
    ensures '|' !in before ==> Partition(before + "|" + after) == Some((before, after))
  {
    var text := before + "|" + after;
    if before == "" {
      assert text[1..] == after;
    } else {
      PartitionAtBar(before[1..], after);
      assert text[1..] == before[1..] + "|" + after;
      assert [before[0]] + before[1..] == before;
    }
  }

  /** The text inside a cursor is recovered whatever it holds, and is never empty. */
  lemma CursorTextRoundTrip(cal: Calendar, key: Key)
    ensures ParseCursor(cal, Some(EncodeCursor(cal, key))) == ReadKey(cal, cal.format(key.createdAt) + "|" + key.id)
  {
    hide DecodeUnpadded, Unpadded, Utf8Decode, ReadKey;
    var text := cal.format(key.createdAt) + "|" + key.id;
    Utf8RoundTrip(text);
    Base64RoundTrip(Utf8Encode(text));
    assert text != "";
    assert Utf8Decode(Utf8Encode("")) == Some("") by {
      Utf8RoundTrip("");
    }
  }

  /**
    Parsing inverts encoding on every aware key, whatever bars or other signs its id holds,
    except that an empty id is refused.
   */
  lemma CursorRoundTrip(cal: Calendar, key: Key)
    requires Faithful(cal) && key.createdAt.aware
    ensures ParseCursor(cal, Some(EncodeCursor(cal, key))) == if key.id != "" then From(key) else Malformed
    ensures forall k :: 0 <= k < |EncodeCursor(cal, key)| ==> UrlSafe(EncodeCursor(cal, key)[k])
  {
    CursorTextRoundTrip(cal, key);
    PartitionAtBar(cal.format(key.createdAt), key.id);
    Base64RoundTrip(Utf8Encode(cal.format(key.createdAt) + "|" + key.id));
    hide DecodeUnpadded, Unpadded, Utf8Decode, Utf8Encode, UrlSafe, Partition;
  }

  /** Distinct positions have distinct cursors. */
  lemma CursorInjective(cal: Calendar, a: Key, b: Key)
    requires Faithful(cal) && a.createdAt.aware && b.createdAt.aware
    requires EncodeCursor(cal, a) == EncodeCursor(cal, b)
    ensures a.id == b.id == "" || a == b
  {
    hide EncodeCursor, ParseCursor;
    CursorRoundTrip(cal, a);
    CursorRoundTrip(cal, b);
  }

  /** What is accepted: the text before its first bar reads as an aware timestamp, and an id follows. */
  lemma ParseAcceptsOnly(cal: Calendar, text: string, before: string, id: string)
    requires '|' !in before && text == before + "|" + id
    ensures ReadKey(cal, text) ==
            var t := cal.parse(before);
            if t.Some? && t.value.aware && id != "" then From(Key(t.value, id)) else Malformed
  {
    PartitionAtBar(before, id);
  }

  /** Text without a bar is malformed. */
  lemma {:induction false} NoBarIsMalformed(cal: Calendar, text: string)
    requires '|' !in text
    ensures ReadKey(cal, text) == Malformed && Partition(text) == None
  {
    if text != "" {
      NoBarIsMalformed(cal, text[1..]);
    }
  }
}
