/** The dated, append-only fee schedule: which figure was in force on a given day. */
module FeeSeries {
  import opened Common
  import opened Sorting

  /** Days and seconds count from a fixed epoch. */
  datatype FeeEntry = FeeEntry(value: real, effectiveFrom: int, recordedAt: int, maxAgeDays: int)

  /** Instrument, then field, then the entries of the file in file order. */
  type File = map<string, map<string, seq<FeeEntry>>>

  type Schedule = map<string, map<string, seq<FeeEntry>>>

  function Earlier(): (FeeEntry, FeeEntry) -> bool {
    (a: FeeEntry, b: FeeEntry) => a.effectiveFrom < b.effectiveFrom
  }

  function SortedFields(fields: map<string, seq<FeeEntry>>): map<string, seq<FeeEntry>> {
    map field | field in fields :: Sort(fields[field], Earlier())
  }

  function Load(file: File): Schedule {
    map instrument | instrument in file :: SortedFields(file[instrument])
  }

  /** One dictionary per instrument, each series sorted by effective date; ties keep file order. */
  method LoadFeeSchedule(file: File) returns (s: Schedule)
    ensures s == Load(file)
  {
    hide SortedFields;
    s := map[];
    var rest := file.Keys;
    while rest != {}
      invariant rest <= file.Keys && s.Keys == file.Keys - rest
      invariant forall i :: i in s ==> s[i] == SortedFields(file[i])
      decreases rest
    {
      var instrument :| instrument in rest;
      var series := LoadFields(file[instrument]);
      s := s[instrument := series];
      rest := rest - {instrument};
    }
  }

  method LoadFields(fields: map<string, seq<FeeEntry>>) returns (series: map<string, seq<FeeEntry>>)
    ensures series == SortedFields(fields)
  {
    hide Sort;
    series := map[];
    var rest := fields.Keys;
    while rest != {}
      invariant rest <= fields.Keys && series.Keys == fields.Keys - rest
      invariant forall f :: f in series ==> series[f] == Sort(fields[f], Earlier())
      decreases rest
    {
      var field :| field in rest;
      series := series[field := Sort(fields[field], Earlier())];
      rest := rest - {field};
    }
  }

  /** Appending a block to the file adds an entry at the end of one series. */
  function Append(file: File, instrument: string, field: string, e: FeeEntry): File
    requires instrument in file
  {
    var fields := file[instrument];
    file[instrument := fields[field := (if field in fields then fields[field] else []) + [e]]]
  }

  // ---------------------------------------------------------------- resolving

  datatype Outcome = InForce(entry: FeeEntry) | NoInstrument | NoField | NoEntry | Stale(entry: FeeEntry)

  /** Whole days since the entry was recorded, rounded down. */
  function AgeDays(e: FeeEntry, now: int): int {
    (now - e.recordedAt) / 86400
  }

  /** More whole days have passed since the entry was recorded than it is good for. */
  predicate TooOld(e: FeeEntry, now: int) {
    now >= e.recordedAt + (e.maxAgeDays + 1) * 86400
  }

  lemma TooOldIs(e: FeeEntry, now: int)
    ensures AgeDays(e, now) > e.maxAgeDays <==> TooOld(e, now)
  {
  }

  function Applicable(entries: seq<FeeEntry>, on: int): seq<FeeEntry> {
    if entries == [] then []
    else
      var rest, last := Applicable(entries[..|entries| - 1], on), entries[|entries| - 1];
      if last.effectiveFrom <= on then rest + [last] else rest
  }

  function Resolve(s: Schedule, instrument: string, field: string, on: int, allowStale: bool, now: int): Outcome {
    if instrument !in s then NoInstrument
    else if field !in s[instrument] then NoField
    else
      var applicable := Applicable(s[instrument][field], on);
      if applicable == [] then NoEntry
      else
        var entry := applicable[|applicable| - 1];
        if AgeDays(entry, now) > entry.maxAgeDays && !allowStale then Stale(entry) else InForce(entry)
  }

  datatype Verdict = AtOrBelow | Above

  /** The one-sided check of an observation; it reads a stale basis unless told otherwise. */
  function Compare(
    s: Schedule, instrument: string, field: string, observed: real, on: int, allowStale: bool, now: int
  ): Option<Verdict> {
    match Resolve(s, instrument, field, on, allowStale, now)
    case InForce(entry) => Some(if observed > entry.value then Above else AtOrBelow)
    case _ => None
  }

  // ---------------------------------------------------------------- the entry in force

  /** The i-th entry of the file governs the day: latest effective date, and of those the last written. */
  ghost predicate Governs(entries: seq<FeeEntry>, on: int, i: int) {
    && 0 <= i < |entries| && entries[i].effectiveFrom <= on
    && forall j :: 0 <= j < |entries| && entries[j].effectiveFrom <= on ==>
         || entries[j].effectiveFrom < entries[i].effectiveFrom
         || (entries[j].effectiveFrom == entries[i].effectiveFrom && j <= i)
  }

  function LastApplicable(entries: seq<FeeEntry>, on: int): Option<FeeEntry> {
    var a := Applicable(entries, on);
    if a == [] then None else Some(a[|a| - 1])
  }

  /** Whether a new entry takes over from the one in force so far. */
  predicate TakesOver(e: FeeEntry, on: int, current: Option<FeeEntry>) {
    e.effectiveFrom <= on && (current.None? || current.value.effectiveFrom <= e.effectiveFrom)
  }

  lemma {:induction false} ApplicableWithin(entries: seq<FeeEntry>, on: int, bound: int)
    requires forall e :: e in entries ==> e.effectiveFrom <= bound
    ensures var last := LastApplicable(entries, on);
            last.Some? ==> last.value.effectiveFrom <= bound
  {
    if entries != [] {
      ApplicableWithin(entries[..|entries| - 1], on, bound);
    }
  }

  lemma ApplicableEnd(entries: seq<FeeEntry>, e: FeeEntry, on: int)
    ensures LastApplicable(entries + [e], on) == if e.effectiveFrom <= on then Some(e) else LastApplicable(entries, on)
  {
  }

  /** Sorting an entry in changes the answer exactly when the entry takes over. */
  lemma {:induction false} InsertTakesOver(e: FeeEntry, s: seq<FeeEntry>, on: int)
    requires Ordered(s, Earlier())
    ensures LastApplicable(Insert(e, s, Earlier()), on) ==
            if TakesOver(e, on, LastApplicable(s, on)) then Some(e) else LastApplicable(s, on)
  {
    hide LastApplicable;
    if s == [] {
      ApplicableEnd([], e, on);
      NothingYet(on);
    } else {
      var rest, last := s[..|s| - 1], s[|s| - 1];
      assert s == rest + [last];
      ApplicableEnd(rest, last, on);
      if Earlier()(e, last) {
        InsertTakesOver(e, rest, on);
        ApplicableEnd(Insert(e, rest, Earlier()), last, on);
      } else {
        ApplicableEnd(s, e, on);
        forall x | x in s ensures x.effectiveFrom <= e.effectiveFrom {
          var k :| 0 <= k < |s| && s[k] == x;
          assert k < |s| - 1 ==> !Earlier()(last, s[k]);
        }
        ApplicableWithin(s, on, e.effectiveFrom);
      }
    }
  }

  lemma EarlierOrders()
    ensures WeakOrder(Earlier())
  {
  }

  /** Resolving an entry appended to the file: it wins exactly where it takes over. */
  lemma AppendTakesOver(file: seq<FeeEntry>, e: FeeEntry, on: int)
    ensures var before := LastApplicable(Sort(file, Earlier()), on);
            LastApplicable(Sort(file + [e], Earlier()), on) == if TakesOver(e, on, before) then Some(e) else before
  {
    EarlierOrders();
    SortSorts(file, Earlier());
    InsertTakesOver(e, Sort(file, Earlier()), on);
    assert (file + [e])[..|file|] == file;
  }

  lemma GovernsOnce(entries: seq<FeeEntry>, on: int, i: int, j: int)
    requires Governs(entries, on, i) && Governs(entries, on, j)
    ensures i == j
  {
  }

  lemma NothingYet(on: int)
    ensures LastApplicable(Sort([], Earlier()), on) == None
  {
  }

  /** The answer of the sorted series stands for an entry of the file that governs the day. */
  ghost predicate Answers(answer: Option<FeeEntry>, file: seq<FeeEntry>, on: int) {
    match answer
    case None => forall i :: 0 <= i < |file| ==> file[i].effectiveFrom > on
    case Some(e) => exists i :: Governs(file, on, i) && file[i] == e
  }

  lemma AnswerStep(answer: Option<FeeEntry>, file: seq<FeeEntry>, e: FeeEntry, on: int)
    requires Answers(answer, file, on)
    ensures Answers(if TakesOver(e, on, answer) then Some(e) else answer, file + [e], on)
  {
    if answer.Some? {
      var i :| Governs(file, on, i) && file[i] == answer.value;
      assert TakesOver(e, on, answer) ==> Governs(file + [e], on, |file|) && (file + [e])[|file|] == e;
      assert !TakesOver(e, on, answer) ==> Governs(file + [e], on, i) && (file + [e])[i] == file[i];
    } else if TakesOver(e, on, answer) {
      assert Governs(file + [e], on, |file|) && (file + [e])[|file|] == e;
    }
  }

  lemma {:induction false} SortedAnswers(file: seq<FeeEntry>, on: int)
    ensures Answers(LastApplicable(Sort(file, Earlier()), on), file, on)
  {
    hide LastApplicable, Sort, Answers;
    if file == [] {
      NothingYet(on);
      assert Answers(None, [], on) by {
        AnswersNothing(on);
      }
    } else {
      var rest, e := file[..|file| - 1], file[|file| - 1];
      SortedAnswers(rest, on);
      AppendTakesOver(rest, e, on);
      AnswerStep(LastApplicable(Sort(rest, Earlier()), on), rest, e, on);
      assert file == rest + [e];
    }
  }

  lemma AnswersNothing(on: int)
    ensures Answers(None, [], on)
  {
  }

  /**
    `Resolve` over the sorted series answers with the entry of greatest effective date, and
    last in the file among equals, of those effective on or before the day — or refuses when
    there is none, or when that entry is too old.
   */
  lemma ResolvesToGoverning(file: File, instrument: string, field: string, on: int, allowStale: bool, now: int)
    requires instrument in file && field in file[instrument]
    ensures var entries, answer := file[instrument][field], Resolve(Load(file), instrument, field, on, allowStale, now);
            && (answer == NoEntry <==> forall i :: 0 <= i < |entries| ==> entries[i].effectiveFrom > on)
            && (answer != NoEntry ==> exists i :: Governs(entries, on, i))
            && (forall i :: Governs(entries, on, i) ==>
                  answer == if TooOld(entries[i], now) && !allowStale then Stale(entries[i]) else InForce(entries[i]))
  {
    hide Resolve, Load, Sort, LastApplicable, Governs, Answers, AgeDays, TooOld;
    var entries := file[instrument][field];
    ResolveOfFile(file, instrument, field, on, allowStale, now);
    SortedAnswers(entries, on);
    AnswersGoverning(LastApplicable(Sort(entries, Earlier()), on), entries, on);
    forall i | Governs(entries, on, i)
      ensures 0 <= i < |entries| && (AgeDays(entries[i], now) > entries[i].maxAgeDays <==> TooOld(entries[i], now))
    {
      GovernsListed(entries, on, i);
      TooOldIs(entries[i], now);
    }
  }

  lemma GovernsListed(entries: seq<FeeEntry>, on: int, i: int)
    requires Governs(entries, on, i)
    ensures 0 <= i < |entries|
  {
  }

  lemma AnswersGoverning(answer: Option<FeeEntry>, entries: seq<FeeEntry>, on: int)
    requires Answers(answer, entries, on)
    ensures answer.None? <==> forall i :: 0 <= i < |entries| ==> entries[i].effectiveFrom > on
    ensures answer.Some? ==> exists i :: Governs(entries, on, i)
    ensures forall i :: Governs(entries, on, i) ==> answer == Some(entries[i])
  {
    if answer.Some? {
      var i :| Governs(entries, on, i) && entries[i] == answer.value;
      forall j | Governs(entries, on, j) ensures j == i {
        GovernsOnce(entries, on, i, j);
      }
    }
  }

  // ---------------------------------------------------------------- appending

  function Judge(answer: Option<FeeEntry>, allowStale: bool, now: int): Outcome {
    match answer
    case None => NoEntry
    case Some(e) => if AgeDays(e, now) > e.maxAgeDays && !allowStale then Stale(e) else InForce(e)
  }

  /** Loading and resolving, seen from the file. */
  lemma ResolveOfFile(file: File, instrument: string, field: string, on: int, allowStale: bool, now: int)
    ensures Resolve(Load(file), instrument, field, on, allowStale, now) ==
            if instrument !in file then NoInstrument
            else if field !in file[instrument] then NoField
            else Judge(LastApplicable(Sort(file[instrument][field], Earlier()), on), allowStale, now)
  {
  }

  function EntriesOf(file: File, instrument: string, field: string): seq<FeeEntry> {
    if instrument in file && field in file[instrument] then file[instrument][field] else []
  }

  lemma AppendedSeries(file: File, instrument: string, field: string, e: FeeEntry)
    requires instrument in file
    ensures var after := Append(file, instrument, field, e);
            && instrument in after && field in after[instrument]
            && after[instrument][field] == EntriesOf(file, instrument, field) + [e]
  {
  }

  lemma OtherSeries(file: File, instrument: string, field: string, e: FeeEntry, instrument': string, field': string)
    requires instrument in file && (instrument, field) != (instrument', field')
    ensures var after := Append(file, instrument, field, e);
            && (instrument' in after <==> instrument' in file)
            && (instrument' in file ==> (field' in after[instrument'] <==> field' in file[instrument']))
            && (instrument' in file && field' in file[instrument'] ==>
                after[instrument'][field'] == file[instrument'][field'])
  {
  }

  /** The check compares with the governing entry and is one-sided; it answers nothing when that is refused. */
  lemma ComparesToGoverning(
    file: File, instrument: string, field: string, observed: real, on: int, allowStale: bool, now: int, i: int
  )
    requires instrument in file && field in file[instrument] && Governs(file[instrument][field], on, i)
    ensures var e := file[instrument][field][i];
            Compare(Load(file), instrument, field, observed, on, allowStale, now) ==
            if TooOld(e, now) && !allowStale then None
            else if observed > e.value then Some(Above) else Some(AtOrBelow)
  {
    hide Resolve, Load, Governs, TooOld;
    ResolvesToGoverning(file, instrument, field, on, allowStale, now);
    GovernsListed(file[instrument][field], on, i);
  }

  /** Without an entry in force, or without the series, the check answers nothing. */
  lemma ComparesToNothing(
    file: File, instrument: string, field: string, observed: real, on: int, allowStale: bool, now: int
  )
    requires instrument in file && field in file[instrument] ==>
               forall e :: e in file[instrument][field] ==> e.effectiveFrom > on
    ensures Compare(Load(file), instrument, field, observed, on, allowStale, now) == None
  {
    hide Resolve, Load, LastApplicable, Sort;
    ResolveOfFile(file, instrument, field, on, allowStale, now);
    if instrument in file && field in file[instrument] {
      SortedAnswers(file[instrument][field], on);
    }
  }

  /**
    An appended entry changes no answer of another series, and none for a day before its date;
    in a field that had no entry yet, such a day is refused before and after.
   */
  lemma AppendKeepsHistory(
    file: File, instrument: string, field: string, e: FeeEntry,
    instrument': string, field': string, on: int, allowStale: bool, now: int
  )
    requires instrument in file
    requires (instrument, field) != (instrument', field') || on < e.effectiveFrom
    ensures var before := Resolve(Load(file), instrument', field', on, allowStale, now);
            var after := Resolve(Load(Append(file, instrument, field, e)), instrument', field', on, allowStale, now);
            after == before || ((instrument, field) == (instrument', field') && before == NoField && after == NoEntry)
  {
    hide Sort, LastApplicable, Resolve, Load, Append;
    ResolveOfFile(file, instrument', field', on, allowStale, now);
    ResolveOfFile(Append(file, instrument, field, e), instrument', field', on, allowStale, now);
    if (instrument, field) == (instrument', field') {
      AppendedSeries(file, instrument, field, e);
      AppendTakesOver(EntriesOf(file, instrument, field), e, on);
      NothingYet(on);
    } else {
      OtherSeries(file, instrument, field, e, instrument', field');
    }
  }

  /** From its own date on, the appended entry is in force until a later-dated one takes over. */
  lemma AppendWinsUntilSuperseded(file: File, instrument: string, field: string, e: FeeEntry, on: int, now: int)
    requires instrument in file && field in file[instrument] && e !in file[instrument][field]
    ensures Resolve(Load(Append(file, instrument, field, e)), instrument, field, on, true, now) == InForce(e) <==>
            && e.effectiveFrom <= on
            && !exists f :: f in file[instrument][field] && e.effectiveFrom < f.effectiveFrom <= on
  {
    hide Sort, LastApplicable, Resolve, Load, Append;
    ResolveOfFile(Append(file, instrument, field, e), instrument, field, on, true, now);
    AppendedSeries(file, instrument, field, e);
    AppendTakesOver(file[instrument][field], e, on);
    SortedAnswers(file[instrument][field], on);
  }

  /**
    Adopting an observation that exceeded its basis, by appending it under the day's date,
    ends the alert for that day and leaves the basis of every earlier day as it was.
   */
  lemma AdoptionEndsAlert(
    file: File, instrument: string, field: string, e: FeeEntry, on: int, now: int, earlier: int, now': int
  )
    requires Compare(Load(file), instrument, field, e.value, on, true, now) == Some(Above)
    requires e.effectiveFrom == on && earlier < on
    ensures instrument in file && field in file[instrument]
    ensures var adopted := Load(Append(file, instrument, field, e));
            && Compare(adopted, instrument, field, e.value, on, true, now) == Some(AtOrBelow)
            && Resolve(adopted, instrument, field, earlier, false, now') ==
               Resolve(Load(file), instrument, field, earlier, false, now')
  {
    hide Sort, LastApplicable, Resolve, Load, Append;
    ResolveOfFile(file, instrument, field, on, true, now);
    ResolveOfFile(Append(file, instrument, field, e), instrument, field, on, true, now);
    AppendedSeries(file, instrument, field, e);
    AppendTakesOver(file[instrument][field], e, on);
    SortedAnswers(file[instrument][field], on);
    ResolveOfFile(file, instrument, field, earlier, false, now');
    AppendKeepsHistory(file, instrument, field, e, instrument, field, earlier, false, now');
  }
}
