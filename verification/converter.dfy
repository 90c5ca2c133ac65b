/** The per-file converter (`make_intermediate_file`, and the `Anonymiser`
    class that does the same work in two calls): every row of a source file
    goes through the lab's filter, the lab's normaliser, the date floor and
    a classifier; the first surviving row is checked for the required
    columns; every surviving row is written projected onto those columns;
    the output file is named after the most common month among the first
    thousand rows, with the least free numeric suffix when the plain name
    is taken; the source file is then recorded in the ledger. */
module Converter {
  import opened Outcomes
  import opened Strings
  import opened Dates
  import opened Settings
  import opened Records
  import opened Classifier
  import opened RangeTables
  import opened Ledger
  import opened Counting

  /** A lab's callbacks over plain records. A callback that was not given
      is `None`, and calling it raises `TypeError`; a classifier that was
      not given means the standard one. */
  datatype Rules = Rules(
    drop: Option<Row -> Stage<()>>,
    normalise: Option<Row -> Stage<Row>>,
    convert: Option<(Row, seq<RefRange>) -> Stage<Row>>)

  /** What a row's treatment depends on besides the row: the callbacks,
      the loaded ranges, DATE_FLOOR as "YYYY/MM/DD", and `float()`. */
  datatype Setup = Setup(rules: Rules, ranges: seq<RefRange>, floor: string, float: FloatParser)

  /** `skip_old_data`: a month string before the floor drops the row. */
  function SkipOldData(row: Row, floor: string): Stage<Row> {
    if "month" !in row then Raise(KeyError)
    else
      match row["month"]
      case Text(m) => if Less(m, floor) then Skip else Keep(row)
      case _ => Raise(TypeError)
  }

  /** For a month written "YYYY/MM/01", the string comparison with the
      floor "YYYY/MM/DD" drops the row exactly when the first of that month
      lies before the day five years ago. */
  lemma OldMonthsSkipped(row: Row, d: Date, today: Date)
    requires Valid(d) && Valid(today) && today.year >= 5
    requires "month" in row && row["month"] == Text(MonthLabel(d))
    ensures SkipOldData(row, DateFloorText(today)) == Skip <==> Before(Date(d.year, d.month, 1), DateFloor(today))
    ensures SkipOldData(row, DateFloorText(today)) != Skip ==> SkipOldData(row, DateFloorText(today)) == Keep(row)
  {
    TextOrder(Date(d.year, d.month, 1), DateFloor(today));
  }

  /** `skip_old_data` as written: DATE_FLOOR is already the "YYYY/MM/DD"
      text, and a string has no `strftime`, so once the month has been read
      the check raises `AttributeError` whatever the month. */
  function SkipOldDataAsWritten(row: Row): (r: Stage<Row>)
    ensures !r.Keep? && r != Skip
    ensures "month" in row ==> r == Raise(AttributeError)
  {
    if "month" !in row then Raise(KeyError) else Raise(AttributeError)
  }

  function Call<T>(f: Option<Row -> Stage<T>>, row: Row): Stage<T> {
    match f
    case None => Raise(TypeError)
    case Some(g) => g(row)
  }

  /** Lines 205-208 on one row: filter, normalise, date floor, classify,
      any `StopProcessing` dropping the row; the standard classifier's
      cache is threaded through. */
  function ProcessRow(row: Row, s: Setup, cache: set<Field>): (Stage<Row>, set<Field>) {
    match Call(s.rules.drop, row)
    case Raise(e) => (Raise(e), cache)
    case Skip => (Skip, cache)
    case Keep(_) =>
      match Call(s.rules.normalise, row)
      case Raise(e) => (Raise(e), cache)
      case Skip => (Skip, cache)
      case Keep(normalised) =>
        match SkipOldData(normalised, s.floor)
        case Raise(e) => (Raise(e), cache)
        case Skip => (Skip, cache)
        case Keep(_) =>
          match s.rules.convert
          case Some(f) => (f(normalised, s.ranges), cache)
          case None =>
            var (out, cache') := Convert(normalised, s.ranges, cache, s.float);
            (match out case Ok(r) => Keep(r) case Err(e) => Raise(e), cache')
  }

  /** The fate of a row on its own: with a cache built from the same
      ranges, the threaded cache changes nothing. */
  function Outcome(row: Row, s: Setup): Stage<Row> {
    ProcessRow(row, s, {}).0
  }

  /** The row gets past the filter and the normaliser to the floor check. */
  predicate ReachesFloor(row: Row, s: Setup) {
    Call(s.rules.drop, row).Keep? && Call(s.rules.normalise, row).Keep?
  }

  /** A row's fate with the floor check as written: a row that reaches the
      check raises, and every other row fares as with the intended check. */
  function OutcomeAsWritten(row: Row, s: Setup): (r: Stage<Row>)
    ensures !r.Keep?
    ensures !ReachesFloor(row, s) ==> r == Outcome(row, s)
    ensures ReachesFloor(row, s) ==> r == SkipOldDataAsWritten(Call(s.rules.normalise, row).value)
  {
    match Call(s.rules.drop, row)
    case Raise(e) => Raise(e)
    case Skip => Skip
    case Keep(_) =>
      match Call(s.rules.normalise, row)
      case Raise(e) => Raise(e)
      case Skip => Skip
      case Keep(normalised) => SkipOldDataAsWritten(normalised)
  }

  /** Lines 203-229 with the floor check as written: the file aborts at the
      first row that raises; no row is ever kept, so a file that does not
      abort leaves no header, no lines and an empty month tally, which the
      naming step then fails on with `IndexError`. */
  function FeedAsWritten(rows: seq<Row>, s: Setup): (r: Result<Fed>)
    ensures r.Ok? <==> forall i | 0 <= i < |rows| :: OutcomeAsWritten(rows[i], s) == Skip
    ensures r.Ok? ==> r.value == Fed(false, [], [])
  {
    if |rows| == 0 then Ok(Fed(false, [], []))
    else if OutcomeAsWritten(rows[0], s).Raise? then Err(OutcomeAsWritten(rows[0], s).error)
    else
      var rest := FeedAsWritten(rows[1..], s);
      assert forall i | 1 <= i < |rows| :: rows[1..][i - 1] == rows[i];
      rest
  }

  /** As written, the first row that gets through the filter and the
      normaliser with a month aborts the file with `AttributeError`; the
      intended check passes such a row on when its month is not before the
      floor. */
  lemma {:induction false} FloorReachedAborts(rows: seq<Row>, s: Setup, i: nat)
    requires i < |rows|
    requires forall j | 0 <= j < i :: OutcomeAsWritten(rows[j], s) == Skip
    requires ReachesFloor(rows[i], s) && "month" in Call(s.rules.normalise, rows[i]).value
    ensures FeedAsWritten(rows, s) == Err(AttributeError)
    ensures var n := Call(s.rules.normalise, rows[i]).value;
      n["month"].Text? && !Less(n["month"].s, s.floor) ==> SkipOldData(n, s.floor) == Keep(n)
  {
    if i > 0 {
      assert OutcomeAsWritten(rows[0], s) == Skip;
      assert forall j | 0 <= j < i - 1 :: rows[1..][j] == rows[j + 1];
      FloorReachedAborts(rows[1..], s, i - 1);
    }
  }

  lemma ProcessRowCache(row: Row, s: Setup, cache: set<Field>)
    requires CacheSound(cache, s.ranges)
    ensures ProcessRow(row, s, cache).0 == Outcome(row, s)
    ensures CacheSound(ProcessRow(row, s, cache).1, s.ranges)
  {
    match Call(s.rules.normalise, row)
    case Keep(normalised) =>
      CacheNeverChangesOutcome(normalised, s.ranges, cache, s.float);
      CacheNeverChangesOutcome(normalised, s.ranges, {}, s.float);
    case _ =>
  }

  // ---------------------------------------------------------------------------
  // The row loop, declaratively

  /** Row `i` survives when it comes through as a non-empty record (an
      empty dict is false in `if row:`). */
  predicate Survives(rows: seq<Row>, s: Setup, i: nat)
    requires i < |rows|
  {
    Outcome(rows[i], s).Keep? && Outcome(rows[i], s).value != map[]
  }

  /** The record a surviving row comes through as. */
  function Kept(rows: seq<Row>, s: Setup, i: nat): Row
    requires i < |rows| && Survives(rows, s, i)
  {
    Outcome(rows[i], s).value
  }

  /** Indices of the surviving rows among the first `n`. */
  function Survivors(rows: seq<Row>, s: Setup, n: nat): (r: seq<nat>)
    requires n <= |rows|
    ensures forall k | 0 <= k < |r| :: r[k] < n && Survives(rows, s, r[k])
    ensures forall i | 0 <= i < n && Survives(rows, s, i) :: i in r
  {
    if n == 0 then []
    else Survivors(rows, s, n - 1) + (if Survives(rows, s, n - 1) then [n - 1] else [])
  }

  predicate Complete(r: Row) {
    forall k | k in RequiredNormalisedKeys :: k in r
  }

  /** Row `i` aborts the file when a stage raises, or when it survives
      without all the required columns: the first survivor fails the
      column check, a later one fails a lookup. */
  predicate Fails(rows: seq<Row>, s: Setup, i: nat)
    requires i < |rows|
  {
    Outcome(rows[i], s).Raise? || (Survives(rows, s, i) && !Complete(Outcome(rows[i], s).value))
  }

  function ErrorAt(rows: seq<Row>, s: Setup, i: nat): Failure
    requires i < |rows|
  {
    if Outcome(rows[i], s).Raise? then Outcome(rows[i], s).error
    else if |Survivors(rows, s, i)| == 0 then AssertionError
    else KeyError
  }

  /** The least index among the first `n` whose row aborts the file. */
  function FirstFailure(rows: seq<Row>, s: Setup, n: nat): (r: Option<nat>)
    requires n <= |rows|
    ensures r.None? <==> forall i | 0 <= i < n :: !Fails(rows, s, i)
    ensures r.Some? ==> r.value < n && Fails(rows, s, r.value) && forall i | 0 <= i < r.value :: !Fails(rows, s, i)
  {
    if n == 0 then None
    else
      match FirstFailure(rows, s, n - 1)
      case Some(i) => Some(i)
      case None => if Fails(rows, s, n - 1) then Some(n - 1) else None
  }

  /** A failure among the first `n` rows stays the first one among more. */
  lemma {:induction false} FirstFailureStable(rows: seq<Row>, s: Setup, n: nat, m: nat)
    requires n <= m <= |rows| && FirstFailure(rows, s, n).Some?
    ensures FirstFailure(rows, s, m) == FirstFailure(rows, s, n)
    decreases m - n
  {
    if n < m {
      FirstFailureStable(rows, s, n, m - 1);
    }
  }

  /** The line written for a complete record. */
  function Line(r: Row): seq<Field> {
    match Project(r, RequiredNormalisedKeys)
    case Ok(l) => l
    case Err(_) => []
  }

  function Lines(rows: seq<Row>, s: Setup, idx: seq<nat>): (r: seq<seq<Field>>)
    requires forall k | 0 <= k < |idx| :: idx[k] < |rows| && Survives(rows, s, idx[k])
    ensures |r| == |idx|
    ensures forall k | 0 <= k < |idx| :: r[k] == Line(Kept(rows, s, idx[k]))
  {
    if |idx| == 0 then []
    else Lines(rows, s, idx[..|idx| - 1]) + [Line(Kept(rows, s, idx[|idx| - 1]))]
  }

  /** The months tallied for naming: those of surviving rows whose index in
      the source is below 1000. */
  function Months(rows: seq<Row>, s: Setup, idx: seq<nat>): seq<Field>
    requires forall k | 0 <= k < |idx| :: idx[k] < |rows| && Survives(rows, s, idx[k])
  {
    if |idx| == 0 then []
    else
      var i := idx[|idx| - 1];
      var r := Kept(rows, s, i);
      Months(rows, s, idx[..|idx| - 1]) + (if i < 1000 && "month" in r then [r["month"]] else [])
  }

  // ---------------------------------------------------------------------------
  // The month tally (`collections.Counter`)

  /** `counter.most_common(1)[0][0]`: the first key, in insertion order,
      with the greatest count; `IndexError` when the tally is empty. */
  predicate FirstMax(t: Tally<Field>, k: Field) {
    exists i | 0 <= i < |t| ::
      t[i].0 == k
      && (forall j | 0 <= j < |t| :: t[j].1 <= t[i].1)
      && (forall j | 0 <= j < i :: t[j].1 < t[i].1)
  }

  method MostCommon(t: Tally<Field>) returns (r: Result<Field>)
    ensures r.Err? <==> |t| == 0
    ensures r.Err? ==> r.error == IndexError
    ensures r.Ok? ==> FirstMax(t, r.value)
  {
    if |t| == 0 {
      return Err(IndexError);
    }
    var best := 0;
    var i := 1;
    while i < |t|
      invariant 1 <= i <= |t| && 0 <= best < i
      invariant forall j | 0 <= j < i :: t[j].1 <= t[best].1
      invariant forall j | 0 <= j < best :: t[j].1 < t[best].1
    {
      if t[i].1 > t[best].1 {
        best := i;
      }
      i := i + 1;
    }
    r := Ok(t[best].0);
  }

  /** With distinct keys, at most one key is the first maximum. */
  lemma FirstMaxUnique(t: Tally<Field>, k: Field, k': Field)
    requires DistinctKeys(t) && FirstMax(t, k) && FirstMax(t, k')
    ensures k == k'
  {
    var i :| 0 <= i < |t| && t[i].0 == k && (forall j | 0 <= j < |t| :: t[j].1 <= t[i].1) && (forall j | 0 <= j < i :: t[j].1 < t[i].1);
    var i' :| 0 <= i' < |t| && t[i'].0 == k' && (forall j | 0 <= j < |t| :: t[j].1 <= t[i'].1) && (forall j | 0 <= j < i' :: t[j].1 < t[i'].1);
    assert !(i < i') && !(i' < i);
  }

  // ---------------------------------------------------------------------------
  // The declarative converter

  /** What the row loop leaves: whether the header was written, the lines
      written after it, and the month tally. */
  datatype Fed = Fed(header: bool, lines: seq<seq<Field>>, tally: Tally<Field>)

  /** Lines 203-229: the file aborts at the first failing row; otherwise the
      header is written iff some row survives, every survivor is written as
      its projection onto REQUIRED_NORMALISED_KEYS, in order, and the tally
      counts the months of the survivors among the first 1000 rows. */
  function Feed(rows: seq<Row>, s: Setup): Result<Fed> {
    match FirstFailure(rows, s, |rows|)
    case Some(i) => Err(ErrorAt(rows, s, i))
    case None => Ok(FedAfter(rows, s, |rows|))
  }

  /** The state the loop is in after the first `n` rows when none failed. */
  function FedAfter(rows: seq<Row>, s: Setup, n: nat): Fed
    requires n <= |rows|
  {
    var idx := Survivors(rows, s, n);
    Fed(|idx| > 0, Lines(rows, s, idx), TallyOf(Months(rows, s, idx)))
  }

  /** A required column missing from the first surviving row aborts the
      file with `AssertionError`, unless an earlier row raised. */
  lemma FirstSurvivorChecked(rows: seq<Row>, s: Setup, i: nat)
    requires i < |rows| && Survives(rows, s, i) && |Survivors(rows, s, i)| == 0
    requires !Complete(Outcome(rows[i], s).value)
    requires forall j | 0 <= j < i :: !Outcome(rows[j], s).Raise?
    ensures Feed(rows, s) == Err(AssertionError)
  {
    var f := FirstFailure(rows, s, |rows|);
    assert Fails(rows, s, i);
    assert f.Some? && f.value <= i;
  }

  /** Each line written is a complete projection: exactly the four output
      columns, in order. */
  lemma WrittenLinesAreProjections(rows: seq<Row>, s: Setup)
    requires Feed(rows, s).Ok?
    ensures var idx := Survivors(rows, s, |rows|);
      forall k | 0 <= k < |idx| ::
        Project(Outcome(rows[idx[k]], s).value, RequiredNormalisedKeys) == Ok(Feed(rows, s).value.lines[k])
  {
    var idx := Survivors(rows, s, |rows|);
    forall k | 0 <= k < |idx|
      ensures Project(Outcome(rows[idx[k]], s).value, RequiredNormalisedKeys) == Ok(Feed(rows, s).value.lines[k])
    {
      assert !Fails(rows, s, idx[k]);
    }
  }

  // ---------------------------------------------------------------------------
  // The row loop as written

  /** A row that does not survive leaves the loop's state alone. */
  lemma DropStep(rows: seq<Row>, s: Setup, i: nat)
    requires i < |rows| && !Survives(rows, s, i)
    ensures Survivors(rows, s, i + 1) == Survivors(rows, s, i)
  {
  }

  /** A surviving row with all the columns adds its line, and its month
      when it is among the first thousand. */
  lemma KeepStep(rows: seq<Row>, s: Setup, i: nat)
    requires i < |rows| && Survives(rows, s, i) && Complete(Kept(rows, s, i))
    ensures var idx := Survivors(rows, s, i);
      && Survivors(rows, s, i + 1) == idx + [i]
      && Lines(rows, s, idx + [i]) == Lines(rows, s, idx) + [Line(Kept(rows, s, i))]
      && Months(rows, s, idx + [i]) == Months(rows, s, idx) + (if i < 1000 then [Kept(rows, s, i)["month"]] else [])
  {
    var idx := Survivors(rows, s, i);
    assert (idx + [i])[..|idx|] == idx;
    assert "month" in RequiredNormalisedKeys;
  }

  /** The state after a surviving row with all the columns. */
  lemma KeepState(rows: seq<Row>, s: Setup, i: nat)
    requires i < |rows| && Survives(rows, s, i) && Complete(Kept(rows, s, i))
    ensures !Fails(rows, s, i)
    ensures var st := FedAfter(rows, s, i);
      FedAfter(rows, s, i + 1) == Fed(true, st.lines + [Line(Kept(rows, s, i))],
        if i < 1000 then Bump(st.tally, Kept(rows, s, i)["month"]) else st.tally)
  {
    KeepStep(rows, s, i);
    var idx := Survivors(rows, s, i);
    var row := Kept(rows, s, i);
    var ms := Months(rows, s, idx);
    var ms' := Months(rows, s, idx + [i]);
    if i < 1000 {
      assert ms' == ms + [row["month"]];
      TallyOfSnoc(ms, row["month"]);
      assert TallyOf(ms') == Bump(TallyOf(ms), row["month"]);
    } else {
      assert ms' == ms;
    }
  }

  /** When the rows before `i` are all fine and row `i` fails, the file's
      outcome is row `i`'s error (stated for a sound cache only, as the
      loop needs it). */
  lemma FailureFound(rows: seq<Row>, s: Setup, i: nat)
    requires i < |rows|
    ensures FirstFailure(rows, s, i).None? && Fails(rows, s, i) ==> Feed(rows, s) == Err(ErrorAt(rows, s, i))
  {
    if FirstFailure(rows, s, i).None? && Fails(rows, s, i) {
      FirstFailureStable(rows, s, i + 1, |rows|);
    }
  }

  /** With no failing row, the file's outcome is the state after all rows. */
  lemma FeedDone(rows: seq<Row>, s: Setup)
    ensures FirstFailure(rows, s, |rows|).None? ==> Feed(rows, s) == Ok(FedAfter(rows, s, |rows|))
  {
  }

  /** One pass of the loop body of lines 204-229 on row `i`. From the state
      after the failure-free rows before it, with a sound cache, it aborts
      with the file's outcome when the row fails, and otherwise reaches the
      state after it with still no failure. */
  method FeedRow(rows: seq<Row>, s: Setup, i: nat, st: Fed, cache: set<Field>) returns (out: Result<Fed>, cache': set<Field>)
    requires i < |rows| && DistinctKeys(st.tally)
    ensures out.Ok? ==> DistinctKeys(out.value.tally)
    ensures CacheSound(cache, s.ranges) && FirstFailure(rows, s, i).None? && st == FedAfter(rows, s, i) ==>
      && CacheSound(cache', s.ranges)
      && (out.Err? ==> out == Feed(rows, s))
      && (out.Ok? ==> FirstFailure(rows, s, i + 1).None? && out.value == FedAfter(rows, s, i + 1))
  {
    ghost var sound := CacheSound(cache, s.ranges) && FirstFailure(rows, s, i).None? && st == FedAfter(rows, s, i);
    if sound {
      ProcessRowCache(rows[i], s, cache);
      FailureFound(rows, s, i);
    }
    var step := ProcessRow(rows[i], s, cache);
    var stage := step.0;
    cache' := step.1;
    if stage.Raise? {
      return Err(stage.error), cache';
    }
    if !(stage.Keep? && stage.value != map[]) {
      if sound {
        DropStep(rows, s, i);
      }
      return Ok(st), cache';
    }
    var row := stage.value;
    if !st.header && !(forall k | k in RequiredNormalisedKeys :: k in row) {
      return Err(AssertionError), cache';
    }
    var tally := st.tally;
    if i < 1000 {
      if "month" !in row {
        return Err(KeyError), cache';
      }
      tally := Bump(tally, row["month"]);
    }
    var line := Project(row, RequiredNormalisedKeys);
    if line.Err? {
      return Err(KeyError), cache';
    }
    if sound {
      KeepState(rows, s, i);
    }
    out := Ok(Fed(true, st.lines + [line.value], tally));
  }

  /** The loop of lines 203-229, with the classifier's cache threaded
      through. Started from a cache built from the same ranges (such as the
      empty one), it computes `Feed`. */
  method FeedRows(rows: seq<Row>, s: Setup, cache: set<Field>) returns (r: Result<Fed>, cache': set<Field>)
    ensures CacheSound(cache, s.ranges) ==> r == Feed(rows, s) && CacheSound(cache', s.ranges)
  {
    r, cache' := FeedFrom(rows, s, 0, Fed(false, [], []), cache);
  }

  /** The loop from row `i` on, entered in the state it is in there. */
  method FeedFrom(rows: seq<Row>, s: Setup, i: nat, st: Fed, cache: set<Field>) returns (r: Result<Fed>, cache': set<Field>)
    requires i <= |rows| && DistinctKeys(st.tally)
    ensures CacheSound(cache, s.ranges) && FirstFailure(rows, s, i).None? && st == FedAfter(rows, s, i) ==>
      r == Feed(rows, s) && CacheSound(cache', s.ranges)
    decreases |rows| - i
  {
    // Only the contracts of one pass and of the end of the file are needed.
    hide *;
    if i == |rows| {
      FeedDone(rows, s);
      return Ok(st), cache;
    }
    var out, c := FeedRow(rows, s, i, st, cache);
    if out.Err? {
      return out, c;
    }
    r, cache' := FeedFrom(rows, s, i + 1, out.value, c);
  }
}
