/** Aggregation and suppression (`normalise_and_suppress` and the helpers
    it calls): the normalised dataset is counted per month, test code,
    practice and result category; counts under six are replaced by a
    midpoint with an error bar; the sparse lead-in months are trimmed; and
    the result is joined with the practice table. Both library trees
    share this code and differ only in how they normalise test codes. */
module Aggregate {
  import opened Outcomes
  import opened Dates
  import opened Settings
  import opened Merge
  import opened Counting
  import opened TestCodes

  /** The four grouping columns. */
  datatype Key = Key(month: string, testCode: string, practiceId: string, category: ResultCode)

  /** The group a record falls in; grouping drops a record whose month or
      result category is missing. */
  function KeyOf(r: Record): Option<Key> {
    if r.month.Some? && r.category.Some? then Some(Key(r.month.value, r.testCode, r.practiceId, r.category.value))
    else None
  }

  /** The groups of a dataset's records, in record order. */
  function KeysOf(f: Frame): (r: seq<Key>)
    ensures |r| <= |f|
    ensures forall k :: k in r <==> exists i | 0 <= i < |f| :: KeyOf(f[i]) == Some(k)
  {
    if |f| == 0 then []
    else
      var init := f[..|f| - 1];
      var rest := KeysOf(init);
      assert forall i | 0 <= i < |init| :: init[i] == f[i];
      rest + (match KeyOf(f[|f| - 1]) case Some(k) => [k] case None => [])
  }

  /** A group's count after suppression. */
  datatype Count = Exact(n: nat) | Suppressed

  /** Lines 266-268: counts under SUPPRESS_UNDER become the suppression string. */
  function Suppress(n: nat): (c: Count)
    ensures c.Suppressed? <==> n < SuppressUnder
    ensures c.Exact? ==> c.n == n
  {
    if n < SuppressUnder then Suppressed else Exact(n)
  }

  /** An output line: a group, its lab, and its count with an error bar. */
  datatype Line = Line(key: Key, lab: string, count: nat, error: nat)

  /** `estimate_errors` for one line: the suppression string reads as 3,
      and every count of 3 gets an error of 2 (0 otherwise). */
  function EstimateErrors(key: Key, lab: string, c: Count): Line {
    var count := if c.Suppressed? then 3 else c.n;
    Line(key, lab, count, if count == 3 then 2 else 0)
  }

  /** Lines 256-273: the groups with their counts, suppressed and with
      error bars, for one lab. */
  function Aggregated(lab: string, f: Frame): (r: seq<Line>)
    ensures |r| == |TallyOf(KeysOf(f))|
    ensures forall i | 0 <= i < |r| :: r[i].key == TallyOf(KeysOf(f))[i].0
  {
    var t := TallyOf(KeysOf(f));
    seq(|t|, i requires 0 <= i < |t| => EstimateErrors(t[i].0, lab, Suppress(t[i].1)))
  }

  /** Each group of the dataset appears exactly once, with its lab; the
      true number of records in it lies within the line's error bar; the
      error bar is non-zero exactly when the group was suppressed; and an
      unsuppressed count is exact. */
  lemma AggregatedCounts(lab: string, f: Frame)
    ensures var r := Aggregated(lab, f);
      && (forall k :: k in KeysOf(f) <==> exists i | 0 <= i < |r| :: r[i].key == k)
      && (forall i, j | 0 <= i < j < |r| :: r[i].key != r[j].key)
      && (forall i | 0 <= i < |r| ::
            var n := Occurrences(KeysOf(f), r[i].key);
            && r[i].lab == lab
            && 1 <= n
            && r[i].count - r[i].error <= n <= r[i].count + r[i].error
            && (r[i].error > 0 <==> n < SuppressUnder)
            && (n >= SuppressUnder ==> r[i].count == n))
  {
    var ks := KeysOf(f);
    var t := TallyOf(ks);
    var r := Aggregated(lab, f);
    TallyOfKeys(ks);
    TallyOfCounts(ks);
    forall i | 0 <= i < |r|
      ensures 1 <= Occurrences(ks, r[i].key)
    {
      assert r[i].key == t[i].0;
      OccurrencesPresent(ks, r[i].key);
    }
  }

  /** No record with a month and a category is lost: the true group sizes
      add up to the number of such records. */
  lemma AggregatedTotal(f: Frame)
    ensures Total(TallyOf(KeysOf(f))) == |KeysOf(f)|
  {
    TallyOfTotal(KeysOf(f));
  }

  // ---------------------------------------------------------------------------
  // trim_trailing_months

  /** The summed count of one month. */
  function MonthTotal(lines: seq<Line>, m: string): nat {
    if |lines| == 0 then 0
    else MonthTotal(lines[..|lines| - 1], m) + (if lines[|lines| - 1].key.month == m then lines[|lines| - 1].count else 0)
  }

  /** The largest month total among the months of `lines[..n]`. */
  function MaxTotalUpTo(lines: seq<Line>, n: nat): (r: nat)
    requires n <= |lines|
    ensures forall i | 0 <= i < n :: MonthTotal(lines, lines[i].key.month) <= r
    ensures n > 0 ==> exists i | 0 <= i < n :: MonthTotal(lines, lines[i].key.month) == r
    ensures n == 0 ==> r == 0
  {
    if n == 0 then 0
    else
      var rest := MaxTotalUpTo(lines, n - 1);
      var here := MonthTotal(lines, lines[n - 1].key.month);
      if here > rest then here else rest
  }

  /** The busiest month's total. */
  function MaxTotal(lines: seq<Line>): nat {
    MaxTotalUpTo(lines, |lines|)
  }

  /** Line 196: a month is kept when its total exceeds 5% of the busiest
      month's, compared exactly. */
  predicate KeepMonth(lines: seq<Line>, m: string) {
    20 * MonthTotal(lines, m) > MaxTotal(lines)
  }

  /** The months a trim keeps. */
  function KeptMonths(lines: seq<Line>): set<string> {
    set i | 0 <= i < |lines| && KeepMonth(lines, lines[i].key.month) :: lines[i].key.month
  }

  /** The lines whose month is in `ms`, in order. */
  function OnlyMonths(lines: seq<Line>, ms: set<string>): (r: seq<Line>)
    ensures |r| <= |lines|
  {
    if |lines| == 0 then []
    else OnlyMonths(lines[..|lines| - 1], ms) + (if lines[|lines| - 1].key.month in ms then [lines[|lines| - 1]] else [])
  }

  /** The join keeps exactly the lines with a month in `ms`. */
  lemma {:induction false} OnlyMonthsMembers(lines: seq<Line>, ms: set<string>)
    ensures forall x :: x in OnlyMonths(lines, ms) <==> x in lines && x.key.month in ms
  {
    if |lines| > 0 {
      var init := lines[..|lines| - 1];
      OnlyMonthsMembers(init, ms);
      assert lines == init + [lines[|lines| - 1]];
    }
  }

  /** `trim_trailing_months`: the inner join on the kept months. */
  function TrimTrailingMonths(lines: seq<Line>): (r: seq<Line>)
    ensures forall x :: x in r <==> x in lines && KeepMonth(lines, x.key.month)
  {
    OnlyMonthsMembers(lines, KeptMonths(lines));
    OnlyMonths(lines, KeptMonths(lines))
  }

  lemma {:induction false} MonthTotalAtLeast(lines: seq<Line>, i: nat)
    requires i < |lines|
    ensures MonthTotal(lines, lines[i].key.month) >= lines[i].count
  {
    var init := lines[..|lines| - 1];
    if i < |lines| - 1 {
      assert init[i] == lines[i];
      MonthTotalAtLeast(init, i);
    }
  }

  lemma {:induction false} MonthTotalOnly(lines: seq<Line>, ms: set<string>, m: string)
    ensures MonthTotal(OnlyMonths(lines, ms), m) == if m in ms then MonthTotal(lines, m) else 0
  {
    if |lines| > 0 {
      var init := lines[..|lines| - 1];
      var last := lines[|lines| - 1];
      MonthTotalOnly(init, ms, m);
      var r := OnlyMonths(lines, ms);
      assert MonthTotal(lines, m) == MonthTotal(init, m) + (if last.key.month == m then last.count else 0);
      if last.key.month in ms {
        assert r == OnlyMonths(init, ms) + [last];
        assert r[..|r| - 1] == OnlyMonths(init, ms);
        assert r[|r| - 1] == last;
      } else {
        assert r == OnlyMonths(init, ms);
      }
    }
  }

  lemma {:induction false} OnlyMonthsAll(lines: seq<Line>, ms: set<string>)
    requires forall i | 0 <= i < |lines| :: lines[i].key.month in ms
    ensures OnlyMonths(lines, ms) == lines
  {
    if |lines| > 0 {
      var init := lines[..|lines| - 1];
      forall i | 0 <= i < |init| ensures init[i].key.month in ms {
        assert init[i] == lines[i];
      }
      OnlyMonthsAll(init, ms);
      assert lines == init + [lines[|lines| - 1]];
    }
  }

  /** With positive counts, the busiest month survives the trim, so a
      non-empty aggregate never trims to nothing. */
  lemma TrimKeepsBusiestMonth(lines: seq<Line>)
    requires forall i | 0 <= i < |lines| :: lines[i].count > 0
    requires |lines| > 0
    ensures exists i | 0 <= i < |lines| :: MonthTotal(lines, lines[i].key.month) == MaxTotal(lines) && lines[i] in TrimTrailingMonths(lines)
  {
    var i :| 0 <= i < |lines| && MonthTotal(lines, lines[i].key.month) == MaxTotal(lines);
    MonthTotalAtLeast(lines, i);
    assert lines[i] in lines;
  }

  /** The trim keeps the busiest month's total, and with it the maximum. */
  lemma TrimKeepsMax(lines: seq<Line>)
    requires forall i | 0 <= i < |lines| :: lines[i].count > 0
    requires |lines| > 0
    ensures MaxTotal(TrimTrailingMonths(lines)) == MaxTotal(lines)
  {
    var r := TrimTrailingMonths(lines);
    TrimmedTotalsBounded(lines);
    TrimmedBusiestTotal(lines);
    var jb :| 0 <= jb < |r| && MonthTotal(r, r[jb].key.month) == MaxTotal(lines);
    MaxTotalIs(r, MaxTotal(lines), jb);
  }

  /** No month of the trimmed lines totals more than the busiest month did. */
  lemma TrimmedTotalsBounded(lines: seq<Line>)
    ensures var r := TrimTrailingMonths(lines);
      forall j | 0 <= j < |r| :: MonthTotal(r, r[j].key.month) <= MaxTotal(lines)
  {
    TrimIsJoin(lines);
    MaxTotalBounds(lines);
    var ms := KeptMonths(lines);
    var r := TrimTrailingMonths(lines);
    forall j | 0 <= j < |r| ensures MonthTotal(r, r[j].key.month) <= MaxTotal(lines) {
      var i :| 0 <= i < |lines| && lines[i] == r[j];
      MonthTotalOnly(lines, ms, r[j].key.month);
    }
  }

  /** The busiest month survives the trim with its total. */
  lemma TrimmedBusiestTotal(lines: seq<Line>)
    requires forall i | 0 <= i < |lines| :: lines[i].count > 0
    requires |lines| > 0
    ensures var r := TrimTrailingMonths(lines);
      exists jb | 0 <= jb < |r| :: MonthTotal(r, r[jb].key.month) == MaxTotal(lines)
  {
    TrimKeepsBusiestMonth(lines);
    TrimIsJoin(lines);
    var ms := KeptMonths(lines);
    var r := TrimTrailingMonths(lines);
    var b :| 0 <= b < |lines| && MonthTotal(lines, lines[b].key.month) == MaxTotal(lines) && lines[b] in r;
    var jb :| 0 <= jb < |r| && r[jb] == lines[b];
    MonthTotalOnly(lines, ms, lines[b].key.month);
    assert MonthTotal(r, r[jb].key.month) == MaxTotal(lines);
  }

  /** The trim is the join on the kept months, and a line it keeps has a
      kept month. */
  lemma TrimIsJoin(lines: seq<Line>)
    ensures TrimTrailingMonths(lines) == OnlyMonths(lines, KeptMonths(lines))
    ensures forall i | 0 <= i < |lines| && lines[i] in TrimTrailingMonths(lines) :: lines[i].key.month in KeptMonths(lines)
  {
  }

  /** No month's total exceeds the maximum. */
  lemma MaxTotalBounds(lines: seq<Line>)
    ensures forall i | 0 <= i < |lines| :: MonthTotal(lines, lines[i].key.month) <= MaxTotal(lines)
  {
  }

  /** A total that one month reaches and no month exceeds is the maximum. */
  lemma MaxTotalIs(lines: seq<Line>, v: nat, b: nat)
    requires b < |lines| && MonthTotal(lines, lines[b].key.month) == v
    requires forall j | 0 <= j < |lines| :: MonthTotal(lines, lines[j].key.month) <= v
    ensures MaxTotal(lines) == v
  {
  }

  /** Trimming twice trims nothing more: the busiest month and every kept
      month keep their totals, so the same months pass again. */
  lemma TrimIdempotent(lines: seq<Line>)
    requires forall i | 0 <= i < |lines| :: lines[i].count > 0
    ensures TrimTrailingMonths(TrimTrailingMonths(lines)) == TrimTrailingMonths(lines)
  {
    var ms := KeptMonths(lines);
    var r := TrimTrailingMonths(lines);
    if |lines| > 0 {
      TrimKeepsMax(lines);
      forall j | 0 <= j < |r| ensures r[j].key.month in KeptMonths(r) {
        assert r[j] in r;
        assert KeepMonth(lines, r[j].key.month);
        MonthTotalOnly(lines, ms, r[j].key.month);
        assert KeepMonth(r, r[j].key.month);
      }
      OnlyMonthsAll(r, KeptMonths(r));
    } else {
      assert r == [];
    }
  }

  // ---------------------------------------------------------------------------
  // The practice join

  /** A line of the practice table. */
  datatype Practice = Practice(month: string, practiceId: string, ccg: string, name: string, listSize: string)

  /** A line of the lab's processed file; its date is `NaT` when it was
      joined on a missing month. */
  datatype Final = Final(line: Line, date: Parsed, ccg: string, name: string, listSize: string)

  /** `pd.to_datetime` on one cell: a date, `NaT` for a missing (empty)
      cell, or a cell pandas cannot read, for which it raises `ValueError`. */
  datatype Parsed = Dated(date: Date) | NaT | Unparseable

  type DateParser = string -> Parsed

  /** The inner merge on month and practice. pandas matches a missing key
      with a missing key, so `NaT` joins `NaT` but never a date. */
  predicate Joins(line: Line, p: Practice, toDate: DateParser) {
    !toDate(line.key.month).Unparseable? && toDate(line.key.month) == toDate(p.month) && line.key.practiceId == p.practiceId
  }

  function Joined(line: Line, p: Practice, toDate: DateParser): Final {
    Final(line, toDate(line.key.month), p.ccg, p.name, p.listSize)
  }

  /** One line joined with every matching practice line, in table order. */
  function JoinLine(line: Line, practices: seq<Practice>, toDate: DateParser): (r: seq<Final>)
    ensures forall x :: x in r <==> exists j | 0 <= j < |practices| :: Joins(line, practices[j], toDate) && x == Joined(line, practices[j], toDate)
  {
    if |practices| == 0 then []
    else
      var init := practices[..|practices| - 1];
      var p := practices[|practices| - 1];
      assert forall j | 0 <= j < |init| :: init[j] == practices[j];
      JoinLine(line, init, toDate) + (if Joins(line, p, toDate) then [Joined(line, p, toDate)] else [])
  }

  function JoinAllLines(lines: seq<Line>, practices: seq<Practice>, toDate: DateParser): (r: seq<Final>)
    ensures forall x :: x in r <==> exists i, j | 0 <= i < |lines| && 0 <= j < |practices| ::
      Joins(lines[i], practices[j], toDate) && x == Joined(lines[i], practices[j], toDate)
  {
    if |lines| == 0 then []
    else
      var init := lines[..|lines| - 1];
      assert forall i | 0 <= i < |init| :: init[i] == lines[i];
      JoinAllLines(init, practices, toDate) + JoinLine(lines[|lines| - 1], practices, toDate)
  }

  /** `add_practice_metadata` (and its copy `trim_practices_and_add_population`):
      both month columns parsed as dates, where an unreadable cell
      raises `ValueError` and a missing one becomes `NaT`, then the inner
      join on month and practice. */
  function AddPracticeMetadata(lines: seq<Line>, practices: seq<Practice>, toDate: DateParser): (r: Result<seq<Final>>)
    ensures r.Err? <==>
      (exists j | 0 <= j < |practices| :: toDate(practices[j].month).Unparseable?)
      || (exists i | 0 <= i < |lines| :: toDate(lines[i].key.month).Unparseable?)
    ensures r.Err? ==> r.error == ValueError
    ensures r.Ok? ==> forall x :: x in r.value <==> exists i, j | 0 <= i < |lines| && 0 <= j < |practices| ::
      Joins(lines[i], practices[j], toDate) && x == Joined(lines[i], practices[j], toDate)
  {
    if exists j | 0 <= j < |practices| :: toDate(practices[j].month).Unparseable? then Err(ValueError)
    else if exists i | 0 <= i < |lines| :: toDate(lines[i].key.month).Unparseable? then Err(ValueError)
    else Ok(JoinAllLines(lines, practices, toDate))
  }

  // ---------------------------------------------------------------------------
  // normalise_and_suppress

  /** Lines 256-279 (and 291-313 of the older tree), given the normalised
      dataset: nothing is written for an empty one. */
  function Summarise(lab: string, normalised: Frame, practices: seq<Practice>, toDate: DateParser): (r: Result<Option<seq<Final>>>)
    ensures r == Ok(None) <==> |normalised| == 0
    ensures r.Err? ==> r.error == ValueError
    ensures r.Err? <==> (|normalised| > 0
      && ((exists j | 0 <= j < |practices| :: toDate(practices[j].month).Unparseable?)
          || (exists l | l in Aggregated(lab, normalised) && KeepMonth(Aggregated(lab, normalised), l.key.month) ::
                toDate(l.key.month).Unparseable?)))
    ensures r.Ok? && r.value.Some? ==> forall x | x in r.value.value ::
      var n := Occurrences(KeysOf(normalised), x.line.key);
      && x.line.lab == lab
      && x.line.key in KeysOf(normalised)
      && 1 <= n
      && x.line.count - x.line.error <= n <= x.line.count + x.line.error
      && (x.line.error > 0 <==> n < SuppressUnder)
      && KeepMonth(Aggregated(lab, normalised), x.line.key.month)
      && (exists j | 0 <= j < |practices| :: practices[j].practiceId == x.line.key.practiceId && toDate(practices[j].month) == x.date)
    ensures r.Ok? && r.value.Some? ==> forall l, j |
      && l in Aggregated(lab, normalised) && KeepMonth(Aggregated(lab, normalised), l.key.month)
      && 0 <= j < |practices| && Joins(l, practices[j], toDate) ::
      Joined(l, practices[j], toDate) in r.value.value
  {
    if |normalised| == 0 then Ok(None)
    else
      var lines := Aggregated(lab, normalised);
      var trimmed := TrimTrailingMonths(lines);
      TrimUnparseable(lines, toDate);
      match AddPracticeMetadata(trimmed, practices, toDate)
      case Err(e) => Err(e)
      case Ok(joined) =>
        AggregatedCounts(lab, normalised);
        TrimJoinSound(lines, practices, toDate, joined);
        TrimJoinComplete(lines, practices, toDate, joined);
        Ok(Some(joined))
  }

  /** A trimmed line's month fails to parse exactly when some line of a
      kept month fails to parse. */
  lemma TrimUnparseable(lines: seq<Line>, toDate: DateParser)
    ensures var trimmed := TrimTrailingMonths(lines);
      (exists i | 0 <= i < |trimmed| :: toDate(trimmed[i].key.month).Unparseable?)
      <==> (exists l | l in lines && KeepMonth(lines, l.key.month) :: toDate(l.key.month).Unparseable?)
  {
    var trimmed := TrimTrailingMonths(lines);
    if exists l | l in lines && KeepMonth(lines, l.key.month) :: toDate(l.key.month).Unparseable? {
      var l :| l in lines && KeepMonth(lines, l.key.month) && toDate(l.key.month).Unparseable?;
      assert l in trimmed;
      var i :| 0 <= i < |trimmed| && trimmed[i] == l;
    }
    if exists i | 0 <= i < |trimmed| :: toDate(trimmed[i].key.month).Unparseable? {
      var i :| 0 <= i < |trimmed| && toDate(trimmed[i].key.month).Unparseable?;
      assert trimmed[i] in trimmed;
    }
  }

  /** Every joined line of the trim is a line of a kept month, matched with
      a practice of its month. */
  lemma TrimJoinSound(lines: seq<Line>, practices: seq<Practice>, toDate: DateParser, joined: seq<Final>)
    requires AddPracticeMetadata(TrimTrailingMonths(lines), practices, toDate) == Ok(joined)
    ensures forall x | x in joined ::
      && x.line in lines
      && KeepMonth(lines, x.line.key.month)
      && exists j | 0 <= j < |practices| :: practices[j].practiceId == x.line.key.practiceId && toDate(practices[j].month) == x.date
  {
    var trimmed := TrimTrailingMonths(lines);
    forall x | x in joined
      ensures x.line in lines && KeepMonth(lines, x.line.key.month)
      ensures exists j | 0 <= j < |practices| :: practices[j].practiceId == x.line.key.practiceId && toDate(practices[j].month) == x.date
    {
      var i, j :| 0 <= i < |trimmed| && 0 <= j < |practices| && Joins(trimmed[i], practices[j], toDate) && x == Joined(trimmed[i], practices[j], toDate);
      assert trimmed[i] in trimmed;
    }
  }

  /** Every line of a kept month appears joined with each practice it
      matches. */
  lemma TrimJoinComplete(lines: seq<Line>, practices: seq<Practice>, toDate: DateParser, joined: seq<Final>)
    requires AddPracticeMetadata(TrimTrailingMonths(lines), practices, toDate) == Ok(joined)
    ensures forall l, j | l in lines && KeepMonth(lines, l.key.month) && 0 <= j < |practices| && Joins(l, practices[j], toDate) ::
      Joined(l, practices[j], toDate) in joined
  {
    var trimmed := TrimTrailingMonths(lines);
    forall l, j | l in lines && KeepMonth(lines, l.key.month) && 0 <= j < |practices| && Joins(l, practices[j], toDate)
      ensures Joined(l, practices[j], toDate) in joined
    {
      assert l in trimmed;
      var i :| 0 <= i < |trimmed| && trimmed[i] == l;
    }
  }

  /** `normalise_and_suppress` in the newer tree. */
  function NormaliseAndSuppress(lab: string, sheet: Sheet, merged: Frame, practices: seq<Practice>, toDate: DateParser): (r: Result<Option<seq<Final>>>)
    ensures NormaliseTestCodes(lab, sheet, merged).Err? ==> r == Err(NormaliseTestCodes(lab, sheet, merged).error)
    ensures NormaliseTestCodes(lab, sheet, merged).Ok? ==> r == Summarise(lab, NormaliseTestCodes(lab, sheet, merged).value, practices, toDate)
    ensures r == Ok(None) <==> NormaliseTestCodes(lab, sheet, merged).Ok? && |NormaliseTestCodes(lab, sheet, merged).value| == 0
  {
    var normalised :- NormaliseTestCodes(lab, sheet, merged);
    Summarise(lab, normalised, practices, toDate)
  }

  /** `normalise_and_suppress` in the older tree. */
  function NormaliseAndSuppressLegacy(lab: string, sheet: Sheet, merged: Frame, practices: seq<Practice>, toDate: DateParser): (r: Result<Option<seq<Final>>>)
    ensures NormaliseTestCodesLegacy(lab, sheet, merged).Err? ==> r == Err(NormaliseTestCodesLegacy(lab, sheet, merged).error)
    ensures NormaliseTestCodesLegacy(lab, sheet, merged).Ok? ==> r == Summarise(lab, NormaliseTestCodesLegacy(lab, sheet, merged).value, practices, toDate)
    ensures r == Ok(None) <==> NormaliseTestCodesLegacy(lab, sheet, merged).Ok? && |NormaliseTestCodesLegacy(lab, sheet, merged).value| == 0
  {
    var normalised :- NormaliseTestCodesLegacy(lab, sheet, merged);
    Summarise(lab, normalised, practices, toDate)
  }

  /** A lab without alias columns in the newer tree aggregates its merged
      dataset as it is. */
  lemma CambridgeUnnormalised(sheet: Sheet, merged: Frame, practices: seq<Practice>, toDate: DateParser)
    ensures NormaliseAndSuppress("cambridge", sheet, merged, practices, toDate) == Summarise("cambridge", merged, practices, toDate)
  {
    GetTestCodesVariants(sheet);
  }
}
