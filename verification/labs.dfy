/** What the five lab rule sets share: the library calls they make, the
    result-and-direction parsing they all copy, the two ways a rule set can
    be wired wrongly into the converter, and the column check a correct
    rule set always passes. */
module Labs {
  import opened Outcomes
  import opened Strings
  import opened Dates
  import opened Settings
  import opened Records
  import opened Classifier
  import opened Converter

  /** The library calls a rule set makes: `float()`, `datetime.strptime`
      with a format, and today's date for `datetime.now()`. Each parser
      gives `None` where the library raises `ValueError`. */
  datatype Parsers = Parsers(float: FloatParser, strptime: (string, string) -> Option<Date>, today: Date)

  /** The step a value reported as "<x" or ">x" is moved past its bound. */
  const Nudge: real := 0.0000001

  /** The result block every numeric lab repeats: a leading "<" or ">" is
      the direction and the rest is parsed and moved one step past the
      bound; without a marker the whole text is parsed and the direction is
      `None`. A value that does not parse stays as its text, with the
      direction still set. */
  function ReadResult(s: string, float: FloatParser): (r: (Field, Field))
    ensures r.1 == Text("<") <==> StartsWith(s, "<")
    ensures r.1 == Text(">") <==> StartsWith(s, ">")
    ensures r.1 == Null <==> !StartsWith(s, "<") && !StartsWith(s, ">")
    ensures r.0 == Text(s) || r.0.Num?
    ensures var body := if r.1 == Null then s else s[1..];
      && (r.0.Num? <==> float(body).Some?)
      && (r.0.Num? && r.1 == Text("<") ==> r.0.r < float(body).value)
      && (r.0.Num? && r.1 == Text(">") ==> r.0.r > float(body).value)
      && (r.0.Num? && r.1 == Null ==> r.0.r == float(body).value)
  {
    if StartsWith(s, "<") then
      (match float(s[1..]) case Some(x) => Num(x - Nudge) case None => Text(s), Text("<"))
    else if StartsWith(s, ">") then
      (match float(s[1..]) case Some(x) => Num(x + Nudge) case None => Text(s), Text(">"))
    else
      (match float(s) case Some(x) => Num(x) case None => Text(s), Null)
  }

  /** `row[k]` used as a string: a missing column raises `KeyError`, a cell
      that is not a string raises `other` (what the string operation that
      follows raises on it). */
  function TextAt(row: Row, k: string, other: Failure): (r: Result<string>)
    ensures r.Ok? <==> k in row && row[k].Text?
    ensures r.Ok? ==> row[k] == Text(r.value)
    ensures k !in row ==> r == Err(KeyError)
  {
    if k !in row then Err(KeyError)
    else match row[k] case Text(s) => Ok(s) case _ => Err(other)
  }

  /** A step that either raises or goes on. */
  function Lift<T>(r: Result<T>): (st: Stage<T>)
    ensures st.Keep? <==> r.Ok?
    ensures r.Ok? ==> st.value == r.value
    ensures r.Err? ==> st == Raise(r.error)
  {
    match r case Ok(v) => Keep(v) case Err(e) => Raise(e)
  }

  /** The columns every normaliser must produce for the column check,
      besides `result_category`. */
  predicate HasCore(row: Row) {
    "month" in row && "test_code" in row && "practice_id" in row
  }

  /** A classifier's output keeps what it was given and adds the category. */
  predicate Extends(out: Stage<Row>, row: Row) {
    out.Keep? ==> row.Keys <= out.value.Keys && "result_category" in out.value
  }

  /** A row that survives a rule set whose normaliser produces the core
      columns, and whose classifier (its own, or the standard one) keeps
      them and adds `result_category`, passes the column check. */
  lemma KeptRowsComplete(row: Row, s: Setup)
    requires Call(s.rules.normalise, row).Keep? ==> HasCore(Call(s.rules.normalise, row).value)
    requires Call(s.rules.normalise, row).Keep? && s.rules.convert.Some? ==>
      Extends(s.rules.convert.value(Call(s.rules.normalise, row).value, s.ranges), Call(s.rules.normalise, row).value)
    ensures Outcome(row, s).Keep? ==> Complete(Outcome(row, s).value)
  {
    if Outcome(row, s).Keep? {
      var n := Call(s.rules.normalise, row).value;
      if s.rules.convert.None? {
        var (out, _) := Convert(n, s.ranges, {}, s.float);
        assert out.Ok? && out == Ok(Outcome(row, s).value);
        match ReadQuery(n)
        case Ok(q) =>
          if q.testCode in {} {
          } else if |ForCode(s.ranges, q.testCode)| == 0 {
          } else {
            assert out == WithCategory(n, Classify(q, s.ranges, s.float));
          }
      }
    }
  }

  /** A row kept under a lab's own classifier is what that classifier made
      of the normalised record. */
  lemma OwnClassifierOutcome(row: Row, s: Setup)
    requires s.rules.convert.Some? && Outcome(row, s).Keep?
    ensures Call(s.rules.normalise, row).Keep?
    ensures Outcome(row, s) == s.rules.convert.value(Call(s.rules.normalise, row).value, s.ranges)
  {
  }

  /** A row that survives a rule set using the standard classifier is its
      normalised record with `result_category` added and nothing else
      changed. */
  lemma StandardKeepsColumns(row: Row, s: Setup)
    requires s.rules.convert.None? && Outcome(row, s).Keep?
    ensures Call(s.rules.normalise, row).Keep?
    ensures var n := Call(s.rules.normalise, row).value;
      && Outcome(row, s).value.Keys == n.Keys + {"result_category"}
      && forall k | k in n && k != "result_category" :: Outcome(row, s).value[k] == n[k]
  {
    var n := Call(s.rules.normalise, row).value;
    var (out, _) := Convert(n, s.ranges, {}, s.float);
    assert out == Ok(Outcome(row, s).value);
    match ReadQuery(n)
    case Ok(q) =>
      if q.testCode in {} {
      } else if |ForCode(s.ranges, q.testCode)| == 0 {
      } else {
        assert out == WithCategory(n, Classify(q, s.ranges, s.float));
      }
  }

  /** `(later - earlier).days / 365`: the age in years of 365 days the
      labs compute from two days. */
  function AgeYears(earlier: Date, later: Date): real {
    (DayNumber(later) - DayNumber(earlier)) as real / 365.0
  }

  /** An age of at least eighteen years means the earlier day really is
      earlier, by more than eighteen times 365 days. */
  lemma AdultBornBefore(earlier: Date, later: Date)
    requires Valid(earlier) && Valid(later) && AgeYears(earlier, later) >= 18.0
    ensures Before(earlier, later)
    ensures DayNumber(later) - DayNumber(earlier) >= 18 * 365
  {
    DayNumberOrder(earlier, later);
  }

  // ---------------------------------------------------------------------------
  // Rule sets wired wrongly

  /** What a rule set written for the older interface, which is handed an
      object and reads and writes its `.row`, does when the converter hands
      it a dict instead: the first `row_anonymiser.row` raises
      `AttributeError`, whatever the row holds. */
  function ObjectStyle(): Rules {
    Rules(
      Some((_: Row) => Raise(AttributeError)),
      Some((_: Row) => Raise(AttributeError)),
      Some((_: Row, _: seq<RefRange>) => Raise(AttributeError)))
  }

  /** Such a rule set aborts every non-empty file on its first row. */
  lemma ObjectStyleAborts(rows: seq<Row>, ranges: seq<RefRange>, floor: string, float: FloatParser)
    requires |rows| > 0
    ensures Feed(rows, Setup(ObjectStyle(), ranges, floor, float)) == Err(AttributeError)
  {
    var s := Setup(ObjectStyle(), ranges, floor, float);
    assert Outcome(rows[0], s) == Raise(AttributeError);
    assert FirstFailure(rows, s, 0) == None;
    FailureFound(rows, s, 0);
  }

  /** A lab callback's drop when its `StopProcessing` is another module's
      class than the one the converter catches: it escapes as an error. */
  function Escapes<T>(st: Stage<T>): (r: Stage<T>)
    ensures r.Skip? == false
    ensures st.Skip? ==> r == Raise(ForeignStopProcessing)
    ensures !st.Skip? ==> r == st
  {
    if st.Skip? then Raise(ForeignStopProcessing) else st
  }

  /** A rule set whose callbacks raise a `StopProcessing` the converter
      does not catch. The converter's own date floor still drops rows. */
  function Foreign(rules: Rules): Rules {
    Rules(
      match rules.drop case None => None case Some(f) => Some((row: Row) => Escapes(f(row))),
      match rules.normalise case None => None case Some(f) => Some((row: Row) => Escapes(f(row))),
      match rules.convert case None => None case Some(f) => Some((row: Row, rs: seq<RefRange>) => Escapes(f(row, rs))))
  }

  /** Under such wiring, a file whose first row the lab's filter drops is
      aborted by that row. */
  lemma ForeignDropAborts(rows: seq<Row>, s: Setup)
    requires |rows| > 0 && Call(s.rules.drop, rows[0]) == Skip
    ensures Feed(rows, Setup(Foreign(s.rules), s.ranges, s.floor, s.float)) == Err(ForeignStopProcessing)
  {
    var s' := Setup(Foreign(s.rules), s.ranges, s.floor, s.float);
    assert Call(s'.rules.drop, rows[0]) == Raise(ForeignStopProcessing);
    assert Outcome(rows[0], s') == Raise(ForeignStopProcessing);
    assert FirstFailure(rows, s', 0) == None;
    FailureFound(rows, s', 0);
  }

  /** A row none of the lab's callbacks drops is treated the same under
      either wiring. */
  lemma ForeignChangesOnlyDrops(row: Row, s: Setup)
    requires Call(s.rules.drop, row) != Skip
    requires Call(s.rules.drop, row).Keep? ==> Call(s.rules.normalise, row) != Skip
    requires Call(s.rules.drop, row).Keep? && Call(s.rules.normalise, row).Keep? && s.rules.convert.Some? ==>
      s.rules.convert.value(Call(s.rules.normalise, row).value, s.ranges) != Skip
    ensures Outcome(row, Setup(Foreign(s.rules), s.ranges, s.floor, s.float)) == Outcome(row, s)
  {
    var s' := Setup(Foreign(s.rules), s.ranges, s.floor, s.float);
    assert Call(s'.rules.drop, row) == Call(s.rules.drop, row);
    if Call(s.rules.drop, row).Keep? {
      assert Call(s'.rules.normalise, row) == Call(s.rules.normalise, row);
    }
  }
}
