/** The North Devon rule set: spreadsheet exports with dates of birth and
    collection written day first, classified by the standard classifier
    against the lab's range file. */
module NorthDevon {
  import opened Outcomes
  import opened Strings
  import opened Dates
  import opened Settings
  import opened Records
  import opened Classifier
  import opened Converter
  import opened Labs

  const LabCode: string := "nd"

  const ReferenceRanges: string := "north_devon_reference_ranges.csv"

  /** The lab's output columns and the input columns they are taken from. */
  const Mapping: seq<(string, string)> := [
    ("month", "month"),
    ("test_code", "test_code"),
    ("test_result", "test_result"),
    ("practice_id", "source"),
    ("age", "age"),
    ("sex", "sex"),
    ("direction", "direction")
  ]

  /** The filter: rows without a date of birth, and rows from patients who
      are neither GP ("GP") nor A&E ("ZE") patients, are dropped. */
  function Drop(row: Row): (r: Stage<()>)
    ensures r.Keep? <==> ("dob" in row && row["dob"] !in {Text("None"), Text("")}
      && "patient_category" in row && row["patient_category"] in {Text("GP"), Text("ZE")})
    ensures r.Raise? ==> r == Raise(KeyError)
  {
    if "dob" !in row then Raise(KeyError)
    else if row["dob"] == Text("None") || row["dob"] == Text("") then Skip
    else if "patient_category" !in row then Raise(KeyError)
    else if !(row["patient_category"] == Text("GP") || row["patient_category"] == Text("ZE")) then Skip
    else Keep(())
  }

  // ---------------------------------------------------------------------------
  // Test codes

  /** Codes that have changed over time, and their current form. */
  const CodeChanges: map<string, string> := map[
    "AFP3" := "AFP2",
    "ACE1" := "ACE",
    "AT3S" := "AT3",
    "FDP1" := "FDP",
    "FPSS" := "FPS",
    "INR1" := "INR",
    "PT1" := "PT"
  ]

  /** A test code in its current form: an old code is replaced, anything
      else kept. */
  function Current(code: Field): (r: Field)
    ensures code.Text? && code.s in CodeChanges ==> r == Text(CodeChanges[code.s])
    ensures !(code.Text? && code.s in CodeChanges) ==> r == code
  {
    match code
    case Text(c) => if c in CodeChanges then Text(CodeChanges[c]) else code
    case _ => code
  }

  /** No current form is itself an old code, so renaming twice is
      renaming once. */
  lemma CurrentIdempotent(code: Field)
    ensures forall c | c in CodeChanges :: CodeChanges[c] !in CodeChanges
    ensures Current(Current(code)) == Current(code)
  {
  }

  // ---------------------------------------------------------------------------
  // Dates

  /** The formats the date helper tries in turn: the two numeric ones it
      reaches, and the two with a month name after them. */
  const NumericFormats: seq<string> := ["%d/%m/%y", "%d/%m/%Y"]
  const AllFormats: seq<string> := NumericFormats + ["%d %b %Y", "%d %b %y"]

  /** The first of `formats` that parses `s`. */
  function ParseFirst(s: string, formats: seq<string>, strptime: (string, string) -> Option<Date>): (r: Option<Date>)
    ensures r.Some? <==> exists i | 0 <= i < |formats| :: strptime(s, formats[i]).Some?
  {
    if |formats| == 0 then None
    else
      match strptime(s, formats[0])
      case Some(d) => Some(d)
      case None =>
        assert forall i | 1 <= i < |formats| :: formats[i] == formats[1..][i - 1];
        ParseFirst(s, formats[1..], strptime)
  }

  /** The format that wins is the earliest one that parses. */
  lemma {:induction false} ParseFirstEarliest(s: string, formats: seq<string>, strptime: (string, string) -> Option<Date>, i: nat)
    requires i < |formats| && strptime(s, formats[i]).Some?
    requires forall j | 0 <= j < i :: strptime(s, formats[j]).None?
    ensures ParseFirst(s, formats, strptime) == strptime(s, formats[i])
  {
    if i > 0 {
      assert strptime(s, formats[0]).None?;
      assert forall j | 0 <= j < i - 1 :: formats[1..][j] == formats[j + 1];
      ParseFirstEarliest(s, formats[1..], strptime, i - 1);
    }
  }

  /** A day after today is taken to be a century earlier (a two-digit year
      read into the future); stepping back before year 1 is a `ValueError`. */
  function Past(d: Date, today: Date): (r: Result<Date>)
    ensures !Before(today, d) ==> r == Ok(d)
    ensures Before(today, d) ==> (r.Ok? <==> d.year > 100)
    ensures Before(today, d) && r.Ok? ==> r.value.year + 100 == d.year && r.value.month == d.month
    ensures r.Err? ==> r.error == ValueError
    ensures Valid(d) && r.Ok? ==> Valid(r.value)
    ensures r.Ok? && d.year < today.year + 100 ==> !Before(today, r.value)
  {
    if Before(today, d) then
      if d.year > 100 then Ok(MinusYears(d, 100)) else Err(ValueError)
    else Ok(d)
  }

  /** The date helper on a cell: the first format that parses, moved out of
      the future; a string no format parses is a `ValueError`, a cell that
      is not a string a `TypeError`. */
  function PastDate(cell: Field, formats: seq<string>, p: Parsers): (r: Result<Date>)
    ensures r.Ok? ==> (cell.Text? && ParseFirst(cell.s, formats, p.strptime).Some?
      && Past(ParseFirst(cell.s, formats, p.strptime).value, p.today) == r)
    ensures cell.Text? && ParseFirst(cell.s, formats, p.strptime).None? ==> r == Err(ValueError)
    ensures r.Err? ==> r.error in {ValueError, TypeError}
  {
    match cell
    case Text(s) =>
      (match ParseFirst(s, formats, p.strptime)
       case None => Err(ValueError)
       case Some(d) => Past(d, p.today))
    case _ => Err(TypeError)
  }

  /** As written, the handlers for the month-name formats sit on the same
      `try` as the first, so only the two numeric formats are ever tried:
      a date written with a month name that the intended helper reads is a
      `ValueError`. */
  lemma MonthNamesNeverTried(s: string, p: Parsers, d: Date)
    requires p.strptime(s, "%d/%m/%y").None? && p.strptime(s, "%d/%m/%Y").None?
    requires p.strptime(s, "%d %b %Y") == Some(d) && !Before(p.today, d)
    ensures PastDate(Text(s), NumericFormats, p) == Err(ValueError)
    ensures PastDate(Text(s), AllFormats, p) == Ok(d)
  {
    assert AllFormats[0] == "%d/%m/%y" && AllFormats[1] == "%d/%m/%Y" && AllFormats[2] == "%d %b %Y";
    assert NumericFormats[0] == "%d/%m/%y" && NumericFormats[1] == "%d/%m/%Y";
    ParseFirstEarliest(s, AllFormats, p.strptime, 2);
  }

  // ---------------------------------------------------------------------------
  // Normalising

  /** The record before reshaping. */
  function Prepared(row: Row, age: real, collected: Date, result: Field, direction: Field): Row {
    row["age" := Num(age)]["month" := Text(MonthLabel(collected))]["test_result" := result]["direction" := direction]
  }

  lemma MappingFacts()
    ensures DistinctTargets(Mapping)
    ensures Targets(Mapping) == {"month", "test_code", "test_result", "practice_id", "age", "sex", "direction"}
  {
    assert Mapping[0].0 == "month" && Mapping[1].0 == "test_code" && Mapping[2].0 == "test_result";
    assert Mapping[3].0 == "practice_id" && Mapping[4].0 == "age" && Mapping[5].0 == "sex";
    assert Mapping[6].0 == "direction";
  }

  lemma PreparedCells(row: Row, age: real, collected: Date, result: Field, direction: Field)
    ensures var r := Prepared(row, age, collected, result, direction);
      && r["month"] == Text(MonthLabel(collected)) && r["age"] == Num(age)
      && r["test_result"] == result && r["direction"] == direction
      && (forall k | k !in {"month", "age", "test_result", "direction"} :: (k in r <==> k in row))
      && (forall k | k in row && k !in {"month", "age", "test_result", "direction"} :: r[k] == row[k])
  {
  }

  lemma PreparedFields(row: Row, age: real, collected: Date, result: Field, direction: Field)
    requires Reshape(Prepared(row, age, collected, result, direction), Mapping).Ok?
    ensures var v := Reshape(Prepared(row, age, collected, result, direction), Mapping).value;
      && v.Keys == {"month", "test_code", "test_result", "practice_id", "age", "sex", "direction"}
      && v["month"] == Text(MonthLabel(collected)) && v["age"] == Num(age)
      && "test_code" in row && "source" in row && "sex" in row
      && v["test_code"] == row["test_code"] && v["practice_id"] == row["source"] && v["sex"] == row["sex"]
      && v["test_result"] == result && v["direction"] == direction
  {
    hide Prepared, Reshape;
    MappingFacts();
    var r := Prepared(row, age, collected, result, direction);
    PreparedCells(row, age, collected, result, direction);
    ReshapeAt(r, Mapping, 0);
    ReshapeAt(r, Mapping, 1);
    ReshapeAt(r, Mapping, 2);
    ReshapeAt(r, Mapping, 3);
    ReshapeAt(r, Mapping, 4);
    ReshapeAt(r, Mapping, 5);
    ReshapeAt(r, Mapping, 6);
  }

  /** The normaliser with the date helper trying `formats`: the test code
      is brought to its current form, the dates of birth and collection are
      read (a date no format reads aborts the file), a patient younger than
      eighteen years of 365 days is dropped, the month is the collection
      month, and the result is read with its direction. */
  function NormaliseWith(row: Row, p: Parsers, formats: seq<string>): (r: Stage<Row>)
    ensures r.Keep? ==> r.value.Keys == {"month", "test_code", "test_result", "practice_id", "age", "sex", "direction"}
    ensures r.Keep? ==>
      && "dob" in row && "date_collected" in row
      && PastDate(row["dob"], formats, p).Ok? && PastDate(row["date_collected"], formats, p).Ok?
      && var dob := PastDate(row["dob"], formats, p).value;
         var collected := PastDate(row["date_collected"], formats, p).value;
         && AgeYears(dob, collected) >= 18.0
         && r.value["age"] == Num(AgeYears(dob, collected))
         && r.value["month"] == Text(MonthLabel(collected))
    ensures r.Keep? ==>
      && "test_code" in row && "source" in row && "sex" in row
      && r.value["test_code"] == Current(row["test_code"])
      && r.value["practice_id"] == row["source"] && r.value["sex"] == row["sex"]
    ensures r.Keep? ==> ("result" in row && row["result"].Text?
      && (r.value["test_result"], r.value["direction"]) == ReadResult(row["result"].s, p.float))
    ensures ("test_code" in row && "dob" in row && PastDate(row["dob"], formats, p).Err?) ==>
      r == Raise(PastDate(row["dob"], formats, p).error)
  {
    if "test_code" !in row then Raise(KeyError)
    else
      var renamed := row["test_code" := Current(row["test_code"])];
      if "dob" !in row then Raise(KeyError)
      else
        match PastDate(row["dob"], formats, p)
        case Err(e) => Raise(e)
        case Ok(dob) =>
          if "date_collected" !in row then Raise(KeyError)
          else
            match PastDate(row["date_collected"], formats, p)
            case Err(e) => Raise(e)
            case Ok(collected) =>
              var age := AgeYears(dob, collected);
              if age < 18.0 then Skip
              else if "result" !in row then Raise(KeyError)
              else
                match row["result"]
                case Text(s) =>
                  var (result, direction) := ReadResult(s, p.float);
                  var out := Reshape(Prepared(renamed, age, collected, result, direction), Mapping);
                  if out.Ok? then
                    PreparedFields(renamed, age, collected, result, direction);
                    Keep(out.value)
                  else Raise(out.error)
                case _ => Raise(AttributeError)
  }

  /** The normaliser as written: dates are read with the two numeric
      formats only. */
  function NormaliseAsWritten(row: Row, p: Parsers): Stage<Row> {
    NormaliseWith(row, p, NumericFormats)
  }

  /** The normaliser as intended: dates are read with all four formats. */
  function Normalise(row: Row, p: Parsers): Stage<Row> {
    NormaliseWith(row, p, AllFormats)
  }

  function RulesWith(normalise: Row -> Stage<Row>): Converter.Rules {
    Converter.Rules(Some((row: Row) => Drop(row)), Some(normalise), None)
  }

  function RulesAsWritten(p: Parsers): Converter.Rules {
    RulesWith((row: Row) => NormaliseAsWritten(row, p))
  }

  /** The lab's rules: its filter and normaliser, and the standard
      classifier. */
  function Rules(p: Parsers): Converter.Rules {
    RulesWith((row: Row) => Normalise(row, p))
  }

  /** A file whose first kept row gives the date of birth with a month name
      is aborted by the helper as written; the intended helper reads it. */
  lemma MonthNameBirthDateAborts(rows: seq<Row>, ranges: seq<RefRange>, floor: string, p: Parsers, s: string, d: Date)
    requires |rows| > 0 && Drop(rows[0]).Keep? && "test_code" in rows[0] && rows[0]["dob"] == Text(s)
    requires p.strptime(s, "%d/%m/%y").None? && p.strptime(s, "%d/%m/%Y").None?
    requires p.strptime(s, "%d %b %Y") == Some(d) && !Before(p.today, d)
    ensures Feed(rows, Setup(RulesAsWritten(p), ranges, floor, p.float)) == Err(ValueError)
    ensures PastDate(rows[0]["dob"], AllFormats, p) == Ok(d)
  {
    MonthNamesNeverTried(s, p, d);
    var st := Setup(RulesAsWritten(p), ranges, floor, p.float);
    assert Call(st.rules.normalise, rows[0]) == Raise(ValueError);
    assert Outcome(rows[0], st) == Raise(ValueError);
    assert FirstFailure(rows, st, 0) == None;
    FailureFound(rows, st, 0);
  }

  /** Every row North Devon keeps passes the column check and belongs to an
      adult: its age is at least eighteen years of 365 days, and (for real
      calendar days) the birth day lies before the collection day. */
  lemma KeptRowsAdult(row: Row, ranges: seq<RefRange>, floor: string, p: Parsers)
    ensures var s := Setup(Rules(p), ranges, floor, p.float);
      Outcome(row, s).Keep? ==> Complete(Outcome(row, s).value)
    ensures var s := Setup(Rules(p), ranges, floor, p.float);
      Outcome(row, s).Keep? ==> ("age" in Outcome(row, s).value && Outcome(row, s).value["age"].Num? && Outcome(row, s).value["age"].r >= 18.0)
    ensures var s := Setup(Rules(p), ranges, floor, p.float);
      Outcome(row, s).Keep? ==> ("dob" in row && "date_collected" in row
        && PastDate(row["dob"], AllFormats, p).Ok? && PastDate(row["date_collected"], AllFormats, p).Ok?
        && var dob := PastDate(row["dob"], AllFormats, p).value;
           var collected := PastDate(row["date_collected"], AllFormats, p).value;
           Valid(dob) && Valid(collected) ==> Before(dob, collected))
  {
    hide Outcome;
    var s := Setup(Rules(p), ranges, floor, p.float);
    if Outcome(row, s).Keep? {
      StandardKeepsColumns(row, s);
      var n := Call(s.rules.normalise, row);
      assert n == Normalise(row, p);
      assert HasCore(n.value);
      assert Outcome(row, s).value["age"] == n.value["age"];
      var dob := PastDate(row["dob"], AllFormats, p).value;
      var collected := PastDate(row["date_collected"], AllFormats, p).value;
      if Valid(dob) && Valid(collected) {
        AdultBornBefore(dob, collected);
      }
    }
  }
}
