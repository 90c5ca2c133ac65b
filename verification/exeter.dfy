/** The Exeter rule set: spreadsheet exports whose rows carry the lab's own
    flag ("H", "L" or "N") instead of a numeric result. */
module Exeter {
  import opened Outcomes
  import opened Strings
  import opened Dates
  import opened Settings
  import opened Records
  import opened Classifier
  import opened Converter
  import opened Labs

  const LabCode: string := "exeter"

  /** No range file: each row carries its own flag. */
  const ReferenceRanges: string := ""

  /** How the collection date is written. */
  const DateFormat: string := "%Y-%m-%d 00:00:00"

  /** The lab's output columns and the input columns they are taken from. */
  const Mapping: seq<(string, string)> := [
    ("month", "month"),
    ("test_code", "Test_Performed"),
    ("test_result", "test_result"),
    ("practice_id", "Requesting_Organisation_Code"),
    ("age", "age"),
    ("sex", "sex"),
    ("direction", "direction"),
    ("provided_result", "Test_Result_Range")
  ]

  /** The filter: rows whose age's first two characters sort before "18",
      and rows requested by a hospital, are dropped. */
  function Drop(row: Row): (r: Stage<()>)
    ensures r.Keep? ==> ("Age_on_Date_Request_Rec'd" in row && row["Age_on_Date_Request_Rec'd"].Text?
      && !Less(Prefix(row["Age_on_Date_Request_Rec'd"].s, 2), "18"))
    ensures r.Keep? ==> ("Requesting_Organisation_Desc" in row && row["Requesting_Organisation_Desc"].Text?
      && !Contains(row["Requesting_Organisation_Desc"].s, "Hospital"))
    ensures ("Age_on_Date_Request_Rec'd" in row && row["Age_on_Date_Request_Rec'd"].Text?
      && Less(Prefix(row["Age_on_Date_Request_Rec'd"].s, 2), "18")) ==> r == Skip
    ensures r.Keep? <==> ("Age_on_Date_Request_Rec'd" in row && row["Age_on_Date_Request_Rec'd"].Text?
      && !Less(Prefix(row["Age_on_Date_Request_Rec'd"].s, 2), "18")
      && "Requesting_Organisation_Desc" in row && row["Requesting_Organisation_Desc"].Text?
      && !Contains(row["Requesting_Organisation_Desc"].s, "Hospital"))
    ensures r == Skip <==> ("Age_on_Date_Request_Rec'd" in row && row["Age_on_Date_Request_Rec'd"].Text?
      && (Less(Prefix(row["Age_on_Date_Request_Rec'd"].s, 2), "18")
          || ("Requesting_Organisation_Desc" in row && row["Requesting_Organisation_Desc"].Text?
              && Contains(row["Requesting_Organisation_Desc"].s, "Hospital"))))
    ensures r.Raise? ==> r.error in {KeyError, TypeError}
  {
    if "Age_on_Date_Request_Rec'd" !in row then Raise(KeyError)
    else
      match row["Age_on_Date_Request_Rec'd"]
      case Text(age) =>
        if Less(Prefix(age, 2), "18") then Skip
        else if "Requesting_Organisation_Desc" !in row then Raise(KeyError)
        else
          (match row["Requesting_Organisation_Desc"]
           case Text(desc) => if Contains(desc, "Hospital") then Skip else Keep(())
           case _ => Raise(TypeError))
      case _ => Raise(TypeError)
  }

  // ---------------------------------------------------------------------------
  // Normalising

  /** The record before reshaping: the month, and every other output column
      blank. */
  function Prepared(row: Row, date: Date): Row {
    row["month" := Text(MonthLabel(date))]["dob" := Text("")]["age" := Text("")]["sex" := Text("")]
      ["test_result" := Text("")]["direction" := Text("")]
  }

  lemma MappingFacts()
    ensures DistinctTargets(Mapping)
    ensures Targets(Mapping) == {"month", "test_code", "test_result", "practice_id", "age", "sex", "direction", "provided_result"}
  {
    assert Mapping[0].0 == "month" && Mapping[1].0 == "test_code" && Mapping[2].0 == "test_result";
    assert Mapping[3].0 == "practice_id" && Mapping[4].0 == "age" && Mapping[5].0 == "sex";
    assert Mapping[6].0 == "direction" && Mapping[7].0 == "provided_result";
  }

  lemma PreparedCells(row: Row, date: Date)
    ensures var r := Prepared(row, date);
      && r["month"] == Text(MonthLabel(date)) && r["age"] == Text("") && r["sex"] == Text("")
      && r["test_result"] == Text("") && r["direction"] == Text("")
      && (forall k | k !in {"month", "dob", "age", "sex", "test_result", "direction"} :: (k in r <==> k in row))
      && (forall k | k in row && k !in {"month", "dob", "age", "sex", "test_result", "direction"} :: r[k] == row[k])
  {
  }

  lemma PreparedFields(row: Row, date: Date)
    requires Reshape(Prepared(row, date), Mapping).Ok?
    ensures var v := Reshape(Prepared(row, date), Mapping).value;
      && v.Keys == {"month", "test_code", "test_result", "practice_id", "age", "sex", "direction", "provided_result"}
      && v["month"] == Text(MonthLabel(date))
      && "Test_Performed" in row && "Requesting_Organisation_Code" in row && "Test_Result_Range" in row
      && v["test_code"] == row["Test_Performed"]
      && v["practice_id"] == row["Requesting_Organisation_Code"]
      && v["provided_result"] == row["Test_Result_Range"]
      && v["age"] == Text("") && v["sex"] == Text("") && v["test_result"] == Text("") && v["direction"] == Text("")
  {
    hide Prepared, Reshape;
    MappingFacts();
    var r := Prepared(row, date);
    PreparedCells(row, date);
    ReshapeAt(r, Mapping, 0);
    ReshapeAt(r, Mapping, 1);
    ReshapeAt(r, Mapping, 2);
    ReshapeAt(r, Mapping, 3);
    ReshapeAt(r, Mapping, 4);
    ReshapeAt(r, Mapping, 5);
    ReshapeAt(r, Mapping, 6);
    ReshapeAt(r, Mapping, 7);
  }

  /** The normaliser, given what happens to a row whose collection date
      does not parse. */
  function NormaliseWith(row: Row, p: Parsers, unparsed: Stage<Row>): Stage<Row> {
    if "Date_Specimen_Collected" !in row then Raise(KeyError)
    else
      match row["Date_Specimen_Collected"]
      case Text(d) =>
        (match p.strptime(d, DateFormat)
         case None => unparsed
         case Some(date) => Lift(Reshape(Prepared(row, date), Mapping)))
      case _ => Raise(TypeError)
  }

  /** A row the normaliser keeps, when a bad date does not keep it, had a
      date that parsed and is the reshaped record. */
  lemma NormaliseWithKept(row: Row, p: Parsers, unparsed: Stage<Row>)
    requires !unparsed.Keep? && NormaliseWith(row, p, unparsed).Keep?
    ensures "Date_Specimen_Collected" in row && row["Date_Specimen_Collected"].Text?
    ensures p.strptime(row["Date_Specimen_Collected"].s, DateFormat).Some?
    ensures var date := p.strptime(row["Date_Specimen_Collected"].s, DateFormat).value;
      Reshape(Prepared(row, date), Mapping) == Ok(NormaliseWith(row, p, unparsed).value)
  {
  }

  /** The normaliser as written: the handler for a date that does not
      parse logs the variable the failed parse never bound, so the row
      raises `UnboundLocalError` instead of being dropped. */
  function NormaliseAsWritten(row: Row, p: Parsers): Stage<Row> {
    NormaliseWith(row, p, Raise(UnboundLocalError))
  }

  /** The normaliser as intended: a date that does not parse drops the
      row; otherwise the month is the collection month, the lab's flag is
      carried as `provided_result`, and the result, direction, age and sex
      are blank. */
  function Normalise(row: Row, p: Parsers): (r: Stage<Row>)
    ensures r.Keep? ==> r.value.Keys == {"month", "test_code", "test_result", "practice_id", "age", "sex", "direction", "provided_result"}
    ensures r.Keep? ==>
      && "Date_Specimen_Collected" in row && row["Date_Specimen_Collected"].Text?
      && p.strptime(row["Date_Specimen_Collected"].s, DateFormat).Some?
      && r.value["month"] == Text(MonthLabel(p.strptime(row["Date_Specimen_Collected"].s, DateFormat).value))
    ensures r.Keep? ==>
      && "Test_Performed" in row && "Requesting_Organisation_Code" in row && "Test_Result_Range" in row
      && r.value["test_code"] == row["Test_Performed"]
      && r.value["practice_id"] == row["Requesting_Organisation_Code"]
      && r.value["provided_result"] == row["Test_Result_Range"]
      && r.value["test_result"] == Text("") && r.value["direction"] == Text("")
    ensures r == Skip <==> ("Date_Specimen_Collected" in row && row["Date_Specimen_Collected"].Text?
      && p.strptime(row["Date_Specimen_Collected"].s, DateFormat).None?)
  {
    var r := NormaliseWith(row, p, Skip);
    if r.Keep? then
      NormaliseWithKept(row, p, Skip);
      var date := p.strptime(row["Date_Specimen_Collected"].s, DateFormat).value;
      PreparedFields(row, date);
      r
    else r
  }

  /** The two normalisers differ exactly on the rows the intended one
      drops for their date, which the one as written aborts on. */
  lemma AsWrittenDiffers(row: Row, p: Parsers)
    ensures Normalise(row, p) != Skip ==> NormaliseAsWritten(row, p) == Normalise(row, p)
    ensures Normalise(row, p) == Skip <==> NormaliseAsWritten(row, p) == Raise(UnboundLocalError)
  {
  }

  // ---------------------------------------------------------------------------
  // Classifying

  /** The lab's flag as a category: "H" over range, "L" under, "N" within,
      and anything else no range. */
  function Flag(provided: Field): (c: ResultCode)
    ensures c in {OverRange, UnderRange, WithinRange, ErrNoRefRange}
    ensures c == OverRange <==> provided == Text("H")
    ensures c == UnderRange <==> provided == Text("L")
    ensures c == WithinRange <==> provided == Text("N")
  {
    if provided == Text("H") then OverRange
    else if provided == Text("L") then UnderRange
    else if provided == Text("N") then WithinRange
    else ErrNoRefRange
  }

  /** The classifier: `result_category` is the flag's category and nothing
      else changes. */
  function Classify(row: Row): (r: Stage<Row>)
    ensures r.Keep? <==> "provided_result" in row
    ensures !r.Keep? ==> r == Raise(KeyError)
    ensures r.Keep? ==> r.value.Keys == row.Keys + {"result_category"}
    ensures r.Keep? ==> r.value["result_category"] == Code(Flag(row["provided_result"]))
    ensures r.Keep? ==> forall k | k in row && k != "result_category" :: r.value[k] == row[k]
  {
    if "provided_result" !in row then Raise(KeyError)
    else Keep(row["result_category" := Code(Flag(row["provided_result"]))])
  }

  function RulesWith(normalise: Row -> Stage<Row>): Converter.Rules {
    Converter.Rules(
      Some((row: Row) => Drop(row)),
      Some(normalise),
      Some((row: Row, _: seq<RefRange>) => Classify(row)))
  }

  function RulesAsWritten(p: Parsers): Converter.Rules {
    RulesWith((row: Row) => NormaliseAsWritten(row, p))
  }

  function Rules(p: Parsers): Converter.Rules {
    RulesWith((row: Row) => Normalise(row, p))
  }

  /** A file whose first row passes the filter with a collection date that
      does not parse is aborted by the rules as written, while the
      intended rules drop that row. */
  lemma UnparsedDateAborts(rows: seq<Row>, ranges: seq<RefRange>, floor: string, p: Parsers)
    requires |rows| > 0 && Drop(rows[0]).Keep?
    requires "Date_Specimen_Collected" in rows[0] && rows[0]["Date_Specimen_Collected"].Text?
    requires p.strptime(rows[0]["Date_Specimen_Collected"].s, DateFormat).None?
    ensures Feed(rows, Setup(RulesAsWritten(p), ranges, floor, p.float)) == Err(UnboundLocalError)
    ensures Outcome(rows[0], Setup(Rules(p), ranges, floor, p.float)) == Skip
  {
    var s := Setup(RulesAsWritten(p), ranges, floor, p.float);
    AsWrittenDiffers(rows[0], p);
    assert Call(s.rules.normalise, rows[0]) == Raise(UnboundLocalError);
    assert Outcome(rows[0], s) == Raise(UnboundLocalError);
    assert FirstFailure(rows, s, 0) == None;
    FailureFound(rows, s, 0);
  }

  /** Every row Exeter keeps passes the column check, and its category is
      the lab's flag. */
  lemma KeptRowsComplete(row: Row, ranges: seq<RefRange>, floor: string, p: Parsers)
    ensures var s := Setup(Rules(p), ranges, floor, p.float);
      Outcome(row, s).Keep? ==> Complete(Outcome(row, s).value)
    ensures var s := Setup(Rules(p), ranges, floor, p.float);
      Outcome(row, s).Keep? ==> ("Test_Result_Range" in row
        && Outcome(row, s).value["result_category"] == Code(Flag(row["Test_Result_Range"])))
  {
    hide Outcome;
    var s := Setup(Rules(p), ranges, floor, p.float);
    if Outcome(row, s).Keep? {
      OwnClassifierOutcome(row, s);
      var n := Call(s.rules.normalise, row);
      assert n == Normalise(row, p);
      assert HasCore(n.value);
      assert Outcome(row, s) == Classify(n.value);
      assert n.value["provided_result"] == row["Test_Result_Range"];
    }
  }
}
