/** The Plymouth rule set: zipped CSV exports in which every row carries its
    own reference range as "low{high", classified by the lab's own
    comparison. The rules are stated on plain records, the interface the
    converter calls them with. */
module Plymouth {
  import opened Outcomes
  import opened Strings
  import opened Dates
  import opened Settings
  import opened Records
  import opened Classifier
  import opened Converter
  import opened Labs

  const LabCode: string := "plymouth"

  /** No range file: each row carries its range. */
  const ReferenceRanges: string := ""

  /** The lab's output columns and the input columns they are taken from. */
  const Mapping: seq<(string, string)> := [
    ("month", "month"),
    ("test_code", "analyte_lab_code"),
    ("test_result", "test_result"),
    ("practice_id", "requestor_organisation_code"),
    ("age", "age"),
    ("sex", "sex"),
    ("direction", "direction"),
    ("Reference Range", "Reference Range")
  ]

  /** The filter: rows without a specimen date, and rows whose age sorts
      before "18" as a string, are dropped. */
  function Drop(row: Row): (r: Stage<()>)
    ensures r.Keep? ==> "specimen_taken_date" in row && Truthy(row["specimen_taken_date"])
    ensures r.Keep? ==> "patient_age" in row && row["patient_age"].Text? && !Less(row["patient_age"].s, "18")
    ensures "specimen_taken_date" in row && !Truthy(row["specimen_taken_date"]) ==> r == Skip
    ensures r.Keep? <==> ("specimen_taken_date" in row && Truthy(row["specimen_taken_date"])
      && "patient_age" in row && row["patient_age"].Text? && !Less(row["patient_age"].s, "18"))
    ensures r == Skip <==> ("specimen_taken_date" in row
      && (!Truthy(row["specimen_taken_date"])
          || ("patient_age" in row && row["patient_age"].Text? && Less(row["patient_age"].s, "18"))))
    ensures r.Raise? ==> r.error in {KeyError, TypeError}
  {
    if "specimen_taken_date" !in row then Raise(KeyError)
    else if !Truthy(row["specimen_taken_date"]) then Skip
    else if "patient_age" !in row then Raise(KeyError)
    else
      match row["patient_age"]
      case Text(a) => if Less(a, "18") then Skip else Keep(())
      case _ => Raise(TypeError)
  }

  /** The output columns are distinct: each comes from its own input column. */
  lemma MappingFacts()
    ensures DistinctTargets(Mapping)
    ensures Targets(Mapping) == {"month", "test_code", "test_result", "practice_id", "age", "sex", "direction", "Reference Range"}
  {
    assert Mapping[0].0 == "month" && Mapping[1].0 == "test_code" && Mapping[2].0 == "test_result";
    assert Mapping[3].0 == "practice_id" && Mapping[4].0 == "age" && Mapping[5].0 == "sex";
    assert Mapping[6].0 == "direction" && Mapping[7].0 == "Reference Range";
  }

  /** The record before reshaping: the month, the blanked personal
      columns, and the result with its direction. */
  function Prepared(row: Row, date: Date, result: Field, direction: Field): Row {
    row["month" := Text(MonthLabel(date))]["dob" := Text("")]["age" := Text("")]["sex" := Text("")]
      ["test_result" := result]["direction" := direction]
  }

  /** What the record holds before reshaping. */
  lemma PreparedCells(row: Row, date: Date, result: Field, direction: Field)
    ensures var r := Prepared(row, date, result, direction);
      && r["month"] == Text(MonthLabel(date)) && r["age"] == Text("") && r["sex"] == Text("")
      && r["test_result"] == result && r["direction"] == direction
      && (forall k | k !in {"month", "dob", "age", "sex", "test_result", "direction"} :: (k in r <==> k in row))
      && (forall k | k in row && k !in {"month", "dob", "age", "sex", "test_result", "direction"} :: r[k] == row[k])
  {
  }

  lemma PreparedFields(row: Row, date: Date, result: Field, direction: Field)
    requires Reshape(Prepared(row, date, result, direction), Mapping).Ok?
    ensures var v := Reshape(Prepared(row, date, result, direction), Mapping).value;
      && v.Keys == {"month", "test_code", "test_result", "practice_id", "age", "sex", "direction", "Reference Range"}
      && v["month"] == Text(MonthLabel(date))
      && "analyte_lab_code" in row && "requestor_organisation_code" in row && "Reference Range" in row
      && v["test_code"] == row["analyte_lab_code"]
      && v["practice_id"] == row["requestor_organisation_code"]
      && v["Reference Range"] == row["Reference Range"]
      && v["age"] == Text("") && v["sex"] == Text("")
      && v["test_result"] == result && v["direction"] == direction
  {
    hide Prepared, Reshape;
    MappingFacts();
    var r := Prepared(row, date, result, direction);
    PreparedCells(row, date, result, direction);
    var v := Reshape(r, Mapping).value;
    ReshapeAt(r, Mapping, 0);
    ReshapeAt(r, Mapping, 1);
    ReshapeAt(r, Mapping, 2);
    ReshapeAt(r, Mapping, 3);
    ReshapeAt(r, Mapping, 4);
    ReshapeAt(r, Mapping, 5);
    ReshapeAt(r, Mapping, 6);
    ReshapeAt(r, Mapping, 7);
  }

  /** The normaliser: the specimen date gives the month (a date that does
      not parse drops the row), the result is read with its direction, the
      personal columns are blanked, and the row is reshaped to the lab's
      columns. */
  function Normalise(row: Row, p: Parsers): (r: Stage<Row>)
    ensures r.Keep? ==> r.value.Keys == {"month", "test_code", "test_result", "practice_id", "age", "sex", "direction", "Reference Range"}
    ensures r.Keep? ==>
      && "specimen_taken_date" in row && row["specimen_taken_date"].Text?
      && p.strptime(row["specimen_taken_date"].s, "%Y-%m-%d").Some?
      && r.value["month"] == Text(MonthLabel(p.strptime(row["specimen_taken_date"].s, "%Y-%m-%d").value))
    ensures r.Keep? ==>
      && "analyte_lab_code" in row && "requestor_organisation_code" in row && "Reference Range" in row
      && r.value["test_code"] == row["analyte_lab_code"]
      && r.value["practice_id"] == row["requestor_organisation_code"]
      && r.value["Reference Range"] == row["Reference Range"]
      && r.value["age"] == Text("") && r.value["sex"] == Text("")
    ensures r.Keep? ==>
      && "analyte_result_measurement" in row && row["analyte_result_measurement"].Text?
      && (r.value["test_result"], r.value["direction"]) == ReadResult(row["analyte_result_measurement"].s, p.float)
    ensures ("specimen_taken_date" in row && "analyte_result_measurement" in row && row["specimen_taken_date"].Text?
      && p.strptime(row["specimen_taken_date"].s, "%Y-%m-%d").None?) ==> r == Skip
  {
    if "analyte_result_measurement" !in row || "specimen_taken_date" !in row then Raise(KeyError)
    else
      match row["specimen_taken_date"]
      case Text(d) =>
        (match p.strptime(d, "%Y-%m-%d")
         case None => Skip
         case Some(date) =>
           match row["analyte_result_measurement"]
           case Text(s) =>
             var (result, direction) := ReadResult(s, p.float);
             var out := Reshape(Prepared(row, date, result, direction), Mapping);
             if out.Ok? then
               PreparedFields(row, date, result, direction);
               Keep(out.value)
             else Raise(out.error)
           case _ => Raise(AttributeError))
      case _ => Raise(TypeError)
  }

  /** A row's own range "low{high": exactly two pieces around one "{",
      both numbers; anything else is a `ValueError` the classifier turns
      into ERR_INVALID_REF_RANGE. */
  function Bounds(range: string, float: FloatParser): (r: Option<(real, real)>)
    ensures r.Some? <==> |Split(range, '{')| == 2 && float(Split(range, '{')[0]).Some? && float(Split(range, '{')[1]).Some?
    ensures r.Some? ==> Some(r.value.0) == float(Split(range, '{')[0]) && Some(r.value.1) == float(Split(range, '{')[1])
  {
    var parts := Split(range, '{');
    if |parts| == 2 && float(parts[0]).Some? && float(parts[1]).Some? then
      Some((float(parts[0]).value, float(parts[1]).value))
    else None
  }

  /** A range written as low "{" high reads back as those two bounds. */
  lemma BoundsOfWritten(low: string, high: string, float: FloatParser)
    requires '{' !in low && '{' !in high
    requires float(low).Some? && float(high).Some?
    ensures Bounds(low + "{" + high, float) == Some((float(low).value, float(high).value))
  {
    SplitPair(low, high, '{');
  }

  /** The lab's classification of one row: an empty range is
      ERR_NO_REF_RANGE, a malformed one ERR_INVALID_REF_RANGE, a result that
      is not a number ERR_UNPARSEABLE_RESULT, a zero upper bound
      ERR_INVALID_REF_RANGE, and otherwise the comparison with both bounds
      that the standard classifier also uses. */
  function Category(result: Field, direction: Field, range: Field, float: FloatParser): (r: Result<ResultCode>)
    ensures r == Ok(ErrNoRefRange) <==> !Truthy(range)
    ensures r.Err? <==> Truthy(range) && !range.Text?
    ensures r.Err? ==> r.error == AttributeError
    ensures r.Ok? && r.value in {WithinRange, UnderRange, OverRange} ==>
      && range.Text? && Bounds(range.s, float).Some? && result.Num?
      && var (low, high) := Bounds(range.s, float).value;
         high != 0.0 && r.value == Position(result.r, low, high)
    ensures (Truthy(range) && range.Text? && Bounds(range.s, float).Some? && Bounds(range.s, float).value.1 != 0.0
      && result.Num? && !Truthy(direction)) ==>
      r == Ok(Position(result.r, Bounds(range.s, float).value.0, Bounds(range.s, float).value.1))
    // A malformed range is reported before the result is looked at.
    ensures Truthy(range) && range.Text? && Bounds(range.s, float).None? ==> r == Ok(ErrInvalidRefRange)
    ensures Truthy(range) && range.Text? && Bounds(range.s, float).Some? && !result.Num? ==>
      r == Ok(ErrUnparseableResult)
    ensures Truthy(range) && range.Text? && Bounds(range.s, float).Some? && result.Num? ==>
      var (low, high) := Bounds(range.s, float).value;
      && (high == 0.0 ==> r == Ok(ErrInvalidRefRange))
      && (high != 0.0 ==> r == Ok(Compare(result.r, low, high, direction)))
  {
    if !Truthy(range) then Ok(ErrNoRefRange)
    else
      match range
      case Text(s) =>
        (match Bounds(s, float)
         case None => Ok(ErrInvalidRefRange)
         case Some((low, high)) =>
           if !result.Num? then Ok(ErrUnparseableResult)
           else if high != 0.0 then
             CompareDirection(result.r, low, high, direction);
             Ok(Compare(result.r, low, high, direction))
           else Ok(ErrInvalidRefRange))
      case _ => Err(AttributeError)
  }

  /** The classifier: sets `result_category` from the row's own range. */
  function Classify(row: Row, float: FloatParser): (r: Stage<Row>)
    ensures r.Keep? <==> ("test_result" in row && "direction" in row && "Reference Range" in row
      && Category(row["test_result"], row["direction"], row["Reference Range"], float).Ok?)
    ensures r.Keep? ==> r.value == row["result_category" :=
      Code(Category(row["test_result"], row["direction"], row["Reference Range"], float).value)]
    ensures !r.Keep? ==> r.Raise?
  {
    if "test_result" !in row || "direction" !in row || "Reference Range" !in row then Raise(KeyError)
    else
      match Category(row["test_result"], row["direction"], row["Reference Range"], float)
      case Ok(c) => Keep(row["result_category" := Code(c)])
      case Err(e) => Raise(e)
  }

  function Rules(p: Parsers): Converter.Rules {
    Converter.Rules(
      Some((row: Row) => Drop(row)),
      Some((row: Row) => Normalise(row, p)),
      Some((row: Row, _: seq<RefRange>) => Classify(row, p.float)))
  }

  /** Every row Plymouth keeps passes the column check and carries the
      category its own range gives. */
  lemma KeptRowsComplete(row: Row, ranges: seq<RefRange>, floor: string, p: Parsers)
    ensures var s := Setup(Rules(p), ranges, floor, p.float);
      Outcome(row, s).Keep? ==> Complete(Outcome(row, s).value) && Outcome(row, s).value["result_category"].Code?
  {
    hide Outcome;
    var s := Setup(Rules(p), ranges, floor, p.float);
    if Outcome(row, s).Keep? {
      OwnClassifierOutcome(row, s);
      var n := Call(s.rules.normalise, row);
      assert n == Normalise(row, p);
      assert HasCore(n.value);
      assert Outcome(row, s) == Classify(n.value, p.float);
    }
  }
}
