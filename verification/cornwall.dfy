/** The Cornwall rule set: zipped CSV exports classified by the standard
    classifier against the lab's range file, with results such as
    "0.03 0.5%" (a value followed by a percentage) cut back to the value. */
module Cornwall {
  import opened Outcomes
  import opened Strings
  import opened Dates
  import opened Settings
  import opened Records
  import opened Classifier
  import opened Converter
  import opened Labs

  const LabCode: string := "cornwall"

  const ReferenceRanges: string := "cornwall_ref_ranges.csv"

  const OrderDateFormat: string := "%Y-%m-%d %H:%M:%S"

  const BirthMonthFormat: string := "%m-%Y"

  /** The lab's output columns and the input columns they are taken from. */
  const Mapping: seq<(string, string)> := [
    ("month", "month"),
    ("test_code", "TestResultCode"),
    ("test_result", "test_result"),
    ("practice_id", "PracticeCode"),
    ("age", "age"),
    ("sex", "PatientGender"),
    ("direction", "direction")
  ]

  /** The filter: rows without a date of birth, and rows from specialties
      other than "600" and "180", are dropped. */
  function Drop(row: Row): (r: Stage<()>)
    ensures r.Keep? <==> ("PatientDOB" in row && Truthy(row["PatientDOB"])
      && "SpecialtyCode" in row && row["SpecialtyCode"] in {Text("600"), Text("180")})
    ensures r.Raise? ==> r == Raise(KeyError)
  {
    if "PatientDOB" !in row then Raise(KeyError)
    else if !Truthy(row["PatientDOB"]) then Skip
    else if "SpecialtyCode" !in row then Raise(KeyError)
    else if !(row["SpecialtyCode"] == Text("600") || row["SpecialtyCode"] == Text("180")) then Skip
    else Keep(())
  }

  // ---------------------------------------------------------------------------
  // The value-and-percentage pattern `([0-9.])+ +[0-9. ]+%`

  predicate IsNum(c: char) {
    '0' <= c <= '9' || c == '.'
  }

  predicate IsNumSpace(c: char) {
    IsNum(c) || c == ' '
  }

  /** The end of the run of digits and points starting at `i`. */
  function NumEnd(s: string, i: nat): (j: nat)
    requires i <= |s|
    ensures i <= j <= |s|
    ensures forall k | i <= k < j :: IsNum(s[k])
    ensures j < |s| ==> !IsNum(s[j])
    decreases |s| - i
  {
    if i < |s| && IsNum(s[i]) then NumEnd(s, i + 1) else i
  }

  /** The end of the run of digits, points and spaces starting at `i`. */
  function NumSpaceEnd(s: string, i: nat): (j: nat)
    requires i <= |s|
    ensures i <= j <= |s|
    ensures forall k | i <= k < j :: IsNumSpace(s[k])
    ensures j < |s| ==> !IsNumSpace(s[j])
    decreases |s| - i
  {
    if i < |s| && IsNumSpace(s[i]) then NumSpaceEnd(s, i + 1) else i
  }

  /** The pattern read off one split of `s[i..k+1]`: the repeated group
      covers `s[i..j]`, the spaces `s[j..m]`, the class `s[m..k]`, and
      `s[k]` is the percent sign. */
  predicate Fits(s: string, i: nat, j: nat, m: nat, k: nat) {
    && i < j < m < k < |s|
    && (forall x | i <= x < j :: IsNum(s[x]))
    && (forall x | j <= x < m :: s[x] == ' ')
    && (forall x | m <= x < k :: IsNumSpace(s[x]))
    && s[k] == '%'
  }

  /** The match starting at `i`, as the end `j` of its first part and the
      position `k` of its percent sign. */
  function MatchAt(s: string, i: nat): (r: Option<(nat, nat)>)
    requires i <= |s|
    ensures r.Some? ==> Fits(s, i, r.value.0, r.value.0 + 1, r.value.1)
  {
    if i == |s| then None
    else
      var j := NumEnd(s, i);
      if j > i && j < |s| && s[j] == ' ' then
        var k := NumSpaceEnd(s, j);
        if k >= j + 2 && k < |s| && s[k] == '%' then Some((j, k)) else None
      else None
  }

  /** Every way the pattern fits at `i` is the one `MatchAt` finds: the
      split points of the first part and of the percent sign are forced, so
      the backtracking matcher and this scan agree, and the last character
      of the first part is what the repeated group captures. */
  lemma MatchAtComplete(s: string, i: nat, j: nat, m: nat, k: nat)
    requires Fits(s, i, j, m, k)
    ensures MatchAt(s, i) == Some((j, k))
  {
    assert !IsNum(s[j]);
    var j' := NumEnd(s, i);
    assert j' == j;
    assert forall x | j <= x < k :: IsNumSpace(s[x]);
    var k' := NumSpaceEnd(s, j);
    assert k' == k;
  }

  /** `re.sub` from position `i`: at each position the pattern matches,
      the match is replaced by the whole first part (`whole`) or by the
      group's last capture, its last character; elsewhere the character is
      copied. */
  function SubFrom(s: string, i: nat, whole: bool): string
    requires i <= |s|
    decreases |s| - i
  {
    if i == |s| then []
    else
      match MatchAt(s, i)
      case Some((j, k)) => (if whole then s[i..j] else [s[j - 1]]) + SubFrom(s, k + 1, whole)
      case None => [s[i]] + SubFrom(s, i + 1, whole)
  }

  /** The substitution as written: `\1` is the last character the repeated
      group matched. */
  function StripPercentAsWritten(s: string): string {
    SubFrom(s, 0, false)
  }

  /** The substitution as intended: the whole number before the spaces. */
  function StripPercent(s: string): string {
    SubFrom(s, 0, true)
  }

  /** Text without a percent sign is left alone. */
  lemma {:induction false} SubFromNoPercent(s: string, i: nat, whole: bool)
    requires i <= |s| && '%' !in s[i..]
    ensures SubFrom(s, i, whole) == s[i..]
    decreases |s| - i
  {
    if i < |s| {
      if MatchAt(s, i).Some? {
        assert false;
      }
      assert s[i + 1..] == s[i..][1..];
      SubFromNoPercent(s, i + 1, whole);
    }
  }

  lemma NoPercentUnchanged(s: string)
    requires '%' !in s
    ensures StripPercent(s) == s && StripPercentAsWritten(s) == s
  {
    assert s[0..] == s;
    SubFromNoPercent(s, 0, true);
    SubFromNoPercent(s, 0, false);
  }

  /** A value followed by spaces and a percentage becomes that value as
      intended, and the value's last character as written. */
  lemma ValueAndPercent(a: string, b: string)
    requires |a| > 0 && (forall x | 0 <= x < |a| :: IsNum(a[x]))
    requires |b| > 0 && (forall x | 0 <= x < |b| :: IsNumSpace(b[x]))
    ensures StripPercent(a + " " + b + "%") == a
    ensures StripPercentAsWritten(a + " " + b + "%") == [a[|a| - 1]]
  {
    var s := a + " " + b + "%";
    var k := |a| + 1 + |b|;
    assert Fits(s, 0, |a|, |a| + 1, k) by {
      assert forall x | 0 <= x < |a| :: s[x] == a[x];
      assert forall x | |a| + 1 <= x < k :: s[x] == b[x - |a| - 1];
    }
    MatchAtComplete(s, 0, |a|, |a| + 1, k);
    assert |s| == k + 1;
    assert SubFrom(s, k + 1, true) == [] && SubFrom(s, k + 1, false) == [];
    assert s[0..|a|] == a;
    assert s[|a| - 1] == a[|a| - 1];
    assert SubFrom(s, 0, true) == s[0..|a|] + SubFrom(s, k + 1, true);
    assert SubFrom(s, 0, false) == [s[|a| - 1]] + SubFrom(s, k + 1, false);
  }

  /** The case the pattern was written for. */
  lemma TypicalCell(s: string)
    requires s == "0.03 0.5%"
    ensures StripPercent(s) == "0.03"
    ensures StripPercentAsWritten(s) == "3"
  {
    var a := "0.03";
    var b := "0.5";
    assert s == a + " " + b + "%";
    assert forall x | 0 <= x < |a| :: IsNum(a[x]);
    assert forall x | 0 <= x < |b| :: IsNumSpace(b[x]);
    ValueAndPercent(a, b);
  }

  // ---------------------------------------------------------------------------
  // Normalising

  /** The record before reshaping. */
  function Prepared(row: Row, age: real, ordered: Date, result: Field, direction: Field): Row {
    row["month" := Text(MonthLabel(ordered))]["age" := Num(age)]["test_result" := result]["direction" := direction]
  }

  lemma MappingFacts()
    ensures DistinctTargets(Mapping)
    ensures Targets(Mapping) == {"month", "test_code", "test_result", "practice_id", "age", "sex", "direction"}
  {
    assert Mapping[0].0 == "month" && Mapping[1].0 == "test_code" && Mapping[2].0 == "test_result";
    assert Mapping[3].0 == "practice_id" && Mapping[4].0 == "age" && Mapping[5].0 == "sex";
    assert Mapping[6].0 == "direction";
  }

  lemma PreparedCells(row: Row, age: real, ordered: Date, result: Field, direction: Field)
    ensures var r := Prepared(row, age, ordered, result, direction);
      && r["month"] == Text(MonthLabel(ordered)) && r["age"] == Num(age)
      && r["test_result"] == result && r["direction"] == direction
      && (forall k | k !in {"month", "age", "test_result", "direction"} :: (k in r <==> k in row))
      && (forall k | k in row && k !in {"month", "age", "test_result", "direction"} :: r[k] == row[k])
  {
  }

  lemma PreparedFields(row: Row, age: real, ordered: Date, result: Field, direction: Field)
    requires Reshape(Prepared(row, age, ordered, result, direction), Mapping).Ok?
    ensures var v := Reshape(Prepared(row, age, ordered, result, direction), Mapping).value;
      && v.Keys == {"month", "test_code", "test_result", "practice_id", "age", "sex", "direction"}
      && v["month"] == Text(MonthLabel(ordered)) && v["age"] == Num(age)
      && "TestResultCode" in row && "PracticeCode" in row && "PatientGender" in row
      && v["test_code"] == row["TestResultCode"] && v["practice_id"] == row["PracticeCode"]
      && v["sex"] == row["PatientGender"]
      && v["test_result"] == result && v["direction"] == direction
  {
    hide Prepared, Reshape;
    MappingFacts();
    var r := Prepared(row, age, ordered, result, direction);
    PreparedCells(row, age, ordered, result, direction);
    ReshapeAt(r, Mapping, 0);
    ReshapeAt(r, Mapping, 1);
    ReshapeAt(r, Mapping, 2);
    ReshapeAt(r, Mapping, 3);
    ReshapeAt(r, Mapping, 4);
    ReshapeAt(r, Mapping, 5);
    ReshapeAt(r, Mapping, 6);
  }

  /** The normaliser, with the percentage substitution keeping the `whole`
      value or its last character: the order date gives the month (a date
      that does not parse aborts the file), a birth month that does not
      parse or a patient younger than eighteen years of 365 days drops the
      row, and the cleaned result is read with its direction. */
  function NormaliseWith(row: Row, p: Parsers, whole: bool): (r: Stage<Row>)
    ensures r.Keep? ==> r.value.Keys == {"month", "test_code", "test_result", "practice_id", "age", "sex", "direction"}
    ensures r.Keep? ==>
      && "TestOrderDate" in row && row["TestOrderDate"].Text?
      && "PatientDOB" in row && row["PatientDOB"].Text?
      && p.strptime(row["TestOrderDate"].s, OrderDateFormat).Some?
      && p.strptime(row["PatientDOB"].s, BirthMonthFormat).Some?
      && var ordered := p.strptime(row["TestOrderDate"].s, OrderDateFormat).value;
         var dob := p.strptime(row["PatientDOB"].s, BirthMonthFormat).value;
         && AgeYears(dob, ordered) >= 18.0
         && r.value["age"] == Num(AgeYears(dob, ordered))
         && r.value["month"] == Text(MonthLabel(ordered))
    ensures r.Keep? ==>
      && "TestResultCode" in row && "PracticeCode" in row && "PatientGender" in row
      && r.value["test_code"] == row["TestResultCode"]
      && r.value["practice_id"] == row["PracticeCode"] && r.value["sex"] == row["PatientGender"]
    ensures r.Keep? ==> ("TestResult" in row && row["TestResult"].Text?
      && (r.value["test_result"], r.value["direction"]) == ReadResult(SubFrom(row["TestResult"].s, 0, whole), p.float))
    ensures ("TestResult" in row && row["TestResult"].Text? && "TestOrderDate" in row && row["TestOrderDate"].Text?
      && p.strptime(row["TestOrderDate"].s, OrderDateFormat).None?) ==> r == Raise(ValueError)
  {
    if "TestResult" !in row then Raise(KeyError)
    else
      match row["TestResult"]
      case Text(t) =>
        var cleaned := SubFrom(t, 0, whole);
        if "TestOrderDate" !in row then Raise(KeyError)
        else (
          match row["TestOrderDate"]
          case Text(o) =>
            (match p.strptime(o, OrderDateFormat)
             case None => Raise(ValueError)
             case Some(ordered) =>
               if "PatientDOB" !in row then Raise(KeyError)
               else
                 match row["PatientDOB"]
                 case Text(b) =>
                   (match p.strptime(b, BirthMonthFormat)
                    case None => Skip
                    case Some(dob) =>
                      var age := AgeYears(dob, ordered);
                      if age < 18.0 then Skip
                      else
                        var (result, direction) := ReadResult(cleaned, p.float);
                        var out := Reshape(Prepared(row, age, ordered, result, direction), Mapping);
                        if out.Ok? then
                          PreparedFields(row, age, ordered, result, direction);
                          Keep(out.value)
                        else Raise(out.error))
                 case _ => Raise(TypeError))
          case _ => Raise(TypeError))
      case _ => Raise(TypeError)
  }

  function NormaliseAsWritten(row: Row, p: Parsers): Stage<Row> {
    NormaliseWith(row, p, false)
  }

  function Normalise(row: Row, p: Parsers): Stage<Row> {
    NormaliseWith(row, p, true)
  }

  /** The lab's rules with its drops caught by the converter: its filter
      and normaliser, and the standard classifier. */
  function Rules(p: Parsers): Converter.Rules {
    Converter.Rules(Some((row: Row) => Drop(row)), Some((row: Row) => Normalise(row, p)), None)
  }

  /** The rules as the lab's module wires them: its `StopProcessing` is not
      the converter's, so every drop escapes. */
  function RulesAsImported(p: Parsers): Converter.Rules {
    Foreign(Converter.Rules(Some((row: Row) => Drop(row)), Some((row: Row) => NormaliseAsWritten(row, p)), None))
  }

  /** As wired, a file whose first row the filter drops is aborted by it;
      with the converter's own class the same row is only skipped. */
  lemma DroppedRowAborts(rows: seq<Row>, ranges: seq<RefRange>, floor: string, p: Parsers)
    requires |rows| > 0 && Drop(rows[0]) == Skip
    ensures Feed(rows, Setup(RulesAsImported(p), ranges, floor, p.float)) == Err(ForeignStopProcessing)
    ensures Outcome(rows[0], Setup(Rules(p), ranges, floor, p.float)) == Skip
  {
    var s := Setup(Converter.Rules(Some((row: Row) => Drop(row)), Some((row: Row) => NormaliseAsWritten(row, p)), None),
      ranges, floor, p.float);
    assert Call(s.rules.drop, rows[0]) == Skip;
    ForeignDropAborts(rows, s);
  }

  /** Every row Cornwall keeps passes the column check, belongs to an adult,
      and holds the value before any percentage. */
  lemma KeptRowsAdult(row: Row, ranges: seq<RefRange>, floor: string, p: Parsers)
    ensures var s := Setup(Rules(p), ranges, floor, p.float);
      Outcome(row, s).Keep? ==> Complete(Outcome(row, s).value)
    ensures var s := Setup(Rules(p), ranges, floor, p.float);
      Outcome(row, s).Keep? ==> ("age" in Outcome(row, s).value && Outcome(row, s).value["age"].Num? && Outcome(row, s).value["age"].r >= 18.0)
    ensures var s := Setup(Rules(p), ranges, floor, p.float);
      Outcome(row, s).Keep? ==> ("TestResult" in row && row["TestResult"].Text?
        && "test_result" in Outcome(row, s).value
        && Outcome(row, s).value["test_result"] == ReadResult(StripPercent(row["TestResult"].s), p.float).0)
  {
    hide Outcome;
    var s := Setup(Rules(p), ranges, floor, p.float);
    if Outcome(row, s).Keep? {
      StandardKeepsColumns(row, s);
      var n := Call(s.rules.normalise, row);
      assert n == Normalise(row, p);
      assert HasCore(n.value);
      assert Outcome(row, s).value["age"] == n.value["age"];
      assert Outcome(row, s).value["test_result"] == n.value["test_result"];
    }
  }
}
