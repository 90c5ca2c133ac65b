/** The Cambridge rule set: CSV exports whose rows say themselves whether a
    result was high, low or normal, with the practice code embedded in the
    requester's name. The rules are stated on plain records, the interface
    the converter calls them with. */
module Cambridge {
  import opened Outcomes
  import opened Strings
  import opened Dates
  import opened Settings
  import opened Records
  import opened Classifier
  import opened Converter
  import opened Labs

  const LabCode: string := "cambridge"

  /** No range file: each row carries its own verdict. */
  const ReferenceRanges: string := ""

  /** The lab's output columns and the input columns they are taken from. */
  const Mapping: seq<(string, string)> := [
    ("month", "month"),
    ("test_code", "TestResultName"),
    ("test_result", "test_result"),
    ("practice_id", "requestor_organisation_code"),
    ("age", "age"),
    ("sex", "sex"),
    ("direction", "direction"),
    ("result_category", "TestResult")
  ]

  /** The filter: rows without a collection date, or without an age or with
      one that sorts before "18" as a string, are dropped. */
  function Drop(row: Row): (r: Stage<()>)
    ensures r.Keep? ==> "CollectedDateTime" in row && Truthy(row["CollectedDateTime"])
    ensures r.Keep? ==> ("Patient Age" in row && row["Patient Age"].Text?
      && row["Patient Age"].s != "" && !Less(row["Patient Age"].s, "18"))
    ensures ("CollectedDateTime" in row && !Truthy(row["CollectedDateTime"])) ==> r == Skip
    ensures r.Keep? <==> ("CollectedDateTime" in row && Truthy(row["CollectedDateTime"])
      && "Patient Age" in row && row["Patient Age"].Text? && row["Patient Age"].s != ""
      && !Less(row["Patient Age"].s, "18"))
    ensures r == Skip <==> ("CollectedDateTime" in row
      && (!Truthy(row["CollectedDateTime"])
          || ("Patient Age" in row
              && (!Truthy(row["Patient Age"]) || (row["Patient Age"].Text? && Less(row["Patient Age"].s, "18"))))))
    ensures r.Raise? ==> r.error in {KeyError, TypeError}
  {
    if "CollectedDateTime" !in row then Raise(KeyError)
    else if !Truthy(row["CollectedDateTime"]) then Skip
    else if "Patient Age" !in row then Raise(KeyError)
    else if !Truthy(row["Patient Age"]) then Skip
    else
      match row["Patient Age"]
      case Text(a) => if Less(a, "18") then Skip else Keep(())
      case _ => Raise(TypeError)
  }

  // ---------------------------------------------------------------------------
  // The practice code: `.*\(([A-Z][0-9]{5})[0-9]*\).*` matched at the start

  predicate Upper(c: char) {
    'A' <= c <= 'Z'
  }

  /** The end of the run of digits starting at `i`. */
  function DigitsEnd(s: string, i: nat): (r: nat)
    requires i <= |s|
    ensures i <= r <= |s|
    ensures forall q | i <= q < r :: IsDigit(s[q])
    ensures r == |s| || !IsDigit(s[r])
    decreases |s| - i
  {
    if i == |s| || !IsDigit(s[i]) then i else DigitsEnd(s, i + 1)
  }

  /** The index of the first line break, where `.` stops matching. */
  function LineEnd(s: string): (n: nat)
    ensures n <= |s| && forall q | 0 <= q < n :: s[q] != '\n'
    ensures n == |s| || s[n] == '\n'
  {
    if |s| == 0 || s[0] == '\n' then 0 else 1 + LineEnd(s[1..])
  }

  /** At `p` the string reads "(", a capital, five digits, any further
      digits, and ")". */
  predicate PracticeAt(s: string, p: nat) {
    && p + 7 <= |s|
    && s[p] == '(' && Upper(s[p + 1])
    && (forall q | p + 2 <= q < p + 7 :: IsDigit(s[q]))
    && DigitsEnd(s, p + 7) < |s| && s[DigitsEnd(s, p + 7)] == ')'
  }

  /** The last position before `n` where a bracketed code starts. */
  function LastPracticeBefore(s: string, n: nat): (r: Option<nat>)
    ensures r.None? <==> forall q | 0 <= q < n :: !PracticeAt(s, q)
    ensures r.Some? ==> r.value < n && PracticeAt(s, r.value)
    ensures r.Some? ==> forall q | r.value < q < n :: !PracticeAt(s, q)
  {
    if n == 0 then None
    else if PracticeAt(s, n - 1) then Some(n - 1)
    else LastPracticeBefore(s, n - 1)
  }

  /** The regex's group: the greedy leading `.*` makes the last bracketed
      code on the first line win; the code is the capital and the first
      five digits, further digits being dropped. */
  function PracticeCode(s: string): (r: Option<string>)
    ensures r.Some? ==> |r.value| == 6 && Upper(r.value[0]) && forall q | 1 <= q < 6 :: IsDigit(r.value[q])
    ensures r.Some? <==> exists p | 0 <= p < LineEnd(s) :: PracticeAt(s, p)
    ensures r.Some? ==> exists p | 0 <= p < LineEnd(s) ::
      (PracticeAt(s, p) && r.value == s[p + 1..p + 7] && forall q | p < q < LineEnd(s) :: !PracticeAt(s, q))
  {
    hide DigitsEnd, LineEnd;
    match LastPracticeBefore(s, LineEnd(s))
    case None => None
    case Some(p) =>
      assert 0 <= p < LineEnd(s) && PracticeAt(s, p);
      Some(s[p + 1..p + 7])
  }

  /** The code read is the one at the last bracketed position of the
      first line. */
  lemma PracticeCodeAt(s: string, p: nat)
    requires p < LineEnd(s) && PracticeAt(s, p)
    requires forall q | p < q < LineEnd(s) :: !PracticeAt(s, q)
    ensures PracticeCode(s) == Some(s[p + 1..p + 7])
  {
    hide DigitsEnd, LineEnd, PracticeAt;
    var r := LastPracticeBefore(s, LineEnd(s));
    assert r.Some?;
    assert r.value == p;
  }

  lemma LineEndWhole(s: string)
    requires '\n' !in s
    ensures LineEnd(s) == |s|
  {
  }

  /** A name ending in a bracketed code gives that code. */
  lemma PracticeCodeExample(s: string)
    requires s == "DR X (D81001)"
    ensures PracticeCode(s) == Some("D81001")
  {
    hide PracticeCode, LastPracticeBefore, LineEnd;
    LineEndWhole(s);
    assert s[5] == '(' && s[6] == 'D' && s[12] == ')';
    assert IsDigit(s[7]) && IsDigit(s[8]) && IsDigit(s[9]) && IsDigit(s[10]) && IsDigit(s[11]);
    assert DigitsEnd(s, 12) == 12;
    assert PracticeAt(s, 5);
    forall q | 5 < q < |s| ensures !PracticeAt(s, q) {
      if q == 6 {
        assert s[6] != '(';
      }
    }
    assert s[6..12] == "D81001";
    PracticeCodeAt(s, 5);
  }

  /** Of two bracketed codes the later wins, cut to five digits. */
  lemma PracticeCodeLastWins(s: string)
    requires s == "(A12345) (B654321)"
    ensures PracticeCode(s) == Some("B65432")
  {
    hide PracticeCode, LastPracticeBefore, LineEnd;
    LineEndWhole(s);
    assert s[9] == '(' && s[10] == 'B' && s[11] == '6' && s[17] == ')';
    assert IsDigit(s[12]) && IsDigit(s[13]) && IsDigit(s[14]) && IsDigit(s[15]) && IsDigit(s[16]);
    assert DigitsEnd(s, 17) == 17;
    assert DigitsEnd(s, 16) == 17;
    assert PracticeAt(s, 9);
    assert s[10..16] == "B65432";
    forall q | 9 < q < |s| ensures !PracticeAt(s, q) {
      if q + 7 <= |s| {
        assert s[q] != '(';
      }
    }
    PracticeCodeAt(s, 9);
  }

  // ---------------------------------------------------------------------------
  // Normalising

  /** The record before reshaping. */
  function Prepared(row: Row, date: Date, result: Field, direction: Field, practice: string): Row {
    row["month" := Text(MonthLabel(date))]["dob" := Text("")]["age" := Text("")]["sex" := Text("")]
      ["test_result" := result]["direction" := direction]["requestor_organisation_code" := Text(practice)]
  }

  /** The output columns are distinct. */
  lemma MappingFacts()
    ensures DistinctTargets(Mapping)
    ensures Targets(Mapping) == {"month", "test_code", "test_result", "practice_id", "age", "sex", "direction", "result_category"}
  {
    assert Mapping[0].0 == "month" && Mapping[1].0 == "test_code" && Mapping[2].0 == "test_result";
    assert Mapping[3].0 == "practice_id" && Mapping[4].0 == "age" && Mapping[5].0 == "sex";
    assert Mapping[6].0 == "direction" && Mapping[7].0 == "result_category";
  }

  lemma PreparedCells(row: Row, date: Date, result: Field, direction: Field, practice: string)
    ensures var r := Prepared(row, date, result, direction, practice);
      && r["month"] == Text(MonthLabel(date)) && r["age"] == Text("") && r["sex"] == Text("")
      && r["test_result"] == result && r["direction"] == direction
      && r["requestor_organisation_code"] == Text(practice)
      && (forall k | k !in {"month", "dob", "age", "sex", "test_result", "direction", "requestor_organisation_code"} ::
            (k in r <==> k in row))
      && (forall k | k in row && k !in {"month", "dob", "age", "sex", "test_result", "direction", "requestor_organisation_code"} ::
            r[k] == row[k])
  {
  }

  lemma PreparedFields(row: Row, date: Date, result: Field, direction: Field, practice: string)
    requires Reshape(Prepared(row, date, result, direction, practice), Mapping).Ok?
    ensures var v := Reshape(Prepared(row, date, result, direction, practice), Mapping).value;
      && v.Keys == {"month", "test_code", "test_result", "practice_id", "age", "sex", "direction", "result_category"}
      && v["month"] == Text(MonthLabel(date))
      && "TestResultName" in row && "TestResult" in row
      && v["test_code"] == row["TestResultName"]
      && v["practice_id"] == Text(practice)
      && v["result_category"] == row["TestResult"]
      && v["age"] == Text("") && v["sex"] == Text("")
      && v["test_result"] == result && v["direction"] == direction
  {
    hide Prepared, Reshape;
    MappingFacts();
    var r := Prepared(row, date, result, direction, practice);
    PreparedCells(row, date, result, direction, practice);
    ReshapeAt(r, Mapping, 0);
    ReshapeAt(r, Mapping, 1);
    ReshapeAt(r, Mapping, 2);
    ReshapeAt(r, Mapping, 3);
    ReshapeAt(r, Mapping, 4);
    ReshapeAt(r, Mapping, 5);
    ReshapeAt(r, Mapping, 6);
    ReshapeAt(r, Mapping, 7);
  }

  /** The normaliser: the collection date "%d/%m/%Y" gives the month (one
      that does not parse drops the row), the result is read with its
      direction, the practice code is taken from the requester's name (a
      name without one drops the row), and the row is reshaped, carrying
      the lab's own verdict as `result_category`. */
  function Normalise(row: Row, p: Parsers): (r: Stage<Row>)
    ensures r.Keep? ==> r.value.Keys == {"month", "test_code", "test_result", "practice_id", "age", "sex", "direction", "result_category"}
    ensures r.Keep? ==>
      && "CollectedDateTime" in row && row["CollectedDateTime"].Text?
      && p.strptime(row["CollectedDateTime"].s, "%d/%m/%Y").Some?
      && r.value["month"] == Text(MonthLabel(p.strptime(row["CollectedDateTime"].s, "%d/%m/%Y").value))
    ensures r.Keep? ==>
      && "SubmitterName" in row && row["SubmitterName"].Text?
      && PracticeCode(row["SubmitterName"].s).Some?
      && r.value["practice_id"] == Text(PracticeCode(row["SubmitterName"].s).value)
    ensures r.Keep? ==>
      && "TestResultName" in row && "TestResult" in row
      && r.value["test_code"] == row["TestResultName"]
      && r.value["result_category"] == row["TestResult"]
    ensures r.Keep? ==>
      && "TestResultValue" in row && row["TestResultValue"].Text?
      && (r.value["test_result"], r.value["direction"]) == ReadResult(row["TestResultValue"].s, p.float)
    ensures ("TestResultValue" in row && row["TestResultValue"].Text? && "SubmitterName" in row && row["SubmitterName"].Text?
      && "CollectedDateTime" in row && row["CollectedDateTime"].Text?
      && p.strptime(row["CollectedDateTime"].s, "%d/%m/%Y").Some?
      && PracticeCode(row["SubmitterName"].s).None?) ==> r == Skip
  {
    if "TestResultValue" !in row || "CollectedDateTime" !in row then Raise(KeyError)
    else
      match row["CollectedDateTime"]
      case Text(d) =>
        (match p.strptime(d, "%d/%m/%Y")
         case None => Skip
         case Some(date) =>
           match row["TestResultValue"]
           case Text(s) =>
             var (result, direction) := ReadResult(s, p.float);
             if "SubmitterName" !in row then Raise(KeyError)
             else
               (match row["SubmitterName"]
                case Text(name) =>
                  (match PracticeCode(name)
                   case None => Skip
                   case Some(practice) =>
                     var out := Reshape(Prepared(row, date, result, direction, practice), Mapping);
                     if out.Ok? then
                       PreparedFields(row, date, result, direction, practice);
                       Keep(out.value)
                     else Raise(out.error))
                case _ => Raise(TypeError))
           case _ => Raise(AttributeError))
      case _ => Raise(TypeError)
  }

  // ---------------------------------------------------------------------------
  // Classifying

  /** The lab's verdict as a category: "High" and "High Critical" are over
      range, "Low" and "Low Critical" under, "Normal" within, an empty
      verdict means no range, and any other verdict (such as "Abnormal")
      leaves no category at all. */
  function Verdict(reported: Field): (r: Field)
    ensures r.Code? ==> r.c in {OverRange, UnderRange, WithinRange, ErrNoRefRange}
    ensures r == Code(OverRange) <==> reported in {Text("High"), Text("High Critical")}
    ensures r == Code(UnderRange) <==> reported in {Text("Low"), Text("Low Critical")}
    ensures r == Code(WithinRange) <==> reported == Text("Normal")
    ensures r == Code(ErrNoRefRange) <==> reported == Text("")
    ensures !r.Code? ==> r == Null
  {
    if reported == Text("High") || reported == Text("High Critical") then Code(OverRange)
    else if reported == Text("Low") || reported == Text("Low Critical") then Code(UnderRange)
    else if reported == Text("Normal") then Code(WithinRange)
    else if reported == Text("") then Code(ErrNoRefRange)
    else Null
  }

  /** The classifier: a result that is not a number is
      ERR_UNPARSEABLE_RESULT whatever the verdict; otherwise the verdict
      decides. */
  function Classify(row: Row): (r: Stage<Row>)
    ensures r.Keep? <==> "test_result" in row && ("result_category" in row || !row["test_result"].Num?)
    ensures !r.Keep? ==> r == Raise(KeyError)
    ensures r.Keep? ==> r.value.Keys == row.Keys + {"result_category"}
    ensures r.Keep? && !row["test_result"].Num? ==> r.value["result_category"] == Code(ErrUnparseableResult)
    ensures r.Keep? && row["test_result"].Num? ==> r.value["result_category"] == Verdict(row["result_category"])
    ensures r.Keep? ==> forall k | k in row && k != "result_category" :: r.value[k] == row[k]
  {
    if "test_result" !in row then Raise(KeyError)
    else if !row["test_result"].Num? then Keep(row["result_category" := Code(ErrUnparseableResult)])
    else if "result_category" !in row then Raise(KeyError)
    else Keep(row["result_category" := Verdict(row["result_category"])])
  }

  function Rules(p: Parsers): Converter.Rules {
    Converter.Rules(
      Some((row: Row) => Drop(row)),
      Some((row: Row) => Normalise(row, p)),
      Some((row: Row, _: seq<RefRange>) => Classify(row)))
  }

  /** Every row Cambridge keeps passes the column check, and its category
      is the lab's verdict on a numeric result. */
  lemma KeptRowsComplete(row: Row, ranges: seq<RefRange>, floor: string, p: Parsers)
    ensures var s := Setup(Rules(p), ranges, floor, p.float);
      Outcome(row, s).Keep? ==> Complete(Outcome(row, s).value) && "test_result" in Outcome(row, s).value
    ensures var s := Setup(Rules(p), ranges, floor, p.float);
      Outcome(row, s).Keep? && Outcome(row, s).value["test_result"].Num? ==>
        "TestResult" in row && Outcome(row, s).value["result_category"] == Verdict(row["TestResult"])
  {
    hide Outcome;
    var s := Setup(Rules(p), ranges, floor, p.float);
    if Outcome(row, s).Keep? {
      OwnClassifierOutcome(row, s);
      var n := Call(s.rules.normalise, row);
      assert n == Normalise(row, p);
      assert HasCore(n.value);
      assert Outcome(row, s) == Classify(n.value);
    }
  }
}
