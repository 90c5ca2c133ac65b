/** The reference-range classifier `standard_convert_to_result`: it reads a
    row's test code, result, sex, age and direction, finds the reference
    range that applies, and sets `result_category` to one of the nine
    result codes. The two copies in the repository are line for line the
    same, so this one definition models both. */
module Classifier {
  import opened Outcomes
  import opened Settings
  import opened Records

  /** One line of a reference-range CSV, every cell as its raw text. */
  datatype RefRange = RefRange(
    test: string,
    minAge: string, maxAge: string,
    lowF: string, lowM: string,
    highF: string, highM: string)

  /** Python's `float()` on a string: a real, or `None` where it raises
      `ValueError`. The parser itself is not modelled. */
  type FloatParser = string -> Option<real>

  /** `int(x)` on a float: truncation toward zero. */
  function Trunc(x: real): (n: int)
    ensures 0.0 <= x ==> n as real <= x < n as real + 1.0
    ensures x < 0.0 ==> n as real - 1.0 < x <= n as real
  {
    if x >= 0.0 then x.Floor else -((-x).Floor)
  }

  // ---------------------------------------------------------------------------
  // The decision on one range

  /** Where a result lies relative to the closed interval [low, high],
      ignoring any direction marker. */
  function Position(result: real, low: real, high: real): ResultCode {
    if result > high then OverRange
    else if result < low then UnderRange
    else WithinRange
  }

  /** The comparison of a numeric result with both bounds, where the
      direction `"<"` or `">"` says the true value lies below or above the
      reported one. Also used by the Plymouth classifier. */
  function Compare(result: real, low: real, high: real, direction: Field): (c: ResultCode)
    ensures c in {WithinRange, UnderRange, OverRange, ErrInvalidRangeWithDirection}
    ensures c == OverRange ==> result > high
    ensures c == UnderRange ==> result < low && !(result > high)
    ensures c == WithinRange ==> low <= result <= high
  {
    if result > high then
      (if direction == Text("<") then ErrInvalidRangeWithDirection else OverRange)
    else if result < low then
      (if direction == Text(">") then ErrInvalidRangeWithDirection else UnderRange)
    else if !Truthy(direction)
      || (direction == Text("<") && low == 0.0)
      || (direction == Text(">") && high == RangeCeiling)
    then WithinRange
    else ErrInvalidRangeWithDirection
  }

  /** The direction rules: without a marker the comparison is the plain
      interval position; a marker only ever turns an outcome into
      ERR_INVALID_RANGE_WITH_DIRECTION, and does so exactly when the
      reported value cannot be placed: a "<" value above the range, a ">"
      value below it, or a marked value inside a range that is not open on
      the marker's side. */
  lemma CompareDirection(result: real, low: real, high: real, direction: Field)
    ensures !Truthy(direction) ==> Compare(result, low, high, direction) == Position(result, low, high)
    ensures Compare(result, low, high, direction) != ErrInvalidRangeWithDirection ==>
      Compare(result, low, high, direction) == Position(result, low, high)
    ensures Compare(result, low, high, direction) == ErrInvalidRangeWithDirection <==>
      (Position(result, low, high) == OverRange && direction == Text("<"))
      || (Position(result, low, high) == UnderRange && direction == Text(">"))
      || (Position(result, low, high) == WithinRange && Truthy(direction)
          && !(direction == Text("<") && low == 0.0)
          && !(direction == Text(">") && high == RangeCeiling))
  {
  }

  /** The comparison as lines 117-153 write it. The warning for a marked
      value inside a band that is not open on the marker's side leaves out
      the row, so `log_warning` takes the message as the row and the lower
      bound as the message, and appending the message suffix to that number
      raises `TypeError`. Every other branch returns the intended code. */
  function CompareAsWritten(result: real, low: real, high: real, direction: Field): (r: Result<ResultCode>)
    ensures r.Err? <==> (low <= result <= high && Compare(result, low, high, direction) == ErrInvalidRangeWithDirection)
    ensures r.Err? ==> r.error == TypeError
    ensures r.Ok? ==> r.value == Compare(result, low, high, direction)
  {
    if result > high then
      Ok(if direction == Text("<") then ErrInvalidRangeWithDirection else OverRange)
    else if result < low then
      Ok(if direction == Text(">") then ErrInvalidRangeWithDirection else UnderRange)
    else if !Truthy(direction)
      || (direction == Text("<") && low == 0.0)
      || (direction == Text(">") && high == RangeCeiling)
    then Ok(WithinRange)
    else Err(TypeError)
  }

  /** A result reported as "<5" against the range 0.5-10: the intended
      comparison gives ERR_INVALID_RANGE_WITH_DIRECTION, the comparison as
      written raises. */
  lemma MarkedInsideBandRaises()
    ensures Compare(5.0, 0.5, 10.0, Text("<")) == ErrInvalidRangeWithDirection
    ensures CompareAsWritten(5.0, 0.5, 10.0, Text("<")) == Err(TypeError)
  {
  }

  /** Lines 104-158 on the range whose age band holds the row: the row's
      sex selects a pair of bounds; a sex other than M or F, or an empty
      bound of the selected pair, ends the scan with an error code; a bound
      that is not a number raises `ValueError`. */
  function Decide(rr: RefRange, result: real, sex: Field, direction: Field, float: FloatParser): (r: Result<ResultCode>)
    ensures r.Err? ==> r.error == ValueError
    ensures r.Ok? ==> r.value !in {ErrNoRefRange, ErrUnparseableResult, ErrDiscardedAge}
    ensures sex != Text("M") && sex != Text("F") ==> r == Ok(ErrInvalidSex)
  {
    if sex != Text("M") && sex != Text("F") then Ok(ErrInvalidSex)
    else
      var (lo, hi) := if sex == Text("M") then (rr.lowM, rr.highM) else (rr.lowF, rr.highF);
      if lo == "" || hi == "" then Ok(ErrInvalidRefRange)
      else
        match (float(lo), float(hi))
        case (Some(l), Some(h)) => Ok(Compare(result, l, h, direction))
        case _ => Err(ValueError)
  }

  /** For an M or F row, the bounds of that sex decide: both present and
      numeric gives the comparison, either empty gives
      ERR_INVALID_REF_RANGE. The other sex's bounds play no part. */
  lemma DecideBySex(rr: RefRange, result: real, sex: Field, direction: Field, float: FloatParser)
    requires sex == Text("M") || sex == Text("F")
    ensures var (lo, hi) := if sex == Text("M") then (rr.lowM, rr.highM) else (rr.lowF, rr.highF);
      && ((lo == "" || hi == "") <==> Decide(rr, result, sex, direction, float) == Ok(ErrInvalidRefRange))
      && (lo != "" && hi != "" && float(lo).Some? && float(hi).Some? ==>
            Decide(rr, result, sex, direction, float)
              == Ok(Compare(result, float(lo).value, float(hi).value, direction)))
    ensures forall rr': RefRange | rr'.lowM == rr.lowM && rr'.highM == rr.highM
                      && rr'.lowF == rr.lowF && rr'.highF == rr.highF ::
      Decide(rr', result, sex, direction, float) == Decide(rr, result, sex, direction, float)
  {
  }

  /** Lines 100-102: `age >= int(float(min)) and age < int(float(max))`.
      The lower limit is parsed first; comparing a non-number age raises
      `TypeError`; the upper limit is parsed only when the first comparison
      holds. */
  function InBand(rr: RefRange, age: Field, float: FloatParser): (r: Result<bool>)
    ensures r == Ok(true) <==>
      float(rr.minAge).Some? && float(rr.maxAge).Some? && age.Num?
      && Trunc(float(rr.minAge).value) as real <= age.r < Trunc(float(rr.maxAge).value) as real
    ensures r.Err? ==> r.error in {ValueError, TypeError}
    ensures float(rr.minAge).None? ==> r == Err(ValueError)
    ensures float(rr.minAge).Some? && !age.Num? ==> r == Err(TypeError)
    ensures float(rr.minAge).Some? && age.Num? ==>
      (r == Err(ValueError) <==> age.r >= Trunc(float(rr.minAge).value) as real && float(rr.maxAge).None?)
  {
    match float(rr.minAge)
    case None => Err(ValueError)
    case Some(lo) =>
      if !age.Num? then Err(TypeError)
      else if !(age.r >= Trunc(lo) as real) then Ok(false)
      else
        match float(rr.maxAge)
        case None => Err(ValueError)
        case Some(hi) => Ok(age.r < Trunc(hi) as real)
  }

  // ---------------------------------------------------------------------------
  // The reference definition

  /** The five cells the classifier reads (lines 75-79). */
  datatype Query = Query(testCode: Field, result: Field, sex: Field, age: Field, direction: Field)

  const QueryKeys: set<string> := {"test_code", "test_result", "sex", "age", "direction"}

  function ReadQuery(row: Row): (r: Result<Query>)
    ensures r.Ok? <==> QueryKeys <= row.Keys
    ensures r.Err? ==> r.error == KeyError
  {
    if QueryKeys <= row.Keys then
      Ok(Query(row["test_code"], row["test_result"], row["sex"], row["age"], row["direction"]))
    else Err(KeyError)
  }

  /** The query depends on nothing but the five cells it reads; in
      particular not on `result_category`, so a classified row reads back
      the same query. */
  lemma ReadQueryLocal(row: Row, row': Row)
    requires forall k | k in QueryKeys :: (k in row <==> k in row') && (k in row ==> row[k] == row'[k])
    ensures ReadQuery(row) == ReadQuery(row')
  {
    if QueryKeys <= row.Keys {
      assert QueryKeys <= row'.Keys;
    }
  }

  /** The ranges that carry a test code, in list order. */
  function ForCode(ranges: seq<RefRange>, code: Field): (r: seq<RefRange>)
    ensures |r| <= |ranges|
    ensures forall i | 0 <= i < |r| :: Text(r[i].test) == code
    ensures |r| == 0 <==> forall i | 0 <= i < |ranges| :: Text(ranges[i].test) != code
  {
    if |ranges| == 0 then []
    else (if Text(ranges[0].test) == code then [ranges[0]] else []) + ForCode(ranges[1..], code)
  }

  lemma {:induction false} ForCodeAppend(a: seq<RefRange>, b: seq<RefRange>, code: Field)
    ensures ForCode(a + b, code) == ForCode(a, code) + ForCode(b, code)
  {
    if |a| > 0 {
      assert (a + b)[1..] == a[1..] + b;
      ForCodeAppend(a[1..], b, code);
    } else {
      assert a + b == b;
    }
  }

  /** The first range (of ranges all carrying the row's code) whose age
      band holds the row, unless a band check raises first. */
  function FirstInBand(rs: seq<RefRange>, age: Field, float: FloatParser): Result<Option<RefRange>> {
    if |rs| == 0 then Ok(None)
    else
      match InBand(rs[0], age, float)
      case Err(e) => Err(e)
      case Ok(b) => if b then Ok(Some(rs[0])) else FirstInBand(rs[1..], age, float)
  }

  lemma {:induction false} FirstInBandAppend(a: seq<RefRange>, b: seq<RefRange>, age: Field, float: FloatParser)
    requires FirstInBand(a, age, float) == Ok(None)
    ensures FirstInBand(a + b, age, float) == FirstInBand(b, age, float)
  {
    if |a| > 0 {
      assert (a + b)[0] == a[0];
      assert (a + b)[1..] == a[1..] + b;
      FirstInBandAppend(a[1..], b, age, float);
    } else {
      assert a + b == b;
    }
  }

  /** What `standard_convert_to_result` computes for a query when the cache
      of codes without ranges plays no part: no range with the code gives
      ERR_NO_REF_RANGE; a non-float result then gives
      ERR_UNPARSEABLE_RESULT; otherwise the first range with the code whose
      age band holds the row decides, and ERR_DISCARDED_AGE when none does. */
  function Classify(q: Query, ranges: seq<RefRange>, float: FloatParser): Result<ResultCode> {
    var mine := ForCode(ranges, q.testCode);
    if |mine| == 0 then Ok(ErrNoRefRange)
    else if !q.result.Num? then Ok(ErrUnparseableResult)
    else
      match FirstInBand(mine, q.age, float)
      case Err(e) => Err(e)
      case Ok(None) => Ok(ErrDiscardedAge)
      case Ok(Some(rr)) => Decide(rr, q.result.r, q.sex, q.direction, float)
  }

  /** ERR_NO_REF_RANGE arises exactly when no range carries the code; in
      particular an empty range list gives it for every row, even one with a
      non-numeric result. */
  lemma ClassifyNoRef(q: Query, ranges: seq<RefRange>, float: FloatParser)
    ensures Classify(q, ranges, float) == Ok(ErrNoRefRange)
      <==> forall i | 0 <= i < |ranges| :: Text(ranges[i].test) != q.testCode
    ensures Classify(q, [], float) == Ok(ErrNoRefRange)
  {
  }

  /** When some range carries the code, a non-float result is
      ERR_UNPARSEABLE_RESULT whatever the age, sex or direction, and it is
      the only way to get that code. */
  lemma ClassifyUnparseable(q: Query, ranges: seq<RefRange>, float: FloatParser)
    ensures Classify(q, ranges, float) == Ok(ErrUnparseableResult)
      <==> (exists i | 0 <= i < |ranges| :: Text(ranges[i].test) == q.testCode) && !q.result.Num?
  {
    if exists i | 0 <= i < |ranges| :: Text(ranges[i].test) == q.testCode {
      assert |ForCode(ranges, q.testCode)| > 0;
    }
  }

  /** The first range in list order that carries the code and whose age
      band holds the row decides the outcome, provided the earlier ranges
      with the code were checked without error. */
  lemma {:induction false} ClassifyFirstMatchDecides(q: Query, ranges: seq<RefRange>, float: FloatParser, i: nat)
    requires i < |ranges| && q.result.Num?
    requires Text(ranges[i].test) == q.testCode && InBand(ranges[i], q.age, float) == Ok(true)
    requires forall j | 0 <= j < i && Text(ranges[j].test) == q.testCode :: InBand(ranges[j], q.age, float) == Ok(false)
    ensures Classify(q, ranges, float) == Decide(ranges[i], q.result.r, q.sex, q.direction, float)
  {
    assert ranges == ranges[..i] + ranges[i..];
    ForCodeAppend(ranges[..i], ranges[i..], q.testCode);
    BandsMiss(ranges[..i], q, float);
    var rest := ForCode(ranges[i..], q.testCode);
    assert rest == [ranges[i]] + ForCode(ranges[i + 1..], q.testCode) by {
      assert ranges[i..][0] == ranges[i] && ranges[i..][1..] == ranges[i + 1..];
    }
    FirstInBandAppend(ForCode(ranges[..i], q.testCode), rest, q.age, float);
  }

  /** Ranges with the code whose bands all miss leave the scan undecided. */
  lemma {:induction false} BandsMiss(rs: seq<RefRange>, q: Query, float: FloatParser)
    requires forall j | 0 <= j < |rs| && Text(rs[j].test) == q.testCode :: InBand(rs[j], q.age, float) == Ok(false)
    ensures FirstInBand(ForCode(rs, q.testCode), q.age, float) == Ok(None)
  {
    if |rs| > 0 {
      forall j | 0 <= j < |rs[1..]| && Text(rs[1..][j].test) == q.testCode
        ensures InBand(rs[1..][j], q.age, float) == Ok(false)
      {
        assert rs[1..][j] == rs[j + 1];
      }
      BandsMiss(rs[1..], q, float);
      var f := ForCode(rs, q.testCode);
      if Text(rs[0].test) == q.testCode {
        assert f == [rs[0]] + ForCode(rs[1..], q.testCode);
        assert InBand(rs[0], q.age, float) == Ok(false);
        assert f[0] == rs[0] && f[1..] == ForCode(rs[1..], q.testCode);
        assert FirstInBand(f, q.age, float) == FirstInBand(f[1..], q.age, float);
      } else {
        assert f == ForCode(rs[1..], q.testCode);
      }
    }
  }

  /** When ranges carry the code, the result is numeric, and no band holds
      the row, the outcome is ERR_DISCARDED_AGE. */
  lemma ClassifyDiscardedAge(q: Query, ranges: seq<RefRange>, float: FloatParser)
    requires q.result.Num?
    requires exists i | 0 <= i < |ranges| :: Text(ranges[i].test) == q.testCode
    requires forall j | 0 <= j < |ranges| && Text(ranges[j].test) == q.testCode :: InBand(ranges[j], q.age, float) == Ok(false)
    ensures Classify(q, ranges, float) == Ok(ErrDiscardedAge)
  {
    BandsMiss(ranges, q, float);
  }

  // ---------------------------------------------------------------------------
  // The scan as written

  /** Codes cached as having no range; sound for a range list when none of
      them occurs in it. */
  predicate CacheSound(cache: set<Field>, ranges: seq<RefRange>) {
    forall c | c in cache :: |ForCode(ranges, c)| == 0
  }

  /** The row with `result_category` set to the outcome, or the exception. */
  function WithCategory(row: Row, outcome: Result<ResultCode>): Result<Row> {
    match outcome
    case Ok(c) => Ok(row["result_category" := Code(c)])
    case Err(e) => Err(e)
  }

  /** What one call of `standard_convert_to_result` does, with the
      module-level cache `NO_REF_RANGES` passed in and returned: a cached
      code gives ERR_NO_REF_RANGE at once; otherwise the outcome is
      `Classify`, and the code is cached when no range carried it. Only
      `result_category` is written. */
  function Convert(row: Row, ranges: seq<RefRange>, cache: set<Field>, float: FloatParser): (Result<Row>, set<Field>) {
    match ReadQuery(row)
    case Err(e) => (Err(e), cache)
    case Ok(q) =>
      if q.testCode in cache then (Ok(row["result_category" := Code(ErrNoRefRange)]), cache)
      else if |ForCode(ranges, q.testCode)| == 0 then (Ok(row["result_category" := Code(ErrNoRefRange)]), cache + {q.testCode})
      else (WithCategory(row, Classify(q, ranges, float)), cache)
  }

  /** For a fixed range list the cache never changes an outcome: a code is
      cached only when no range carries it, and then the scan would give
      ERR_NO_REF_RANGE too. */
  lemma CacheNeverChangesOutcome(row: Row, ranges: seq<RefRange>, cache: set<Field>, float: FloatParser)
    requires CacheSound(cache, ranges)
    ensures CacheSound(Convert(row, ranges, cache, float).1, ranges)
    ensures ReadQuery(row).Ok? ==>
      Convert(row, ranges, cache, float).0 == WithCategory(row, Classify(ReadQuery(row).value, ranges, float))
    ensures Convert(row, ranges, cache, float).0 == Convert(row, ranges, {}, float).0
  {
  }

  /** Classifying a classified row again, with the cache the first call
      left, gives the same row back: the classifier reads nothing it
      writes. */
  lemma ReclassifyStable(row: Row, ranges: seq<RefRange>, cache: set<Field>, float: FloatParser)
    requires CacheSound(cache, ranges)
    requires Convert(row, ranges, cache, float).0.Ok?
    ensures var (out, cache') := Convert(row, ranges, cache, float);
      Convert(out.value, ranges, cache', float).0 == out
  {
    var (out, cache') := Convert(row, ranges, cache, float);
    CacheNeverChangesOutcome(row, ranges, cache, float);
    ReadQueryLocal(row, out.value);
    var c := out.value["result_category"];
    assert out.value == row["result_category" := c];
    assert out.value["result_category" := c] == out.value;
  }

  /** The ranges with the code among the first `i + 1`. */
  lemma ForCodeStep(ranges: seq<RefRange>, i: nat, code: Field)
    requires i < |ranges|
    ensures Text(ranges[i].test) != code ==> ForCode(ranges[..i + 1], code) == ForCode(ranges[..i], code)
    ensures Text(ranges[i].test) == code ==> ForCode(ranges[..i + 1], code) == ForCode(ranges[..i], code) + [ranges[i]]
  {
    var rr := ranges[i];
    assert ranges[..i + 1] == ranges[..i] + [rr];
    ForCodeAppend(ranges[..i], [rr], code);
    assert [rr][1..] == [];
    assert ForCode([rr], code) == if Text(rr.test) == code then [rr] else [];
  }

  /** One step of the scan over a range with the row's code, when the
      earlier ranges with the code all missed: its band check decides. */
  lemma {:induction false} BandStep(ranges: seq<RefRange>, i: nat, q: Query, float: FloatParser)
    requires i < |ranges| && Text(ranges[i].test) == q.testCode
    requires FirstInBand(ForCode(ranges[..i], q.testCode), q.age, float) == Ok(None)
    ensures InBand(ranges[i], q.age, float).Err? ==>
      FirstInBand(ForCode(ranges, q.testCode), q.age, float) == Err(InBand(ranges[i], q.age, float).error)
    ensures InBand(ranges[i], q.age, float) == Ok(true) ==>
      FirstInBand(ForCode(ranges, q.testCode), q.age, float) == Ok(Some(ranges[i]))
    ensures InBand(ranges[i], q.age, float) == Ok(false) ==>
      FirstInBand(ForCode(ranges[..i + 1], q.testCode), q.age, float) == Ok(None)
  {
    var rr := ranges[i];
    var pre := ForCode(ranges[..i], q.testCode);
    assert ranges == ranges[..i] + ranges[i..];
    ForCodeAppend(ranges[..i], ranges[i..], q.testCode);
    assert ranges[i..] == [rr] + ranges[i + 1..];
    ForCodeAppend([rr], ranges[i + 1..], q.testCode);
    assert [rr][1..] == [];
    var tail := [rr] + ForCode(ranges[i + 1..], q.testCode);
    assert ForCode(ranges[i..], q.testCode) == tail;
    FirstInBandAppend(pre, tail, q.age, float);
    assert tail[0] == rr && tail[1..] == ForCode(ranges[i + 1..], q.testCode);
    ForCodeStep(ranges, i, q.testCode);
    FirstInBandAppend(pre, [rr], q.age, float);
  }

  /** `standard_convert_to_result(row, ranges)` as written: the scan of
      lines 86-164, with the cache passed in and returned. It computes
      exactly `Convert`; in particular the short-circuit for a change of
      test never fires, since it sits under the equality with the row's
      code and only that code is ever remembered. */
  method ConvertToResult(row: Row, ranges: seq<RefRange>, cache: set<Field>, float: FloatParser)
    returns (out: Result<Row>, cache': set<Field>)
    ensures (out, cache') == Convert(row, ranges, cache, float)
  {
    hide ForCode, InBand, Decide;
    var rq := ReadQuery(row);
    if rq.Err? {
      return Err(rq.error), cache;
    }
    var q := rq.value;
    if q.testCode in cache {
      return Ok(row["result_category" := Code(ErrNoRefRange)]), cache;
    }
    var lastMatched: Option<string> := None;
    var found := false;
    var code: Option<ResultCode> := None;
    var i := 0;
    while i < |ranges|
      invariant 0 <= i <= |ranges|
      invariant found <==> |ForCode(ranges[..i], q.testCode)| > 0
      invariant lastMatched == None || Text(lastMatched.value) == q.testCode
      invariant found ==> q.result.Num? && code == Some(ErrDiscardedAge)
      invariant found ==> FirstInBand(ForCode(ranges[..i], q.testCode), q.age, float) == Ok(None)
      invariant !found ==> code == None
    {
      var rr := ranges[i];
      ForCodeStep(ranges, i, q.testCode);
      if Text(rr.test) == q.testCode {
        found := true;
        if !q.result.Num? {
          assert |ForCode(ranges, q.testCode)| > 0;
          code := Some(ErrUnparseableResult);
          break;
        }
        if lastMatched.Some? && lastMatched.value != "" && lastMatched.value != rr.test {
          // the short-circuit for a change of test; it never fires
          code := Some(ErrNoRefRange);
          break;
        }
        lastMatched := Some(rr.test);
        BandStep(ranges, i, q, float);
        var inBand := InBand(rr, q.age, float);
        if inBand.Err? {
          return Err(inBand.error), cache;
        }
        if inBand.value {
          var d := Decide(rr, q.result.r, q.sex, q.direction, float);
          if d.Err? {
            return Err(d.error), cache;
          }
          code := Some(d.value);
          break;
        } else {
          code := Some(ErrDiscardedAge);
        }
      }
      i := i + 1;
    }
    assert ranges[..|ranges|] == ranges;
    if !found {
      assert i == |ranges|;
      cache' := cache + {q.testCode};
      code := Some(ErrNoRefRange);
    } else {
      cache' := cache;
    }
    out := Ok(row["result_category" := Code(code.value)]);
  }
}
