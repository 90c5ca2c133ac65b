/** The pipeline's constants: result codes and their names, suppression,
    the range ceiling, the required output columns, the alias columns per
    lab, the date floor and the month categories. Both settings modules of
    the repository define the same values; one definition serves both. */
module Settings {
  import opened Strings
  import opened Dates
  import opened Outcomes

  /** The nine result categories a classified row can carry. */
  datatype ResultCode =
    | WithinRange
    | UnderRange
    | OverRange
    | ErrNoRefRange
    | ErrUnparseableResult
    | ErrInvalidSex
    | ErrInvalidRangeWithDirection
    | ErrDiscardedAge
    | ErrInvalidRefRange

  /** The integer each category is stored as. */
  function Value(c: ResultCode): int {
    match c
    case WithinRange => 0
    case UnderRange => -1
    case OverRange => 1
    case ErrNoRefRange => 2
    case ErrUnparseableResult => 3
    case ErrInvalidSex => 4
    case ErrInvalidRangeWithDirection => 5
    case ErrDiscardedAge => 6
    case ErrInvalidRefRange => 7
  }

  /** Reading a stored integer back as a category (the categorical column
      type turns anything else into a missing value). */
  function FromValue(v: int): (r: Option<ResultCode>)
    ensures r.Some? ==> Value(r.value) == v
    ensures forall c :: Value(c) == v ==> r == Some(c)
  {
    if v == 0 then Some(WithinRange)
    else if v == -1 then Some(UnderRange)
    else if v == 1 then Some(OverRange)
    else if v == 2 then Some(ErrNoRefRange)
    else if v == 3 then Some(ErrUnparseableResult)
    else if v == 4 then Some(ErrInvalidSex)
    else if v == 5 then Some(ErrInvalidRangeWithDirection)
    else if v == 6 then Some(ErrDiscardedAge)
    else if v == 7 then Some(ErrInvalidRefRange)
    else None
  }

  /** The nine codes are pairwise distinct integers. */
  lemma ValuesDistinct(a: ResultCode, b: ResultCode)
    requires Value(a) == Value(b)
    ensures a == b
  {
    assert FromValue(Value(a)) == Some(a) && FromValue(Value(b)) == Some(b);
  }

  const ErrorCodeNames: map<int, string> := map[
    0 := "Within range",
    -1 := "Under range",
    1 := "Over range",
    2 := "No ref range",
    3 := "Non-numeric result",
    4 := "Unknown sex",
    5 := "Insufficient data",
    6 := "Underage for ref range",
    7 := "Invalid ref range"
  ]

  /** Every code has a name, and nothing but a code has one. */
  lemma ErrorCodeNamesExact()
    ensures forall c :: Value(c) in ErrorCodeNames
    ensures forall v :: v in ErrorCodeNames <==> FromValue(v).Some?
  {
  }

  const RangeCeiling: real := 99999.0

  const SuppressUnder: nat := 6

  /** "1-" followed by SUPPRESS_UNDER - 1. */
  const SuppressString: string := "1-" + Dec(SuppressUnder - 1)

  lemma SuppressStringValue()
    ensures SuppressUnder == 6 && SuppressString == "1-5"
  {
  }

  /** The output columns, in order. */
  const RequiredNormalisedKeys: seq<string> := ["month", "test_code", "practice_id", "result_category"]

  /** The alias columns of the test-code mapping sheet, per lab. */
  const TestCodeMappings: map<string, seq<string>> := map[
    "nd" := ["nd_testcode"],
    "cornwall" := ["cornwall_testcode"],
    "plymouth" := ["plym_testcode", "other_plym_codes"],
    "cambridge" := []
  ]

  lemma TestCodeMappingsShape()
    ensures "exeter" !in TestCodeMappings
    ensures TestCodeMappings["cambridge"] == []
    ensures forall lab | lab in TestCodeMappings && lab != "cambridge" :: |TestCodeMappings[lab]| > 0
  {
  }

  /** DATE_FLOOR: five years before today. */
  function DateFloor(today: Date): (f: Date)
    requires Valid(today) && today.year >= 5
    ensures Valid(f) && f.day <= today.day
    ensures MonthIndex(f) == MonthIndex(today) - 60
    ensures Before(f, today)
  {
    MinusYears(today, 5)
  }

  /** DATE_FLOOR rendered "YYYY/MM/DD", as `skip_old_data` compares it. */
  function DateFloorText(today: Date): string
    requires Valid(today) && today.year >= 5
  {
    Text(DateFloor(today))
  }

  /** The label of the month with index `k` ("YYYY/MM/01"). */
  function IndexLabel(k: nat): string {
    Text(Date(k / 12, k % 12 + 1, 1))
  }

  lemma IndexLabelIncreasing(k: nat, k': nat)
    requires k < k' < 120000
    ensures Less(IndexLabel(k), IndexLabel(k'))
  {
    assert k / 12 <= k' / 12 < 10000;
    TextOrder(Date(k / 12, k % 12 + 1, 1), Date(k' / 12, k' % 12 + 1, 1));
  }

  /** `_date_dtype`: step one month at a time from `start` while the stepped
      date is not after today, labelling each "YYYY/MM/01". */
  function MonthCategories(start: Date, today: Date): seq<string>
    requires Valid(start) && Valid(today) && today.year < 9999
    decreases MonthIndex(today) - MonthIndex(start) + 1
  {
    if Before(today, start) then []
    else [MonthLabel(start)] + MonthCategories(AddMonth(start), today)
  }

  /** The month index of a valid date gives back its year and month. */
  lemma MonthIndexLabel(d: Date)
    requires Valid(d)
    ensures MonthLabel(d) == IndexLabel(MonthIndex(d))
  {
    var k := MonthIndex(d);
    assert k == 12 * d.year + (d.month - 1);
    assert k / 12 == d.year && k % 12 == d.month - 1;
  }

  /** The categories are the labels of consecutive months starting at the
      month of `start`, so they strictly increase. */
  lemma {:induction false} MonthCategoriesConsecutive(start: Date, today: Date)
    requires Valid(start) && Valid(today) && today.year < 9999
    ensures forall i | 0 <= i < |MonthCategories(start, today)| ::
      MonthCategories(start, today)[i] == IndexLabel(MonthIndex(start) + i)
    decreases MonthIndex(today) - MonthIndex(start) + 1
  {
    if !Before(today, start) {
      var next := AddMonth(start);
      MonthCategoriesConsecutive(next, today);
      MonthIndexLabel(start);
      var tail := MonthCategories(next, today);
      var r := MonthCategories(start, today);
      assert r == [MonthLabel(start)] + tail;
      forall i | 0 <= i < |r|
        ensures r[i] == IndexLabel(MonthIndex(start) + i)
      {
        if i > 0 {
          assert r[i] == tail[i - 1];
          assert tail[i - 1] == IndexLabel(MonthIndex(next) + (i - 1));
          assert MonthIndex(next) + (i - 1) == MonthIndex(start) + i;
        }
      }
    }
  }

  /** Consecutive month labels strictly increase as strings. */
  lemma LabelsIncrease(r: seq<string>, k: nat)
    requires k + |r| <= 120000
    requires forall m | 0 <= m < |r| :: r[m] == IndexLabel(k + m)
    ensures forall i, j | 0 <= i < j < |r| :: Less(r[i], r[j])
  {
    forall i, j | 0 <= i < j < |r|
      ensures Less(r[i], r[j])
    {
      IndexLabelIncreasing(k + i, k + j);
    }
  }

  /** The categories are in increasing string order, which is what makes
      the lexicographic maximum of the month column the latest month. */
  lemma MonthCategoriesIncrease(start: Date, today: Date)
    requires Valid(start) && Valid(today) && today.year < 9999
    ensures forall i, j | 0 <= i < j < |MonthCategories(start, today)| ::
      Less(MonthCategories(start, today)[i], MonthCategories(start, today)[j])
  {
    hide MonthCategories;
    var r := MonthCategories(start, today);
    MonthCategoriesBounded(start, today);
    MonthCategoriesConsecutive(start, today);
    assert MonthIndex(today) < 120000;
    if |r| > 0 {
      LabelsIncrease(r, MonthIndex(start));
    }
  }

  /** Every category lies between the month of `start` and today's month. */
  lemma {:induction false} MonthCategoriesBounded(start: Date, today: Date)
    requires Valid(start) && Valid(today) && today.year < 9999
    ensures |MonthCategories(start, today)| > 0 ==>
      MonthIndex(start) + |MonthCategories(start, today)| <= MonthIndex(today) + 1
    decreases MonthIndex(today) - MonthIndex(start) + 1
  {
    if !Before(today, start) {
      MonthCategoriesBounded(AddMonth(start), today);
    }
  }

  /** When the start day is not after today's day, every month from the
      start month to today's month is listed. */
  lemma {:induction false} MonthCategoriesCount(start: Date, today: Date)
    requires Valid(start) && Valid(today) && today.year < 9999
    requires start.day <= today.day && MonthIndex(start) <= MonthIndex(today) + 1
    ensures |MonthCategories(start, today)| == MonthIndex(today) - MonthIndex(start) + 1
    decreases MonthIndex(today) - MonthIndex(start) + 1
  {
    if !Before(today, start) {
      MonthCategoriesCount(AddMonth(start), today);
    }
  }

  /** With DATE_FLOOR as start, there are 61 categories, from the floor's
      month to the current month. */
  lemma FloorCategories(today: Date)
    requires Valid(today) && 5 <= today.year < 9999
    ensures var r := MonthCategories(DateFloor(today), today);
      |r| == 61 && r[0] == MonthLabel(DateFloor(today)) && r[60] == MonthLabel(today)
  {
    hide *;
    var f := DateFloor(today);
    MonthCategoriesCount(f, today);
    MonthCategoriesConsecutive(f, today);
    MonthIndexLabel(f);
    MonthIndexLabel(today);
    assert MonthIndex(f) + 60 == MonthIndex(today);
  }
}
