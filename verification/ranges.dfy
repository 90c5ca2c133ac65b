/** Loading a reference-range CSV (`get_ref_ranges`): its lines stably
    sorted by test code, with the header check of one of the two copies. */
module RangeTables {
  import opened Outcomes
  import opened Strings
  import opened Records
  import opened Classifier

  /** A reference-range CSV as read: the header's column names and the data
      lines, each line holding the seven cells the classifier reads. */
  datatype RangeCsv = RangeCsv(header: set<string>, lines: seq<RefRange>)

  const RequiredColumns: set<string> :=
    {"test", "min_adult_age", "max_adult_age", "low_F", "low_M", "high_F", "high_M"}

  /** Ascending by test code, as `sorted(..., key=lambda x: x["test"])`
      leaves them. */
  predicate SortedByTest(s: seq<RefRange>) {
    forall i | 0 < i < |s| :: !Less(s[i].test, s[i - 1].test)
  }

  /** Inserts `x` before the first element whose code is not below x's
      code, so that `x` stays ahead of the elements with its own code. */
  function Insert(x: RefRange, s: seq<RefRange>): (r: seq<RefRange>)
    ensures multiset(r) == multiset(s) + multiset{x}
    ensures |r| > 0 && (r[0] == x || (|s| > 0 && r[0] == s[0]))
  {
    if |s| == 0 || !Less(s[0].test, x.test) then [x] + s
    else
      assert s == [s[0]] + s[1..];
      [s[0]] + Insert(x, s[1..])
  }

  lemma {:induction false} InsertSorted(x: RefRange, s: seq<RefRange>)
    requires SortedByTest(s)
    ensures SortedByTest(Insert(x, s))
  {
    if |s| > 0 && Less(s[0].test, x.test) {
      InsertSorted(x, s[1..]);
      var r := Insert(x, s[1..]);
      if r[0] == x {
        LessTrichotomy(s[0].test, x.test);
      }
      assert Insert(x, s) == [s[0]] + r;
    }
  }

  /** Python's stable `sorted` by test code. */
  function SortByTest(rs: seq<RefRange>): (r: seq<RefRange>)
    ensures multiset(r) == multiset(rs)
    ensures |r| == |rs|
  {
    if |rs| == 0 then []
    else
      assert rs == [rs[0]] + rs[1..];
      Insert(rs[0], SortByTest(rs[1..]))
  }

  lemma {:induction false} SortByTestSorted(rs: seq<RefRange>)
    ensures SortedByTest(SortByTest(rs))
  {
    if |rs| > 0 {
      SortByTestSorted(rs[1..]);
      InsertSorted(rs[0], SortByTest(rs[1..]));
    }
  }

  /** The ranges of one code in a list with `x` in front. */
  lemma ForCodeCons(x: RefRange, s: seq<RefRange>, code: Field)
    ensures ForCode([x] + s, code) == (if Text(x.test) == code then [x] else []) + ForCode(s, code)
    ensures ForCode([x], code) == (if Text(x.test) == code then [x] else [])
  {
    assert ([x] + s)[1..] == s;
    assert [x][1..] == [];
  }

  /** Inserting `x` passes over only elements whose code is below x's, so
      no element with x's code is overtaken. */
  /** An element that sorts before `x` and has the code asked for means `x`
      does not have that code. */
  lemma LowerCodeExcludes(x: RefRange, y: RefRange, code: Field)
    requires Less(y.test, x.test) && Text(y.test) == code
    ensures ForCode([x], code) == []
  {
    ForCodeCons(x, [], code);
    if Text(x.test) == code {
      LessIrreflexive(x.test);
    }
  }

  /** Inserting past a lower first element keeps that element in front. */
  lemma InsertPast(x: RefRange, s: seq<RefRange>, code: Field)
    requires |s| > 0 && Less(s[0].test, x.test)
    ensures ForCode(Insert(x, s), code) ==
      (if Text(s[0].test) == code then [s[0]] else []) + ForCode(Insert(x, s[1..]), code)
  {
    assert Insert(x, s) == [s[0]] + Insert(x, s[1..]);
    ForCodeCons(s[0], Insert(x, s[1..]), code);
  }

  /** Two adjacent blocks of which one commutes with the other may be
      swapped in front of a third. */
  lemma Rearrange(a: seq<RefRange>, b: seq<RefRange>, c: seq<RefRange>)
    requires a + b == b + a
    ensures a + (b + c) == b + (a + c)
  {
    assert a + (b + c) == (a + b) + c;
    assert b + (a + c) == (b + a) + c;
  }

  /** Of two ranges where the first's code sorts below the second's, at
      most one carries any given code. */
  lemma SwapSingles(x: RefRange, y: RefRange, code: Field)
    requires Less(y.test, x.test)
    ensures ForCode([y], code) + ForCode([x], code) == ForCode([x], code) + ForCode([y], code)
  {
    if Text(y.test) == code {
      LowerCodeExcludes(x, y, code);
    } else {
      ForCodeCons(y, [], code);
    }
  }

  /** Splits off the first element of `s` under `ForCode`. */
  lemma ForCodeHead(s: seq<RefRange>, code: Field)
    requires |s| > 0
    ensures ForCode(s, code) == ForCode([s[0]], code) + ForCode(s[1..], code)
  {
    assert s == [s[0]] + s[1..];
    ForCodeAppend([s[0]], s[1..], code);
  }

  /** One step of `InsertForCode`: `x` is inserted past a lower first
      element. */
  lemma InsertForCodeStep(x: RefRange, s: seq<RefRange>, code: Field)
    requires |s| > 0 && Less(s[0].test, x.test)
    requires ForCode(Insert(x, s[1..]), code) == ForCode([x], code) + ForCode(s[1..], code)
    ensures ForCode(Insert(x, s), code) == ForCode([x], code) + ForCode(s, code)
  {
    var t := Insert(x, s[1..]);
    assert Insert(x, s)[1..] == t && Insert(x, s)[0] == s[0];
    ForCodeHead(Insert(x, s), code);
    ForCodeHead(s, code);
    SwapSingles(x, s[0], code);
    Rearrange(ForCode([s[0]], code), ForCode([x], code), ForCode(s[1..], code));
  }

  lemma {:induction false} InsertForCode(x: RefRange, s: seq<RefRange>, code: Field)
    ensures ForCode(Insert(x, s), code) == ForCode([x], code) + ForCode(s, code)
  {
    if |s| > 0 && Less(s[0].test, x.test) {
      InsertForCode(x, s[1..], code);
      InsertForCodeStep(x, s, code);
    } else {
      assert Insert(x, s) == [x] + s;
      ForCodeCons(x, s, code);
    }
  }

  /** The sort is stable: the ranges of any one code keep their file order. */
  lemma {:induction false} SortKeepsCodeOrder(rs: seq<RefRange>, code: Field)
    ensures ForCode(SortByTest(rs), code) == ForCode(rs, code)
  {
    if |rs| > 0 {
      SortKeepsCodeOrder(rs[1..], code);
      InsertForCode(rs[0], SortByTest(rs[1..]), code);
      assert rs == [rs[0]] + rs[1..];
      ForCodeCons(rs[0], rs[1..], code);
    }
  }

  /** Sorting the range list changes no outcome of the classifier. */
  lemma SortChangesNoOutcome(row: Row, rs: seq<RefRange>, cache: set<Field>, float: FloatParser)
    ensures Convert(row, SortByTest(rs), cache, float) == Convert(row, rs, cache, float)
  {
    if ReadQuery(row).Ok? {
      SortKeepsCodeOrder(rs, ReadQuery(row).value.testCode);
    }
  }

  /** `get_ref_ranges` in the intermediate-file module: the lines sorted by
      test code, then the first line's columns checked against the seven
      required ones. */
  function GetRefRangesChecked(csv: RangeCsv): (r: Result<seq<RefRange>>)
    ensures r.Ok? <==> |csv.lines| > 0 && csv.header == RequiredColumns
    ensures r.Err? ==> r.error in {IndexError, KeyError, AssertionError}
    ensures |csv.lines| == 0 ==> r == Err(IndexError)
    ensures r.Ok? ==> multiset(r.value) == multiset(csv.lines)
  {
    if |csv.lines| > 0 && "test" !in csv.header then Err(KeyError)
    else if |csv.lines| == 0 then Err(IndexError)
    else if csv.header != RequiredColumns then Err(AssertionError)
    else Ok(SortByTest(csv.lines))
  }

  /** `get_ref_ranges` in the anonymiser module: the lines sorted by test
      code, with no header check, so an empty CSV gives an empty list. */
  function GetRefRanges(csv: RangeCsv): (r: Result<seq<RefRange>>)
    ensures r.Ok? <==> |csv.lines| == 0 || "test" in csv.header
    ensures r.Err? ==> r.error == KeyError
    ensures r.Ok? ==> multiset(r.value) == multiset(csv.lines)
  {
    if |csv.lines| > 0 && "test" !in csv.header then Err(KeyError)
    else Ok(SortByTest(csv.lines))
  }

  /** Both loaders return the CSV's lines as a sorted permutation that keeps
      each code's lines in file order, and they agree whenever the checked
      one succeeds. */
  lemma LoadedRanges(csv: RangeCsv, code: Field)
    ensures GetRefRanges(csv).Ok? ==>
      SortedByTest(GetRefRanges(csv).value)
      && ForCode(GetRefRanges(csv).value, code) == ForCode(csv.lines, code)
    ensures GetRefRangesChecked(csv).Ok? ==> GetRefRangesChecked(csv) == GetRefRanges(csv)
  {
    SortByTestSorted(csv.lines);
    SortKeepsCodeOrder(csv.lines, code);
  }

  /** The ranges a converter uses: those of the CSV when the configured path
      is a file, and none otherwise (`os.path.isfile`). */
  function LoadRanges(csv: Option<RangeCsv>, checked: bool): Result<seq<RefRange>> {
    match csv
    case None => Ok([])
    case Some(c) => if checked then GetRefRangesChecked(c) else GetRefRanges(c)
  }
}
