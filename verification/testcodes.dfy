/** Test-code normalisation (`_get_test_codes`, `_normalise_test_codes`):
    a hand-curated sheet maps each lab's local codes, through alias
    columns, to a canonical `datalab_testcode`; the combined dataset is
    joined on each alias column and then on the canonical column. The
    newer library tree returns the dataset unchanged when the mapping is
    empty; the older one always joins. */
module TestCodes {
  import opened Outcomes
  import opened Settings
  import opened Merge

  /** A line of the test-code sheet: whether its `show_in_app?` cell reads
      as True, and its other cells by column. */
  datatype SheetRow = SheetRow(show: bool, cells: map<string, string>)

  /** The sheet's header and lines. */
  datatype Sheet = Sheet(columns: set<string>, rows: seq<SheetRow>)

  const Canonical: string := "datalab_testcode"

  /** What an alias equal to its own canonical code is replaced with. */
  const DontJoin: string := "_DONTJOIN_"

  /** A line of the mapping: the lab's alias columns and the canonical one. */
  type MapRow = map<string, string>

  /** A cell; an absent one reads as empty, since missing values are not
      turned into NaN. */
  function Cell(cells: map<string, string>, col: string): string {
    if col in cells then cells[col] else ""
  }

  /** The lab's alias columns followed by the canonical column. */
  function Columns(aliases: seq<string>): seq<string> {
    aliases + [Canonical]
  }

  function Shown(rows: seq<SheetRow>): (r: seq<SheetRow>)
    ensures forall x :: x in r <==> x in rows && x.show
    ensures |r| <= |rows|
  {
    if |rows| == 0 then []
    else (if rows[0].show then [rows[0]] else []) + Shown(rows[1..])
  }

  predicate Duplicated(xs: seq<string>) {
    exists i, j | 0 <= i < j < |xs| :: xs[i] == xs[j]
  }

  /** One column of the shown lines, in order. */
  function Column(rows: seq<SheetRow>, col: string): (r: seq<string>)
    ensures |r| == |rows|
    ensures forall i | 0 <= i < |rows| :: r[i] == Cell(rows[i].cells, col)
  {
    seq(|rows|, i requires 0 <= i < |rows| => Cell(rows[i].cells, col))
  }

  /** The loop of lines 130-131: each alias cell equal to the line's
      canonical cell becomes `_DONTJOIN_`. */
  function Blank(cells: map<string, string>, aliases: seq<string>): (r: map<string, string>)
    ensures forall c | c in aliases && c != Canonical ::
      Cell(r, c) == (if Cell(cells, c) == Cell(cells, Canonical) then DontJoin else Cell(cells, c))
    ensures Cell(r, Canonical) == Cell(cells, Canonical)
    ensures forall c | c !in aliases :: Cell(r, c) == Cell(cells, c)
    decreases |aliases|
  {
    if |aliases| == 0 then cells
    else
      var c := aliases[0];
      var step := if c != Canonical && Cell(cells, c) == Cell(cells, Canonical) then cells[c := DontJoin] else cells;
      Blank(step, aliases[1..])
  }

  /** `df[columns]` for one line. */
  function Select(cells: map<string, string>, cols: seq<string>): (r: MapRow)
    ensures r.Keys == set c | c in cols
    ensures forall c | c in cols :: r[c] == Cell(cells, c)
  {
    map c | c in cols :: Cell(cells, c)
  }

  /** Lines 121-141 once the lab's alias columns are known: read the
      needed columns (a missing one fails with `ValueError`), keep the
      lines shown in the app, blank self-aliases, refuse a duplicated
      canonical code or test name, and keep the mapping columns. */
  function BuildMapping(aliases: seq<string>, sheet: Sheet): (r: Result<seq<MapRow>>)
    ensures r.Err? ==> r.error == ValueError
    ensures r.Ok? <==>
      (set c | c in Columns(aliases)) + {"show_in_app?", "testname"} <= sheet.columns
      && !Duplicated(Column(Shown(sheet.rows), Canonical))
      && !Duplicated(Column(Shown(sheet.rows), "testname"))
    ensures r.Ok? ==> |r.value| == |Shown(sheet.rows)|
    ensures r.Ok? ==> forall i | 0 <= i < |r.value| ::
      r.value[i] == Select(Blank(Shown(sheet.rows)[i].cells, aliases), Columns(aliases))
  {
    var shown := Shown(sheet.rows);
    if !((set c | c in Columns(aliases)) + {"show_in_app?", "testname"} <= sheet.columns) then Err(ValueError)
    else if Duplicated(Column(shown, Canonical)) then Err(ValueError)
    else if Duplicated(Column(shown, "testname")) then Err(ValueError)
    else Ok(seq(|shown|, i requires 0 <= i < |shown| => Select(Blank(shown[i].cells, aliases), Columns(aliases))))
  }

  /** A mapping as `BuildMapping` leaves it: canonical codes distinct, and
      no alias equal to its canonical code unless both are `_DONTJOIN_`. */
  lemma BuiltMappingShape(aliases: seq<string>, sheet: Sheet)
    requires BuildMapping(aliases, sheet).Ok?
    ensures var m := BuildMapping(aliases, sheet).value;
      && (forall i, j | 0 <= i < j < |m| :: m[i][Canonical] != m[j][Canonical])
      && (forall i, c | 0 <= i < |m| && c in aliases && c != Canonical :: m[i][c] != m[i][Canonical] || m[i][c] == DontJoin)
  {
    var m := BuildMapping(aliases, sheet).value;
    var shown := Shown(sheet.rows);
    var codes := Column(shown, Canonical);
    assert Canonical in Columns(aliases);
    forall i, j | 0 <= i < j < |m| ensures m[i][Canonical] != m[j][Canonical] {
      assert m[i][Canonical] == codes[i] && m[j][Canonical] == codes[j];
    }
    forall i, c | 0 <= i < |m| && c in aliases && c != Canonical
      ensures m[i][c] != m[i][Canonical] || m[i][c] == DontJoin
    {
      assert c in Columns(aliases);
      var b := Blank(shown[i].cells, aliases);
      assert m[i][c] == Cell(b, c) && m[i][Canonical] == Cell(b, Canonical);
    }
  }

  /** `_get_test_codes` in the newer tree: `KeyError` for a lab without an
      entry in TEST_CODE_MAPPINGS, an empty mapping for a lab without
      alias columns, and the built mapping otherwise. */
  function GetTestCodes(lab: string, sheet: Sheet): (r: Result<seq<MapRow>>)
    ensures lab !in TestCodeMappings <==> r == Err(KeyError)
    ensures lab in TestCodeMappings && |TestCodeMappings[lab]| == 0 ==> r == Ok([])
    ensures lab in TestCodeMappings && |TestCodeMappings[lab]| > 0 ==> r == BuildMapping(TestCodeMappings[lab], sheet)
  {
    if lab !in TestCodeMappings then Err(KeyError)
    else if |TestCodeMappings[lab]| == 0 then Ok([])
    else BuildMapping(TestCodeMappings[lab], sheet)
  }

  /** `_get_test_codes` in the older tree, reading the local copy of the
      sheet: no shortcut, so a lab without alias columns still gets the
      canonical column, checked for duplicates. */
  function GetTestCodesLegacy(lab: string, sheet: Sheet): (r: Result<seq<MapRow>>)
    ensures lab !in TestCodeMappings <==> r == Err(KeyError)
    ensures lab in TestCodeMappings ==> r == BuildMapping(TestCodeMappings[lab], sheet)
  {
    if lab !in TestCodeMappings then Err(KeyError)
    else BuildMapping(TestCodeMappings[lab], sheet)
  }

  /** The two agree for every lab with alias columns; Exeter fails in both
      and Cambridge gets nothing from the newer one. */
  lemma GetTestCodesVariants(sheet: Sheet)
    ensures GetTestCodes("exeter", sheet) == Err(KeyError) && GetTestCodesLegacy("exeter", sheet) == Err(KeyError)
    ensures GetTestCodes("cambridge", sheet) == Ok([])
    ensures GetTestCodesLegacy("cambridge", sheet) == BuildMapping([], sheet)
    ensures forall lab | lab in TestCodeMappings && lab != "cambridge" :: GetTestCodes(lab, sheet) == GetTestCodesLegacy(lab, sheet)
  {
    TestCodeMappingsShape();
  }

  // ---------------------------------------------------------------------------
  // The join

  /** The canonical codes of the mapping lines whose `col` cell is `code`,
      in mapping order. */
  function Hits(mapping: seq<MapRow>, col: string, code: string): (r: seq<string>)
    ensures forall x :: x in r <==> exists j | 0 <= j < |mapping| ::
      Cell(mapping[j], col) == code && Cell(mapping[j], Canonical) == x
    ensures |r| <= |mapping|
  {
    if |mapping| == 0 then []
    else
      var rest := Hits(mapping[1..], col, code);
      assert forall j | 1 <= j < |mapping| :: mapping[j] == mapping[1..][j - 1];
      (if Cell(mapping[0], col) == code then [Cell(mapping[0], Canonical)] else []) + rest
  }

  /** One record joined on one column: a copy per matching mapping line,
      with `test_code` replaced by the canonical code. */
  function Relabel(rec: Record, codes: seq<string>): (r: Frame)
    ensures |r| == |codes|
    ensures forall i | 0 <= i < |codes| :: r[i] == rec.(testCode := codes[i])
  {
    seq(|codes|, i requires 0 <= i < |codes| => rec.(testCode := codes[i]))
  }

  /** `df.merge(mapping, how="inner", left_on="test_code", right_on=col)`
      with the renames of lines 169-174. */
  function JoinOn(df: Frame, mapping: seq<MapRow>, col: string): Frame {
    if |df| == 0 then []
    else JoinOn(df[..|df| - 1], mapping, col) + Relabel(df[|df| - 1], Hits(mapping, col, df[|df| - 1].testCode))
  }

  /** The loop of lines 165-175: the joins on each column, appended. */
  function JoinAll(df: Frame, mapping: seq<MapRow>, cols: seq<string>): Frame {
    if |cols| == 0 then [] else JoinOn(df, mapping, cols[0]) + JoinAll(df, mapping, cols[1..])
  }

  /** Everything one record becomes: its copies from every column, in
      column order. */
  function Expand(rec: Record, mapping: seq<MapRow>, cols: seq<string>): Frame {
    if |cols| == 0 then [] else Relabel(rec, Hits(mapping, cols[0], rec.testCode)) + Expand(rec, mapping, cols[1..])
  }

  function ExpandAll(df: Frame, mapping: seq<MapRow>, cols: seq<string>): Frame {
    if |df| == 0 then [] else ExpandAll(df[..|df| - 1], mapping, cols) + Expand(df[|df| - 1], mapping, cols)
  }

  /** The number of (column, mapping line) pairs that match a code. */
  function Matches(mapping: seq<MapRow>, cols: seq<string>, code: string): nat {
    if |cols| == 0 then 0 else |Hits(mapping, cols[0], code)| + Matches(mapping, cols[1..], code)
  }

  /** A record appears once per matching (column, line) pair, relabelled
      with that line's canonical code; an unmatched record vanishes. */
  lemma {:induction false} ExpandShape(rec: Record, mapping: seq<MapRow>, cols: seq<string>)
    ensures |Expand(rec, mapping, cols)| == Matches(mapping, cols, rec.testCode)
    ensures forall x | x in Expand(rec, mapping, cols) ::
      exists c, j | c in cols && 0 <= j < |mapping| ::
        Cell(mapping[j], c) == rec.testCode && x == rec.(testCode := Cell(mapping[j], Canonical))
  {
    if |cols| > 0 {
      ExpandShape(rec, mapping, cols[1..]);
      var here := Relabel(rec, Hits(mapping, cols[0], rec.testCode));
      forall x | x in Expand(rec, mapping, cols)
        ensures exists c, j | c in cols && 0 <= j < |mapping| ::
          Cell(mapping[j], c) == rec.testCode && x == rec.(testCode := Cell(mapping[j], Canonical))
      {
        if x in here {
          var i :| 0 <= i < |here| && here[i] == x;
          var code := Hits(mapping, cols[0], rec.testCode)[i];
          assert code in Hits(mapping, cols[0], rec.testCode);
          var j :| 0 <= j < |mapping| && Cell(mapping[j], cols[0]) == rec.testCode && Cell(mapping[j], Canonical) == code;
          assert cols[0] in cols;
        } else {
          assert x in Expand(rec, mapping, cols[1..]);
          var c, j :| c in cols[1..] && 0 <= j < |mapping| &&
            Cell(mapping[j], c) == rec.testCode && x == rec.(testCode := Cell(mapping[j], Canonical));
          assert c in cols;
        }
      }
    }
  }

  lemma {:induction false} JoinAllSnoc(df: Frame, rec: Record, mapping: seq<MapRow>, cols: seq<string>)
    ensures multiset(JoinAll(df + [rec], mapping, cols)) == multiset(JoinAll(df, mapping, cols)) + multiset(Expand(rec, mapping, cols))
  {
    if |cols| > 0 {
      JoinAllSnoc(df, rec, mapping, cols[1..]);
      assert (df + [rec])[..|df|] == df;
    }
  }

  /** Up to order, the joins expand each record of the dataset on its own:
      a record matching k (column, line) pairs contributes exactly k rows. */
  lemma {:induction false} JoinAllRowwise(df: Frame, mapping: seq<MapRow>, cols: seq<string>)
    ensures multiset(JoinAll(df, mapping, cols)) == multiset(ExpandAll(df, mapping, cols))
  {
    if |df| == 0 {
      JoinAllEmpty(mapping, cols);
    } else {
      var init := df[..|df| - 1];
      JoinAllRowwise(init, mapping, cols);
      assert df == init + [df[|df| - 1]];
      JoinAllSnoc(init, df[|df| - 1], mapping, cols);
    }
  }

  lemma {:induction false} JoinAllEmpty(mapping: seq<MapRow>, cols: seq<string>)
    ensures JoinAll([], mapping, cols) == []
  {
    if |cols| > 0 {
      JoinAllEmpty(mapping, cols[1..]);
    }
  }

  /** `_normalise_test_codes` in the newer tree: an empty mapping leaves
      the dataset as it is. */
  function NormaliseTestCodes(lab: string, sheet: Sheet, df: Frame): (r: Result<Frame>)
    ensures r.Err? <==> GetTestCodes(lab, sheet).Err?
    ensures r.Err? ==> r.error == GetTestCodes(lab, sheet).error
    ensures GetTestCodes(lab, sheet) == Ok([]) ==> r == Ok(df)
    ensures r.Ok? && GetTestCodes(lab, sheet) != Ok([]) ==>
      multiset(r.value) == multiset(ExpandAll(df, GetTestCodes(lab, sheet).value, Columns(TestCodeMappings[lab])))
  {
    match GetTestCodes(lab, sheet)
    case Err(e) => Err(e)
    case Ok(mapping) =>
      if |mapping| == 0 then Ok(df)
      else
        JoinAllRowwise(df, mapping, Columns(TestCodeMappings[lab]));
        Ok(JoinAll(df, mapping, Columns(TestCodeMappings[lab])))
  }

  /** `_normalise_test_codes` in the older tree: always the joins. */
  function NormaliseTestCodesLegacy(lab: string, sheet: Sheet, df: Frame): (r: Result<Frame>)
    ensures r.Err? <==> GetTestCodesLegacy(lab, sheet).Err?
    ensures r.Err? ==> r.error == GetTestCodesLegacy(lab, sheet).error
    ensures r.Ok? ==>
      multiset(r.value) == multiset(ExpandAll(df, GetTestCodesLegacy(lab, sheet).value, Columns(TestCodeMappings[lab])))
  {
    match GetTestCodesLegacy(lab, sheet)
    case Err(e) => Err(e)
    case Ok(mapping) =>
      JoinAllRowwise(df, mapping, Columns(TestCodeMappings[lab]));
      Ok(JoinAll(df, mapping, Columns(TestCodeMappings[lab])))
  }

  /** With only the canonical column (Cambridge in the older tree), a
      record survives iff its code is already a canonical one, and then
      keeps its code. */
  lemma CanonicalOnly(rec: Record, mapping: seq<MapRow>)
    ensures |Expand(rec, mapping, Columns([]))| > 0 <==> exists j | 0 <= j < |mapping| :: Cell(mapping[j], Canonical) == rec.testCode
    ensures forall x | x in Expand(rec, mapping, Columns([])) :: x == rec
  {
    var hits := Hits(mapping, Canonical, rec.testCode);
    assert Columns([]) == [Canonical];
    assert Columns([])[1..] == [];
    assert Expand(rec, mapping, Columns([])) == Relabel(rec, hits);
    if exists j | 0 <= j < |mapping| :: Cell(mapping[j], Canonical) == rec.testCode {
      var j :| 0 <= j < |mapping| && Cell(mapping[j], Canonical) == rec.testCode;
      assert rec.testCode in hits;
    }
    if |hits| > 0 {
      assert hits[0] in hits;
    }
    forall x | x in Relabel(rec, hits) ensures x == rec {
      var i :| 0 <= i < |hits| && Relabel(rec, hits)[i] == x;
      assert hits[i] in hits;
    }
  }
}
