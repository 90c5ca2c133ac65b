/** The processing ledger: a table of source files a lab has converted,
    unique on (lab, filename), with the name of each converted file and
    when it was converted and merged. */
module Ledger {
  import opened Outcomes

  /** A clock reading; `datetime.now()` is passed in. */
  type Stamp = nat

  datatype Entry = Entry(
    lab: string,
    filename: string,
    converted: string,
    convertedAt: Stamp,
    mergedAt: Option<Stamp>)

  /** The table's rows in insertion order. */
  type Table = seq<Entry>

  /** The unique index on (lab, filename). */
  predicate Unique(t: Table) {
    forall i, j | 0 <= i < j < |t| :: (t[i].lab, t[i].filename) != (t[j].lab, t[j].filename)
  }

  predicate Recorded(t: Table, lab: string, filename: string) {
    exists i | 0 <= i < |t| :: t[i].lab == lab && t[i].filename == filename
  }

  /** `mark_as_processed`: insert a fresh, unmerged row; an insert that
      would break the unique index fails and leaves the table as it was. */
  function MarkAsProcessed(t: Table, lab: string, filename: string, converted: string, now: Stamp): (r: Result<Table>)
    ensures r.Err? <==> Recorded(t, lab, filename)
    ensures r.Err? ==> r.error == IntegrityError
    ensures r.Ok? ==> r.value == t + [Entry(lab, filename, converted, now, None)]
    ensures Unique(t) && r.Ok? ==> Unique(r.value)
  {
    if exists i | 0 <= i < |t| :: t[i].lab == lab && t[i].filename == filename then Err(IntegrityError)
    else Ok(t + [Entry(lab, filename, converted, now, None)])
  }

  /** `mark_as_merged`: stamp every row of the lab with that converted
      file name, matched or not before. */
  function MarkAsMerged(t: Table, lab: string, converted: string, now: Stamp): (r: Table)
    ensures |r| == |t|
    ensures forall i | 0 <= i < |t| ::
      if t[i].lab == lab && t[i].converted == converted
      then r[i] == t[i].(mergedAt := Some(now))
      else r[i] == t[i]
  {
    if |t| == 0 then []
    else
      var e := t[0];
      [if e.lab == lab && e.converted == converted then e.(mergedAt := Some(now)) else e]
        + MarkAsMerged(t[1..], lab, converted, now)
  }

  /** `get_processed_filenames`: the source names of the lab's rows. */
  function GetProcessedFilenames(t: Table, lab: string): (r: seq<string>)
    ensures forall f :: f in r <==> Recorded(t, lab, f)
  {
    if |t| == 0 then []
    else
      (if t[0].lab == lab then [t[0].filename] else [])
        + GetProcessedFilenames(t[1..], lab)
  }

  /** `get_unmerged_filenames`: (source, converted) for the lab's rows not
      yet merged. */
  function GetUnmergedFilenames(t: Table, lab: string): (r: seq<(string, string)>)
    ensures forall f, c :: (f, c) in r <==>
      exists i | 0 <= i < |t| :: t[i].lab == lab && t[i].mergedAt.None? && t[i].filename == f && t[i].converted == c
  {
    if |t| == 0 then []
    else
      (if t[0].lab == lab && t[0].mergedAt.None? then [(t[0].filename, t[0].converted)] else [])
        + GetUnmergedFilenames(t[1..], lab)
  }

  /** `reset_lab`: delete the lab's rows. */
  function ResetLab(t: Table, lab: string): (r: Table)
    ensures forall e :: e in r <==> e in t && e.lab != lab
    ensures Unique(t) ==> Unique(r)
  {
    if |t| == 0 then []
    else
      var rest := ResetLab(t[1..], lab);
      assert Unique(t) ==> Unique(t[1..]) by {
        if Unique(t) {
          forall i, j | 0 <= i < j < |t[1..]|
            ensures (t[1..][i].lab, t[1..][i].filename) != (t[1..][j].lab, t[1..][j].filename)
          {
            assert t[1..][i] == t[i + 1] && t[1..][j] == t[j + 1];
          }
        }
      }
      if t[0].lab == lab then rest
      else
        assert Unique(t) ==> forall e | e in rest :: (e.lab, e.filename) != (t[0].lab, t[0].filename) by {
          if Unique(t) {
            forall e | e in rest ensures (e.lab, e.filename) != (t[0].lab, t[0].filename) {
              var k :| 0 <= k < |t[1..]| && t[1..][k] == e;
              assert t[k + 1] == e;
            }
          }
        }
        [t[0]] + rest
  }

  /** A freshly recorded file is listed both as processed and as unmerged
      for its lab. */
  lemma FreshEntryListed(t: Table, lab: string, filename: string, converted: string, now: Stamp)
    requires MarkAsProcessed(t, lab, filename, converted, now).Ok?
    ensures var t' := MarkAsProcessed(t, lab, filename, converted, now).value;
      filename in GetProcessedFilenames(t', lab)
      && (filename, converted) in GetUnmergedFilenames(t', lab)
  {
    var t' := MarkAsProcessed(t, lab, filename, converted, now).value;
    assert t'[|t|].lab == lab && t'[|t|].filename == filename;
  }

  /** Merging never removes a file from the lab's processed list: the list
      is the same before and after. */
  lemma {:induction false} MergeKeepsProcessed(t: Table, lab: string, converted: string, now: Stamp, lab': string)
    ensures GetProcessedFilenames(MarkAsMerged(t, lab, converted, now), lab') == GetProcessedFilenames(t, lab')
  {
    if |t| > 0 {
      MergeKeepsProcessed(t[1..], lab, converted, now, lab');
      assert MarkAsMerged(t, lab, converted, now)[1..] == MarkAsMerged(t[1..], lab, converted, now);
    }
  }

  /** After `mark_as_merged` the lab's unmerged list is the old one without
      the pairs for that converted file; other labs' lists are untouched. */
  lemma {:induction false} MergeRemovesFromUnmerged(t: Table, lab: string, converted: string, now: Stamp, lab': string)
    ensures GetUnmergedFilenames(MarkAsMerged(t, lab, converted, now), lab')
      == Without(GetUnmergedFilenames(t, lab'), if lab' == lab then Some(converted) else None)
  {
    if |t| > 0 {
      MergeRemovesFromUnmerged(t[1..], lab, converted, now, lab');
      assert MarkAsMerged(t, lab, converted, now)[1..] == MarkAsMerged(t[1..], lab, converted, now);
      var head := if t[0].lab == lab' && t[0].mergedAt.None? then [(t[0].filename, t[0].converted)] else [];
      WithoutAppend(head, GetUnmergedFilenames(t[1..], lab'), if lab' == lab then Some(converted) else None);
    }
  }

  /** The pairs whose converted name is not `c` (all of them for `None`). */
  function Without(ps: seq<(string, string)>, c: Option<string>): (r: seq<(string, string)>)
    ensures forall p :: p in r <==> p in ps && (c.None? || p.1 != c.value)
  {
    if |ps| == 0 then []
    else (if c.Some? && ps[0].1 == c.value then [] else [ps[0]]) + Without(ps[1..], c)
  }

  lemma {:induction false} WithoutAppend(a: seq<(string, string)>, b: seq<(string, string)>, c: Option<string>)
    ensures Without(a + b, c) == Without(a, c) + Without(b, c)
  {
    if |a| > 0 {
      assert (a + b)[1..] == a[1..] + b;
      WithoutAppend(a[1..], b, c);
    } else {
      assert a + b == b;
    }
  }

  /** A second `mark_as_merged` for the same file leaves the unmerged list
      as the first left it. */
  lemma MergeTwice(t: Table, lab: string, converted: string, now: Stamp, later: Stamp, lab': string)
    ensures GetUnmergedFilenames(MarkAsMerged(MarkAsMerged(t, lab, converted, now), lab, converted, later), lab')
      == GetUnmergedFilenames(MarkAsMerged(t, lab, converted, now), lab')
  {
    var c := if lab' == lab then Some(converted) else None;
    MergeRemovesFromUnmerged(t, lab, converted, now, lab');
    MergeRemovesFromUnmerged(MarkAsMerged(t, lab, converted, now), lab, converted, later, lab');
    WithoutTwice(GetUnmergedFilenames(t, lab'), c);
  }

  lemma {:induction false} WithoutTwice(ps: seq<(string, string)>, c: Option<string>)
    ensures Without(Without(ps, c), c) == Without(ps, c)
  {
    if |ps| > 0 {
      WithoutTwice(ps[1..], c);
      var head := if c.Some? && ps[0].1 == c.value then [] else [ps[0]];
      WithoutAppend(head, Without(ps[1..], c), c);
      assert head == [] || head[1..] == [];
    }
  }

  /** `mark_as_merged` keeps the unique index. */
  lemma MergeKeepsUnique(t: Table, lab: string, converted: string, now: Stamp)
    requires Unique(t)
    ensures Unique(MarkAsMerged(t, lab, converted, now))
  {
  }

  /** After `reset_lab` the lab has no processed files, every file of it can
      be recorded again, and other labs' lists are unchanged. */
  lemma ResetForgetsLab(t: Table, lab: string, lab': string, filename: string, converted: string, now: Stamp)
    ensures GetProcessedFilenames(ResetLab(t, lab), lab) == []
    ensures MarkAsProcessed(ResetLab(t, lab), lab, filename, converted, now).Ok?
    ensures lab' != lab ==> GetProcessedFilenames(ResetLab(t, lab), lab') == GetProcessedFilenames(t, lab')
  {
    ResetOtherLabs(t, lab, lab');
  }

  lemma {:induction false} ResetOtherLabs(t: Table, lab: string, lab': string)
    ensures lab' != lab ==> GetProcessedFilenames(ResetLab(t, lab), lab') == GetProcessedFilenames(t, lab')
  {
    if |t| > 0 && lab' != lab {
      ResetOtherLabs(t[1..], lab, lab');
      if t[0].lab != lab {
        assert ResetLab(t, lab) == [t[0]] + ResetLab(t[1..], lab);
        assert ([t[0]] + ResetLab(t[1..], lab))[1..] == ResetLab(t[1..], lab);
      }
    }
  }
}
