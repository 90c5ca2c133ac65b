/** Merging a lab's converted files into its combined dataset
    (`combine_and_append_csvs`, the same in both library trees): read the
    files the ledger lists as unmerged, check the combined dataset against
    a double append, write it, then mark each file merged and delete it. */
module Merge {
  import opened Outcomes
  import opened Strings
  import opened Settings
  import opened Ledger

  /** A row of a converted or combined file as read back with the
      intermediate column types: a month outside the month categories, or
      a category outside the nine codes, reads as missing. */
  datatype Record = Record(month: Option<string>, testCode: string, practiceId: string, category: Option<ResultCode>)

  type Frame = seq<Record>

  /** The intermediate directory's files by name, and the lab's combined
      file when there is one. */
  datatype Disk = Disk(files: map<string, Frame>, combined: Option<Frame>)

  /** `[x[1] for x in get_unmerged_filenames(lab)]`. */
  function UnmergedNames(t: Table, lab: string): (r: seq<string>)
    ensures |r| == |GetUnmergedFilenames(t, lab)|
    ensures forall i | 0 <= i < |r| :: r[i] == GetUnmergedFilenames(t, lab)[i].1
  {
    var ps := GetUnmergedFilenames(t, lab);
    seq(|ps|, i requires 0 <= i < |ps| => ps[i].1)
  }

  /** `combine_csvs_to_dataframe`: the files concatenated in list order; a
      name with no file fails with `FileNotFoundError`. */
  function ReadAll(files: map<string, Frame>, names: seq<string>): (r: Result<Frame>)
    ensures r.Ok? <==> forall i | 0 <= i < |names| :: names[i] in files
    ensures r.Err? ==> r.error == FileNotFoundError
    ensures r.Ok? ==> forall x :: x in r.value <==> exists i | 0 <= i < |names| :: x in files[names[i]]
  {
    if |names| == 0 then Ok([])
    else
      var init := names[..|names| - 1];
      var last := names[|names| - 1];
      var prev := ReadAll(files, init);
      if prev.Err? then prev
      else if last !in files then Err(FileNotFoundError)
      else
        assert forall i | 0 <= i < |init| :: init[i] == names[i];
        Ok(prev.value + files[last])
  }

  /** Rows dated `m`. */
  function Count(f: Frame, m: string): nat {
    if |f| == 0 then 0
    else (if f[0].month == Some(m) then 1 else 0) + Count(f[1..], m)
  }

  lemma {:induction false} CountAppend(a: Frame, b: Frame, m: string)
    ensures Count(a + b, m) == Count(a, m) + Count(b, m)
  {
    if |a| > 0 {
      assert (a + b)[1..] == a[1..] + b;
      CountAppend(a[1..], b, m);
    } else {
      assert a + b == b;
    }
  }

  predicate NoMissingMonth(f: Frame) {
    forall i | 0 <= i < |f| :: f[i].month.Some?
  }

  /** `sorted(existing["month"].unique())[-1]`: the greatest month in
      string order. */
  function Latest(f: Frame): (m: string)
    requires |f| > 0 && NoMissingMonth(f)
    ensures exists i | 0 <= i < |f| :: f[i].month == Some(m)
    ensures forall i | 0 <= i < |f| :: !Less(m, f[i].month.value)
  {
    var x := f[0].month.value;
    if |f| == 1 then
      LessIrreflexive(x);
      x
    else
      var rest := Latest(f[1..]);
      assert forall i | 1 <= i < |f| :: f[i] == f[1..][i - 1];
      if Less(rest, x) then
        assert forall i | 1 <= i < |f| :: !Less(x, f[i].month.value) by {
          forall i | 1 <= i < |f| ensures !Less(x, f[i].month.value) {
            if Less(x, f[i].month.value) {
              LessTransitive(rest, x, f[i].month.value);
            }
          }
        }
        LessIrreflexive(x);
        x
      else rest
  }

  /** Lines 74-94: with a month missing the merge aborts; with an empty
      dataset there is no latest month; otherwise the rows dated the latest
      month may grow by less than a fifth of their count. */
  function Guard(existing: Frame, added: Frame): (r: Result<Frame>)
    ensures !NoMissingMonth(existing) ==> r == Err(AssertionError)
    ensures r.Err? ==> r.error in {AssertionError, IndexError}
    ensures r.Ok? ==> r.value == existing + added
  {
    if !NoMissingMonth(existing) then Err(AssertionError)
    else if |existing| == 0 then Err(IndexError)
    else
      var m := Latest(existing);
      var c := Count(existing, m);
      var merged := existing + added;
      var c' := Count(merged, m);
      if ((c' - c) as real) < 0.2 * (c as real) then Ok(merged) else Err(AssertionError)
  }

  /** The guard passes exactly when fewer than a fifth as many new rows as
      old ones fall in the latest month. */
  lemma GuardPasses(existing: Frame, added: Frame)
    requires |existing| > 0 && NoMissingMonth(existing)
    ensures Guard(existing, added).Ok? <==> 5 * Count(added, Latest(existing)) < Count(existing, Latest(existing))
  {
    CountAppend(existing, added, Latest(existing));
  }

  /** Appending a copy of the latest month's rows always aborts. */
  lemma ReappendAborts(existing: Frame, added: Frame)
    requires |existing| > 0 && NoMissingMonth(existing)
    requires Count(added, Latest(existing)) >= Count(existing, Latest(existing))
    ensures Guard(existing, added) == Err(AssertionError)
  {
    GuardPasses(existing, added);
    LatestCounted(existing);
  }

  /** New rows none of which fall in the latest month always pass. */
  lemma EarlierMonthsPass(existing: Frame, added: Frame)
    requires |existing| > 0 && NoMissingMonth(existing)
    requires Count(added, Latest(existing)) == 0
    ensures Guard(existing, added) == Ok(existing + added)
  {
    GuardPasses(existing, added);
    LatestCounted(existing);
  }

  lemma LatestCounted(f: Frame)
    requires |f| > 0 && NoMissingMonth(f)
    ensures Count(f, Latest(f)) >= 1
  {
    var i :| 0 <= i < |f| && f[i].month == Some(Latest(f));
    CountPositive(f, Latest(f), i);
  }

  lemma {:induction false} CountPositive(f: Frame, m: string, i: nat)
    requires i < |f| && f[i].month == Some(m)
    ensures Count(f, m) >= 1
  {
    if i > 0 {
      CountPositive(f[1..], m, i - 1);
    }
  }

  /** Lines 61-97: the guarded append, or the new rows unchecked when
      there is no combined file yet. */
  function Combine(existing: Option<Frame>, added: Frame): (r: Result<Frame>)
    ensures existing.None? ==> r == Ok(added)
  {
    match existing
    case None => Ok(added)
    case Some(e) => Guard(e, added)
  }

  /** The lab's unmerged files, after each of `names` is merged. */
  function MarkAll(t: Table, lab: string, names: seq<string>, now: Stamp): Table
    decreases |names|
  {
    if |names| == 0 then t else MarkAll(MarkAsMerged(t, lab, names[0], now), lab, names[1..], now)
  }

  /** Marking a list of converted names leaves unmerged exactly the pairs
      whose converted name is not on the list, and changes no lab's
      processed list. */
  lemma {:induction false} MarkAllUnmerged(t: Table, lab: string, names: seq<string>, now: Stamp)
    ensures forall p :: p in GetUnmergedFilenames(MarkAll(t, lab, names, now), lab) <==>
      p in GetUnmergedFilenames(t, lab) && p.1 !in names
    decreases |names|
  {
    if |names| > 0 {
      var t' := MarkAsMerged(t, lab, names[0], now);
      MarkAllUnmerged(t', lab, names[1..], now);
      MergeRemovesFromUnmerged(t, lab, names[0], now, lab);
      forall p ensures p in GetUnmergedFilenames(MarkAll(t, lab, names, now), lab) <==>
        p in GetUnmergedFilenames(t, lab) && p.1 !in names
      {
        assert names == [names[0]] + names[1..];
      }
    }
  }

  lemma {:induction false} MarkAllProcessed(t: Table, lab: string, names: seq<string>, now: Stamp, lab': string)
    ensures GetProcessedFilenames(MarkAll(t, lab, names, now), lab') == GetProcessedFilenames(t, lab')
    decreases |names|
  {
    if |names| > 0 {
      MergeKeepsProcessed(t, lab, names[0], now, lab');
      MarkAllProcessed(MarkAsMerged(t, lab, names[0], now), lab, names[1..], now, lab');
    }
  }

  /** After every unmerged file's converted name is marked, nothing of the
      lab is left unmerged. */
  lemma MarkingAllLeavesNone(t: Table, lab: string, now: Stamp)
    ensures forall p :: p !in GetUnmergedFilenames(MarkAll(t, lab, UnmergedNames(t, lab), now), lab)
  {
    var names := UnmergedNames(t, lab);
    var ps := GetUnmergedFilenames(t, lab);
    MarkAllUnmerged(t, lab, names, now);
    forall p | p in ps ensures p.1 in names {
      var k :| 0 <= k < |ps| && ps[k] == p;
      assert names[k] == p.1;
    }
  }

  /** Lines 101-104: each name in turn is marked merged and its file
      deleted; deleting a name a second time fails. */
  method Consume(lab: string, names: seq<string>, files: map<string, Frame>, ledger: Table, now: Stamp)
    returns (ok: bool, files': map<string, Frame>, ledger': Table)
    ensures ok ==> ledger' == MarkAll(ledger, lab, names, now)
    ensures ok ==> forall f :: f in files' <==> f in files && f !in names
    ensures forall f | f in files' :: f in files && files'[f] == files[f]
    ensures ok && |names| == 0 ==> files' == files && ledger' == ledger
  {
    files' := files;
    ledger' := ledger;
    var i := 0;
    while i < |names|
      invariant 0 <= i <= |names|
      invariant MarkAll(ledger', lab, names[i..], now) == MarkAll(ledger, lab, names, now)
      invariant forall f :: f in files' <==> f in files && f !in names[..i]
      invariant forall f | f in files' :: files'[f] == files[f]
    {
      assert names[i..] == [names[i]] + names[i + 1..];
      ledger' := MarkAsMerged(ledger', lab, names[i], now);
      if names[i] !in files' {
        return false, files', ledger';
      }
      files' := files' - {names[i]};
      assert names[..i + 1] == names[..i] + [names[i]];
      i := i + 1;
    }
    assert names[..i] == names;
    if |names| == 0 {
      assert files' == files;
    }
    ok := true;
  }

  /** Lines 44-112. A failed read or check changes nothing; without
      unmerged files the combined file and the ledger are left as they
      were; otherwise the combined file is written first, then every file
      read is marked merged and deleted, so no merge is recorded unwritten. */
  method CombineAndAppend(lab: string, disk: Disk, ledger: Table, now: Stamp)
    returns (r: Result<Frame>, disk': Disk, ledger': Table)
    ensures var added := ReadAll(disk.files, UnmergedNames(ledger, lab));
      added.Err? || Combine(disk.combined, added.value).Err? ==> r.Err? && disk' == disk && ledger' == ledger
    ensures var added := ReadAll(disk.files, UnmergedNames(ledger, lab));
      r.Ok? ==> added.Ok? && Combine(disk.combined, added.value) == r
    ensures r.Ok? && |UnmergedNames(ledger, lab)| == 0 ==> disk' == disk && ledger' == ledger
    ensures r.Ok? && |UnmergedNames(ledger, lab)| > 0 ==> disk'.combined == Some(r.value)
    ensures r.Ok? ==> ledger' == MarkAll(ledger, lab, UnmergedNames(ledger, lab), now)
    ensures r.Ok? ==> forall p :: p !in GetUnmergedFilenames(ledger', lab)
    ensures r.Ok? ==> forall lab' :: GetProcessedFilenames(ledger', lab') == GetProcessedFilenames(ledger, lab')
    ensures r.Ok? ==> forall f :: f in disk'.files <==> f in disk.files && f !in UnmergedNames(ledger, lab)
    ensures forall f | f in disk'.files :: f in disk.files && disk'.files[f] == disk.files[f]
  {
    var names := UnmergedNames(ledger, lab);
    var added := ReadAll(disk.files, names);
    if added.Err? {
      return Err(added.error), disk, ledger;
    }
    var merged := Combine(disk.combined, added.value);
    if merged.Err? {
      return Err(merged.error), disk, ledger;
    }
    var combined := if |names| > 0 then Some(merged.value) else disk.combined;
    var ok, files;
    ok, files, ledger' := Consume(lab, names, disk.files, ledger, now);
    disk' := Disk(files, combined);
    if !ok {
      return Err(FileNotFoundError), disk', ledger';
    }
    r := merged;
    MarkingAllLeavesNone(ledger, lab, now);
    forall lab' ensures GetProcessedFilenames(ledger', lab') == GetProcessedFilenames(ledger, lab') {
      MarkAllProcessed(ledger, lab, names, now, lab');
    }
  }
}
