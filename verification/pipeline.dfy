/** The drivers (`process_files` in the newer library tree, `process_file`
    and `process_files` in the older one): optionally reset a lab, convert
    every source file the ledger has not seen, merge the converted files
    into the lab's combined file, aggregate it into the lab's processed
    file, and gather the processed files into the final output. */
module Pipeline {
  import opened Outcomes
  import opened Strings
  import opened Records
  import opened Ledger
  import opened Converter
  import opened Intermediate
  import opened Merge
  import opened TestCodes
  import opened Aggregate

  /** The intermediate directory, the final output and the ledger: the
      converted files by name, each lab's combined and processed files,
      the final file as the per-lab contents it gathers, and the ledger. */
  datatype World = World(
    files: map<string, Frame>,
    combined: map<string, Frame>,
    processed: map<string, seq<Final>>,
    final: map<string, seq<Final>>,
    ledger: Table)

  /** A lab's configuration and the outside world it reads: the converter
      job, the row iterator, how a written intermediate file reads back,
      the test-code sheet, the practice table and the date parser. */
  datatype Lab = Lab(
    job: Job,
    source: string -> seq<Row>,
    read: Fed -> Frame,
    sheet: Sheet,
    practices: seq<Practice>,
    toDate: DateParser)

  /** The messages a run ends with. */
  datatype Message = FinalDataAt | NoDataWritten | NothingToDo

  function CombinedName(env: string, lab: string): string {
    env + "combined_" + lab + ".csv"
  }

  function ProcessedName(env: string, lab: string): string {
    env + "processed_" + lab + ".csv"
  }

  /** The pattern `{ENV}*_{lab}*.csv` of a reset. */
  predicate GlobMatch(name: string, env: string, lab: string) {
    && |name| >= |env| + 4
    && StartsWith(name, env)
    && EndsWith(name, ".csv")
    && Contains(name[|env|..|name| - 4], "_" + lab)
  }

  /** A name `{env}{head}_{lab}{tail}.csv` falls under the reset pattern. */
  lemma SplicedMatch(env: string, head: string, lab: string, tail: string)
    ensures GlobMatch(env + head + ("_" + lab) + tail + ".csv", env, lab)
  {
    var name := env + head + ("_" + lab) + tail + ".csv";
    assert name[..|env|] == env;
    assert name[|name| - 4..] == ".csv";
    assert name[|env|..|name| - 4] == head + ("_" + lab) + tail;
    ContainsSpliced(head, "_" + lab, tail);
  }

  /** Every file a lab's run writes falls under the reset pattern. */
  lemma OwnFilesMatch(env: string, lab: string, month: string, n: nat)
    ensures GlobMatch(CombinedName(env, lab), env, lab)
    ensures GlobMatch(ProcessedName(env, lab), env, lab)
    ensures GlobMatch(Plain(BaseName(env, lab, month)), env, lab)
    ensures GlobMatch(Suffixed(BaseName(env, lab, month), n), env, lab)
  {
    CombinedMatch(env, lab);
    ProcessedMatch(env, lab);
    PlainMatch(env, lab, month);
    SuffixedMatch(env, lab, month, n);
  }

  lemma CombinedMatch(env: string, lab: string)
    ensures GlobMatch(CombinedName(env, lab), env, lab)
  {
    hide GlobMatch;
    SplicedMatch(env, "combined", lab, "");
    assert CombinedName(env, lab) == env + "combined" + ("_" + lab) + "" + ".csv";
  }

  lemma ProcessedMatch(env: string, lab: string)
    ensures GlobMatch(ProcessedName(env, lab), env, lab)
  {
    hide GlobMatch;
    SplicedMatch(env, "processed", lab, "");
    assert ProcessedName(env, lab) == env + "processed" + ("_" + lab) + "" + ".csv";
  }

  lemma PlainMatch(env: string, lab: string, month: string)
    ensures GlobMatch(Plain(BaseName(env, lab, month)), env, lab)
  {
    hide GlobMatch;
    var m := ReplaceChar(month, '/', '_');
    SplicedMatch(env, "converted", lab, "_" + m);
    assert Plain(BaseName(env, lab, month)) == env + "converted" + ("_" + lab) + ("_" + m) + ".csv";
  }

  lemma SuffixedMatch(env: string, lab: string, month: string, n: nat)
    ensures GlobMatch(Suffixed(BaseName(env, lab, month), n), env, lab)
  {
    hide GlobMatch;
    var m := ReplaceChar(month, '/', '_');
    SplicedMatch(env, "converted", lab, "_" + m + "_" + Dec(n));
    assert Suffixed(BaseName(env, lab, month), n) == env + "converted" + ("_" + lab) + ("_" + m + "_" + Dec(n)) + ".csv";
  }

  /** Lines 45-53: `reset_lab`, then every file under the pattern deleted. */
  function Reset(w: World, env: string, lab: string): (r: World)
    ensures forall n :: n in r.files <==> n in w.files && !GlobMatch(n, env, lab)
    ensures forall l :: l in r.combined <==> l in w.combined && !GlobMatch(CombinedName(env, l), env, lab)
    ensures forall l :: l in r.processed <==> l in w.processed && !GlobMatch(ProcessedName(env, l), env, lab)
    ensures forall n | n in r.files :: r.files[n] == w.files[n]
    ensures forall l | l in r.combined :: r.combined[l] == w.combined[l]
    ensures forall l | l in r.processed :: r.processed[l] == w.processed[l]
    ensures r.final == w.final
    ensures r.ledger == ResetLab(w.ledger, lab)
  {
    World(
      map n | n in w.files && !GlobMatch(n, env, lab) :: w.files[n],
      map l | l in w.combined && !GlobMatch(CombinedName(env, l), env, lab) :: w.combined[l],
      map l | l in w.processed && !GlobMatch(ProcessedName(env, l), env, lab) :: w.processed[l],
      w.final,
      ResetLab(w.ledger, lab))
  }

  /** After a reset the lab starts over: nothing recorded, no combined or
      processed file, and no converted file under any name a conversion
      for it could have chosen, while other labs keep their ledger rows. */
  lemma ResetClearsLab(w: World, env: string, lab: string, month: string, n: nat, lab': string)
    ensures GetProcessedFilenames(Reset(w, env, lab).ledger, lab) == []
    ensures lab !in Reset(w, env, lab).combined && lab !in Reset(w, env, lab).processed
    ensures Plain(BaseName(env, lab, month)) !in Reset(w, env, lab).files
    ensures Suffixed(BaseName(env, lab, month), n) !in Reset(w, env, lab).files
    ensures lab' != lab ==> GetProcessedFilenames(Reset(w, env, lab).ledger, lab') == GetProcessedFilenames(w.ledger, lab')
  {
    OwnFilesMatch(env, lab, month, n);
    ResetForgetsLab(w.ledger, lab, lab', "", "", 0);
  }

  /** Lines 56-58: the given files the ledger has not recorded for the lab. */
  function Work(filenames: seq<string>, t: Table, lab: string): (r: set<string>)
    ensures forall f :: f in r <==> f in filenames && !Recorded(t, lab, f)
  {
    (set f | f in filenames) - (set f | f in GetProcessedFilenames(t, lab))
  }

  /** One conversion: a new converted file and its unmerged ledger row. A
      failure leaves the world as it was: the exception ends the run, and
      the callers only pass the world up with it. The one failure that comes
      after the output has been renamed into place, the ledger insert, cannot
      happen for a file of the work set, which the ledger does not hold. */
  method ConvertOne(lab: Lab, f: string, w: World, now: Stamp, cache: set<Field>)
    returns (r: Result<string>, w': World, cache': set<Field>)
    ensures r.Err? ==> w' == w
    ensures r.Ok? ==> r.value !in w.files && r.value in w'.files && w'.files == w.files[r.value := w'.files[r.value]]
    ensures r.Ok? ==> w'.ledger == w.ledger + [Entry(lab.job.lab, f, r.value, now, None)]
    ensures r.Ok? ==> w'.combined == w.combined && w'.processed == w.processed && w'.final == w.final
  {
    var out, store', c := MakeIntermediateFile(lab.job, f, lab.source(f), Store(w.files.Keys, w.ledger), now, cache);
    cache' := c;
    if out.Err? {
      return Err(out.error), w, cache';
    }
    r := Ok(out.value.0);
    w' := w.(files := w.files[out.value.0 := lab.read(out.value.1)], ledger := store'.ledger);
  }

  /** What a table gains from rows appended for the files of `work`. */
  lemma Appended(t: Table, added: seq<Entry>, done: seq<string>, work: set<string>, id: string)
    requires |added| == |done| && (forall f :: f in work <==> f in done)
    requires forall i, j | 0 <= i < j < |done| :: done[i] != done[j]
    requires forall i | 0 <= i < |added| :: added[i].lab == id && added[i].filename == done[i] && added[i].mergedAt.None?
    ensures |t + added| == |t| + |work| && (t + added)[..|t|] == t
    ensures forall i | |t| <= i < |t + added| :: (t + added)[i] == added[i - |t|]
    ensures forall f | f in work :: Recorded(t + added, id, f)
    ensures forall f | Recorded(t, id, f) :: Recorded(t + added, id, f)
    ensures work != {} ==> |UnmergedNames(t + added, id)| > 0
  {
    var t' := t + added;
    assert work == set f | f in done;
    DistinctCard(done);
    forall f | f in work ensures Recorded(t', id, f) {
      var k :| 0 <= k < |done| && done[k] == f;
      assert t'[|t| + k] == added[k];
    }
    forall f | Recorded(t, id, f) ensures Recorded(t', id, f) {
      var j :| 0 <= j < |t| && t[j].lab == id && t[j].filename == f;
      assert t'[j] == t[j];
    }
    if work != {} {
      var f :| f in work;
      assert |done| > 0;
      assert t'[|t|] == added[0];
      assert (added[0].filename, added[0].converted) in GetUnmergedFilenames(t', id);
    }
  }

  /** Lines 73-74 (and `process_file` as corrected): convert each file of
      `work` in turn; each success adds a converted file under a new name
      and an unmerged ledger row for its source file. */
  method ConvertAll(lab: Lab, work: set<string>, w: World, now: Stamp, cache: set<Field>)
    returns (r: Result<()>, w': World, cache': set<Field>)
    ensures r.Ok? ==> |w'.ledger| == |w.ledger| + |work| && w'.ledger[..|w.ledger|] == w.ledger
    ensures r.Ok? ==> forall i | |w.ledger| <= i < |w'.ledger| ::
      w'.ledger[i].lab == lab.job.lab && w'.ledger[i].filename in work && w'.ledger[i].mergedAt.None?
      && w'.ledger[i].converted in w'.files && w'.ledger[i].converted !in w.files
    ensures r.Ok? ==> forall f | f in work :: Recorded(w'.ledger, lab.job.lab, f)
    ensures r.Ok? ==> forall f | Recorded(w.ledger, lab.job.lab, f) :: Recorded(w'.ledger, lab.job.lab, f)
    ensures r.Ok? && work != {} ==> |UnmergedNames(w'.ledger, lab.job.lab)| > 0
    ensures r.Ok? ==> forall n | n in w.files :: n in w'.files && w'.files[n] == w.files[n]
    ensures r.Ok? ==> w'.combined == w.combined && w'.processed == w.processed && w'.final == w.final
  {
    hide *;
    var id := lab.job.lab;
    var todo := work;
    ghost var done: seq<string> := [];
    ghost var added: seq<Entry> := [];
    w', cache' := w, cache;
    while todo != {}
      invariant todo <= work
      invariant forall f :: f in work <==> f in todo || f in done
      invariant forall f | f in done :: f !in todo
      invariant forall i, j | 0 <= i < j < |done| :: done[i] != done[j]
      invariant w'.ledger == w.ledger + added && |added| == |done|
      invariant forall i | 0 <= i < |added| ::
        added[i].lab == id && added[i].filename == done[i] && added[i].mergedAt.None?
        && added[i].converted in w'.files && added[i].converted !in w.files
      invariant forall n | n in w.files :: n in w'.files && w'.files[n] == w.files[n]
      invariant w'.combined == w.combined && w'.processed == w.processed && w'.final == w.final
      decreases todo
    {
      var f :| f in todo;
      var name, w1, c := ConvertOne(lab, f, w', now, cache');
      cache' := c;
      if name.Err? {
        return Err(name.error), w1, cache';
      }
      added := added + [Entry(id, f, name.value, now, None)];
      w' := w1;
      done := done + [f];
      todo := todo - {f};
    }
    Appended(w.ledger, added, done, work, id);
    r := Ok(());
  }

  /** A sequence without repeats has as many elements as its set. */
  lemma {:induction false} DistinctCard(s: seq<string>)
    requires forall i, j | 0 <= i < j < |s| :: s[i] != s[j]
    ensures |set x | x in s| == |s|
  {
    if |s| > 0 {
      var init := s[..|s| - 1];
      DistinctCard(init);
      assert (set x | x in s) == (set x | x in init) + {s[|s| - 1]};
      assert s[|s| - 1] !in init;
    }
  }

  /** Which `normalise_and_suppress` a tree runs. */
  function Summary(legacy: bool, lab: Lab, merged: Frame): Result<Option<seq<Final>>> {
    if legacy then NormaliseAndSuppressLegacy(lab.job.lab, lab.sheet, merged, lab.practices, lab.toDate)
    else NormaliseAndSuppress(lab.job.lab, lab.sheet, merged, lab.practices, lab.toDate)
  }

  /** The lab's combined file, when it has one. */
  function CombinedOf(w: World, lab: string): Option<Frame> {
    if lab in w.combined then Some(w.combined[lab]) else None
  }

  /** `make_final_csv`: the processed files are gathered into the final
      output and deleted. */
  function MakeFinalCsv(w: World): (r: World)
    ensures r.final == w.processed && r.processed == map[]
    ensures r.files == w.files && r.combined == w.combined && r.ledger == w.ledger
  {
    w.(final := w.processed, processed := map[])
  }

  /** Lines 75-81 (87-93 in the older tree): merge, aggregate and gather,
      once there is at least one unmerged converted file. */
  method Finish(lab: Lab, legacy: bool, w: World, now: Stamp)
    returns (r: Result<Message>, w': World)
    requires |UnmergedNames(w.ledger, lab.job.lab)| > 0
    ensures r.Ok? ==> r.value != NothingToDo
    ensures r.Ok? ==> (
      && lab.job.lab in w'.combined
      && ReadAll(w.files, UnmergedNames(w.ledger, lab.job.lab)).Ok?
      && Combine(CombinedOf(w, lab.job.lab), ReadAll(w.files, UnmergedNames(w.ledger, lab.job.lab)).value)
           == Ok(w'.combined[lab.job.lab]))
    ensures r.Ok? ==> forall lab' :: GetProcessedFilenames(w'.ledger, lab') == GetProcessedFilenames(w.ledger, lab')
    ensures r.Ok? ==> forall p :: p !in GetUnmergedFilenames(w'.ledger, lab.job.lab)
    ensures r.Ok? ==> lab.job.lab in w'.combined && w'.processed == map[]
    ensures r == Ok(FinalDataAt) ==>
      lab.job.lab in w'.final && Summary(legacy, lab, w'.combined[lab.job.lab]) == Ok(Some(w'.final[lab.job.lab]))
    ensures r == Ok(NoDataWritten) ==> Summary(legacy, lab, w'.combined[lab.job.lab]) == Ok(None)
  {
    var id := lab.job.lab;
    var disk := Disk(w.files, CombinedOf(w, id));
    var merged, disk', ledger' := CombineAndAppend(id, disk, w.ledger, now);
    if merged.Err? {
      return Err(merged.error), w;
    }
    var w2 := w.(files := disk'.files, combined := w.combined[id := merged.value], ledger := ledger');
    var summary := Summary(legacy, lab, merged.value);
    if summary.Err? {
      return Err(summary.error), w2;
    }
    var w3 := if summary.value.Some? then w2.(processed := w2.processed[id := summary.value.value]) else w2;
    w' := MakeFinalCsv(w3);
    r := if summary.value.Some? then Ok(FinalDataAt) else Ok(NoDataWritten);
  }

  /** Lines 60-81 (64-93 in the older tree) once there is work: convert,
      merge, aggregate, and gather. A completed run leaves every file of
      `work` recorded and merged, and the final output holds the
      aggregate of the lab's combined file when there was one. */
  method RunLab(lab: Lab, work: set<string>, legacy: bool, w: World, now: Stamp, cache: set<Field>)
    returns (r: Result<Message>, w': World, cache': set<Field>)
    requires work != {}
    ensures r.Ok? ==> r.value != NothingToDo
    ensures r.Ok? ==> forall f | f in work :: Recorded(w'.ledger, lab.job.lab, f)
    ensures r.Ok? ==> forall f | Recorded(w.ledger, lab.job.lab, f) :: Recorded(w'.ledger, lab.job.lab, f)
    ensures r.Ok? ==> forall p :: p !in GetUnmergedFilenames(w'.ledger, lab.job.lab)
    ensures r.Ok? ==> lab.job.lab in w'.combined && w'.processed == map[]
    ensures r.Ok? ==> exists added: Frame :: Combine(CombinedOf(w, lab.job.lab), added) == Ok(w'.combined[lab.job.lab])
    ensures r == Ok(FinalDataAt) ==>
      lab.job.lab in w'.final && Summary(legacy, lab, w'.combined[lab.job.lab]) == Ok(Some(w'.final[lab.job.lab]))
    ensures r == Ok(NoDataWritten) ==> Summary(legacy, lab, w'.combined[lab.job.lab]) == Ok(None)
  {
    var id := lab.job.lab;
    var converted, w1, c := ConvertAll(lab, work, w, now, cache);
    cache' := c;
    if converted.Err? {
      return Err(converted.error), w1, cache';
    }
    r, w' := Finish(lab, legacy, w1, now);
    if r.Ok? {
      assert CombinedOf(w1, id) == CombinedOf(w, id);
      var added := ReadAll(w1.files, UnmergedNames(w1.ledger, id)).value;
      assert Combine(CombinedOf(w, id), added) == Ok(w'.combined[id]);
    }
    forall g | Recorded(w1.ledger, id, g) ensures r.Ok? ==> Recorded(w'.ledger, id, g) {
      if r.Ok? {
        assert g in GetProcessedFilenames(w1.ledger, id);
      }
    }
  }

  /** How a reimport is confirmed: `--yes` or the answer "y" in the newer
      tree, only the answer in the older one. */
  datatype Prompt = Prompt(reimport: bool, yes: bool, answer: string)

  predicate Confirmed(legacy: bool, p: Prompt) {
    if legacy then p.answer == "y" else p.yes || p.answer == "y"
  }

  /** The world a run starts from once the reimport question is settled. */
  function Start(legacy: bool, p: Prompt, w: World, env: string, lab: string): World {
    if p.reimport && Confirmed(legacy, p) then Reset(w, env, lab) else w
  }

  /** `process_files` of either tree: a declined reimport does nothing; a
      run with nothing new says so and changes nothing; any other run that
      completes leaves nothing for the next run to do. */
  method Run(lab: Lab, filenames: seq<string>, legacy: bool, p: Prompt, w: World, now: Stamp, cache: set<Field>)
    returns (r: Result<Option<Message>>, w': World, cache': set<Field>)
    ensures p.reimport && !Confirmed(legacy, p) ==> r == Ok(None) && w' == w
    ensures !(p.reimport && !Confirmed(legacy, p)) ==>
      var start := Start(legacy, p, w, lab.job.env, lab.job.lab);
      (r == Ok(Some(NothingToDo)) <==> Work(filenames, start.ledger, lab.job.lab) == {})
      && (r == Ok(Some(NothingToDo)) ==> w' == start)
    ensures r.Ok? && r.value.Some? ==> Work(filenames, w'.ledger, lab.job.lab) == {}
    ensures r.Ok? && r.value.Some? && r.value.value != NothingToDo ==>
      (forall q :: q !in GetUnmergedFilenames(w'.ledger, lab.job.lab))
      && lab.job.lab in w'.combined
    ensures r == Ok(Some(FinalDataAt)) ==>
      lab.job.lab in w'.final && Summary(legacy, lab, w'.combined[lab.job.lab]) == Ok(Some(w'.final[lab.job.lab]))
    ensures r == Ok(Some(NoDataWritten)) ==> Summary(legacy, lab, w'.combined[lab.job.lab]) == Ok(None)
  {
    if p.reimport && !Confirmed(legacy, p) {
      return Ok(None), w, cache;
    }
    var start := Start(legacy, p, w, lab.job.env, lab.job.lab);
    var work := Work(filenames, start.ledger, lab.job.lab);
    if work == {} {
      return Ok(Some(NothingToDo)), start, cache;
    }
    var m;
    m, w', cache' := RunLab(lab, work, legacy, start, now, cache);
    if m.Err? {
      return Err(m.error), w', cache';
    }
    r := Ok(Some(m.value));
    forall f | f in filenames ensures Recorded(w'.ledger, lab.job.lab, f) {
      if !Recorded(start.ledger, lab.job.lab, f) {
        assert f in work;
      }
    }
  }

  /** `process_files` in the newer tree (lib/file_processing.py). */
  method ProcessFiles(lab: Lab, filenames: seq<string>, p: Prompt, w: World, now: Stamp, cache: set<Field>)
    returns (r: Result<Option<Message>>, w': World, cache': set<Field>)
    ensures p.reimport && !p.yes && p.answer != "y" ==> r == Ok(None) && w' == w
    ensures !p.reimport && Work(filenames, w.ledger, lab.job.lab) == {} ==> r == Ok(Some(NothingToDo)) && w' == w
    ensures !p.reimport && Work(filenames, w.ledger, lab.job.lab) != {} ==> r != Ok(Some(NothingToDo))
    ensures r.Ok? && r.value.Some? ==> Work(filenames, w'.ledger, lab.job.lab) == {}
    ensures r == Ok(Some(FinalDataAt)) ==>
      lab.job.lab in w'.final && lab.job.lab in w'.combined
      && NormaliseAndSuppress(lab.job.lab, lab.sheet, w'.combined[lab.job.lab], lab.practices, lab.toDate) == Ok(Some(w'.final[lab.job.lab]))
  {
    r, w', cache' := Run(lab, filenames, false, p, w, now, cache);
  }

  /** `process_files` in the older tree (data_sources/lib/runner.py): the
      reimport question is always asked, and the message printed. */
  method ProcessFilesLegacy(lab: Lab, filenames: seq<string>, p: Prompt, w: World, now: Stamp, cache: set<Field>)
    returns (r: Result<Option<Message>>, w': World, cache': set<Field>)
    ensures p.reimport && p.answer != "y" ==> r == Ok(None) && w' == w
    ensures !p.reimport && Work(filenames, w.ledger, lab.job.lab) == {} ==> r == Ok(Some(NothingToDo)) && w' == w
    ensures !p.reimport && Work(filenames, w.ledger, lab.job.lab) != {} ==> r != Ok(Some(NothingToDo))
    ensures r.Ok? && r.value.Some? ==> Work(filenames, w'.ledger, lab.job.lab) == {}
    ensures r == Ok(Some(FinalDataAt)) ==>
      lab.job.lab in w'.final && lab.job.lab in w'.combined
      && NormaliseAndSuppressLegacy(lab.job.lab, lab.sheet, w'.combined[lab.job.lab], lab.practices, lab.toDate) == Ok(Some(w'.final[lab.job.lab]))
  {
    r, w', cache' := Run(lab, filenames, true, p, w, now, cache);
  }

  // ---------------------------------------------------------------------------
  // process_file in the older tree

  /** `process_file` as written: the converter records the source file in
      the ledger itself, and the second `mark_as_processed` then breaks
      the unique index, so a conversion that succeeds always ends in
      `IntegrityError`. */
  method ProcessFileAsWritten(lab: Lab, filename: string, store: Store, now: Stamp, cache: set<Field>)
    returns (r: Result<()>, converted: Result<(string, Fed)>, store': Store, cache': set<Field>)
    ensures converted.Err? ==> r == Err(converted.error)
    ensures converted.Ok? ==> r == Err(IntegrityError) && Recorded(store'.ledger, lab.job.lab, filename)
    ensures r.Err?
  {
    converted, store', cache' := MakeIntermediateFile(lab.job, filename, lab.source(filename), store, now, cache);
    if converted.Err? {
      return Err(converted.error), converted, store', cache';
    }
    RecordTwiceFails(store.ledger, lab.job.lab, filename, converted.value.0, now);
    var again := MarkAsProcessed(store'.ledger, lab.job.lab, filename, converted.value.0, now);
    r := Err(again.error);
  }

  /** Recording a source file right after recording it fails. */
  lemma RecordTwiceFails(t: Table, lab: string, filename: string, converted: string, now: Stamp)
    ensures MarkAsProcessed(t + [Entry(lab, filename, converted, now, None)], lab, filename, converted, now) == Err(IntegrityError)
  {
    var t' := t + [Entry(lab, filename, converted, now, None)];
    assert t'[|t|].lab == lab && t'[|t|].filename == filename;
  }

  /** `process_file` as intended: the converter's own record is the only
      one, so the call succeeds exactly when the conversion does, and the
      file is then recorded. */
  method ProcessFile(lab: Lab, filename: string, store: Store, now: Stamp, cache: set<Field>)
    returns (r: Result<string>, store': Store, cache': set<Field>)
    ensures r.Ok? ==> Recorded(store'.ledger, lab.job.lab, filename) && r.value in store'.dir && r.value !in store.dir
    ensures r.Ok? ==> (filename, r.value) in GetUnmergedFilenames(store'.ledger, lab.job.lab)
    ensures r.Ok? ==> !Recorded(store.ledger, lab.job.lab, filename)
  {
    var converted;
    converted, store', cache' := MakeIntermediateFile(lab.job, filename, lab.source(filename), store, now, cache);
    if converted.Err? {
      return Err(converted.error), store', cache';
    }
    r := Ok(converted.value.0);
    var t := store'.ledger;
    assert t[|store.ledger|] == Entry(lab.job.lab, filename, r.value, now, None);
    assert (filename, r.value) in GetUnmergedFilenames(t, lab.job.lab);
  }
}
