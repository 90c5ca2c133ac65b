/** Writing an intermediate file: `make_intermediate_file`, and the
    `Anonymiser` class that does the same in `feed_file` and `work`. A file
    is the `Fed` record the row loop leaves; the intermediate directory is
    the set of file names in it; the ledger is the processed table. */
module Intermediate {
  import opened Outcomes
  import opened Strings
  import opened Records
  import opened Classifier
  import opened RangeTables
  import opened Ledger
  import opened Converter
  import opened Counting

  // ---------------------------------------------------------------------------
  // File names

  /** "{ENV}converted_{lab}_{month with '/' replaced by '_'}". */
  function BaseName(env: string, lab: string, month: string): string {
    env + "converted_" + lab + "_" + ReplaceChar(month, '/', '_')
  }

  function Plain(base: string): string {
    base + ".csv"
  }

  function Suffixed(base: string, n: nat): string {
    base + "_" + Dec(n) + ".csv"
  }

  /** Different counters give different names. */
  lemma SuffixedInjective(base: string, n: nat, m: nat)
    requires Suffixed(base, n) == Suffixed(base, m)
    ensures n == m
  {
    var a := Suffixed(base, n);
    assert |Dec(n)| == |a| - |base| - 5 == |Dec(m)|;
    assert Dec(n) == a[|base| + 1..|a| - 4];
    assert Dec(m) == a[|base| + 1..|a| - 4];
    DecInjective(n, m);
  }

  /** The name lines 237-247 settle on: the plain name when it is free,
      and otherwise the suffixed name with the least counter from 1 that is
      free. */
  ghost predicate LeastFree(dir: set<string>, base: string, name: string) {
    && name !in dir
    && (Plain(base) !in dir ==> name == Plain(base))
    && (Plain(base) in dir ==>
          exists n: nat | n >= 1 :: name == Suffixed(base, n) && forall m: nat | 1 <= m < n :: Suffixed(base, m) in dir)
  }

  /** At most one name is the least free one. */
  lemma LeastFreeUnique(dir: set<string>, base: string, a: string, b: string)
    requires LeastFree(dir, base, a) && LeastFree(dir, base, b)
    ensures a == b
  {
    if Plain(base) in dir {
      var n: nat :| n >= 1 && a == Suffixed(base, n) && forall m: nat | 1 <= m < n :: Suffixed(base, m) in dir;
      var n': nat :| n' >= 1 && b == Suffixed(base, n') && forall m: nat | 1 <= m < n' :: Suffixed(base, m) in dir;
      if n < n' {
        assert false;
      } else if n' < n {
        assert false;
      }
    }
  }

  /** The probing loop of lines 237-247. It ends because every name it
      passes over is a distinct member of the finite directory. */
  method FreshName(dir: set<string>, base: string) returns (name: string)
    ensures LeastFree(dir, base, name)
  {
    if Plain(base) !in dir {
      return Plain(base);
    }
    var dupes: nat := 1;
    ghost var tried: set<string> := {};
    while Suffixed(base, dupes) in dir
      invariant dupes >= 1
      invariant forall m: nat | 1 <= m < dupes :: Suffixed(base, m) in dir
      invariant tried <= dir
      invariant forall x | x in tried :: exists m: nat | 1 <= m < dupes :: x == Suffixed(base, m)
      decreases dir - tried
    {
      if Suffixed(base, dupes) in tried {
        var m: nat :| 1 <= m < dupes && Suffixed(base, dupes) == Suffixed(base, m);
        SuffixedInjective(base, dupes, m);
      }
      tried := tried + {Suffixed(base, dupes)};
      dupes := dupes + 1;
    }
    name := Suffixed(base, dupes);
  }

  // ---------------------------------------------------------------------------
  // Naming and placing a converted file

  /** Lines 232-249 (and 197-216 of the anonymiser): the file is named
      after the most common month of its tally, which must be a string,
      under the least free name, and moved into the directory. */
  ghost predicate Placed(fed: Fed, env: string, lab: string, dir: set<string>, r: Result<(string, Fed)>, dir': set<string>) {
    if |fed.tally| == 0 then r == Err(IndexError) && dir' == dir
    else
      exists month | FirstMax(fed.tally, month) ::
        if !month.Text? then r == Err(AttributeError) && dir' == dir
        else
          exists name | LeastFree(dir, BaseName(env, lab, month.s), name) ::
            r == Ok((name, fed)) && dir' == dir + {name}
  }

  /** With the floor check as written, a file that does not abort in the
      row loop leaves an empty month tally, so naming it fails with
      `IndexError` and nothing is added to the directory: no file converts. */
  lemma NoFileNamedAsWritten(rows: seq<Row>, s: Setup, env: string, lab: string, dir: set<string>,
                             r: Result<(string, Fed)>, dir': set<string>)
    requires FeedAsWritten(rows, s).Ok? && Placed(FeedAsWritten(rows, s).value, env, lab, dir, r, dir')
    ensures r == Err(IndexError) && dir' == dir
  {
  }

  /** Placing is deterministic: a tally has one first maximum and a
      directory one least free name, so the anonymiser and
      `make_intermediate_file` name the same contents identically. */
  lemma PlacedUnique(fed: Fed, env: string, lab: string, dir: set<string>,
                     r1: Result<(string, Fed)>, d1: set<string>, r2: Result<(string, Fed)>, d2: set<string>)
    requires DistinctKeys(fed.tally)
    requires Placed(fed, env, lab, dir, r1, d1) && Placed(fed, env, lab, dir, r2, d2)
    ensures r1 == r2 && d1 == d2
  {
    if |fed.tally| > 0 {
      var m1 :| FirstMax(fed.tally, m1) &&
        (if !m1.Text? then r1 == Err(AttributeError) && d1 == dir
         else exists name | LeastFree(dir, BaseName(env, lab, m1.s), name) :: r1 == Ok((name, fed)) && d1 == dir + {name});
      var m2 :| FirstMax(fed.tally, m2) &&
        (if !m2.Text? then r2 == Err(AttributeError) && d2 == dir
         else exists name | LeastFree(dir, BaseName(env, lab, m2.s), name) :: r2 == Ok((name, fed)) && d2 == dir + {name});
      FirstMaxUnique(fed.tally, m1, m2);
      if m1.Text? {
        var base := BaseName(env, lab, m1.s);
        var n1 :| LeastFree(dir, base, n1) && r1 == Ok((n1, fed)) && d1 == dir + {n1};
        var n2 :| LeastFree(dir, base, n2) && r2 == Ok((n2, fed)) && d2 == dir + {n2};
        LeastFreeUnique(dir, base, n1, n2);
      }
    }
  }

  /** Lines 232-249 as written: `most_common(1)`, `replace`, the probing
      loop and the rename. */
  method Place(fed: Fed, env: string, lab: string, dir: set<string>) returns (r: Result<(string, Fed)>, dir': set<string>)
    ensures Placed(fed, env, lab, dir, r, dir')
  {
    var month := MostCommon(fed.tally);
    if month.Err? {
      return Err(month.error), dir;
    }
    if !month.value.Text? {
      return Err(AttributeError), dir;
    }
    var base := BaseName(env, lab, month.value.s);
    var name := FreshName(dir, base);
    r, dir' := Ok((name, fed)), dir + {name};
  }

  // ---------------------------------------------------------------------------
  // make_intermediate_file

  /** What a lab hands the converter besides the file: its code, its range
      CSV when the configured path is a file, its callbacks, DATE_FLOOR as
      text, `float()`, and the ENV prefix. */
  datatype Job = Job(lab: string, csv: Option<RangeCsv>, rules: Rules, floor: string, float: FloatParser, env: string)

  /** The intermediate directory and the processed table. */
  datatype Store = Store(dir: set<string>, ledger: Table)

  function SetupFor(job: Job, ranges: seq<RefRange>): Setup {
    Setup(job.rules, ranges, job.floor, job.float)
  }

  /** `make_intermediate_file` on one source file, declaratively: load the
      ranges with the column check, run the row loop, place the output,
      then record the source file in the ledger. A file already recorded
      for the lab fails with `IntegrityError` after its output has been
      moved into the directory. */
  ghost predicate Produced(job: Job, filename: string, rows: seq<Row>, store: Store, now: Stamp,
                     r: Result<(string, Fed)>, store': Store)
    requires LoadRanges(job.csv, true).Ok?
  {
    match Feed(rows, SetupFor(job, LoadRanges(job.csv, true).value))
    case Err(e) => r == Err(e) && store' == store
    case Ok(fed) =>
      exists placed: Result<(string, Fed)>, dir': set<string> | Placed(fed, job.env, job.lab, store.dir, placed, dir') ::
        store'.dir == dir'
        && match placed
           case Err(e) => r == Err(e) && store'.ledger == store.ledger
           case Ok(p) =>
             match MarkAsProcessed(store.ledger, job.lab, filename, p.0, now)
             case Err(e) => r == Err(e) && store'.ledger == store.ledger
             case Ok(t) => r == Ok(p) && store'.ledger == t
  }

  /** Lines 169-251. The classifier's cache of codes without ranges is
      passed in and handed back, as the module-level set outlives the call;
      from a cache built from the same ranges the outcome is `Produced`. */
  method MakeIntermediateFile(job: Job, filename: string, rows: seq<Row>, store: Store, now: Stamp, cache: set<Field>)
    returns (r: Result<(string, Fed)>, store': Store, cache': set<Field>)
    ensures LoadRanges(job.csv, true).Err? ==> r == Err(LoadRanges(job.csv, true).error) && store' == store
    ensures LoadRanges(job.csv, true).Ok? && CacheSound(cache, LoadRanges(job.csv, true).value) ==>
      Produced(job, filename, rows, store, now, r, store') && CacheSound(cache', LoadRanges(job.csv, true).value)
    ensures r.Ok? ==> r.value.0 in store'.dir && r.value.0 !in store.dir
    ensures r.Ok? ==> store'.ledger == store.ledger + [Entry(job.lab, filename, r.value.0, now, None)]
    ensures r.Ok? ==> !Recorded(store.ledger, job.lab, filename)
  {
    var ranges := LoadRanges(job.csv, true);
    if ranges.Err? {
      return Err(ranges.error), store, cache;
    }
    var fed;
    fed, cache' := FeedRows(rows, SetupFor(job, ranges.value), cache);
    if fed.Err? {
      return Err(fed.error), store, cache';
    }
    var placed, dir' := Place(fed.value, job.env, job.lab, store.dir);
    if placed.Err? {
      return Err(placed.error), Store(dir', store.ledger), cache';
    }
    var recorded := MarkAsProcessed(store.ledger, job.lab, filename, placed.value.0, now);
    if recorded.Err? {
      return Err(recorded.error), Store(dir', store.ledger), cache';
    }
    r, store' := placed, Store(dir', recorded.value);
    assert r.value.0 in store'.dir && r.value.0 !in store.dir by {
      var month :| FirstMax(fed.value.tally, month) && month.Text? &&
        exists name | LeastFree(store.dir, BaseName(job.env, job.lab, month.s), name) ::
          placed == Ok((name, fed.value)) && dir' == store.dir + {name};
    }
  }

  // ---------------------------------------------------------------------------
  // The Anonymiser class

  /** An `Anonymiser`: the lab, the row iterator and the callbacks it was
      given (the iterator, filter and normaliser default to `None`), and
      the ranges loaded without the column check. */
  datatype Anonymiser = Anonymiser(
    lab: string,
    rowIterator: Option<string -> seq<Row>>,
    rules: Rules,
    ranges: seq<RefRange>,
    floor: string,
    float: FloatParser,
    env: string)

  /** `Anonymiser.__init__`: the ranges are those of the CSV sorted by test
      code, or none when the path is not a file. */
  function NewAnonymiser(lab: string, csv: Option<RangeCsv>, rowIterator: Option<string -> seq<Row>>,
                         rules: Rules, floor: string, float: FloatParser, env: string): (r: Result<Anonymiser>)
    ensures csv.None? ==> r.Ok? && r.value.ranges == []
    ensures csv.Some? ==> (r.Ok? <==> |csv.value.lines| == 0 || "test" in csv.value.header)
    ensures r.Ok? && csv.Some? ==>
      SortedByTest(r.value.ranges) && multiset(r.value.ranges) == multiset(csv.value.lines)
    ensures r.Ok? ==> r.value.lab == lab && r.value.rules == rules
  {
    match LoadRanges(csv, false)
    case Err(e) => Err(e)
    case Ok(ranges) =>
      if csv.Some? then
        SortByTestSorted(csv.value.lines);
        Ok(Anonymiser(lab, rowIterator, rules, ranges, floor, float, env))
      else Ok(Anonymiser(lab, rowIterator, rules, ranges, floor, float, env))
  }

  function AnonymiserSetup(a: Anonymiser): Setup {
    Setup(a.rules, a.ranges, a.floor, a.float)
  }

  /** `Anonymiser.feed_file`: the row loop over the file, returning the
      most common month of the tally together with what was written. A
      missing row iterator fails with `TypeError`. */
  method FeedFile(a: Anonymiser, filename: string, cache: set<Field>) returns (r: Result<(Field, Fed)>, cache': set<Field>)
    ensures a.rowIterator.None? ==> r == Err(TypeError)
    ensures a.rowIterator.Some? && CacheSound(cache, a.ranges) ==>
      CacheSound(cache', a.ranges)
      && match Feed(a.rowIterator.value(filename), AnonymiserSetup(a))
         case Err(e) => r == Err(e)
         case Ok(fed) =>
           if |fed.tally| == 0 then r == Err(IndexError)
           else r.Ok? && r.value.1 == fed && FirstMax(fed.tally, r.value.0)
  {
    if a.rowIterator.None? {
      return Err(TypeError), cache;
    }
    var fed;
    fed, cache' := FeedRows(a.rowIterator.value(filename), AnonymiserSetup(a), cache);
    if fed.Err? {
      return Err(fed.error), cache';
    }
    var month := MostCommon(fed.value.tally);
    if month.Err? {
      return Err(month.error), cache';
    }
    r := Ok((month.value, fed.value));
  }

  /** `Anonymiser.work`: feed the file, then name and place the output as
      `make_intermediate_file` does, without touching the ledger. */
  method Work(a: Anonymiser, filename: string, dir: set<string>, cache: set<Field>)
    returns (r: Result<(string, Fed)>, dir': set<string>, cache': set<Field>)
    ensures a.rowIterator.None? ==> r == Err(TypeError) && dir' == dir
    ensures a.rowIterator.Some? && CacheSound(cache, a.ranges) ==>
      CacheSound(cache', a.ranges)
      && match Feed(a.rowIterator.value(filename), AnonymiserSetup(a))
         case Err(e) => r == Err(e) && dir' == dir
         case Ok(fed) => Placed(fed, a.env, a.lab, dir, r, dir')
  {
    var fed;
    fed, cache' := FeedFile(a, filename, cache);
    if fed.Err? {
      return Err(fed.error), dir, cache';
    }
    var month := fed.value.0;
    if !month.Text? {
      return Err(AttributeError), dir, cache';
    }
    var name := FreshName(dir, BaseName(a.env, a.lab, month.s));
    r, dir' := Ok((name, fed.value.1)), dir + {name};
  }
}
