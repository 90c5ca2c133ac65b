/** Rows as the pipeline passes them between stages: dicts from a column
    name to a cell. */
module Records {
  import opened Outcomes
  import opened Settings

  /** A cell: text as read from an input file, a float, `None`, or a
      result code written by a classifier. */
  datatype Field = Text(s: string) | Num(r: real) | Null | Code(c: ResultCode)

  type Row = map<string, Field>

  /** Python truthiness of a cell (`0`, `0.0`, `""` and `None` are false). */
  predicate Truthy(f: Field) {
    match f
    case Text(s) => s != ""
    case Num(r) => r != 0.0
    case Null => false
    case Code(c) => Value(c) != 0
  }

  /** `row[k]`. */
  function Get(row: Row, k: string): (r: Result<Field>)
    ensures r.Ok? <==> k in row
    ensures r.Ok? ==> r.value == row[k]
    ensures r.Err? ==> r.error == KeyError
  {
    if k in row then Ok(row[k]) else Err(KeyError)
  }

  /** The target names of a column mapping. */
  function Targets(mapping: seq<(string, string)>): set<string> {
    set i | 0 <= i < |mapping| :: mapping[i].0
  }

  predicate DistinctTargets(mapping: seq<(string, string)>) {
    forall i, j | 0 <= i < j < |mapping| :: mapping[i].0 != mapping[j].0
  }

  lemma TargetsSnoc(mapping: seq<(string, string)>)
    requires |mapping| > 0
    ensures Targets(mapping) == Targets(mapping[..|mapping| - 1]) + {mapping[|mapping| - 1].0}
  {
    var init := mapping[..|mapping| - 1];
    forall k | k in Targets(mapping) ensures k in Targets(init) + {mapping[|mapping| - 1].0} {
      var i :| 0 <= i < |mapping| && mapping[i].0 == k;
      if i < |mapping| - 1 {
        assert init[i].0 == k;
      }
    }
    forall k | k in Targets(init) ensures k in Targets(mapping) {
      var i :| 0 <= i < |init| && init[i].0 == k;
      assert mapping[i].0 == k;
    }
  }

  /** The loop `for k, v in col_mapping.items(): mapped[k] = row[v]` that
      every lab's `normalise_data` ends with: a fresh record holding exactly
      the mapped names, or the `KeyError` of a missing source column. */
  function Reshape(row: Row, mapping: seq<(string, string)>): (r: Result<Row>)
    ensures r.Ok? <==> forall i | 0 <= i < |mapping| :: mapping[i].1 in row
    ensures r.Err? ==> r.error == KeyError
    ensures r.Ok? ==> r.value.Keys == Targets(mapping)
    decreases |mapping|
  {
    if |mapping| == 0 then Ok(map[])
    else
      var init := mapping[..|mapping| - 1];
      var last := mapping[|mapping| - 1];
      var prev := Reshape(row, init);
      TargetsSnoc(mapping);
      assert forall i | 0 <= i < |init| :: init[i] == mapping[i];
      if prev.Err? then prev
      else if last.1 !in row then Err(KeyError)
      else Ok(prev.value[last.0 := row[last.1]])
  }

  /** One column of a reshaped record: with distinct names, each name holds
      the cell of its own source column. */
  lemma {:induction false} ReshapeAt(row: Row, mapping: seq<(string, string)>, i: nat)
    requires Reshape(row, mapping).Ok? && DistinctTargets(mapping) && i < |mapping|
    ensures mapping[i].1 in row
    ensures mapping[i].0 in Reshape(row, mapping).value
    ensures Reshape(row, mapping).value[mapping[i].0] == row[mapping[i].1]
    decreases |mapping|
  {
    var init := mapping[..|mapping| - 1];
    var last := mapping[|mapping| - 1];
    var prev := Reshape(row, init);
    assert prev.Ok?;
    assert Reshape(row, mapping).value == prev.value[last.0 := row[last.1]];
    if i < |init| {
      assert init[i] == mapping[i];
      assert DistinctTargets(init) by {
        assert forall a | 0 <= a < |init| :: init[a] == mapping[a];
      }
      ReshapeAt(row, init, i);
      assert mapping[i].0 != last.0;
    }
  }

  /** `[row[k] for k in keys]`: the projection written to the intermediate
      file, or the `KeyError` of the first missing key. */
  function Project(row: Row, keys: seq<string>): (r: Result<seq<Field>>)
    ensures r.Ok? <==> forall i | 0 <= i < |keys| :: keys[i] in row
    ensures r.Err? ==> r.error == KeyError
    ensures r.Ok? ==> |r.value| == |keys| && forall i | 0 <= i < |keys| :: r.value[i] == row[keys[i]]
  {
    if |keys| == 0 then Ok([])
    else if keys[0] !in row then Err(KeyError)
    else
      var rest := Project(row, keys[1..]);
      if rest.Err? then rest
      else
        assert forall i | 1 <= i < |keys| :: keys[i] == keys[1..][i - 1];
        Ok([row[keys[0]]] + rest.value)
  }
}
