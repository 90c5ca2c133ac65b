/** `collections.Counter` as the pipeline uses it: keys counted in
    first-insertion order. */
module Counting {
  /** Keys with their counts, in first-insertion order. */
  type Tally<K> = seq<(K, nat)>

  predicate DistinctKeys<K(==)>(t: Tally<K>) {
    forall i, j | 0 <= i < j < |t| :: t[i].0 != t[j].0
  }

  /** Where `k` is counted, or `|t|` when it is not. */
  function KeyIndex<K(==)>(t: Tally<K>, k: K): (i: nat)
    ensures i <= |t|
    ensures i < |t| ==> t[i].0 == k
    ensures forall j | 0 <= j < i :: t[j].0 != k
  {
    if |t| == 0 then 0
    else if t[0].0 == k then 0
    else 1 + KeyIndex(t[1..], k)
  }

  /** `counter[k] += 1`: the count of a listed key goes up in place; a new
      key goes at the end with count one. */
  function Bump<K(==)>(t: Tally<K>, k: K): (r: Tally<K>)
    requires DistinctKeys(t)
    ensures DistinctKeys(r)
    ensures |r| == |t| || |r| == |t| + 1
    ensures forall i | 0 <= i < |t| :: r[i].0 == t[i].0
    ensures |r| == |t| + 1 <==> forall i | 0 <= i < |t| :: t[i].0 != k
    ensures |r| == |t| + 1 ==> r[|t|] == (k, 1)
    ensures forall i | 0 <= i < |t| :: r[i].1 == t[i].1 + (if t[i].0 == k then 1 else 0)
  {
    var i := KeyIndex(t, k);
    if i < |t| then t[i := (k, t[i].1 + 1)] else t + [(k, 1)]
  }

  function TallyOf<K(==)>(ms: seq<K>): (r: Tally<K>)
    ensures DistinctKeys(r)
  {
    if |ms| == 0 then [] else Bump(TallyOf(ms[..|ms| - 1]), ms[|ms| - 1])
  }

  function Occurrences<K(==)>(ms: seq<K>, k: K): nat {
    if |ms| == 0 then 0
    else Occurrences(ms[..|ms| - 1], k) + (if ms[|ms| - 1] == k then 1 else 0)
  }

  /** The tally of a sequence lists each distinct month once,
      with the number of times it occurs. */
  lemma {:induction false} OccurrencesAbsent<K>(ms: seq<K>, k: K)
    requires k !in ms
    ensures Occurrences(ms, k) == 0
  {
    if |ms| > 0 {
      assert ms[..|ms| - 1] + [ms[|ms| - 1]] == ms;
      OccurrencesAbsent(ms[..|ms| - 1], k);
    }
  }

  /** Some entry of the tally counts `k`. */
  predicate HasKey<K(==)>(t: Tally<K>, k: K) {
    exists i | 0 <= i < |t| :: t[i].0 == k
  }

  /** A bump lists the bumped key besides the keys already listed. */
  lemma BumpKeys<K>(t: Tally<K>, k: K, x: K)
    requires DistinctKeys(t)
    ensures HasKey(Bump(t, k), x) <==> x == k || HasKey(t, x)
  {
    if HasKey(t, x) {
      BumpKeepsKey(t, k, x);
    } else if x == k {
      BumpAddsKey(t, k);
    } else {
      BumpAddsOnlyKey(t, k, x);
    }
  }

  lemma BumpKeepsKey<K>(t: Tally<K>, k: K, x: K)
    requires DistinctKeys(t) && HasKey(t, x)
    ensures HasKey(Bump(t, k), x)
  {
    hide Bump, DistinctKeys;
    var i :| 0 <= i < |t| && t[i].0 == x;
    assert Bump(t, k)[i].0 == x;
  }

  lemma BumpAddsKey<K>(t: Tally<K>, k: K)
    requires DistinctKeys(t)
    ensures HasKey(Bump(t, k), k)
  {
    hide Bump, DistinctKeys;
    if HasKey(t, k) {
      BumpKeepsKey(t, k, k);
    } else {
      assert Bump(t, k)[|t|].0 == k;
    }
  }

  lemma BumpAddsOnlyKey<K>(t: Tally<K>, k: K, x: K)
    requires DistinctKeys(t) && x != k && !HasKey(t, x)
    ensures !HasKey(Bump(t, k), x)
  {
    hide Bump, DistinctKeys;
    var r := Bump(t, k);
    forall i | 0 <= i < |r| ensures r[i].0 != x {
      if i < |t| {
        assert r[i].0 == t[i].0;
      }
    }
  }

  /** The tally of a sequence lists exactly the keys that
      occur in it, each once. */
  lemma {:induction false} TallyOfKeys<K>(ms: seq<K>)
    ensures forall k :: k in ms <==> HasKey(TallyOf(ms), k)
  {
    if |ms| > 0 {
      var init := ms[..|ms| - 1];
      var k := ms[|ms| - 1];
      TallyOfKeys(init);
      assert ms == init + [k];
      forall x ensures x in ms <==> HasKey(TallyOf(ms), x) {
        BumpKeys(TallyOf(init), k, x);
      }
    }
  }

  /** Each key's count in the tally is the number of times it occurs. */
  lemma {:induction false} TallyOfCounts<K>(ms: seq<K>)
    ensures forall i | 0 <= i < |TallyOf(ms)| :: TallyOf(ms)[i].1 == Occurrences(ms, TallyOf(ms)[i].0)
  {
    if |ms| > 0 {
      var init := ms[..|ms| - 1];
      var k := ms[|ms| - 1];
      TallyOfCounts(init);
      TallyOfKeys(init);
      var t := TallyOf(init);
      var r := TallyOf(ms);
      assert r == Bump(t, k);
      forall i | 0 <= i < |r| ensures r[i].1 == Occurrences(ms, r[i].0) {
        if i < |t| {
          assert r[i].1 == t[i].1 + (if t[i].0 == k then 1 else 0);
        } else {
          assert r[i] == (k, 1);
          OccurrencesAbsent(init, k);
        }
      }
    }
  }

  lemma TallyOfSnoc<K>(ms: seq<K>, m: K)
    ensures TallyOf(ms + [m]) == Bump(TallyOf(ms), m)
  {
    assert (ms + [m])[..|ms|] == ms;
  }

  /** A key that occurs is counted at least once. */
  lemma {:induction false} OccurrencesPresent<K>(ms: seq<K>, k: K)
    requires k in ms
    ensures Occurrences(ms, k) >= 1
  {
    var init := ms[..|ms| - 1];
    assert ms == init + [ms[|ms| - 1]];
    if ms[|ms| - 1] != k {
      OccurrencesPresent(init, k);
    }
  }

  /** The sum of a tally's counts. */
  function Total<K>(t: Tally<K>): nat {
    if |t| == 0 then 0 else t[0].1 + Total(t[1..])
  }

  lemma {:induction false} TotalAppend<K>(t: Tally<K>, e: (K, nat))
    ensures Total(t + [e]) == Total(t) + e.1
  {
    if |t| > 0 {
      assert (t + [e])[1..] == t[1..] + [e];
      TotalAppend(t[1..], e);
    }
  }

  lemma {:induction false} TotalIncrement<K>(t: Tally<K>, i: nat)
    requires i < |t|
    ensures Total(t[i := (t[i].0, t[i].1 + 1)]) == Total(t) + 1
  {
    if i > 0 {
      assert t[i := (t[i].0, t[i].1 + 1)][1..] == t[1..][i - 1 := (t[i].0, t[i].1 + 1)];
      TotalIncrement(t[1..], i - 1);
    }
  }

  lemma BumpTotal<K>(t: Tally<K>, k: K)
    requires DistinctKeys(t)
    ensures Total(Bump(t, k)) == Total(t) + 1
  {
    var i := KeyIndex(t, k);
    if i < |t| {
      TotalIncrement(t, i);
    } else {
      TotalAppend(t, (k, 1));
    }
  }

  /** No element is lost or invented: the counts add up to the length. */
  lemma {:induction false} TallyOfTotal<K>(ms: seq<K>)
    ensures Total(TallyOf(ms)) == |ms|
  {
    if |ms| > 0 {
      TallyOfTotal(ms[..|ms| - 1]);
      BumpTotal(TallyOf(ms[..|ms| - 1]), ms[|ms| - 1]);
    }
  }
}
