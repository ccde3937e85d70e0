/** Python's `dict` with string keys: an insertion-ordered sequence of entries with distinct keys.
    `d[k] = v` replaces the value in place when `k` is already a key and appends otherwise. */
module OrderedDict {
  import opened Wrappers

  /** The keys of a sequence of entries, in order. */
  function Keys<V>(s: seq<(string, V)>): (ks: seq<string>)
    ensures |ks| == |s|
    ensures forall i :: 0 <= i < |s| ==> ks[i] == s[i].0
  {
    seq(|s|, i requires 0 <= i < |s| => s[i].0)
  }

  /** No key occurs twice. */
  predicate DistinctKeys<V>(s: seq<(string, V)>) {
    forall i, j :: 0 <= i < j < |s| ==> s[i].0 != s[j].0
  }

  /** No key of `a` is a key of `b`. */
  predicate Disjoint<V>(a: seq<(string, V)>, b: seq<(string, V)>) {
    forall k :: k in Keys(a) ==> k !in Keys(b)
  }

  /** A decoded JSON object or a Python dict: its keys are distinct. */
  type Dict<V> = s: seq<(string, V)> | DistinctKeys(s) witness []

  /** `d.get(k)`: the value stored under `k`, if any. */
  function Lookup<V>(s: seq<(string, V)>, k: string): (r: Option<V>)
    ensures r.Some? <==> k in Keys(s)
  {
    if s == [] then None
    else if s[0].0 == k then Some(s[0].1)
    else
      assert Keys(s) == [s[0].0] + Keys(s[1..]);
      Lookup(s[1..], k)
  }

  /** The position of key `k`. */
  function IndexOf<V>(s: seq<(string, V)>, k: string): (i: nat)
    requires k in Keys(s)
    ensures i < |s| && s[i].0 == k
    ensures forall j :: 0 <= j < i ==> s[j].0 != k
  {
    assert Keys(s) == [s[0].0] + Keys(s[1..]);
    if s[0].0 == k then 0 else 1 + IndexOf(s[1..], k)
  }

  /** `d[k] = v`. */
  function Insert<V>(d: Dict<V>, k: string, v: V): (r: Dict<V>)
    ensures k in Keys(d) ==> r == d[IndexOf(d, k) := (k, v)]
    ensures k !in Keys(d) ==> r == d + [(k, v)]
  {
    if k in Keys(d) then
      var i := IndexOf(d, k);
      assert forall j :: 0 <= j < |d| && j != i ==> d[j].0 != k;
      d[i := (k, v)]
    else
      assert forall j :: 0 <= j < |d| ==> d[j].0 in Keys(d);
      d + [(k, v)]
  }

  /** Inserting the entries `cols` one after the other, in order. */
  function InsertAll<V>(d: Dict<V>, cols: seq<(string, V)>): Dict<V> {
    if cols == [] then d
    else
      var last := cols[|cols| - 1];
      Insert(InsertAll(d, cols[..|cols| - 1]), last.0, last.1)
  }

  lemma InsertAllSnoc<V>(d: Dict<V>, cols: seq<(string, V)>, k: string, v: V)
    ensures InsertAll(d, cols + [(k, v)]) == Insert(InsertAll(d, cols), k, v)
  {
    assert (cols + [(k, v)])[..|cols|] == cols;
  }

  /** Inserting `a` and then `b` is inserting `a + b`. */
  lemma {:induction false} InsertAllAppend<V>(d: Dict<V>, a: seq<(string, V)>, b: seq<(string, V)>)
    ensures InsertAll(d, a + b) == InsertAll(InsertAll(d, a), b)
    decreases |b|
  {
    if b == [] {
      assert a + b == a;
    } else {
      var n := |b| - 1;
      assert (a + b)[..|a| + n] == a + b[..n];
      assert (a + b)[|a| + n] == b[n];
      InsertAllAppend(d, a, b[..n]);
    }
  }

  /** When no key repeats, inserting appends: no entry overwrites another. */
  lemma {:induction false} InsertAllFresh<V>(d: Dict<V>, cols: seq<(string, V)>)
    requires DistinctKeys(d + cols)
    ensures InsertAll(d, cols) == d + cols
  {
    if cols != [] {
      var n := |cols| - 1;
      var last := cols[n];
      assert (d + cols)[..|d| + n] == d + cols[..n];
      InsertAllFresh(d, cols[..n]);
      assert (d + cols)[|d| + n] == last;
      assert last.0 !in Keys(d + cols[..n]);
      assert d + cols[..n] + [last] == d + cols;
    }
  }

  /** Looking up a key in the first part that has it. */
  lemma {:induction false} LookupAppend<V>(a: seq<(string, V)>, b: seq<(string, V)>, k: string)
    ensures Lookup(a + b, k) == if k in Keys(a) then Lookup(a, k) else Lookup(b, k)
  {
    if a == [] {
      assert a + b == b;
    } else {
      assert (a + b)[0] == a[0];
      assert Keys(a) == [a[0].0] + Keys(a[1..]);
      if a[0].0 != k {
        assert (a + b)[1..] == a[1..] + b;
        LookupAppend(a[1..], b, k);
      }
    }
  }

  /** In a sequence with distinct keys, the entry at position `i` is what its key looks up. */
  lemma {:induction false} LookupAt<V>(s: seq<(string, V)>, i: nat)
    requires DistinctKeys(s) && i < |s|
    ensures Lookup(s, s[i].0) == Some(s[i].1)
  {
    if i > 0 {
      LookupAt(s[1..], i - 1);
    }
  }

  /** Two sequences with distinct keys and no key in common concatenate to one with distinct keys. */
  lemma DistinctAppend<V>(a: seq<(string, V)>, b: seq<(string, V)>)
    requires DistinctKeys(a) && DistinctKeys(b) && Disjoint(a, b)
    ensures DistinctKeys(a + b)
  {
    forall i, j | 0 <= i < j < |a + b|
      ensures (a + b)[i].0 != (a + b)[j].0
    {
      if j < |a| {
        assert (a + b)[i] == a[i] && (a + b)[j] == a[j];
      } else if |a| <= i {
        assert (a + b)[i] == b[i - |a|] && (a + b)[j] == b[j - |a|];
      } else {
        assert (a + b)[i].0 == Keys(a)[i] && Keys(a)[i] in Keys(a);
        assert (a + b)[j].0 == Keys(b)[j - |a|] && Keys(b)[j - |a|] in Keys(b);
      }
    }
  }

  /** For a key already present, `d[k] = v` keeps every position and changes only that key's value. */
  lemma InsertInPlace<V>(d: Dict<V>, k: string, v: V)
    requires k in Keys(d)
    ensures var r := Insert(d, k, v);
            |r| == |d| && forall i :: 0 <= i < |d| ==> r[i] == if d[i].0 == k then (k, v) else d[i]
  {
    var i := IndexOf(d, k);
    assert forall j :: 0 <= j < |d| && j != i ==> d[j].0 != k;
  }

  /** `d[k] = v` followed by `d.get(k)` gives `v`; every other key keeps its value. */
  lemma InsertLookup<V>(d: Dict<V>, k: string, v: V, k': string)
    ensures Lookup(Insert(d, k, v), k') == if k' == k then Some(v) else Lookup(d, k')
  {
    var r := Insert(d, k, v);
    if k in Keys(d) {
      InsertInPlace(d, k, v);
      var i := IndexOf(d, k);
      assert r[i] == (k, v);
      if k' == k {
        LookupAt(r, i);
      } else if k' in Keys(d) {
        var j := IndexOf(d, k');
        assert r[j] == d[j];
        LookupAt(r, j);
        LookupAt(d, j);
      } else {
        assert Keys(r) == Keys(d);
      }
    } else {
      LookupAppend(d, [(k, v)], k');
    }
  }
}
