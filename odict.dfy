/** Python dictionaries whose iteration order matters: a sequence of
    key/value pairs. `Put` is `d[k] = v`: it replaces the value in place when
    the key is there and appends the pair otherwise, as CPython does. */
module ODict {
  import opened Wrappers
  import opened Seqs

  type ODict<K, V> = seq<(K, V)>

  function Keys<K, V>(d: ODict<K, V>): (ks: seq<K>)
    ensures |ks| == |d| && forall i :: 0 <= i < |d| ==> ks[i] == d[i].0
    decreases |d|
  {
    if |d| == 0 then [] else [d[0].0] + Keys(d[1..])
  }

  predicate DistinctKeys<K(==), V>(d: ODict<K, V>) {
    forall i, j :: 0 <= i < j < |d| ==> d[i].0 != d[j].0
  }

  /** `k in d`. */
  predicate HasKey<K(==), V>(d: ODict<K, V>, k: K) {
    k in Keys(d)
  }

  /** `d[k]` when present. */
  function Get<K(==), V>(d: ODict<K, V>, k: K): (r: Option<V>)
    ensures r.Some? <==> HasKey(d, k)
    decreases |d|
  {
    if |d| == 0 then None
    else if d[0].0 == k then Some(d[0].1)
    else Get(d[1..], k)
  }

  /** `d.get(k, default)`. */
  function GetOr<K(==), V>(d: ODict<K, V>, k: K, default: V): V {
    match Get(d, k)
    case Some(v) => v
    case None => default
  }

  /** `d[k] = v`. */
  function Put<K(==), V>(d: ODict<K, V>, k: K, v: V): ODict<K, V>
    decreases |d|
  {
    if |d| == 0 then [(k, v)]
    else if d[0].0 == k then [(k, v)] + d[1..]
    else [d[0]] + Put(d[1..], k, v)
  }

  /** After `d[k] = v`, key `k` holds `v` and every other key what it held. */
  lemma {:induction false} GetPut<K, V>(d: ODict<K, V>, k: K, v: V, k': K)
    ensures Get(Put(d, k, v), k') == if k' == k then Some(v) else Get(d, k')
    decreases |d|
  {
    if |d| > 0 && d[0].0 != k {
      GetPut(d[1..], k, v, k');
      assert Put(d, k, v)[1..] == Put(d[1..], k, v);
    }
  }

  /** `d[k] = v` keeps the key order, appending `k` when it is new. */
  lemma {:induction false} KeysPut<K, V>(d: ODict<K, V>, k: K, v: V)
    ensures Keys(Put(d, k, v)) == if HasKey(d, k) then Keys(d) else Keys(d) + [k]
    decreases |d|
  {
    if |d| > 0 && d[0].0 != k {
      KeysPut(d[1..], k, v);
      assert Keys(d) == [d[0].0] + Keys(d[1..]);
      assert Put(d, k, v) == [d[0]] + Put(d[1..], k, v);
      assert Keys(Put(d, k, v)) == [d[0].0] + Keys(Put(d[1..], k, v));
    }
  }

  lemma DistinctByKeys<K, V>(d: ODict<K, V>, e: ODict<K, V>)
    requires Keys(d) == Keys(e) && DistinctKeys(d)
    ensures DistinctKeys(e)
  {
    assert forall i :: 0 <= i < |e| ==> e[i].0 == Keys(d)[i];
  }

  /** Assignment never duplicates a key. */
  lemma DistinctPut<K, V>(d: ODict<K, V>, k: K, v: V)
    requires DistinctKeys(d)
    ensures DistinctKeys(Put(d, k, v))
  {
    KeysPut(d, k, v);
    var e := Put(d, k, v);
    if HasKey(d, k) {
      DistinctByKeys(d, e);
    } else {
      assert forall i :: 0 <= i < |d| ==> e[i].0 == d[i].0;
      assert e[|d|].0 == k;
    }
  }

  /** In a dictionary without duplicate keys, each pair is what its key
      looks up. */
  lemma {:induction false} GetAt<K, V>(d: ODict<K, V>, j: nat)
    requires DistinctKeys(d) && j < |d|
    ensures Get(d, d[j].0) == Some(d[j].1)
    decreases j
  {
    if j > 0 {
      assert d[0].0 != d[j].0;
      assert d[1..][j - 1] == d[j];
      GetAt(d[1..], j - 1);
    }
  }

  /** How many times `k` occurs in `xs`. */
  function Occurrences<K(==)>(xs: seq<K>, k: K): nat
    decreases |xs|
  {
    if |xs| == 0 then 0
    else Occurrences(xs[..|xs| - 1], k) + (if xs[|xs| - 1] == k then 1 else 0)
  }

  /** Every element of `xs` occurs in it. */
  lemma {:induction false} OccurrencesPositive<K>(xs: seq<K>, j: nat)
    requires j < |xs|
    ensures Occurrences(xs, xs[j]) > 0
    decreases |xs|
  {
    if j < |xs| - 1 {
      assert xs[..|xs| - 1][j] == xs[j];
      OccurrencesPositive(xs[..|xs| - 1], j);
    }
  }

  /** The counter `d[x] = d.get(x, 0) + 1` filled over `xs` in order. */
  function Tally<K(==)>(xs: seq<K>): ODict<K, int>
    decreases |xs|
  {
    if |xs| == 0 then []
    else
      var d := Tally(xs[..|xs| - 1]);
      var x := xs[|xs| - 1];
      Put(d, x, GetOr(d, x, 0) + 1)
  }

  /** Counting something leaves a non-empty counter. */
  lemma TallyNonEmpty<K>(xs: seq<K>)
    requires |xs| > 0
    ensures |Tally(xs)| > 0
  {
  }

  /** Counting one more element bumps its entry. */
  lemma TallySnoc<K>(xs: seq<K>, x: K)
    ensures Tally(xs + [x]) == Put(Tally(xs), x, GetOr(Tally(xs), x, 0) + 1)
  {
    assert (xs + [x])[..|xs|] == xs;
  }

  /** The counting loop `d[x] = d.get(x, 0) + 1` over `xs`, which stops at
      the first element that cannot be a key (`ok` fails on it). */
  method CountEach<K(==)>(xs: seq<K>, ok: K -> bool) returns (r: Option<ODict<K, int>>)
    ensures r.None? <==> exists i :: 0 <= i < |xs| && !ok(xs[i])
    ensures r.Some? ==> r.value == Tally(xs)
  {
    var d: ODict<K, int> := [];
    var i := 0;
    while i < |xs|
      invariant 0 <= i <= |xs|
      invariant forall j :: 0 <= j < i ==> ok(xs[j])
      invariant d == Tally(xs[..i])
    {
      if !ok(xs[i]) {
        return None;
      }
      var x := xs[i];
      assert xs[..i + 1] == xs[..i] + [x];
      TallySnoc(xs[..i], x);
      d := Put(d, x, GetOr(d, x, 0) + 1);
      assert d == Tally(xs[..i + 1]);
      assert forall j :: 0 <= j < i + 1 ==> ok(xs[j]);
      i := i + 1;
    }
    assert xs[..i] == xs;
    r := Some(d);
  }

  /** Every key of the counter holds its number of occurrences, and the keys
      are exactly the elements that occur. */
  lemma {:induction false} TallyCounts<K>(xs: seq<K>, k: K)
    ensures GetOr(Tally(xs), k, 0) == Occurrences(xs, k)
    ensures HasKey(Tally(xs), k) <==> Occurrences(xs, k) > 0
    decreases |xs|
  {
    if |xs| > 0 {
      var prefix := xs[..|xs| - 1];
      var x := xs[|xs| - 1];
      var d := Tally(prefix);
      var v := GetOr(d, x, 0) + 1;
      TallyCounts(prefix, k);
      TallyCounts(prefix, x);
      GetPut(d, x, v, k);
      var e := Tally(xs);
      assert e == Put(d, x, v);
      assert Get(e, k) == if k == x then Some(v) else Get(d, k);
    }
  }

  lemma {:induction false} TallyDistinct<K>(xs: seq<K>)
    ensures DistinctKeys(Tally(xs))
    decreases |xs|
  {
    if |xs| > 0 {
      var d := Tally(xs[..|xs| - 1]);
      var x := xs[|xs| - 1];
      TallyDistinct(xs[..|xs| - 1]);
      DistinctPut(d, x, GetOr(d, x, 0) + 1);
    }
  }

  function Sum<K>(d: ODict<K, int>): int
    decreases |d|
  {
    if |d| == 0 then 0 else d[0].1 + Sum(d[1..])
  }

  lemma {:induction false} SumPut<K>(d: ODict<K, int>, k: K, v: int)
    ensures Sum(Put(d, k, v)) + GetOr(d, k, 0) == Sum(d) + v
    decreases |d|
  {
    if |d| > 0 && d[0].0 != k {
      SumPut(d[1..], k, v);
      assert Put(d, k, v) == [d[0]] + Put(d[1..], k, v);
      assert Put(d, k, v)[1..] == Put(d[1..], k, v);
    }
  }

  /** The counts of a counter add up to the number of elements counted. */
  lemma {:induction false} TallySum<K>(xs: seq<K>)
    ensures Sum(Tally(xs)) == |xs|
    decreases |xs|
  {
    if |xs| > 0 {
      var prefix := xs[..|xs| - 1];
      var x := xs[|xs| - 1];
      var d := Tally(prefix);
      var v := GetOr(d, x, 0) + 1;
      TallySum(prefix);
      SumPut(d, x, v);
      var e := Tally(xs);
      assert e == Put(d, x, v);
    }
  }

  lemma {:induction false} SumConcat<K>(a: ODict<K, int>, b: ODict<K, int>)
    ensures Sum(a + b) == Sum(a) + Sum(b)
    decreases |a|
  {
    if |a| == 0 {
      assert a + b == b;
    } else {
      assert (a + b)[1..] == a[1..] + b;
      SumConcat(a[1..], b);
    }
  }

  /** Reordering the items of a counter does not change their total. */
  lemma {:induction false} SumPermutation<K>(a: ODict<K, int>, b: ODict<K, int>)
    requires multiset(a) == multiset(b)
    ensures Sum(a) == Sum(b)
    decreases |a|
  {
    if |a| == 0 {
      assert |multiset(b)| == 0;
    } else {
      var x := a[0];
      assert x in multiset(b);
      var j :| 0 <= j < |b| && b[j] == x;
      var pre, post := b[..j], b[j + 1..];
      var b' := pre + post;
      assert b == pre + ([x] + post);
      SumConcat(pre, [x] + post);
      SumConcat(pre, post);
      assert ([x] + post)[1..] == post;
      assert Sum(b) == Sum(pre) + x.1 + Sum(post);
      assert Sum(b') == Sum(pre) + Sum(post);
      PermutationRemove(a, b, j);
      assert Sum(a) == x.1 + Sum(a[1..]);
      SumPermutation(a[1..], b');
    }
  }

  /** Any reordering of a counter's items still pairs each element with its
      number of occurrences ... */
  lemma PermutedTallyCounts<K>(xs: seq<K>, rows: ODict<K, int>)
    requires multiset(rows) == multiset(Tally(xs))
    ensures forall i :: 0 <= i < |rows| ==> rows[i].1 == Occurrences(xs, rows[i].0)
  {
    var d := Tally(xs);
    TallyDistinct(xs);
    forall i | 0 <= i < |rows|
      ensures rows[i].1 == Occurrences(xs, rows[i].0)
    {
      assert rows[i] in multiset(d);
      var j :| 0 <= j < |d| && d[j] == rows[i];
      GetAt(d, j);
      TallyCounts(xs, rows[i].0);
    }
  }

  /** ... lists every element that occurs ... */
  lemma PermutedTallyComplete<K>(xs: seq<K>, rows: ODict<K, int>)
    requires multiset(rows) == multiset(Tally(xs))
    ensures forall k :: Occurrences(xs, k) > 0 ==> exists i :: 0 <= i < |rows| && rows[i].0 == k
  {
    var d := Tally(xs);
    forall k | Occurrences(xs, k) > 0
      ensures exists i :: 0 <= i < |rows| && rows[i].0 == k
    {
      TallyCounts(xs, k);
      assert k in Keys(d);
      var j :| 0 <= j < |d| && Keys(d)[j] == k;
      assert d[j] in multiset(rows);
      var i :| 0 <= i < |rows| && rows[i] == d[j];
    }
  }

  /** ... and its counts still add up to the number of elements. */
  lemma PermutedTallySum<K>(xs: seq<K>, rows: ODict<K, int>)
    requires multiset(rows) == multiset(Tally(xs))
    ensures Sum(rows) == |xs|
  {
    TallySum(xs);
    SumPermutation(rows, Tally(xs));
  }

  /** The elements paired with key `k`, in order. */
  function Select<K(==), X>(pairs: seq<(K, X)>, k: K): seq<X>
    decreases |pairs|
  {
    if |pairs| == 0 then []
    else
      var p := pairs[|pairs| - 1];
      Select(pairs[..|pairs| - 1], k) + (if p.0 == k then [p.1] else [])
  }

  /** The grouping `d.setdefault(k, []).append(x)` filled over `pairs` in order. */
  function Group<K(==), X>(pairs: seq<(K, X)>): ODict<K, seq<X>>
    decreases |pairs|
  {
    if |pairs| == 0 then []
    else
      var d := Group(pairs[..|pairs| - 1]);
      var p := pairs[|pairs| - 1];
      Put(d, p.0, GetOr(d, p.0, []) + [p.1])
  }

  /** Each group holds exactly the elements with its key, in input order,
      and there is a group exactly for the keys that occur. */
  lemma {:induction false} GroupSelects<K, X>(pairs: seq<(K, X)>, k: K)
    ensures GetOr(Group(pairs), k, []) == Select(pairs, k)
    ensures HasKey(Group(pairs), k) <==> Select(pairs, k) != []
    decreases |pairs|
  {
    if |pairs| > 0 {
      var d := Group(pairs[..|pairs| - 1]);
      var p := pairs[|pairs| - 1];
      GroupSelects(pairs[..|pairs| - 1], k);
      GetPut(d, p.0, GetOr(d, p.0, []) + [p.1], k);
    }
  }

  lemma {:induction false} GroupDistinct<K, X>(pairs: seq<(K, X)>)
    ensures DistinctKeys(Group(pairs))
    decreases |pairs|
  {
    if |pairs| > 0 {
      var d := Group(pairs[..|pairs| - 1]);
      var p := pairs[|pairs| - 1];
      GroupDistinct(pairs[..|pairs| - 1]);
      DistinctPut(d, p.0, GetOr(d, p.0, []) + [p.1]);
    }
  }

  /** One more pair selects one more element exactly under its key. */
  lemma SelectSnoc<K, X>(pairs: seq<(K, X)>, p: (K, X), k: K)
    ensures Select(pairs + [p], k) == Select(pairs, k) + (if p.0 == k then [p.1] else [])
  {
    assert (pairs + [p])[..|pairs|] == pairs;
  }

  /** One more pair is appended to its key's group. */
  lemma GroupSnoc<K, X>(pairs: seq<(K, X)>, p: (K, X))
    ensures Group(pairs + [p]) == Put(Group(pairs), p.0, GetOr(Group(pairs), p.0, []) + [p.1])
  {
    assert (pairs + [p])[..|pairs|] == pairs;
  }
}
