/** The uses of Python's `sorted` in the core: ascending order of string
    keys and of string-keyed counter items, and the stable descending sort of
    counter items by count. */
module Sorting {
  import opened Wrappers
  import opened Json
  import opened Text
  import opened ODict

  /** Python's `<=` on strings. */
  predicate LessEq(a: string, b: string) {
    a == b || Less(a, b)
  }

  predicate AllStr(vs: seq<Value>) {
    forall i :: 0 <= i < |vs| ==> vs[i].Str?
  }

  /** A list of strings in ascending order. */
  predicate Ascending(vs: seq<Value>)
    requires AllStr(vs)
  {
    forall i, j :: 0 <= i < j < |vs| ==> LessEq(vs[i].s, vs[j].s)
  }

  /** Insert `x` before the first element not below it. */
  function Insert(x: Value, ys: seq<Value>): (r: seq<Value>)
    requires x.Str? && AllStr(ys)
    ensures multiset(r) == multiset(ys) + multiset{x}
    ensures AllStr(r)
    decreases |ys|
  {
    if |ys| == 0 || !Less(ys[0].s, x.s) then [x] + ys
    else
      assert ys == [ys[0]] + ys[1..];
      [ys[0]] + Insert(x, ys[1..])
  }

  lemma {:induction false} InsertAscending(x: Value, ys: seq<Value>)
    requires x.Str? && AllStr(ys) && Ascending(ys)
    ensures Ascending(Insert(x, ys))
    decreases |ys|
  {
    var r := Insert(x, ys);
    if |ys| == 0 {
    } else if !Less(ys[0].s, x.s) {
      LessTotal(x.s, ys[0].s);
      forall j | 1 <= j < |r| ensures LessEq(r[0].s, r[j].s) {
        assert r[j] == ys[j - 1];
        if j > 1 && x.s != ys[0].s && ys[0].s != ys[j - 1].s {
          LessTransitive(x.s, ys[0].s, ys[j - 1].s);
        }
      }
    } else {
      InsertAscending(x, ys[1..]);
      var rest := Insert(x, ys[1..]);
      assert r == [ys[0]] + rest;
      forall j | 0 <= j < |rest| ensures LessEq(ys[0].s, rest[j].s) {
        assert rest[j] in multiset(rest);
        assert rest[j] == x || rest[j] in multiset(ys[1..]);
        if rest[j] != x {
          var k :| 0 <= k < |ys[1..]| && ys[1..][k] == rest[j];
          assert ys[k + 1] == rest[j];
        }
      }
    }
  }

  /** `sorted(vs)` for strings. */
  function SortStrings(vs: seq<Value>): (r: seq<Value>)
    requires AllStr(vs)
    ensures multiset(r) == multiset(vs)
    ensures AllStr(r)
    decreases |vs|
  {
    if |vs| == 0 then []
    else
      assert vs == vs[..|vs| - 1] + [vs[|vs| - 1]];
      Insert(vs[|vs| - 1], SortStrings(vs[..|vs| - 1]))
  }

  lemma {:induction false} SortStringsAscending(vs: seq<Value>)
    requires AllStr(vs)
    ensures Ascending(SortStrings(vs))
    decreases |vs|
  {
    if |vs| > 0 {
      SortStringsAscending(vs[..|vs| - 1]);
      InsertAscending(vs[|vs| - 1], SortStrings(vs[..|vs| - 1]));
    }
  }

  /** Named items in ascending order of name. */
  predicate ByName<V>(items: seq<(string, V)>) {
    forall i, j :: 0 <= i < j < |items| ==> LessEq(items[i].0, items[j].0)
  }

  /** Insert `p` before the first item whose name is not below its own. */
  function InsertByName<V>(p: (string, V), ys: seq<(string, V)>): (r: seq<(string, V)>)
    ensures multiset(r) == multiset(ys) + multiset{p}
    decreases |ys|
  {
    if |ys| == 0 || !Less(ys[0].0, p.0) then [p] + ys
    else
      assert ys == [ys[0]] + ys[1..];
      [ys[0]] + InsertByName(p, ys[1..])
  }

  /** An item no later than every item of a sorted list may go in front. */
  lemma ConsByName<V>(x: (string, V), ys: seq<(string, V)>)
    requires ByName(ys)
    requires forall j :: 0 <= j < |ys| ==> LessEq(x.0, ys[j].0)
    ensures ByName([x] + ys)
  {
    var r := [x] + ys;
    forall i, j | 0 <= i < j < |r| ensures LessEq(r[i].0, r[j].0) {
      assert r[j] == ys[j - 1];
      if i > 0 {
        assert r[i] == ys[i - 1];
      }
    }
  }

  lemma {:induction false} InsertByNameSorted<V>(p: (string, V), ys: seq<(string, V)>)
    requires ByName(ys)
    ensures ByName(InsertByName(p, ys))
    decreases |ys|
  {
    if |ys| == 0 {
    } else if !Less(ys[0].0, p.0) {
      LessTotal(p.0, ys[0].0);
      forall j | 0 <= j < |ys| ensures LessEq(p.0, ys[j].0) {
        if j > 0 && p.0 != ys[0].0 && ys[0].0 != ys[j].0 {
          LessTransitive(p.0, ys[0].0, ys[j].0);
        }
      }
      ConsByName(p, ys);
    } else {
      InsertByNameSorted(p, ys[1..]);
      var rest := InsertByName(p, ys[1..]);
      forall j | 0 <= j < |rest| ensures LessEq(ys[0].0, rest[j].0) {
        assert rest[j] in multiset(rest);
        if rest[j] != p {
          assert rest[j] in multiset(ys[1..]);
          var k :| 0 <= k < |ys[1..]| && ys[1..][k] == rest[j];
          assert ys[k + 1] == rest[j];
        }
      }
      ConsByName(ys[0], rest);
    }
  }

  /** `sorted(d.items())` for a counter keyed by strings: the keys are
      distinct, so the names alone decide the order. */
  function SortByName<V>(items: seq<(string, V)>): (r: seq<(string, V)>)
    ensures multiset(r) == multiset(items)
    decreases |items|
  {
    if |items| == 0 then []
    else
      assert items == items[..|items| - 1] + [items[|items| - 1]];
      InsertByName(items[|items| - 1], SortByName(items[..|items| - 1]))
  }

  lemma {:induction false} SortByNameSorted<V>(items: seq<(string, V)>)
    ensures ByName(SortByName(items))
    decreases |items|
  {
    if |items| > 0 {
      SortByNameSorted(items[..|items| - 1]);
      InsertByNameSorted(items[|items| - 1], SortByName(items[..|items| - 1]));
    }
  }

  predicate ByCountDescending<K>(items: seq<(K, int)>) {
    forall i, j :: 0 <= i < j < |items| ==> items[i].1 >= items[j].1
  }

  /** Insert `p` after every element whose count is at least its own, so
      that elements with equal counts keep their order. */
  function InsertByCount<K>(p: (K, int), ys: seq<(K, int)>): (r: seq<(K, int)>)
    requires ByCountDescending(ys)
    ensures multiset(r) == multiset(ys) + multiset{p}
    ensures ByCountDescending(r)
    decreases |ys|
  {
    if |ys| == 0 || ys[0].1 < p.1 then [p] + ys
    else
      assert ys == [ys[0]] + ys[1..];
      var rest := InsertByCount(p, ys[1..]);
      InsertByCountHead(p, ys, rest);
      [ys[0]] + rest
  }

  lemma InsertByCountHead<K>(p: (K, int), ys: seq<(K, int)>, rest: seq<(K, int)>)
    requires ys != [] && ys[0].1 >= p.1
    requires ByCountDescending(ys)
    requires ByCountDescending(rest)
    requires multiset(rest) == multiset(ys[1..]) + multiset{p}
    ensures ByCountDescending([ys[0]] + rest)
  {
    var r := [ys[0]] + rest;
    forall j | 0 <= j < |rest| ensures ys[0].1 >= rest[j].1 {
      assert rest[j] in multiset(rest);
      if rest[j] != p {
        assert rest[j] in multiset(ys[1..]);
        var k :| 0 <= k < |ys[1..]| && ys[1..][k] == rest[j];
        assert ys[k + 1] == rest[j];
      }
    }
    forall i, j | 0 <= i < j < |r| ensures r[i].1 >= r[j].1 {
      assert r[j] == rest[j - 1];
      if i > 0 {
        assert r[i] == rest[i - 1];
      }
    }
  }

  /** `sorted(items, key=lambda x: x[1], reverse=True)`: Python's sort is
      stable, also when reversed. */
  function SortByCountDescending<K>(items: seq<(K, int)>): (r: seq<(K, int)>)
    ensures multiset(r) == multiset(items)
    ensures ByCountDescending(r)
    decreases |items|
  {
    if |items| == 0 then []
    else
      assert items == items[..|items| - 1] + [items[|items| - 1]];
      InsertByCount(items[|items| - 1], SortByCountDescending(items[..|items| - 1]))
  }

  /** The slice `items[:n]`. */
  function Top<K>(items: seq<(K, int)>, n: nat): (r: seq<(K, int)>)
    ensures |r| == if |items| <= n then |items| else n
    ensures r == items[..|r|]
  {
    items[..if |items| <= n then |items| else n]
  }

  /** The first `n` items of a list sorted by descending count are sorted
      too, and no item after them has a larger count than the last of them. */
  lemma TopKeepsLargest<K>(items: seq<(K, int)>, n: nat)
    requires n > 0 && ByCountDescending(items)
    ensures ByCountDescending(Top(items, n))
    ensures forall j :: |Top(items, n)| <= j < |items| ==> items[j].1 <= Top(items, n)[|Top(items, n)| - 1].1
  {
    var top := Top(items, n);
    forall i, j | 0 <= i < j < |top| ensures top[i].1 >= top[j].1 {
      assert top[i] == items[i] && top[j] == items[j];
    }
    forall j | |top| <= j < |items| ensures items[j].1 <= top[|top| - 1].1 {
      assert top[|top| - 1] == items[|top| - 1];
    }
  }

  /** The first `n` of the items of a tally sorted by descending count
      carry their numbers of occurrences ... */
  lemma TopOfTallyCounts<K>(xs: seq<K>, rows: seq<(K, int)>, n: nat)
    requires multiset(rows) == multiset(Tally(xs))
    ensures forall i :: 0 <= i < |Top(rows, n)| ==> Top(rows, n)[i].1 == Occurrences(xs, Top(rows, n)[i].0)
  {
    PermutedTallyCounts(xs, rows);
    var top := Top(rows, n);
    assert forall i :: 0 <= i < |top| ==> top[i] == rows[i];
  }

  /** ... there is at least one when anything was counted ... */
  lemma TopOfTallyNonEmpty<K>(xs: seq<K>, rows: seq<(K, int)>, n: nat)
    requires multiset(rows) == multiset(Tally(xs))
    requires n > 0 && |xs| > 0
    ensures |Top(rows, n)| > 0
  {
    TallyNonEmpty(xs);
    assert |rows| == |multiset(rows)| == |multiset(Tally(xs))| == |Tally(xs)|;
  }

  /** A row whose key the first `n` rows do not show counts no more than
      the last of them. */
  lemma TopExcludesOnlyLower<K>(rows: seq<(K, int)>, n: nat, i: nat)
    requires n > 0 && ByCountDescending(rows) && i < |rows|
    requires forall j :: 0 <= j < |Top(rows, n)| ==> Top(rows, n)[j].0 != rows[i].0
    ensures |Top(rows, n)| > 0 && rows[i].1 <= Top(rows, n)[|Top(rows, n)| - 1].1
  {
    var top := Top(rows, n);
    if i < |top| {
      TopShows(rows, n, i);
      assert false;
    }
    assert top[|top| - 1] == rows[|top| - 1];
  }

  /** Each of the first `n` rows shows its own key. */
  lemma TopShows<K>(rows: seq<(K, int)>, n: nat, i: nat)
    requires i < |Top(rows, n)|
    ensures i < |rows| && Top(rows, n)[i].0 == rows[i].0
  {
  }

  /** ... and none left out occurs more often than the last one kept. */
  lemma TopOfTallyMostFrequent<K>(xs: seq<K>, rows: seq<(K, int)>, n: nat)
    requires multiset(rows) == multiset(Tally(xs)) && ByCountDescending(rows)
    requires n > 0
    ensures forall k :: Occurrences(xs, k) > 0 && (forall i :: 0 <= i < |Top(rows, n)| ==> Top(rows, n)[i].0 != k) ==>
              |Top(rows, n)| > 0 && Occurrences(xs, k) <= Top(rows, n)[|Top(rows, n)| - 1].1
  {
    PermutedTallyCounts(xs, rows);
    PermutedTallyComplete(xs, rows);
    var top := Top(rows, n);
    forall k | Occurrences(xs, k) > 0 && (forall i :: 0 <= i < |top| ==> top[i].0 != k)
      ensures |top| > 0 && Occurrences(xs, k) <= top[|top| - 1].1
    {
      var i :| 0 <= i < |rows| && rows[i].0 == k;
      TopExcludesOnlyLower(rows, n, i);
    }
  }

  /** The elements of `xs` without repetitions, in order of first occurrence
      (what `set(xs)` keeps; its order is irrelevant once sorted). */
  function Distinct<T(==)>(xs: seq<T>): (r: seq<T>)
    ensures forall i :: 0 <= i < |xs| ==> xs[i] in r
    ensures forall i :: 0 <= i < |r| ==> r[i] in xs
    ensures forall i, j :: 0 <= i < j < |r| ==> r[i] != r[j]
    decreases |xs|
  {
    if |xs| == 0 then []
    else
      var prefix := Distinct(xs[..|xs| - 1]);
      var x := xs[|xs| - 1];
      assert forall i :: 0 <= i < |xs| - 1 ==> xs[i] == xs[..|xs| - 1][i];
      if x in prefix then prefix else prefix + [x]
  }

  const UnorderableMessage: string := "'<' not supported between instances"

  /** `sorted(vs)` for dictionary keys or set members, which are pairwise
      distinct. Strings are ordered; with at most one element there is nothing
      to compare; any other mixture raises, as Python does for `str` against
      `None`, `int` or `bool`. */
  function SortValues(vs: seq<Value>): (r: Outcome<seq<Value>>)
    ensures r.Raised? <==> !AllStr(vs) && |vs| >= 2
    ensures r.Returned? ==> multiset(r.value) == multiset(vs)
    ensures r.Returned? && AllStr(vs) ==> AllStr(r.value) && Ascending(r.value)
  {
    if AllStr(vs) then
      SortStringsAscending(vs);
      Returned(SortStrings(vs))
    else if |vs| <= 1 then Returned(vs)
    else Raised(UnorderableMessage)
  }
}
