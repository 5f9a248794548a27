/** The accessibility analyzer (`AccessibilityAnalyzer`): one oracle request
    per non-blank source file, the replies concatenated in file order, and a
    textual summary by severity and category. */
module Analyzer {
  import opened Wrappers
  import opened Json
  import opened Text
  import opened ODict
  import opened Sorting
  import opened Oracles
  import opened Seqs
  import opened RepoScan

  /** Characters of a file that reach the oracle. */
  const ContentLimit: nat := 8000

  const NoIssuesText: string := "No accessibility issues found."

  predicate AllObjects(items: seq<Value>) {
    forall i :: 0 <= i < |items| ==> items[i].Obj?
  }

  /** What `_analyze_file` returns for one file: the parsed list with every
      entry's `file` overwritten, or [] after any failure (a reply that is not
      a list of objects fails when its entries are assigned to). */
  function FileIssues(o: Answers, path: string, content: string): (r: seq<Record>)
    ensures forall i :: 0 <= i < |r| ==> "file" in r[i] && r[i]["file"] == Str(path)
    ensures !o(AnalysisRequest(path, Take(content, ContentLimit))).Returned? ==> r == []
  {
    var reply := o(AnalysisRequest(path, Take(content, ContentLimit)));
    if reply.Returned? && reply.value.Arr? && AllObjects(reply.value.items) then
      Tagged(reply.value.items, path)
    else []
  }

  /** The entries of a parsed list, each with `file` set to `path`. */
  function Tagged(items: seq<Value>, path: string): (r: seq<Record>)
    requires AllObjects(items)
    ensures |r| == |items|
    ensures forall i :: 0 <= i < |r| ==> "file" in r[i] && r[i]["file"] == Str(path)
  {
    seq(|items|, i requires 0 <= i < |items| => items[i].fields["file" := Str(path)])
  }

  /** Only the first `ContentLimit` characters of a file can influence what is
      found in it. */
  lemma FileIssuesSeeOnlyPrefix(o: Answers, path: string, c1: string, c2: string)
    requires Take(c1, ContentLimit) == Take(c2, ContentLimit)
    ensures FileIssues(o, path, c1) == FileIssues(o, path, c2)
  {
  }

  /** `_analyze_file`: the reply is walked entry by entry, and an entry that
      is not a dictionary aborts the whole file. */
  method AnalyzeFile(o: Answers, path: string, content: string) returns (issues: seq<Record>)
    ensures issues == FileIssues(o, path, content)
  {
    var reply := o(AnalysisRequest(path, Take(content, ContentLimit)));
    if !reply.Returned? || !reply.value.Arr? {
      return [];
    }
    var items := reply.value.items;
    assert reply == Returned(Arr(items));
    issues := [];
    var i := 0;
    while i < |items|
      invariant 0 <= i <= |items|
      invariant AllObjects(items[..i])
      invariant issues == Tagged(items[..i], path)
    {
      if !items[i].Obj? {
        assert !AllObjects(items);
        return [];
      }
      assert items[..i + 1] == items[..i] + [items[i]];
      issues := issues + [items[i].fields["file" := Str(path)]];
      i := i + 1;
    }
    assert items[..i] == items;
  }

  /** What one entry of `source_files` contributes: nothing when blank. */
  function Found(o: Answers, file: (string, string)): (r: seq<Record>)
    ensures forall i :: 0 <= i < |r| ==> "file" in r[i] && r[i]["file"] == Str(file.0)
    ensures IsBlank(file.1) ==> r == []
  {
    if IsBlank(file.1) then [] else FileIssues(o, file.0, file.1)
  }

  /** All issues found in `files`, in iteration order. */
  function IssuesOf(o: Answers, files: SourceFiles): (r: seq<Record>)
    ensures forall i :: 0 <= i < |r| ==> "file" in r[i]
    decreases |files|
  {
    if |files| == 0 then []
    else IssuesOf(o, files[..|files| - 1]) + Found(o, files[|files| - 1])
  }

  /** One more file adds what is found in it. */
  lemma IssuesOfSnoc(o: Answers, files: SourceFiles, file: (string, string))
    ensures IssuesOf(o, files + [file]) == IssuesOf(o, files) + Found(o, file)
  {
    assert (files + [file])[..|files|] == files;
  }

  /** Files are analysed in isolation: the issues of a concatenation are the
      concatenation of the issues. */
  lemma {:induction false} IssuesOfAppend(o: Answers, a: SourceFiles, b: SourceFiles)
    ensures IssuesOf(o, a + b) == IssuesOf(o, a) + IssuesOf(o, b)
    decreases |b|
  {
    if |b| == 0 {
      assert a + b == a;
    } else {
      var b' := b[..|b| - 1];
      var last := b[|b| - 1];
      assert b == b' + [last];
      assert a + b == (a + b') + [last];
      IssuesOfSnoc(o, a + b', last);
      IssuesOfSnoc(o, b', last);
      IssuesOfAppend(o, a, b');
      var x, y, z := IssuesOf(o, a), IssuesOf(o, b'), Found(o, last);
      ConcatAssoc(x, y, z);
    }
  }

  /** `issue` carries the path of entry `j` of `files`, which contributed
      issues (and so is not blank). */
  predicate FromFile(o: Answers, files: SourceFiles, j: int, issue: Record) {
    0 <= j < |files| && Found(o, files[j]) != [] && "file" in issue && issue["file"] == Str(files[j].0)
  }

  /** Every issue names a non-blank file of the input. */
  lemma {:induction false} IssuesNameAnalyzedFiles(o: Answers, files: SourceFiles, k: nat)
    requires k < |IssuesOf(o, files)|
    ensures exists j :: FromFile(o, files, j, IssuesOf(o, files)[k])
    decreases |files|
  {
    var prefix := files[..|files| - 1];
    var own := Found(o, files[|files| - 1]);
    var issue := IssuesOf(o, files)[k];
    assert IssuesOf(o, files) == IssuesOf(o, prefix) + own;
    if k < |IssuesOf(o, prefix)| {
      IssuesNameAnalyzedFiles(o, prefix, k);
      var j :| FromFile(o, prefix, j, IssuesOf(o, prefix)[k]);
      assert files[j] == prefix[j];
      assert issue == IssuesOf(o, prefix)[k];
      assert FromFile(o, files, j, issue);
    } else {
      var j := |files| - 1;
      assert issue == own[k - |IssuesOf(o, prefix)|];
      assert FromFile(o, files, j, issue);
    }
  }

  // ----- the summary report -----

  const SeverityNames: seq<string> := ["Critical", "High", "Medium", "Low"]

  /** `issue.get(key, 'Unknown')` for every issue, in order. */
  function FieldValues(issues: seq<Record>, key: string): (r: seq<Value>)
    ensures |r| == |issues| && forall i :: 0 <= i < |issues| ==> r[i] == Field(issues[i], key, Str("Unknown"))
  {
    seq(|issues|, i requires 0 <= i < |issues| => Field(issues[i], key, Str("Unknown")))
  }

  function Severities(issues: seq<Record>): seq<Value> {
    FieldValues(issues, "severity")
  }

  function Categories(issues: seq<Record>): seq<Value> {
    FieldValues(issues, "category")
  }

  predicate AllHashable(vs: seq<Value>) {
    forall i :: 0 <= i < |vs| ==> Hashable(vs[i])
  }

  /** The severity section: each listed name with its positive count. */
  function SeverityRows(counts: ODict<Value, int>, names: seq<string>): seq<(string, int)>
    decreases |names|
  {
    if |names| == 0 then []
    else SeverityRows(counts, names[..|names| - 1]) + SeverityRow(counts, names[|names| - 1])
  }

  /** The line of one severity: present only when its count is positive. */
  function SeverityRow(counts: ODict<Value, int>, n: string): seq<(string, int)> {
    var c := GetOr(counts, Str(n), 0);
    if c > 0 then [(n, c)] else []
  }

  predicate Listed(rows: seq<(string, int)>, n: string) {
    exists j :: 0 <= j < |rows| && rows[j].0 == n
  }

  /** A row names one of `names` and carries its positive count. */
  predicate RowSound(counts: ODict<Value, int>, names: seq<string>, row: (string, int)) {
    row.0 in names && row.1 == GetOr(counts, Str(row.0), 0) > 0
  }

  lemma {:induction false} SeverityRowsSound(counts: ODict<Value, int>, names: seq<string>)
    ensures forall i :: 0 <= i < |SeverityRows(counts, names)| ==>
              RowSound(counts, names, SeverityRows(counts, names)[i])
    decreases |names|
  {
    if |names| > 0 {
      var init := names[..|names| - 1];
      var last := SeverityRow(counts, names[|names| - 1]);
      var prefix := SeverityRows(counts, init);
      var rows := SeverityRows(counts, names);
      SeverityRowsSound(counts, init);
      assert rows == prefix + last;
      forall i | 0 <= i < |rows| ensures RowSound(counts, names, rows[i]) {
        if i < |prefix| {
          assert rows[i] == prefix[i];
          assert RowSound(counts, init, prefix[i]);
          var m :| 0 <= m < |init| && init[m] == prefix[i].0;
          assert init[m] == names[m];
        } else {
          assert rows[i] == last[0];
        }
      }
    }
  }

  lemma {:induction false} SeverityRowsComplete(counts: ODict<Value, int>, names: seq<string>)
    ensures forall n :: n in names && GetOr(counts, Str(n), 0) > 0 ==>
              Listed(SeverityRows(counts, names), n)
    decreases |names|
  {
    if |names| > 0 {
      var init := names[..|names| - 1];
      var last := names[|names| - 1];
      var prefix := SeverityRows(counts, init);
      var rows := SeverityRows(counts, names);
      SeverityRowsComplete(counts, init);
      assert rows == prefix + SeverityRow(counts, last);
      assert names == init + [last];
      forall n | n in names && GetOr(counts, Str(n), 0) > 0 ensures Listed(rows, n) {
        if n in init {
          assert Listed(prefix, n);
          var j :| 0 <= j < |prefix| && prefix[j].0 == n;
          assert rows[j] == prefix[j];
        } else {
          assert n == last;
          assert rows[|rows| - 1].0 == n;
        }
      }
    }
  }

  /** A row is listed exactly for each name whose count is positive, and
      carries that count. */
  lemma SeverityRowsExact(counts: ODict<Value, int>, names: seq<string>)
    ensures forall i :: 0 <= i < |SeverityRows(counts, names)| ==>
              RowSound(counts, names, SeverityRows(counts, names)[i])
    ensures forall n :: n in names && GetOr(counts, Str(n), 0) > 0 ==>
              Listed(SeverityRows(counts, names), n)
  {
    SeverityRowsSound(counts, names);
    SeverityRowsComplete(counts, names);
  }

  /** Position of a severity in the fixed listing order. */
  function Rank(name: string): nat {
    if name == "Critical" then 0
    else if name == "High" then 1
    else if name == "Medium" then 2
    else 3
  }

  predicate RankIncreasing(names: seq<string>) {
    forall i, j :: 0 <= i < j < |names| ==> Rank(names[i]) < Rank(names[j])
  }

  predicate RowsRanked(rows: seq<(string, int)>) {
    forall i, j :: 0 <= i < j < |rows| ==> Rank(rows[i].0) < Rank(rows[j].0)
  }

  /** Rows keep the order of the names they come from. */
  lemma {:induction false} SeverityRowsRanked(counts: ODict<Value, int>, names: seq<string>)
    requires RankIncreasing(names)
    ensures RowsRanked(SeverityRows(counts, names))
    decreases |names|
  {
    if |names| > 0 {
      var init := names[..|names| - 1];
      var last := names[|names| - 1];
      var prefix := SeverityRows(counts, init);
      var rows := SeverityRows(counts, names);
      assert RankIncreasing(init) by {
        assert forall k :: 0 <= k < |init| ==> init[k] == names[k];
      }
      SeverityRowsRanked(counts, init);
      SeverityRowsExact(counts, init);
      assert rows == prefix + SeverityRow(counts, last);
      forall i | 0 <= i < |prefix| ensures Rank(prefix[i].0) < Rank(last) {
        assert RowSound(counts, init, prefix[i]);
        var m :| 0 <= m < |init| && init[m] == prefix[i].0;
        assert init[m] == names[m];
      }
      forall i, j | 0 <= i < j < |rows| ensures Rank(rows[i].0) < Rank(rows[j].0) {
        assert rows[i] == prefix[i];
        if j < |prefix| {
          assert rows[j] == prefix[j];
        } else {
          assert rows[j].0 == last;
        }
      }
    }
  }

  /** Severities are listed in the order Critical, High, Medium, Low. */
  lemma SeverityRowsOrdered(counts: ODict<Value, int>)
    ensures RowsRanked(SeverityRows(counts, SeverityNames))
  {
    SeverityRowsRanked(counts, SeverityNames);
  }

  /** The category section: each key with its count. */
  function CategoryRows(counts: ODict<Value, int>, keys: seq<Value>): (rows: seq<(Value, int)>)
    ensures |rows| == |keys|
  {
    seq(|keys|, i requires 0 <= i < |keys| => (keys[i], GetOr(counts, keys[i], 0)))
  }

  /** The categories in listing order: the counter's keys, sorted. */
  function CategoryKeys(issues: seq<Record>): Outcome<seq<Value>> {
    SortValues(Keys(Tally(Categories(issues))))
  }

  datatype Summary = Summary(total: nat, bySeverity: seq<(string, int)>, byCategory: seq<(Value, int)>)

  /** The counts behind `_generate_report`; raises when a severity or a
      category is a list or dictionary, or when categories cannot be sorted. */
  function Summarize(issues: seq<Record>): Outcome<Summary> {
    if !AllHashable(Severities(issues)) || !AllHashable(Categories(issues)) then
      Raised(UnhashableMessage)
    else
      match CategoryKeys(issues)
      case Raised(m) => Raised(m)
      case Returned(keys) =>
        Returned(Summary(|issues|, SeverityRows(Tally(Severities(issues)), SeverityNames),
                         CategoryRows(Tally(Categories(issues)), keys)))
  }

  /** The severity rows count exactly the issues of each listed severity, and
      name every one of the four that occurs, in the fixed order. */
  lemma SummarizeSeverities(issues: seq<Record>, s: Summary)
    requires Summarize(issues) == Returned(s)
    ensures forall i :: 0 <= i < |s.bySeverity| ==>
              s.bySeverity[i].0 in SeverityNames &&
              s.bySeverity[i].1 == Occurrences(Severities(issues), Str(s.bySeverity[i].0)) > 0
    ensures forall n :: n in SeverityNames && Occurrences(Severities(issues), Str(n)) > 0 ==>
              Listed(s.bySeverity, n)
    ensures forall i, j :: 0 <= i < j < |s.bySeverity| ==> Rank(s.bySeverity[i].0) < Rank(s.bySeverity[j].0)
  {
    var counts := Tally(Severities(issues));
    SeverityRowsExact(counts, SeverityNames);
    SeverityRowsOrdered(counts);
    forall n | n in SeverityNames {
      TallyCounts(Severities(issues), Str(n));
    }
    forall i | 0 <= i < |s.bySeverity| {
      TallyCounts(Severities(issues), Str(s.bySeverity[i].0));
    }
  }

  /** Each listed category counts exactly its issues, and every category
      that occurs in some issue is listed. */
  lemma CategoryKeysExact(issues: seq<Record>, keys: seq<Value>)
    requires CategoryKeys(issues) == Returned(keys)
    ensures forall i :: 0 <= i < |keys| ==>
              GetOr(Tally(Categories(issues)), keys[i], 0) == Occurrences(Categories(issues), keys[i]) > 0
    ensures forall i :: 0 <= i < |issues| ==> Categories(issues)[i] in keys
  {
    var cats := Categories(issues);
    var counts := Tally(cats);
    assert multiset(keys) == multiset(Keys(counts));
    forall i | 0 <= i < |keys|
      ensures GetOr(counts, keys[i], 0) == Occurrences(cats, keys[i]) > 0
    {
      assert keys[i] in multiset(Keys(counts));
      TallyCounts(cats, keys[i]);
    }
    forall i | 0 <= i < |issues| ensures cats[i] in keys {
      OccursCounted(cats, i);
      TallyCounts(cats, cats[i]);
      assert cats[i] in multiset(Keys(counts));
    }
  }

  /** Each category is listed once, in ascending order when categories are
      strings. */
  lemma CategoryKeysOrdered(issues: seq<Record>, keys: seq<Value>)
    requires CategoryKeys(issues) == Returned(keys)
    ensures forall i, j :: 0 <= i < j < |keys| ==> keys[i] != keys[j]
    ensures AllStr(Categories(issues)) ==> AllStr(keys) && Ascending(keys)
  {
    var cats := Categories(issues);
    var counts := Tally(cats);
    TallyDistinct(cats);
    DistinctMultiset(Keys(counts), keys);
    if AllStr(cats) {
      forall k | 0 <= k < |Keys(counts)| ensures Keys(counts)[k].Str? {
        KeyOfTallyOccurs(cats, k);
      }
    }
  }

  lemma {:induction false} OccursCounted<T>(xs: seq<T>, i: nat)
    requires i < |xs|
    ensures Occurrences(xs, xs[i]) > 0
    decreases |xs|
  {
    if i < |xs| - 1 {
      OccursCounted(xs[..|xs| - 1], i);
      assert xs[..|xs| - 1][i] == xs[i];
    }
  }

  /** Every key of a counter is one of the counted elements. */
  lemma KeyOfTallyOccurs<T>(xs: seq<T>, k: nat)
    requires k < |Keys(Tally(xs))|
    ensures Keys(Tally(xs))[k] in xs
  {
    var key := Keys(Tally(xs))[k];
    assert HasKey(Tally(xs), key);
    TallyCounts(xs, key);
    OccurrencesIn(xs, key);
  }

  lemma {:induction false} OccurrencesIn<T>(xs: seq<T>, x: T)
    requires Occurrences(xs, x) > 0
    ensures x in xs
    decreases |xs|
  {
    if xs[|xs| - 1] != x {
      OccurrencesIn(xs[..|xs| - 1], x);
    }
  }

  lemma {:induction false} DistinctCount<T>(a: seq<T>, x: T)
    requires forall i, j :: 0 <= i < j < |a| ==> a[i] != a[j]
    ensures multiset(a)[x] <= 1
    decreases |a|
  {
    if |a| > 0 {
      var init := a[..|a| - 1];
      assert a == init + [a[|a| - 1]];
      DistinctCount(init, x);
      if a[|a| - 1] == x {
        assert forall k :: 0 <= k < |init| ==> init[k] == a[k];
        assert x !in init;
      }
    }
  }

  lemma CountAtLeastTwo<T>(b: seq<T>, i: nat, j: nat)
    requires i < j < |b| && b[i] == b[j]
    ensures multiset(b)[b[i]] >= 2
  {
    assert b == b[..i] + [b[i]] + b[i + 1..j] + [b[j]] + b[j + 1..];
  }

  /** A permutation of a repetition-free list is repetition-free. */
  lemma DistinctMultiset<T>(a: seq<T>, b: seq<T>)
    requires forall i, j :: 0 <= i < j < |a| ==> a[i] != a[j]
    requires multiset(a) == multiset(b)
    ensures forall i, j :: 0 <= i < j < |b| ==> b[i] != b[j]
  {
    forall i, j | 0 <= i < j < |b| ensures b[i] != b[j] {
      DistinctCount(a, b[i]);
      if b[i] == b[j] {
        CountAtLeastTwo(b, i, j);
      }
    }
  }

  function SeverityLines(rows: seq<(string, int)>): string
    decreases |rows|
  {
    if |rows| == 0 then []
    else
      var (name, count) := rows[|rows| - 1];
      SeverityLines(rows[..|rows| - 1]) + "  " + name + ": " + IntToString(count) + "\n"
  }

  function CategoryLines(rows: seq<(Value, int)>): string
    decreases |rows|
  {
    if |rows| == 0 then []
    else
      var (category, count) := rows[|rows| - 1];
      CategoryLines(rows[..|rows| - 1]) + "  " + Display(category) + ": " + IntToString(count) + "\n"
  }

  function Header(total: nat): string {
    "Found " + NatToString(total) + " accessibility issues:\n\n"
  }

  function Render(s: Summary): string {
    Header(s.total) + Sections(s)
  }

  function Sections(s: Summary): string {
    "By Severity:\n" + SeverityLines(s.bySeverity) + "\nBy Category:\n" + CategoryLines(s.byCategory)
  }

  /** `_generate_report`. */
  function ReportOf(issues: seq<Record>): (r: Outcome<string>)
    ensures issues == [] ==> r == Returned(NoIssuesText)
  {
    if |issues| == 0 then Returned(NoIssuesText)
    else
      match Summarize(issues)
      case Raised(m) => Raised(m)
      case Returned(s) => Returned(Render(s))
  }

  /** A report on some issues opens with their number, so it is never the
      no-issues text. */
  lemma ReportOpensWithCount(issues: seq<Record>, text: string)
    requires issues != [] && ReportOf(issues) == Returned(text)
    ensures StartsWith(text, Header(|issues|)) && text != NoIssuesText
  {
    var s :| Summarize(issues) == Returned(s) && text == Render(s);
    SummaryTotal(issues, s);
    RenderOpensWithHeader(s);
  }

  lemma SummaryTotal(issues: seq<Record>, s: Summary)
    requires Summarize(issues) == Returned(s)
    ensures s.total == |issues|
  {
  }

  lemma RenderOpensWithHeader(s: Summary)
    ensures StartsWith(Render(s), Header(s.total)) && Render(s) != NoIssuesText
  {
    var head := Header(s.total);
    var tail := NatToString(s.total) + " accessibility issues:\n\n";
    assert head == "Found " + tail;
    StartsWithConcat(head, Sections(s));
    StartsWithConcat("Found ", tail);
  }

  /** Count `values` into a counter, or fail at an unhashable one. */
  method Count(values: seq<Value>) returns (counts: Option<ODict<Value, int>>)
    ensures counts == if AllHashable(values) then Some(Tally(values)) else None
  {
    var acc: ODict<Value, int> := [];
    var i := 0;
    while i < |values|
      invariant 0 <= i <= |values|
      invariant AllHashable(values[..i])
      invariant acc == Tally(values[..i])
    {
      var v := values[i];
      if !Hashable(v) {
        return None;
      }
      assert values[..i + 1] == values[..i] + [v];
      TallySnoc(values[..i], v);
      acc := Put(acc, v, GetOr(acc, v, 0) + 1);
      i := i + 1;
    }
    assert values[..i] == values;
    counts := Some(acc);
  }

  /** The severity lines, appended in the fixed order. */
  method SeverityText(counts: ODict<Value, int>) returns (text: string)
    ensures text == SeverityLines(SeverityRows(counts, SeverityNames))
  {
    text := "";
    ghost var rows: seq<(string, int)> := [];
    var k := 0;
    while k < |SeverityNames|
      invariant 0 <= k <= |SeverityNames|
      invariant rows == SeverityRows(counts, SeverityNames[..k])
      invariant text == SeverityLines(rows)
    {
      var name := SeverityNames[k];
      var count := GetOr(counts, Str(name), 0);
      assert SeverityNames[..k + 1][..k] == SeverityNames[..k];
      if count > 0 {
        text := text + "  " + name + ": " + IntToString(count) + "\n";
        rows := rows + [(name, count)];
      }
      k := k + 1;
    }
    assert SeverityNames[..k] == SeverityNames;
  }

  /** The category lines, appended in key order. */
  method CategoryText(counts: ODict<Value, int>, keys: seq<Value>) returns (text: string)
    ensures text == CategoryLines(CategoryRows(counts, keys))
  {
    text := "";
    var k := 0;
    while k < |keys|
      invariant 0 <= k <= |keys|
      invariant text == CategoryLines(CategoryRows(counts, keys[..k]))
    {
      var count := GetOr(counts, keys[k], 0);
      assert CategoryRows(counts, keys[..k + 1])[..k] == CategoryRows(counts, keys[..k]);
      text := text + "  " + Display(keys[k]) + ": " + IntToString(count) + "\n";
      k := k + 1;
    }
    assert keys[..k] == keys;
  }

  /** `_generate_report` as written: two counting passes and a text built
      line by line. */
  method Report(issues: seq<Record>) returns (r: Outcome<string>)
    ensures r == ReportOf(issues)
  {
    if |issues| == 0 {
      return Returned(NoIssuesText);
    }
    var bySeverity := Count(Severities(issues));
    if bySeverity.None? {
      return Raised(UnhashableMessage);
    }
    var severityText := SeverityText(bySeverity.value);
    var byCategory := Count(Categories(issues));
    if byCategory.None? {
      return Raised(UnhashableMessage);
    }
    var keys := SortValues(Keys(byCategory.value));
    if keys.Raised? {
      return Raised(keys.message);
    }
    var categoryText := CategoryText(byCategory.value, keys.value);
    ghost var s := Summary(|issues|, SeverityRows(bySeverity.value, SeverityNames),
                           CategoryRows(byCategory.value, keys.value));
    assert Summarize(issues) == Returned(s);
    r := Returned(Header(|issues|) + ("By Severity:\n" + severityText + "\nBy Category:\n" + categoryText));
    assert r == Returned(Render(s));
  }

  /** What `execute` returns. */
  datatype Analysis = Analysis(issues: seq<Record>, report: string, totalIssues: nat, filesAnalyzed: nat)

  function AnalysisOf(o: Answers, files: SourceFiles): (r: Outcome<Analysis>)
    ensures r.Raised? <==> ReportOf(IssuesOf(o, files)).Raised?
    ensures r.Returned? ==>
              r.value.issues == IssuesOf(o, files) && Returned(r.value.report) == ReportOf(r.value.issues) &&
              r.value.totalIssues == |r.value.issues| && r.value.filesAnalyzed == |files|
  {
    var issues := IssuesOf(o, files);
    match ReportOf(issues)
    case Raised(m) => Raised(m)
    case Returned(report) => Returned(Analysis(issues, report, |issues|, |files|))
  }

  /** `execute`: per-file analysis in iteration order; `files_analyzed`
      counts skipped blank files too. */
  method Execute(o: Answers, files: SourceFiles) returns (r: Outcome<Analysis>)
    ensures r == AnalysisOf(o, files)
  {
    var all: seq<Record> := [];
    var i := 0;
    while i < |files|
      invariant 0 <= i <= |files|
      invariant all == IssuesOf(o, files[..i])
    {
      var (path, content) := files[i];
      assert files[..i + 1][..i] == files[..i];
      StripEmptyIffBlank(content);
      if Strip(content) != [] {
        var found := AnalyzeFile(o, path, content);
        all := all + found;
      }
      i := i + 1;
    }
    assert files[..i] == files;
    var report := Report(all);
    match report
    case Raised(m) => r := Raised(m);
    case Returned(text) => r := Returned(Analysis(all, text, |all|, |files|));
  }
}
