/** The issue locator (`IssueLocator`): every issue found by the analyzer is
    enriched with the precise location the oracle reports for it, or with a
    fallback built from the issue itself when the oracle fails. */
module Locator {
  import opened Wrappers
  import opened Json
  import opened Text
  import opened ODict
  import opened Oracles
  import opened RepoScan

  /** Characters of a file that reach the oracle. */
  const LocateLimit: nat := 6000

  /** The keys `_locate_issue` writes when it asks the oracle. */
  const LocationKeys: set<string> := {"exact_line", "code_snippet", "problematic_element", "fix_approach"}

  /** The keys it writes when the file is unknown. */
  const ContextKeys: set<string> := {"code_context", "exact_location"}

  /** `r` is `{**issue, ...}` with the keys `added` written and every other
      key of `issue` kept as it was. */
  predicate Extends(issue: Record, r: Record, added: set<string>) {
    r.Keys == issue.Keys + added && forall k :: k in issue && k !in added ==> r[k] == issue[k]
  }

  /** `file_path in source_files`: the membership test raises for an
      unhashable path, and only a string can equal one of the keys. */
  function LookupFile(files: SourceFiles, file: Value): (r: Outcome<Option<string>>)
    ensures r.Raised? <==> !Hashable(file)
    ensures r.Returned? ==> (r.value.Some? <==> file.Str? && HasKey(files, file.s))
    ensures r.Returned? && r.value.Some? ==> Get(files, file.s) == r.value
  {
    if !Hashable(file) then Raised(UnhashableMessage)
    else if file.Str? then Returned(Get(files, file.s))
    else Returned(None)
  }

  /** The request for one issue: its fields with their defaults, and the
      first `LocateLimit` characters of its file. */
  function LocationPrompt(issue: Record, content: string): Prompt {
    LocationRequest(Field(issue, "description", Str("")), Field(issue, "wcag", Str("")),
                    Field(issue, "recommendation", Str("")), Field(issue, "line", Str("Unknown")),
                    Take(content, LocateLimit))
  }

  /** The answer unpacked with `.get`: a missing key gives None. */
  function Enriched(issue: Record, data: Record): Record {
    issue["exact_line" := Field(data, "exact_line", Null)]
         ["code_snippet" := Field(data, "code_snippet", Null)]
         ["problematic_element" := Field(data, "problematic_element", Null)]
         ["fix_approach" := Field(data, "fix_approach", Null)]
  }

  /** The `except` branch: the approximate line and the recommendation. */
  function Fallback(issue: Record): Record {
    issue["exact_line" := Field(issue, "line", Null)]
         ["code_snippet" := Null]
         ["problematic_element" := Null]
         ["fix_approach" := Field(issue, "recommendation", Null)]
  }

  /** `_locate_issue`. A reply that is not a dictionary fails at `.get` and
      takes the `except` branch, like a failed request or parse. */
  function LocateIssue(o: Answers, issue: Record, files: SourceFiles): (r: Outcome<Record>)
    ensures r.Raised? <==> !Hashable(Field(issue, "file", Null))
  {
    match LookupFile(files, Field(issue, "file", Null))
    case Raised(m) => Raised(m)
    case Returned(None) => Returned(issue["code_context" := Null]["exact_location" := Null])
    case Returned(Some(content)) =>
      var reply := o(LocationPrompt(issue, content));
      if reply.Returned? && reply.value.Obj? then Returned(Enriched(issue, reply.value.fields))
      else Returned(Fallback(issue))
  }

  /** Whether the issue names one of the source files. */
  predicate Known(files: SourceFiles, issue: Record) {
    var file := Field(issue, "file", Null);
    file.Str? && HasKey(files, file.s)
  }

  /** An issue whose file is not among the sources keeps all its keys and
      gains `code_context` and `exact_location`, both None. */
  lemma LocateUnknownFile(o: Answers, issue: Record, files: SourceFiles)
    requires Hashable(Field(issue, "file", Null)) && !Known(files, issue)
    ensures LocateIssue(o, issue, files).Returned?
    ensures var r := LocateIssue(o, issue, files).value;
            Extends(issue, r, ContextKeys) && r["code_context"] == Null && r["exact_location"] == Null
  {
  }

  /** ... and the oracle is not consulted: any two oracles agree. */
  lemma UnknownFileIgnoresOracle(o1: Answers, o2: Answers, issue: Record, files: SourceFiles)
    requires !Known(files, issue)
    ensures LocateIssue(o1, issue, files) == LocateIssue(o2, issue, files)
  {
  }

  /** A dictionary answer keeps every key of the issue and sets exactly the
      four location keys, each to the answer's value or None. */
  lemma LocateAnswered(o: Answers, issue: Record, files: SourceFiles)
    requires Known(files, issue)
    requires var content := Get(files, Field(issue, "file", Null).s).value;
             o(LocationPrompt(issue, content)).Returned? && o(LocationPrompt(issue, content)).value.Obj?
    ensures LocateIssue(o, issue, files).Returned?
    ensures var data := o(LocationPrompt(issue, Get(files, Field(issue, "file", Null).s).value)).value.fields;
            var r := LocateIssue(o, issue, files).value;
            Extends(issue, r, LocationKeys) &&
            r["exact_line"] == Field(data, "exact_line", Null) &&
            r["code_snippet"] == Field(data, "code_snippet", Null) &&
            r["problematic_element"] == Field(data, "problematic_element", Null) &&
            r["fix_approach"] == Field(data, "fix_approach", Null)
  {
  }

  /** A failed request, a failed parse or an answer that is not a dictionary
      gives the fallback: the issue's own line and recommendation, and no
      snippet or element. */
  lemma LocateUnanswered(o: Answers, issue: Record, files: SourceFiles)
    requires Known(files, issue)
    requires var content := Get(files, Field(issue, "file", Null).s).value;
             !(o(LocationPrompt(issue, content)).Returned? && o(LocationPrompt(issue, content)).value.Obj?)
    ensures LocateIssue(o, issue, files).Returned?
    ensures var r := LocateIssue(o, issue, files).value;
            Extends(issue, r, LocationKeys) &&
            r["exact_line"] == Field(issue, "line", Null) && r["code_snippet"] == Null &&
            r["problematic_element"] == Null && r["fix_approach"] == Field(issue, "recommendation", Null)
  {
  }

  /** Only the first `LocateLimit` characters of a file can influence how an
      issue in it is located. */
  lemma LocateSeesOnlyPrefix(o: Answers, issue: Record, f1: SourceFiles, f2: SourceFiles)
    requires Known(f1, issue) && Known(f2, issue)
    requires var path := Field(issue, "file", Null).s;
             Take(Get(f1, path).value, LocateLimit) == Take(Get(f2, path).value, LocateLimit)
    ensures LocateIssue(o, issue, f1) == LocateIssue(o, issue, f2)
  {
  }

  /** `_locate_issue` as the body of the `execute` loop. */
  function LocateWith(o: Answers, files: SourceFiles): Record -> Outcome<Record> {
    issue => LocateIssue(o, issue, files)
  }

  /** What `execute` computes: the issues located in order; the first issue
      whose file is unhashable aborts the stage. */
  function LocatedOf(o: Answers, issues: seq<Record>, files: SourceFiles): Outcome<seq<Record>> {
    Traverse(LocateWith(o, files), issues)
  }

  /** One enriched issue per input issue, in input order, and the stage
      fails exactly when some issue names an unhashable file. */
  lemma LocatedOfPointwise(o: Answers, issues: seq<Record>, files: SourceFiles)
    ensures LocatedOf(o, issues, files).Raised? <==>
              exists i :: 0 <= i < |issues| && !Hashable(Field(issues[i], "file", Null))
    ensures LocatedOf(o, issues, files).Returned? ==>
              |LocatedOf(o, issues, files).value| == |issues| &&
              forall i :: 0 <= i < |issues| ==>
                LocateIssue(o, issues[i], files) == Returned(LocatedOf(o, issues, files).value[i])
  {
    TraversePointwise(LocateWith(o, files), issues);
  }

  /** `execute`: the loop over the issues. */
  method Execute(o: Answers, issues: seq<Record>, files: SourceFiles) returns (r: Outcome<seq<Record>>)
    ensures r == LocatedOf(o, issues, files)
  {
    var enriched: seq<Record> := [];
    var i := 0;
    while i < |issues|
      invariant 0 <= i <= |issues|
      invariant Traverse(LocateWith(o, files), issues[..i]) == Returned(enriched)
    {
      assert issues[..i + 1][..i] == issues[..i];
      var e := LocateIssue(o, issues[i], files);
      if e.Raised? {
        TraverseRaisedPersists(LocateWith(o, files), issues, i + 1);
        return Raised(e.message);
      }
      enriched := enriched + [e.value];
      i := i + 1;
    }
    assert issues[..i] == issues;
    r := Returned(enriched);
  }
}
