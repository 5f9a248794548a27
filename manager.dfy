/** The manager agent (`ManagerAgent`): it routes every enriched issue to one
    of the three domain experts, collects their fix records and counts the
    successful ones; its delegation report tallies the records per expert. */
module Manager {
  import opened Wrappers
  import opened Json
  import opened Text
  import opened ODict
  import opened Oracles
  import opened Experts
  import opened Sorting

  /** What `.lower()` raises on a value that is not a string. */
  const NoLowerMessage: string := "object has no attribute 'lower'"

  const CssKeywords: seq<string> := ["color", "contrast", "focus", "outline", "font", "size", "visible", "display"]
  const JsKeywords: seq<string> := ["click", "event", "keyboard", "focus", "dynamic", "interactive", "listener"]
  const HtmlKeywords: seq<string> := ["alt", "aria", "label", "heading", "semantic", "role", "landmark", "form"]

  /** The positions of the keywords that occur in the text. */
  ghost function Matching(keywords: seq<string>, text: string): set<nat> {
    set i: nat | i < |keywords| && Contains(text, keywords[i])
  }

  /** `sum(1 for kw in keywords if kw in text)`: the number of keywords that
      occur in the text. */
  function Score(keywords: seq<string>, text: string): (n: nat)
    ensures n == |Matching(keywords, text)|
    ensures n <= |keywords|
    ensures n > 0 <==> exists i :: 0 <= i < |keywords| && Contains(text, keywords[i])
    ensures n == |keywords| <==> forall i :: 0 <= i < |keywords| ==> Contains(text, keywords[i])
    decreases |keywords|
  {
    if |keywords| == 0 then
      assert Matching(keywords, text) == {};
      0
    else
      var last := |keywords| - 1;
      var init := keywords[..last];
      assert forall i :: 0 <= i < |init| ==> init[i] == keywords[i];
      var extra: set<nat> := if Contains(text, keywords[last]) then {last} else {};
      assert Matching(keywords, text) == Matching(init, text) + extra;
      assert Matching(init, text) * extra == {};
      Score(init, text) + (if Contains(text, keywords[last]) then 1 else 0)
  }

  /** The argmax over the three scores: the chosen expert has the highest
      score, ties go to CSS before JS before HTML, and HTML is the default
      when no keyword matched. */
  function ChooseByScores(css: nat, js: nat, html: nat): (p: Persona)
    ensures p == Css <==> css > 0 && css >= js && css >= html
    ensures p == Js <==> js > 0 && js > css && js >= html
    ensures p == Html <==> (css == 0 || css < html) && (js == 0 || js < html)
  {
    if css >= js && css >= html && css > 0 then Css
    else if js >= html && js > 0 then Js
    else Html
  }

  /** `file_path.endswith(('.js', '.jsx', '.ts', '.tsx'))`. */
  predicate HasScriptExtension(path: string) {
    EndsWith(path, ".js") || EndsWith(path, ".jsx") || EndsWith(path, ".ts") || EndsWith(path, ".tsx")
  }

  /** The choice on the lower-cased path and description. */
  function SelectExpert(path: string, description: string): Persona {
    if EndsWith(path, ".css") then Css
    else if HasScriptExtension(path) then Js
    else ChooseByScores(Score(CssKeywords, description), Score(JsKeywords, description),
                        Score(HtmlKeywords, description))
  }

  /** `issue.get(key, '').lower()` fails: the key is there with a value that
      is not a string. */
  predicate LowerFails(issue: Record, key: string) {
    key in issue && !issue[key].Str?
  }

  /** `issue.get(key, '')` once it is known to be a string. */
  function TextField(issue: Record, key: string): string {
    if key in issue && issue[key].Str? then issue[key].s else ""
  }

  /** `_select_expert`: the file path, the description and the category are
      lower-cased first (the category is never used afterwards, but a
      category that is not a string still raises). */
  function Route(issue: Record): Outcome<Persona> {
    if LowerFails(issue, "file") || LowerFails(issue, "description") || LowerFails(issue, "category") then
      Raised(NoLowerMessage)
    else
      Returned(SelectExpert(Lower(TextField(issue, "file")), Lower(TextField(issue, "description"))))
  }

  /** Routing fails exactly when one of the three fields holds a value that
      is not a string; a missing field counts as ''. */
  lemma RouteRaises(issue: Record)
    ensures Route(issue).Raised? <==>
              LowerFails(issue, "file") || LowerFails(issue, "description") || LowerFails(issue, "category")
  {
  }

  /** A stylesheet goes to the CSS expert whatever its description says. */
  lemma RouteStylesheet(issue: Record)
    requires !LowerFails(issue, "description") && !LowerFails(issue, "category")
    requires "file" in issue && issue["file"].Str? && EndsWith(Lower(issue["file"].s), ".css")
    ensures Route(issue) == Returned(Css)
  {
  }

  /** No path has both a script and the stylesheet extension. */
  lemma ScriptIsNotStylesheet(path: string)
    requires HasScriptExtension(path)
    ensures !EndsWith(path, ".css")
  {
    var n := |path|;
    if EndsWith(path, ".js") || EndsWith(path, ".ts") {
      assert path[n - 3] == path[n - 3..][0] == '.';
    } else {
      assert path[n - 1] == path[n - 4..][3] == 'x';
    }
  }

  /** A script goes to the JavaScript expert whatever its description says. */
  lemma RouteScript(issue: Record)
    requires !LowerFails(issue, "description") && !LowerFails(issue, "category")
    requires "file" in issue && issue["file"].Str? && HasScriptExtension(Lower(issue["file"].s))
    ensures Route(issue) == Returned(Js)
  {
    ScriptIsNotStylesheet(Lower(issue["file"].s));
  }

  /** Any other issue goes by the keyword scores of its lower-cased
      description. */
  lemma RouteByKeywords(issue: Record)
    requires !LowerFails(issue, "file") && !LowerFails(issue, "description") && !LowerFails(issue, "category")
    requires var path := Lower(TextField(issue, "file"));
             !EndsWith(path, ".css") && !HasScriptExtension(path)
    ensures var d := Lower(TextField(issue, "description"));
            Route(issue) == Returned(ChooseByScores(Score(CssKeywords, d), Score(JsKeywords, d),
                                                    Score(HtmlKeywords, d)))
  {
  }

  /** The category is read but does not influence the choice. */
  lemma RouteIgnoresCategory(i1: Record, i2: Record)
    requires Field(i1, "file", Str("")) == Field(i2, "file", Str(""))
    requires Field(i1, "description", Str("")) == Field(i2, "description", Str(""))
    requires !LowerFails(i1, "category") && !LowerFails(i2, "category")
    ensures Route(i1) == Route(i2)
  {
    assert LowerFails(i1, "file") == LowerFails(i2, "file");
    assert LowerFails(i1, "description") == LowerFails(i2, "description");
    assert TextField(i1, "file") == TextField(i2, "file");
    assert TextField(i1, "description") == TextField(i2, "description");
  }

  /** One record of `all_fixes`: `{'issue', 'fix', 'expert', 'file'}`, the
      expert given by its persona (its `name` is `PersonaName`). */
  datatype FixAttempt = FixAttempt(issue: Record, fix: FixResult, expert: Persona, file: Value)

  /** The body of the `execute` loop for one issue. The file content looked
      up for the expert is never read by it, so it is not modelled. */
  function Attempt(o: Answers, issue: Record): Outcome<FixAttempt> {
    match Route(issue)
    case Raised(m) => Raised(m)
    case Returned(p) => Returned(FixAttempt(issue, GenerateFix(o, p, issue), p, Field(issue, "file", Null)))
  }

  function AttemptWith(o: Answers): Record -> Outcome<FixAttempt> {
    issue => Attempt(o, issue)
  }

  /** `sum(1 for f in all_fixes if f['fix'].get('success', False))`. */
  function SuccessCount(fixes: seq<FixAttempt>): (n: nat)
    ensures n <= |fixes|
    ensures n == |fixes| <==> forall i :: 0 <= i < |fixes| ==> Succeeded(fixes[i].fix)
    ensures n == 0 <==> forall i :: 0 <= i < |fixes| ==> !Succeeded(fixes[i].fix)
    decreases |fixes|
  {
    if |fixes| == 0 then 0
    else
      var init := fixes[..|fixes| - 1];
      assert forall i :: 0 <= i < |init| ==> init[i] == fixes[i];
      SuccessCount(init) + (if Succeeded(fixes[|fixes| - 1].fix) then 1 else 0)
  }

  /** The dictionary `execute` returns. */
  datatype Delegation = Delegation(fixes: seq<FixAttempt>, total: nat, successful: nat)

  /** What `execute` computes; an issue that cannot be routed aborts it. */
  function Delegated(o: Answers, issues: seq<Record>): Outcome<Delegation> {
    match Traverse(AttemptWith(o), issues)
    case Raised(m) => Raised(m)
    case Returned(fixes) => Returned(Delegation(fixes, |fixes|, SuccessCount(fixes)))
  }

  /** One fix record per issue, in input order, each carrying its issue, the
      file of that issue, the expert the router chose and that expert's fix;
      the totals count the records and their successes. The stage fails
      exactly when some issue cannot be routed. */
  lemma DelegatedPointwise(o: Answers, issues: seq<Record>)
    ensures Delegated(o, issues).Raised? <==> exists i :: 0 <= i < |issues| && Route(issues[i]).Raised?
    ensures Delegated(o, issues).Returned? ==>
              var d := Delegated(o, issues).value;
              |d.fixes| == |issues| && d.total == |d.fixes| && d.successful <= d.total &&
              forall i :: 0 <= i < |issues| ==>
                d.fixes[i].issue == issues[i] && d.fixes[i].file == Field(issues[i], "file", Null) &&
                Route(issues[i]) == Returned(d.fixes[i].expert) &&
                d.fixes[i].fix == GenerateFix(o, d.fixes[i].expert, issues[i])
  {
    TraversePointwise(AttemptWith(o), issues);
    assert forall i :: 0 <= i < |issues| ==> AttemptWith(o)(issues[i]) == Attempt(o, issues[i]);
  }

  /** `successful_fixes` reaches `total_fixes` exactly when every expert
      produced a fix. */
  lemma AllSuccessful(o: Answers, issues: seq<Record>)
    requires Delegated(o, issues).Returned?
    ensures var d := Delegated(o, issues).value;
            d.successful == d.total <==> forall i :: 0 <= i < |d.fixes| ==> Succeeded(d.fixes[i].fix)
  {
  }

  /** The second pass of `execute`, counting the successful fixes. */
  method CountSuccessful(fixes: seq<FixAttempt>) returns (n: nat)
    ensures n == SuccessCount(fixes)
  {
    n := 0;
    var i := 0;
    while i < |fixes|
      invariant 0 <= i <= |fixes|
      invariant n == SuccessCount(fixes[..i])
    {
      assert fixes[..i + 1][..i] == fixes[..i];
      if Succeeded(fixes[i].fix) {
        n := n + 1;
      }
      i := i + 1;
    }
    assert fixes[..i] == fixes;
  }

  /** `execute`: the delegation loop, then the counts. */
  method Execute(o: Answers, issues: seq<Record>) returns (r: Outcome<Delegation>)
    ensures r == Delegated(o, issues)
  {
    var allFixes: seq<FixAttempt> := [];
    var i := 0;
    while i < |issues|
      invariant 0 <= i <= |issues|
      invariant Traverse(AttemptWith(o), issues[..i]) == Returned(allFixes)
    {
      assert issues[..i + 1][..i] == issues[..i];
      var issue := issues[i];
      var expert := Route(issue);
      if expert.Raised? {
        TraverseRaisedPersists(AttemptWith(o), issues, i + 1);
        return Raised(expert.message);
      }
      var fixResult := GenerateFix(o, expert.value, issue);
      allFixes := allFixes + [FixAttempt(issue, fixResult, expert.value, Field(issue, "file", Null))];
      i := i + 1;
    }
    assert issues[..i] == issues;
    var successful := CountSuccessful(allFixes);
    r := Returned(Delegation(allFixes, |allFixes|, successful));
  }

  /** The expert names of the records, `fix.get('expert', 'Unknown')` (every
      record built by `execute` has one). */
  function ExpertNames(fixes: seq<FixAttempt>): (names: seq<string>)
    ensures |names| == |fixes| && forall i :: 0 <= i < |fixes| ==> names[i] == PersonaName(fixes[i].expert)
  {
    seq(|fixes|, i requires 0 <= i < |fixes| => PersonaName(fixes[i].expert))
  }

  /** `sorted(by_expert.items())` in the delegation report. */
  function ExpertTally(fixes: seq<FixAttempt>): seq<(string, int)> {
    SortByName(Tally(ExpertNames(fixes)))
  }

  /** The rows of the delegation report: the tally loop over the records and
      the sort. */
  method TallyByExpert(fixes: seq<FixAttempt>) returns (rows: seq<(string, int)>)
    ensures rows == ExpertTally(fixes)
  {
    var names := ExpertNames(fixes);
    var byExpert: ODict<string, int> := [];
    var i := 0;
    while i < |fixes|
      invariant 0 <= i <= |fixes|
      invariant byExpert == Tally(names[..i])
    {
      var name := names[i];
      assert names[..i + 1] == names[..i] + [name];
      TallySnoc(names[..i], name);
      byExpert := Put(byExpert, name, GetOr(byExpert, name, 0) + 1);
      assert byExpert == Tally(names[..i + 1]);
      i := i + 1;
    }
    assert names[..i] == names;
    rows := SortByName(byExpert);
  }

  /** The report lists the experts in name order, once each, with the number
      of records each one received; an expert is listed exactly when it
      received a record, and the counts add up to the number of records. */
  lemma ExpertTallyCounts(fixes: seq<FixAttempt>)
    ensures ByName(ExpertTally(fixes))
    ensures Sum(ExpertTally(fixes)) == |fixes|
    ensures forall i :: 0 <= i < |ExpertTally(fixes)| ==>
              ExpertTally(fixes)[i].1 == Occurrences(ExpertNames(fixes), ExpertTally(fixes)[i].0)
    ensures forall k :: Occurrences(ExpertNames(fixes), k) > 0 ==> exists i :: 0 <= i < |ExpertTally(fixes)| && ExpertTally(fixes)[i].0 == k
  {
    var names := ExpertNames(fixes);
    var rows := ExpertTally(fixes);
    SortByNameSorted(Tally(names));
    PermutedTallySum(names, rows);
    PermutedTallyCounts(names, rows);
    PermutedTallyComplete(names, rows);
  }
}
