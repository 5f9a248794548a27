/** The critic agent (`CriticAgent`): it reviews every fix record, rejecting
    failed fixes outright, passing the verdict of the oracle through, and
    approving by default when the review itself fails; then it counts the
    approvals and summarises ratings and concerns. */
module Critic {
  import opened Wrappers
  import opened Json
  import opened ODict
  import opened Oracles
  import opened Experts
  import opened Manager
  import opened Sorting

  const FailedReason: string := "Fix generation failed"
  const FailedWeakness: string := "Fix was not successfully generated"
  const FailedSuggestion: string := "Retry with clearer context or different approach"
  const DefaultStrength: string := "Fix was generated successfully"
  const AutoApprovalNote: string := "Automatic approval due to critique error: "

  /** A review record. The automatic rejection and the automatic approval
      have constant contents besides what is recorded here. */
  datatype Critique =
    | AutoRejected(file: Value)
    | Reviewed(file: Value, issueDescription: Value, approved: Value, rating: Value, strengths: Value,
               weaknesses: Value, suggestions: Value, concerns: Value, originalFix: FixResult)
    | AutoApproved(file: Value, error: string, originalFix: FixResult)

  /** `critique.get('approved', False)`. */
  function ApprovedField(c: Critique): Value {
    match c
    case AutoRejected(_) => Bool(false)
    case Reviewed(_, _, approved, _, _, _, _, _, _) => approved
    case AutoApproved(_, _, _) => Bool(true)
  }

  /** `critique.get('approved')` tested for truth. */
  predicate IsApproved(c: Critique) {
    Truthy(ApprovedField(c))
  }

  /** `critique.get('rating', 0)`. */
  function Rating(c: Critique): Value {
    match c
    case AutoRejected(_) => Int(0)
    case Reviewed(_, _, _, rating, _, _, _, _, _) => rating
    case AutoApproved(_, _, _) => Int(7)
  }

  /** `critique.get('weaknesses', [])`. */
  function Weaknesses(c: Critique): Value {
    match c
    case AutoRejected(_) => Arr([Str(FailedWeakness)])
    case Reviewed(_, _, _, _, _, weaknesses, _, _, _) => weaknesses
    case AutoApproved(_, _, _) => Arr([])
  }

  /** `critique.get('concerns', [])`: the automatic rejection has no such
      key and the automatic approval an empty list. */
  function Concerns(c: Critique): Value {
    match c
    case Reviewed(_, _, _, _, _, _, _, concerns, _) => concerns
    case _ => Arr([])
  }

  /** `critique.get('issue_description', default)`: only a review made by
      the oracle records the issue's description. */
  function IssueDescription(c: Critique): Option<Value> {
    if c.Reviewed? then Some(c.issueDescription) else None
  }

  /** `critique.get('original_fix', {})`. */
  function OriginalFix(c: Critique): Option<FixResult> {
    if c.AutoRejected? then None else Some(c.originalFix)
  }

  /** The text of `note` in an automatic approval. */
  function Note(c: Critique): Option<string> {
    if c.AutoApproved? then Some(AutoApprovalNote + c.error) else None
  }

  /** The review request: the issue's description, WCAG reference, severity
      and located snippet (each defaulting to ''), and the fixed code and
      explanation of the fix. */
  function ReviewPrompt(issue: Record, fixedCode: Value, explanation: Value): Prompt {
    ReviewRequest(Field(issue, "description", Str("")), Field(issue, "wcag", Str("")),
                  Field(issue, "severity", Str("")), Field(issue, "code_snippet", Str("")),
                  fixedCode, explanation)
  }

  /** `_critique_fix`. Every failure inside the `try` (request, parse, or a
      reply that is not a dictionary) ends in the automatic approval. */
  function CritiqueFix(o: Answers, a: FixAttempt): Critique {
    if !Succeeded(a.fix) then AutoRejected(a.file)
    else
      var reply := o(ReviewPrompt(a.issue, a.fix.fixedCode, a.fix.explanation));
      match reply
      case Raised(m) => AutoApproved(a.file, m, a.fix)
      case Returned(v) =>
        if v.Obj? then
          var d := v.fields;
          Reviewed(a.file, Field(a.issue, "description", Null), Field(d, "approved", Bool(false)),
                   Field(d, "rating", Int(0)), Field(d, "strengths", Arr([])), Field(d, "weaknesses", Arr([])),
                   Field(d, "suggestions", Arr([])), Field(d, "concerns", Arr([])), a.fix)
        else AutoApproved(a.file, NotADictMessage, a.fix)
  }

  /** A fix the expert failed to produce is rejected with rating 0 and the
      fixed weakness text, without asking the oracle. */
  lemma RejectsFailedFix(o1: Answers, o2: Answers, a: FixAttempt)
    requires !Succeeded(a.fix)
    ensures CritiqueFix(o1, a) == CritiqueFix(o2, a) == AutoRejected(a.file)
    ensures var c := CritiqueFix(o1, a);
            !IsApproved(c) && Rating(c) == Int(0) && Weaknesses(c) == Arr([Str(FailedWeakness)]) &&
            Concerns(c) == Arr([]) && OriginalFix(c).None?
  {
  }

  /** A review that cannot be obtained approves the fix with rating 7 and
      says why in its note: the critic fails open. */
  lemma FailsOpen(o: Answers, a: FixAttempt)
    requires Succeeded(a.fix)
    requires var reply := o(ReviewPrompt(a.issue, a.fix.fixedCode, a.fix.explanation));
             !(reply.Returned? && reply.value.Obj?)
    ensures var c := CritiqueFix(o, a);
            var reply := o(ReviewPrompt(a.issue, a.fix.fixedCode, a.fix.explanation));
            IsApproved(c) && Rating(c) == Int(7) && Weaknesses(c) == Arr([]) && Concerns(c) == Arr([]) &&
            Note(c) == Some(AutoApprovalNote + (if reply.Raised? then reply.message else NotADictMessage)) &&
            OriginalFix(c) == Some(a.fix) && c.file == a.file
  {
  }

  /** A parsed verdict is taken as given: `approved` defaults to False and
      `rating` to 0, and the rating is not clamped to 0..10. */
  lemma TakesVerdict(o: Answers, a: FixAttempt)
    requires Succeeded(a.fix)
    requires var reply := o(ReviewPrompt(a.issue, a.fix.fixedCode, a.fix.explanation));
             reply.Returned? && reply.value.Obj?
    ensures var c := CritiqueFix(o, a);
            var d := o(ReviewPrompt(a.issue, a.fix.fixedCode, a.fix.explanation)).value.fields;
            ApprovedField(c) == Field(d, "approved", Bool(false)) && Rating(c) == Field(d, "rating", Int(0)) &&
            Concerns(c) == Field(d, "concerns", Arr([])) &&
            IssueDescription(c) == Some(Field(a.issue, "description", Null)) &&
            OriginalFix(c) == Some(a.fix) && c.file == a.file
    ensures var d := o(ReviewPrompt(a.issue, a.fix.fixedCode, a.fix.explanation)).value.fields;
            "approved" !in d ==> !IsApproved(CritiqueFix(o, a))
  {
  }

  /** Only a fix the expert produced can be approved. */
  lemma ApprovedMeansFixed(o: Answers, a: FixAttempt)
    requires IsApproved(CritiqueFix(o, a))
    ensures Succeeded(a.fix) && OriginalFix(CritiqueFix(o, a)) == Some(a.fix)
  {
  }

  /** The critiques, one per fix in order. */
  function CritiquesOf(o: Answers, fixes: seq<FixAttempt>): (cs: seq<Critique>)
    ensures |cs| == |fixes| && forall i :: 0 <= i < |fixes| ==> cs[i] == CritiqueFix(o, fixes[i])
  {
    seq(|fixes|, i requires 0 <= i < |fixes| => CritiqueFix(o, fixes[i]))
  }

  /** `sum(1 for c in critiques if c.get('approved', False))`. */
  function ApprovedCount(cs: seq<Critique>): (n: nat)
    ensures n <= |cs|
    ensures n == |cs| <==> forall i :: 0 <= i < |cs| ==> IsApproved(cs[i])
    ensures n == 0 <==> forall i :: 0 <= i < |cs| ==> !IsApproved(cs[i])
    decreases |cs|
  {
    if |cs| == 0 then 0
    else
      var init := cs[..|cs| - 1];
      assert forall i :: 0 <= i < |init| ==> init[i] == cs[i];
      ApprovedCount(init) + (if IsApproved(cs[|cs| - 1]) then 1 else 0)
  }

  /** The exceptions `generate_critique_summary` can raise. */
  const NotSummableMessage: string := "unsupported operand type(s) for +"
  const NotIterableMessage: string := "object is not iterable"

  /** The items `all_concerns.extend(concerns)` adds: a list its elements, a
      string its characters; a dictionary would add its keys, which the
      model leaves out (they are strings, so they never raise); any other
      value is not iterable. */
  function ConcernItems(v: Value): Outcome<seq<Value>> {
    match v
    case Arr(items) => Returned(items)
    case Str(s) => Returned(seq(|s|, i requires 0 <= i < |s| => Str([s[i]])))
    case Obj(_) => Returned([])
    case _ => Raised(NotIterableMessage)
  }

  /** `all_concerns` after the extension loop. */
  function AllConcerns(cs: seq<Critique>): Outcome<seq<Value>>
    decreases |cs|
  {
    if |cs| == 0 then Returned([])
    else
      match AllConcerns(cs[..|cs| - 1])
      case Raised(m) => Raised(m)
      case Returned(done) =>
        match ConcernItems(Concerns(cs[|cs| - 1]))
        case Raised(m) => Raised(m)
        case Returned(items) => Returned(done + items)
  }

  /** At most this many concerns are listed. */
  const TopConcernCount: nat := 5

  /** `sorted(concern_counts.items(), key=lambda x: x[1], reverse=True)[:5]`. */
  function TopConcerns(concerns: seq<Value>): seq<(Value, int)> {
    Top(SortByCountDescending(Tally(concerns)), TopConcernCount)
  }

  /** The counting loop over `all_concerns`: an unhashable concern cannot
      be a key. */
  function CountedConcerns(all: seq<Value>): Outcome<seq<(Value, int)>> {
    if exists i :: 0 <= i < |all| && !Hashable(all[i]) then Raised(UnhashableMessage)
    else Returned(TopConcerns(all))
  }

  /** `sum` accepts every rating. */
  predicate RatingsSummable(cs: seq<Critique>) {
    forall i :: 0 <= i < |cs| ==> Numeric(Rating(cs[i]))
  }

  /** What `generate_critique_summary` computes that can be observed: the
      concerns it lists, or the exception it raises. The ratings are summed
      only when there is a critique, and `sum` refuses anything but numbers.
      The report text itself is thrown away by `execute`. */
  function CritiqueSummary(cs: seq<Critique>): Outcome<seq<(Value, int)>> {
    if |cs| > 0 && !RatingsSummable(cs) then Raised(NotSummableMessage)
    else
      match AllConcerns(cs)
      case Raised(m) => Raised(m)
      case Returned(all) => CountedConcerns(all)
  }

  /** The summary lists at most five concerns, the most mentioned first,
      each with the number of times it was mentioned ... */
  lemma TopConcernsRanked(concerns: seq<Value>)
    ensures var top := TopConcerns(concerns);
            |top| <= TopConcernCount && ByCountDescending(top) &&
            forall i :: 0 <= i < |top| ==> top[i].1 == Occurrences(concerns, top[i].0)
  {
    TopKeepsLargest(SortByCountDescending(Tally(concerns)), TopConcernCount);
    TopOfTallyCounts(concerns, SortByCountDescending(Tally(concerns)), TopConcernCount);
  }

  /** ... it lists one whenever there was a concern ... */
  lemma TopConcernsNonEmpty(concerns: seq<Value>)
    requires |concerns| > 0
    ensures |TopConcerns(concerns)| > 0
  {
    TopOfTallyNonEmpty(concerns, SortByCountDescending(Tally(concerns)), TopConcernCount);
  }

  /** ... and a concern it leaves out is mentioned no more often than the
      last one listed. */
  lemma TopConcernsMostMentioned(concerns: seq<Value>)
    ensures var top := TopConcerns(concerns);
            forall k :: Occurrences(concerns, k) > 0 && (forall i :: 0 <= i < |top| ==> top[i].0 != k) ==>
              |top| > 0 && Occurrences(concerns, k) <= top[|top| - 1].1
  {
    TopOfTallyMostFrequent(concerns, SortByCountDescending(Tally(concerns)), TopConcernCount);
  }

  /** The dictionary `execute` returns (the approval rate, a percentage, is
      not modelled). */
  datatype Review = Review(critiques: seq<Critique>, totalReviewed: nat, approved: nat, rejected: int,
                           isSatisfactory: bool)

  /** What `execute` computes; only the summary can raise. */
  function ReviewOf(o: Answers, fixes: seq<FixAttempt>): Outcome<Review> {
    var cs := CritiquesOf(o, fixes);
    var approved := ApprovedCount(cs);
    match CritiqueSummary(cs)
    case Raised(m) => Raised(m)
    case Returned(_) => Returned(Review(cs, |cs|, approved, |cs| - approved, approved == |cs| && |cs| > 0))
  }

  /** Approvals and rejections add up to the critiques, one per fix; the
      review is satisfactory exactly when there was something to review and
      every critique approved it, so an empty fix list never is. */
  lemma ReviewCounts(o: Answers, fixes: seq<FixAttempt>)
    requires ReviewOf(o, fixes).Returned?
    ensures var r := ReviewOf(o, fixes).value;
            |r.critiques| == |fixes| == r.totalReviewed && r.approved + r.rejected == r.totalReviewed &&
            0 <= r.rejected && (r.isSatisfactory <==> |fixes| > 0 && forall i :: 0 <= i < |fixes| ==> IsApproved(r.critiques[i]))
  {
  }

  /** A satisfactory review implies that every expert produced its fix. */
  lemma SatisfactoryMeansAllFixed(o: Answers, fixes: seq<FixAttempt>)
    requires ReviewOf(o, fixes).Returned? && ReviewOf(o, fixes).value.isSatisfactory
    ensures forall i :: 0 <= i < |fixes| ==> Succeeded(fixes[i].fix)
  {
    var cs := CritiquesOf(o, fixes);
    forall i | 0 <= i < |fixes|
      ensures Succeeded(fixes[i].fix)
    {
      assert IsApproved(cs[i]);
      ApprovedMeansFixed(o, fixes[i]);
    }
  }

  /** The extension loop of `generate_critique_summary`. */
  method CollectConcerns(cs: seq<Critique>) returns (r: Outcome<seq<Value>>)
    ensures r == AllConcerns(cs)
  {
    var all: seq<Value> := [];
    var i := 0;
    while i < |cs|
      invariant 0 <= i <= |cs|
      invariant AllConcerns(cs[..i]) == Returned(all)
    {
      assert cs[..i + 1][..i] == cs[..i];
      var items := ConcernItems(Concerns(cs[i]));
      if items.Raised? {
        AllConcernsRaisedPersists(cs, i + 1);
        return Raised(items.message);
      }
      all := all + items.value;
      i := i + 1;
    }
    assert cs[..i] == cs;
    r := Returned(all);
  }

  lemma {:induction false} AllConcernsRaisedPersists(cs: seq<Critique>, k: nat)
    requires k <= |cs| && AllConcerns(cs[..k]).Raised?
    ensures AllConcerns(cs) == AllConcerns(cs[..k])
    decreases |cs| - k
  {
    if k < |cs| {
      assert cs[..k + 1][..k] == cs[..k];
      AllConcernsRaisedPersists(cs, k + 1);
    } else {
      assert cs[..k] == cs;
    }
  }

  /** The counting loop of `generate_critique_summary` and the cut to the
      first five after sorting. */
  method CountConcerns(all: seq<Value>) returns (r: Outcome<seq<(Value, int)>>)
    ensures r == CountedConcerns(all)
  {
    var counts := CountEach(all, v => Hashable(v));
    if counts.None? {
      return Raised(UnhashableMessage);
    }
    r := Returned(Top(SortByCountDescending(counts.value), TopConcernCount));
  }

  /** The approval count of `execute`. */
  method CountApproved(cs: seq<Critique>) returns (n: nat)
    ensures n == ApprovedCount(cs)
  {
    n := 0;
    var i := 0;
    while i < |cs|
      invariant 0 <= i <= |cs|
      invariant n == ApprovedCount(cs[..i])
    {
      assert cs[..i + 1][..i] == cs[..i];
      if IsApproved(cs[i]) {
        n := n + 1;
      }
      i := i + 1;
    }
    assert cs[..i] == cs;
  }

  /** `execute`: the review loop, the counts and the summary. */
  method Execute(o: Answers, fixes: seq<FixAttempt>) returns (r: Outcome<Review>)
    ensures r == ReviewOf(o, fixes)
  {
    var critiques: seq<Critique> := [];
    var i := 0;
    while i < |fixes|
      invariant 0 <= i <= |fixes|
      invariant |critiques| == i && forall j :: 0 <= j < i ==> critiques[j] == CritiqueFix(o, fixes[j])
    {
      critiques := critiques + [CritiqueFix(o, fixes[i])];
      i := i + 1;
    }
    assert critiques == CritiquesOf(o, fixes);
    var approved := CountApproved(critiques);
    var summary := Summarize(critiques);
    if summary.Raised? {
      return Raised(summary.message);
    }
    r := Returned(Review(critiques, |critiques|, approved, |critiques| - approved,
                         approved == |critiques| && |critiques| > 0));
  }

  /** `generate_critique_summary`, as far as it is observable. */
  method Summarize(cs: seq<Critique>) returns (r: Outcome<seq<(Value, int)>>)
    ensures r == CritiqueSummary(cs)
  {
    if |cs| > 0 && !RatingsSummable(cs) {
      return Raised(NotSummableMessage);
    }
    var all := CollectConcerns(cs);
    if all.Raised? {
      return Raised(all.message);
    }
    r := CountConcerns(all.value);
  }
}
