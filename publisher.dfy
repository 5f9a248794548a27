/** The GitHub agent (`GitHubAgent`): it keeps the approved critiques,
    groups them by file, marks the files it has the source of as modified,
    and then creates a branch, commits, pushes and opens a pull request. The
    repository operations are the environment's: their outcomes are given by
    a `World`, and what the agent asks of it is recorded as a list of
    actions. */
module Publisher {
  import opened Wrappers
  import opened Json
  import opened Text
  import opened ODict
  import opened Sorting
  import opened Critic
  import opened RepoScan
  import opened Seqs

  const BranchName: string := "accessibility-fixes"
  const BaseBranch: string := "main"
  const PrTitle: string := "Fix accessibility issues"

  /** The commit message lists this many issue descriptions ... */
  const CommitListLimit: nat := 5

  /** ... each cut to this many characters. */
  const DescriptionLimit: nat := 80

  const UnknownIssue: string := "Unknown issue"

  /** What slicing `None`, a number or a boolean raises. */
  const NotSubscriptableMessage: string := "object is not subscriptable"

  /** What slicing a dictionary raises. */
  const UnhashableSliceMessage: string := "unhashable type: 'slice'"

  /** `[c for c in critiques if c.get('approved', False)]`. */
  function ApprovedOf(cs: seq<Critique>): (r: seq<Critique>)
    ensures |r| == ApprovedCount(cs)
    ensures forall i :: 0 <= i < |r| ==> IsApproved(r[i]) && r[i] in cs
    ensures forall i :: 0 <= i < |cs| && IsApproved(cs[i]) ==> cs[i] in r
    decreases |cs|
  {
    if |cs| == 0 then []
    else
      var init := cs[..|cs| - 1];
      assert forall i :: 0 <= i < |init| ==> init[i] == cs[i];
      var c := cs[|cs| - 1];
      if IsApproved(c) then ApprovedOf(init) + [c] else ApprovedOf(init)
  }

  // ---------------------------------------------------------------------
  // _organize_fixes_by_file

  /** The critiques with a truthy `file`, each paired with it, in order. */
  function FileKeyed(cs: seq<Critique>): (r: seq<(Value, Critique)>)
    ensures forall i :: 0 <= i < |r| ==> Truthy(r[i].0) && r[i].0 == r[i].1.file && r[i].1 in cs
    decreases |cs|
  {
    if |cs| == 0 then []
    else
      var init := cs[..|cs| - 1];
      var c := cs[|cs| - 1];
      FileKeyed(init) + (if Truthy(c.file) then [(c.file, c)] else [])
  }

  lemma FileKeyedSnoc(cs: seq<Critique>, c: Critique)
    ensures FileKeyed(cs + [c]) == FileKeyed(cs) + (if Truthy(c.file) then [(c.file, c)] else [])
  {
    assert (cs + [c])[..|cs|] == cs;
  }

  /** The critiques whose `file` is `k`, in order. */
  function WithFile(cs: seq<Critique>, k: Value): (r: seq<Critique>)
    ensures forall i :: 0 <= i < |r| ==> r[i].file == k && r[i] in cs
    ensures forall i :: 0 <= i < |cs| && cs[i].file == k ==> cs[i] in r
    decreases |cs|
  {
    if |cs| == 0 then []
    else
      var init := cs[..|cs| - 1];
      assert forall i :: 0 <= i < |init| ==> init[i] == cs[i];
      var c := cs[|cs| - 1];
      WithFile(init, k) + (if c.file == k then [c] else [])
  }

  /** `_organize_fixes_by_file`: the membership test raises on the first
      truthy file that is a list or a dictionary. */
  function OrganizeByFile(cs: seq<Critique>): Outcome<ODict<Value, seq<Critique>>> {
    if exists i :: 0 <= i < |cs| && Truthy(cs[i].file) && !Hashable(cs[i].file) then Raised(UnhashableMessage)
    else Returned(Group(FileKeyed(cs)))
  }

  lemma {:induction false} SelectFileKeyed(cs: seq<Critique>, k: Value)
    ensures Select(FileKeyed(cs), k) == if Truthy(k) then WithFile(cs, k) else []
    decreases |cs|
  {
    if |cs| > 0 {
      var init := cs[..|cs| - 1];
      var c := cs[|cs| - 1];
      SelectFileKeyed(init, k);
      if Truthy(c.file) {
        SelectSnoc(FileKeyed(init), (c.file, c), k);
      } else {
        assert FileKeyed(cs) == FileKeyed(init);
      }
    }
  }

  /** There is one group per distinct truthy file, and each holds exactly
      the critiques naming that file, in their original order. */
  lemma GroupsByFile(cs: seq<Critique>, k: Value)
    requires OrganizeByFile(cs).Returned?
    ensures DistinctKeys(OrganizeByFile(cs).value)
    ensures HasKey(OrganizeByFile(cs).value, k) <==>
              Truthy(k) && exists i :: 0 <= i < |cs| && cs[i].file == k
    ensures Truthy(k) ==> GetOr(OrganizeByFile(cs).value, k, []) == WithFile(cs, k)
  {
    GroupDistinct(FileKeyed(cs));
    GroupSelects(FileKeyed(cs), k);
    SelectFileKeyed(cs, k);
    if Truthy(k) && exists i :: 0 <= i < |cs| && cs[i].file == k {
      var i :| 0 <= i < |cs| && cs[i].file == k;
      assert cs[i] in WithFile(cs, k);
    }
  }

  /** The grouping fails exactly on a truthy list or dictionary as a file. */
  lemma OrganizeRaises(cs: seq<Critique>)
    ensures OrganizeByFile(cs).Raised? <==>
              exists i :: 0 <= i < |cs| && (cs[i].file.Arr? || cs[i].file.Obj?) && Truthy(cs[i].file)
  {
  }

  /** The loop of `_organize_fixes_by_file`. */
  method OrganizeFixesByFile(cs: seq<Critique>) returns (r: Outcome<ODict<Value, seq<Critique>>>)
    ensures r == OrganizeByFile(cs)
  {
    var groups: ODict<Value, seq<Critique>> := [];
    var i := 0;
    while i < |cs|
      invariant 0 <= i <= |cs|
      invariant groups == Group(FileKeyed(cs[..i]))
      invariant forall j :: 0 <= j < i && Truthy(cs[j].file) ==> Hashable(cs[j].file)
    {
      var c := cs[i];
      assert cs[..i + 1] == cs[..i] + [c];
      FileKeyedSnoc(cs[..i], c);
      if Truthy(c.file) {
        if !Hashable(c.file) {
          return Raised(UnhashableMessage);
        }
        GroupSnoc(FileKeyed(cs[..i]), (c.file, c));
        groups := Put(groups, c.file, GetOr(groups, c.file, []) + [c]);
      } else {
        assert FileKeyed(cs[..i + 1]) == FileKeyed(cs[..i]);
      }
      assert forall j :: 0 <= j < i + 1 && Truthy(cs[j].file) ==> Hashable(cs[j].file);
      i := i + 1;
    }
    assert cs[..i] == cs;
    r := Returned(groups);
  }

  // ---------------------------------------------------------------------
  // _apply_fixes_to_files

  /** `source_files.get(file_path, '')`: only a string can equal a path. */
  function Content(files: SourceFiles, k: Value): string {
    if k.Str? then GetOr(files, k.s, "") else ""
  }

  /** A file is marked modified when its source is known and not empty and
      writing its backup does not fail. The fixes themselves are never
      written into the file. */
  predicate Applied(files: SourceFiles, backupOk: string -> bool, k: Value) {
    |Content(files, k)| > 0 && backupOk(k.s)
  }

  /** `modified_files`: the paths of the groups applied, in group order. */
  function ModifiedFiles<X>(groups: ODict<Value, X>, files: SourceFiles, backupOk: string -> bool): (r: seq<string>)
    ensures |r| <= |groups|
    decreases |groups|
  {
    if |groups| == 0 then []
    else
      var k := groups[|groups| - 1].0;
      ModifiedFiles(groups[..|groups| - 1], files, backupOk) + (if Applied(files, backupOk, k) then [k.s] else [])
  }

  /** A path is reported modified exactly when it has a group, a non-empty
      source and a backup that did not fail, and none is reported twice. */
  lemma {:induction false} ModifiedExactly<X>(groups: ODict<Value, X>, files: SourceFiles,
                                              backupOk: string -> bool, p: string)
    ensures p in ModifiedFiles(groups, files, backupOk) <==>
              HasKey(groups, Str(p)) && |GetOr(files, p, "")| > 0 && backupOk(p)
    decreases |groups|
  {
    if |groups| > 0 {
      var init := groups[..|groups| - 1];
      ModifiedExactly(init, files, backupOk, p);
      assert Keys(groups) == Keys(init) + [groups[|groups| - 1].0];
    }
  }

  lemma {:induction false} ModifiedDistinct<X>(groups: ODict<Value, X>, files: SourceFiles, backupOk: string -> bool)
    requires DistinctKeys(groups)
    ensures var r := ModifiedFiles(groups, files, backupOk);
            forall i, j :: 0 <= i < j < |r| ==> r[i] != r[j]
    decreases |groups|
  {
    if |groups| > 0 {
      var init := groups[..|groups| - 1];
      var k := groups[|groups| - 1].0;
      ModifiedDistinct(init, files, backupOk);
      if k.Str? {
        ModifiedExactly(init, files, backupOk, k.s);
      }
      assert forall j :: 0 <= j < |init| ==> Keys(init)[j] != k;
      assert Applied(files, backupOk, k) ==> k == Str(k.s) && k.s !in ModifiedFiles(init, files, backupOk);
    }
  }

  /** The loop of `_apply_fixes_to_files`. */
  method ApplyFixesToFiles<X>(groups: ODict<Value, X>, files: SourceFiles, backupOk: string -> bool)
    returns (modified: seq<string>)
    ensures modified == ModifiedFiles(groups, files, backupOk)
  {
    modified := [];
    var i := 0;
    while i < |groups|
      invariant 0 <= i <= |groups|
      invariant modified == ModifiedFiles(groups[..i], files, backupOk)
    {
      assert groups[..i + 1][..i] == groups[..i];
      var k := groups[i].0;
      var content := Content(files, k);
      if |content| > 0 && backupOk(k.s) {
        modified := modified + [k.s];
      }
      i := i + 1;
    }
    assert groups[..i] == groups;
  }

  // ---------------------------------------------------------------------
  // _generate_commit_message

  /** `critique.get('issue_description', 'Unknown issue')`. */
  function DescriptionOf(c: Critique): Value {
    match IssueDescription(c)
    case Some(v) => v
    case None => Str(UnknownIssue)
  }

  /** `f"{desc[:80]}"`: a string is cut, a list is cut and shown (its
      rendering is not modelled), anything else cannot be sliced. */
  function SliceText(v: Value): (r: Outcome<string>)
    ensures r.Returned? <==> v.Str? || v.Arr?
    ensures v.Str? ==> r == Returned(Take(v.s, DescriptionLimit))
    ensures r.Returned? ==> |r.value| <= DescriptionLimit
  {
    match v
    case Str(s) => Returned(Take(s, DescriptionLimit))
    case Arr(items) => Returned(Display(v))
    case Obj(_) => Raised(UnhashableSliceMessage)
    case _ => Raised(NotSubscriptableMessage)
  }

  /** The description line of one critique. */
  function Describe(c: Critique): Outcome<string> {
    SliceText(DescriptionOf(c))
  }

  /** The critiques the commit message lists. */
  function Listed(cs: seq<Critique>): seq<Critique> {
    cs[..if |cs| <= CommitListLimit then |cs| else CommitListLimit]
  }

  /** The descriptions of the listed critiques, or the first slicing error. */
  function CommitDescriptions(cs: seq<Critique>): Outcome<seq<string>> {
    Traverse(Describe, Listed(cs))
  }

  function CommitHeader(n: nat): string {
    "fix: Apply " + NatToString(n) + " accessibility fixes\n\n" +
    "This commit addresses the following accessibility issues:\n\n"
  }

  /** `f"{i}. {desc}\n"` for each description, numbered from 1. */
  function NumberedLines(ds: seq<string>): string
    decreases |ds|
  {
    if |ds| == 0 then ""
    else NumberedLines(ds[..|ds| - 1]) + NatToString(|ds|) + ". " + ds[|ds| - 1] + "\n"
  }

  /** The count of the fixes left unlisted, when there are any. */
  function MoreLine(n: nat): (r: string)
    ensures |r| > 0 <==> n > CommitListLimit
  {
    if n > CommitListLimit then "\n... and " + NatToString(n - CommitListLimit) + " more fixes\n" else ""
  }

  const CommitFooter: string := "\nGenerated by Accessibility Agent System"

  /** `_generate_commit_message`. */
  function CommitMessage(cs: seq<Critique>): Outcome<string> {
    match CommitDescriptions(cs)
    case Raised(m) => Raised(m)
    case Returned(ds) => Returned(CommitHeader(|cs|) + NumberedLines(ds) + MoreLine(|cs|) + CommitFooter)
  }

  /** The message lists the first five critiques (or all, when fewer), each
      by its description cut to 80 characters, "Unknown issue" when there is
      none; it fails exactly when one of those descriptions cannot be
      sliced. */
  lemma CommitListsFirstFive(cs: seq<Critique>)
    ensures CommitDescriptions(cs).Raised? <==>
              exists i :: 0 <= i < |cs| && i < CommitListLimit && Describe(cs[i]).Raised?
    ensures CommitDescriptions(cs).Returned? ==>
              var ds := CommitDescriptions(cs).value;
              |ds| == (if |cs| <= CommitListLimit then |cs| else CommitListLimit) &&
              forall i :: 0 <= i < |ds| ==>
                |ds[i]| <= DescriptionLimit && Describe(cs[i]) == Returned(ds[i]) &&
                (IssueDescription(cs[i]).None? ==> ds[i] == UnknownIssue)
  {
    var listed := Listed(cs);
    TraversePointwise(Describe, listed);
    assert forall i :: 0 <= i < |listed| ==> listed[i] == cs[i];
    assert |UnknownIssue| <= DescriptionLimit;
  }

  /** Only the listed critiques and the number of critiques influence the
      message. */
  lemma CommitSeesOnlyListed(c1: seq<Critique>, c2: seq<Critique>)
    requires |c1| == |c2| && Listed(c1) == Listed(c2)
    ensures CommitMessage(c1) == CommitMessage(c2)
  {
  }

  /** The loop of `_generate_commit_message`. */
  method GenerateCommitMessage(cs: seq<Critique>) returns (r: Outcome<string>)
    ensures r == CommitMessage(cs)
  {
    var listed := Listed(cs);
    var lines := "";
    var ds: seq<string> := [];
    var i := 0;
    while i < |listed|
      invariant 0 <= i <= |listed|
      invariant Traverse(Describe, listed[..i]) == Returned(ds) && |ds| == i
      invariant lines == NumberedLines(ds)
    {
      assert listed[..i + 1][..i] == listed[..i];
      var d := Describe(listed[i]);
      if d.Raised? {
        TraverseRaisedPersists(Describe, listed, i + 1);
        return Raised(d.message);
      }
      assert (ds + [d.value])[..i] == ds;
      lines := lines + NatToString(i + 1) + ". " + d.value + "\n";
      ds := ds + [d.value];
      i := i + 1;
    }
    assert listed[..i] == listed;
    r := Returned(CommitHeader(|cs|) + lines + MoreLine(|cs|) + CommitFooter);
  }

  // ---------------------------------------------------------------------
  // _generate_pr_description

  /** `c.get('file')` for every critique. */
  function FilesOf(cs: seq<Critique>): (r: seq<Value>)
    ensures |r| == |cs| && forall i :: 0 <= i < |cs| ==> r[i] == cs[i].file
  {
    seq(|cs|, i requires 0 <= i < |cs| => cs[i].file)
  }

  /** `sorted(set(c.get('file') for c in critiques))`: building the set
      fails on a list or dictionary, sorting on a mixture of types. */
  function PrFiles(cs: seq<Critique>): Outcome<seq<Value>> {
    if exists i :: 0 <= i < |cs| && !Hashable(cs[i].file) then Raised(UnhashableMessage)
    else SortValues(Distinct(FilesOf(cs)))
  }

  /** A permutation of the distinct elements of `xs` holds each element of
      `xs` exactly once and nothing else. */
  lemma PermutedDistinct<T>(xs: seq<T>, fs: seq<T>)
    requires multiset(fs) == multiset(Distinct(xs))
    ensures forall i :: 0 <= i < |xs| ==> xs[i] in fs
    ensures forall j :: 0 <= j < |fs| ==> fs[j] in xs
    ensures forall i, j :: 0 <= i < j < |fs| ==> fs[i] != fs[j]
  {
    var ds := Distinct(xs);
    DistinctPermutation(ds, fs);
    assert forall i :: 0 <= i < |xs| ==> xs[i] in multiset(ds);
    assert forall j :: 0 <= j < |fs| ==> fs[j] in multiset(ds);
  }

  /** The PR lists every file named by a critique (None included) exactly
      once, in ascending order when they are all strings. */
  lemma PrListsEachFileOnce(cs: seq<Critique>)
    requires PrFiles(cs).Returned?
    ensures var fs := PrFiles(cs).value;
            (forall i :: 0 <= i < |cs| ==> cs[i].file in fs) &&
            (forall j :: 0 <= j < |fs| ==> exists i :: 0 <= i < |cs| && cs[i].file == fs[j]) &&
            (forall i, j :: 0 <= i < j < |fs| ==> fs[i] != fs[j]) &&
            (AllStr(FilesOf(cs)) ==> Ascending(fs))
  {
    var files := FilesOf(cs);
    var fs := PrFiles(cs).value;
    PermutedDistinct(files, fs);
    assert forall j :: 0 <= j < |fs| ==> exists i :: 0 <= i < |cs| && files[i] == fs[j];
  }

  /** `by_severity`: every critique is counted under "Medium". */
  function SeverityCounts(cs: seq<Critique>): ODict<string, int> {
    Tally(seq(|cs|, i => "Medium"))
  }

  lemma {:induction false} MediumTally(n: nat)
    ensures Tally(seq(n, i => "Medium")) == if n == 0 then [] else [("Medium", n)]
  {
    if n > 0 {
      var xs := seq(n, i => "Medium");
      assert xs[..n - 1] == seq(n - 1, i => "Medium");
      MediumTally(n - 1);
    }
  }

  /** The summary has the single row "Medium" with the number of critiques. */
  lemma SeverityAllMedium(cs: seq<Critique>)
    requires |cs| > 0
    ensures SortByName(SeverityCounts(cs)) == [("Medium", |cs|)]
  {
    MediumTally(|cs|);
  }

  function SeverityLines(rows: seq<(string, int)>): string
    decreases |rows|
  {
    if |rows| == 0 then ""
    else SeverityLines(rows[..|rows| - 1]) + "- **" + rows[|rows| - 1].0 + "**: " +
         IntToString(rows[|rows| - 1].1) + " issues\n"
  }

  function FileLines(fs: seq<Value>): string
    decreases |fs|
  {
    if |fs| == 0 then "" else FileLines(fs[..|fs| - 1]) + "- `" + Display(fs[|fs| - 1]) + "`\n"
  }

  const PrTesting: string :=
    "\n### Testing\n\n- [ ] Tested with keyboard navigation\n- [ ] Tested with screen reader\n" +
    "- [ ] Verified color contrast\n- [ ] Checked responsive design\n" +
    "\n---\n*Generated by Accessibility Agent System*"

  function PrHead(n: nat): string {
    "## Accessibility Fixes\n\nThis PR addresses **" + NatToString(n) + "** accessibility issues.\n\n### Summary\n\n"
  }

  function PrChanges(fs: seq<Value>): string {
    "\n### Changes\n\nModified " + NatToString(|fs|) + " files:\n\n"
  }

  /** `_generate_pr_description`. */
  function PrDescription(cs: seq<Critique>): Outcome<string> {
    match PrFiles(cs)
    case Raised(m) => Raised(m)
    case Returned(fs) =>
      Returned(PrHead(|cs|) + SeverityLines(SortByName(SeverityCounts(cs))) + PrChanges(fs) + FileLines(fs) + PrTesting)
  }

  /** The counting loop of `_generate_pr_description`. */
  method CountSeverities(cs: seq<Critique>) returns (bySeverity: ODict<string, int>)
    ensures bySeverity == SeverityCounts(cs)
  {
    bySeverity := [];
    var i := 0;
    while i < |cs|
      invariant 0 <= i <= |cs|
      invariant bySeverity == if i == 0 then [] else [("Medium", i)]
    {
      bySeverity := Put(bySeverity, "Medium", GetOr(bySeverity, "Medium", 0) + 1);
      i := i + 1;
    }
    MediumTally(|cs|);
  }

  /** The file loop of `_generate_pr_description`. */
  method ListFiles(fs: seq<Value>) returns (lines: string)
    ensures lines == FileLines(fs)
  {
    lines := "";
    var k := 0;
    while k < |fs|
      invariant 0 <= k <= |fs|
      invariant lines == FileLines(fs[..k])
    {
      assert fs[..k + 1][..k] == fs[..k];
      lines := lines + "- `" + Display(fs[k]) + "`\n";
      k := k + 1;
    }
    assert fs[..k] == fs;
  }

  /** `_generate_pr_description`. */
  method GeneratePrDescription(cs: seq<Critique>) returns (r: Outcome<string>)
    ensures r == PrDescription(cs)
  {
    var bySeverity := CountSeverities(cs);
    var files := PrFiles(cs);
    if files.Raised? {
      return Raised(files.message);
    }
    var lines := ListFiles(files.value);
    r := Returned(PrHead(|cs|) + SeverityLines(SortByName(bySeverity)) + PrChanges(files.value) + lines + PrTesting);
  }

  // ---------------------------------------------------------------------
  // execute

  /** The outcomes of the repository operations: whether each backup write
      succeeds, and what creating the branch, committing, pushing and
      opening the pull request do (the last may return no pull request). */
  datatype World = World(backupOk: string -> bool, branch: Outcome<()>, commit: Outcome<()>,
                         push: Outcome<()>, pullRequest: Outcome<Option<string>>)

  /** What the agent asks of the repository, in order. */
  datatype Action =
    | CreateBranch(name: string)
    | Commit(message: string)
    | Push(branch: string)
    | OpenPullRequest(title: string, body: string, head: string, base: string)

  /** The result dictionary of `execute`; `success` is true exactly for
      `Published`. */
  datatype Publication =
    | NothingApproved
    | NothingModified
    | PushFailed(error: string, filesModified: nat)
    | Published(modifiedFiles: seq<string>, pullRequestUrl: Option<string>, prFailed: bool)

  /** An outcome (a raised exception escapes `execute`) and the actions
      taken. */
  datatype Run = Run(outcome: Outcome<Publication>, actions: seq<Action>)

  /** `execute`. A failure to create the branch is only reported; a failure
      to commit escapes; a failure to push or to describe the pull request
      ends in `PushFailed`; a failure to open the pull request still counts
      as published. */
  function Publish(critiques: seq<Critique>, files: SourceFiles, w: World): Run {
    var approved := ApprovedOf(critiques);
    if |approved| == 0 then Run(Returned(NothingApproved), [])
    else
      match OrganizeByFile(approved)
      case Raised(m) => Run(Raised(m), [])
      case Returned(groups) =>
        Deliver(ModifiedFiles(groups, files, w.backupOk), CommitMessage(approved), PrDescription(approved), w)
  }

  /** `execute` from the list of modified files on, given the outcomes of
      generating the commit message and the pull request description (each
      is generated only when its turn comes). */
  function Deliver(modified: seq<string>, message: Outcome<string>, body: Outcome<string>, w: World): Run {
    if |modified| == 0 then Run(Returned(NothingModified), [])
    else if message.Raised? then Run(Raised(message.message), [CreateBranch(BranchName)])
    else if w.commit.Raised? then Run(Raised(w.commit.message), [CreateBranch(BranchName), Commit(message.value)])
    else
      var pushed := [CreateBranch(BranchName), Commit(message.value), Push(BranchName)];
      if w.push.Raised? then Run(Returned(PushFailed(w.push.message, |modified|)), pushed)
      else if body.Raised? then Run(Returned(PushFailed(body.message, |modified|)), pushed)
      else
        var requested := pushed + [OpenPullRequest(PrTitle, body.value, BranchName, BaseBranch)];
        match w.pullRequest
        case Raised(_) => Run(Returned(Published(modified, None, true)), requested)
        case Returned(url) => Run(Returned(Published(modified, url, false)), requested)
  }

  /** The files `execute` modifies for the critiques `approved`. */
  function Modified(approved: seq<Critique>, files: SourceFiles, w: World): seq<string>
    requires OrganizeByFile(approved).Returned?
  {
    ModifiedFiles(OrganizeByFile(approved).value, files, w.backupOk)
  }

  /** Without an approved critique nothing is touched. */
  lemma NothingApprovedNoAction(critiques: seq<Critique>, files: SourceFiles, w: World)
    requires forall i :: 0 <= i < |critiques| ==> !IsApproved(critiques[i])
    ensures Publish(critiques, files, w) == Run(Returned(NothingApproved), [])
  {
  }

  /** A failure to create the branch changes nothing. */
  lemma BranchFailureIgnored(modified: seq<string>, message: Outcome<string>, body: Outcome<string>,
                             w: World, b: Outcome<()>)
    ensures Deliver(modified, message, body, w.(branch := b)) == Deliver(modified, message, body, w)
  {
  }

  /** The files reported modified are the distinct non-empty string files
      named by approved critiques whose source is known and not empty and
      whose backup did not fail. */
  lemma ModifiedAreNamedFiles(approved: seq<Critique>, files: SourceFiles, w: World)
    requires OrganizeByFile(approved).Returned?
    ensures var modified := Modified(approved, files, w);
            (forall p :: p in modified <==>
               (|p| > 0 && (exists i :: 0 <= i < |approved| && approved[i].file == Str(p)) &&
                |GetOr(files, p, "")| > 0 && w.backupOk(p))) &&
            (forall i, j :: 0 <= i < j < |modified| ==> modified[i] != modified[j])
  {
    var groups := OrganizeByFile(approved).value;
    GroupsByFile(approved, Null);
    ModifiedDistinct(groups, files, w.backupOk);
    forall p
      ensures p in Modified(approved, files, w) <==>
                (|p| > 0 && (exists i :: 0 <= i < |approved| && approved[i].file == Str(p)) &&
                 |GetOr(files, p, "")| > 0 && w.backupOk(p))
    {
      ModifiedExactly(groups, files, w.backupOk, p);
      GroupsByFile(approved, Str(p));
    }
  }

  /** Once critiques are approved and grouped, the rest of `execute` runs on
      the files modified and the generated texts. */
  lemma PublishDelivers(critiques: seq<Critique>, files: SourceFiles, w: World)
    requires var approved := ApprovedOf(critiques);
             |approved| > 0 && OrganizeByFile(approved).Returned?
    ensures var approved := ApprovedOf(critiques);
            Publish(critiques, files, w) ==
              Deliver(Modified(approved, files, w), CommitMessage(approved), PrDescription(approved), w)
  {
  }

  /** Nothing is asked of the repository when no file is modified, and
      something is asked as soon as one is. */
  lemma DeliverNeedsModification(modified: seq<string>, message: Outcome<string>, body: Outcome<string>, w: World)
    ensures |Deliver(modified, message, body, w).actions| == 0 <==> |modified| == 0
    ensures |modified| == 0 ==> Deliver(modified, message, body, w).outcome == Returned(NothingModified)
  {
  }

  /** When everything succeeds the pull request is opened after the branch,
      the commit and the push, and its address is reported. */
  lemma DeliverSucceeds(modified: seq<string>, message: Outcome<string>, body: Outcome<string>, w: World)
    requires |modified| > 0 && message.Returned? && body.Returned?
    requires w.commit.Returned? && w.push.Returned? && w.pullRequest.Returned?
    ensures Deliver(modified, message, body, w) ==
              Run(Returned(Published(modified, w.pullRequest.value, false)),
                  [CreateBranch(BranchName), Commit(message.value), Push(BranchName),
                   OpenPullRequest(PrTitle, body.value, BranchName, BaseBranch)])
  {
  }

  /** A failed push is reported with the number of files modified locally,
      and no pull request is opened. */
  lemma DeliverPushFails(modified: seq<string>, message: Outcome<string>, body: Outcome<string>, w: World)
    requires |modified| > 0 && message.Returned? && w.commit.Returned? && w.push.Raised?
    ensures Deliver(modified, message, body, w) ==
              Run(Returned(PushFailed(w.push.message, |modified|)),
                  [CreateBranch(BranchName), Commit(message.value), Push(BranchName)])
  {
  }

  /** A pull request description that cannot be generated is reported like
      a failed push: the changes were pushed but nothing is opened. */
  lemma DeliverDescriptionFails(modified: seq<string>, message: Outcome<string>, body: Outcome<string>, w: World)
    requires |modified| > 0 && message.Returned? && w.commit.Returned? && w.push.Returned? && body.Raised?
    ensures Deliver(modified, message, body, w) ==
              Run(Returned(PushFailed(body.message, |modified|)),
                  [CreateBranch(BranchName), Commit(message.value), Push(BranchName)])
  {
  }

  /** A failed commit, or a commit message that cannot be generated,
      escapes `execute`; nothing is pushed. */
  lemma DeliverCommitFails(modified: seq<string>, message: Outcome<string>, body: Outcome<string>, w: World)
    requires |modified| > 0 && (message.Raised? || w.commit.Raised?)
    ensures Deliver(modified, message, body, w).outcome.Raised?
    ensures Deliver(modified, message, body, w).outcome.message ==
              if message.Raised? then message.message else w.commit.message
    ensures Push(BranchName) !in Deliver(modified, message, body, w).actions
  {
  }

  /** A failure to open the pull request is reported as success without an
      address. */
  lemma DeliverPullRequestFails(modified: seq<string>, message: Outcome<string>, body: Outcome<string>, w: World)
    requires |modified| > 0 && message.Returned? && body.Returned?
    requires w.commit.Returned? && w.push.Returned? && w.pullRequest.Raised?
    ensures Deliver(modified, message, body, w).outcome == Returned(Published(modified, None, true))
  {
  }

  /** `execute`. */
  method Execute(critiques: seq<Critique>, files: SourceFiles, w: World) returns (run: Run)
    ensures run == Publish(critiques, files, w)
  {
    var approved := ApprovedOf(critiques);
    if |approved| == 0 {
      return Run(Returned(NothingApproved), []);
    }
    var organized := OrganizeFixesByFile(approved);
    if organized.Raised? {
      return Run(Raised(organized.message), []);
    }
    var modified := ApplyFixesToFiles(organized.value, files, w.backupOk);
    run := PushChanges(approved, modified, w);
  }

  /** The repository steps of `execute`. */
  method PushChanges(approved: seq<Critique>, modified: seq<string>, w: World) returns (run: Run)
    ensures run == Deliver(modified, CommitMessage(approved), PrDescription(approved), w)
  {
    if |modified| == 0 {
      return Run(Returned(NothingModified), []);
    }
    var message := GenerateCommitMessage(approved);
    if message.Raised? {
      return Run(Raised(message.message), [CreateBranch(BranchName)]);
    }
    if w.commit.Raised? {
      return Run(Raised(w.commit.message), [CreateBranch(BranchName), Commit(message.value)]);
    }
    var pushed := [CreateBranch(BranchName), Commit(message.value), Push(BranchName)];
    if w.push.Raised? {
      return Run(Returned(PushFailed(w.push.message, |modified|)), pushed);
    }
    var body := GeneratePrDescription(approved);
    if body.Raised? {
      return Run(Returned(PushFailed(body.message, |modified|)), pushed);
    }
    var requested := pushed + [OpenPullRequest(PrTitle, body.value, BranchName, BaseBranch)];
    match w.pullRequest
    case Raised(_) =>
      run := Run(Returned(Published(modified, None, true)), requested);
    case Returned(url) =>
      run := Run(Returned(Published(modified, url, false)), requested);
  }
}
