/** The LangGraph workflow of `code.py`: seven stages that each update one
    shared state dictionary, catch their own exceptions, and are wired by a
    fixed edge list plus one conditional edge from the critique back to the
    delegation. The graph runtime is an explicit transition function run
    for a number of steps (`fuel`), since the graph itself has no bound. */
module Workflow {
  import opened Wrappers
  import opened Json
  import opened ODict
  import opened Seqs
  import opened Oracles
  import RepoScan
  import Analyzer
  import Locator
  import Manager
  import Critic
  import Publisher

  // ---------------------------------------------------------------------
  // The graph

  /** The seven nodes added with `add_node`. */
  datatype Stage =
    | CloneRepo
    | AnalyzeAccessibility
    | LocateIssues
    | DelegateFixes
    | CritiqueSolutions
    | ApplyAndPush
    | GenerateReports

  /** A place in the graph: a stage, or `END`. */
  datatype Node = At(stage: Stage) | End

  /** `set_entry_point("clone_repo")`. */
  const Entry: Stage := CloneRepo

  /** The node name, which is also what the stage writes to `current_step`. */
  function StepName(st: Stage): string {
    match st
    case CloneRepo => "clone_repo"
    case AnalyzeAccessibility => "analyze_accessibility"
    case LocateIssues => "locate_issues"
    case DelegateFixes => "delegate_fixes"
    case CritiqueSolutions => "critique_solutions"
    case ApplyAndPush => "apply_and_push"
    case GenerateReports => "generate_reports"
  }

  /** The prefix of the error each stage records when it catches an
      exception. */
  function ErrorPrefix(st: Stage): string {
    match st
    case CloneRepo => "Clone error: "
    case AnalyzeAccessibility => "Analysis error: "
    case LocateIssues => "Location error: "
    case DelegateFixes => "Delegation error: "
    case CritiqueSolutions => "Critique error: "
    case ApplyAndPush => "GitHub error: "
    case GenerateReports => "Report error: "
  }

  /** The two answers of `decide_if_fixed`. */
  datatype Verdict = Proceed | Retry

  /** The edges of the graph as declared: the `add_edge` pairs and both
      branches of the conditional edge out of the critique. */
  const Edges: set<(Node, Node)> := {
    (At(CloneRepo), At(AnalyzeAccessibility)),
    (At(AnalyzeAccessibility), At(LocateIssues)),
    (At(LocateIssues), At(DelegateFixes)),
    (At(DelegateFixes), At(CritiqueSolutions)),
    (At(CritiqueSolutions), At(DelegateFixes)),
    (At(CritiqueSolutions), At(ApplyAndPush)),
    (At(ApplyAndPush), At(GenerateReports)),
    (At(GenerateReports), End)
  }

  /** Where the runtime goes after a stage; only the critique consults the
      verdict ("retry" loops back to the delegation). */
  function Successor(st: Stage, v: Verdict): Node {
    match st
    case CloneRepo => At(AnalyzeAccessibility)
    case AnalyzeAccessibility => At(LocateIssues)
    case LocateIssues => At(DelegateFixes)
    case DelegateFixes => At(CritiqueSolutions)
    case CritiqueSolutions => if v == Proceed then At(ApplyAndPush) else At(DelegateFixes)
    case ApplyAndPush => At(GenerateReports)
    case GenerateReports => End
  }

  /** Every transition follows a declared edge, every declared edge is some
      transition, and the critique is the only stage whose successor depends
      on the verdict. */
  lemma EdgesExactly()
    ensures forall st: Stage, v: Verdict :: (At(st), Successor(st, v)) in Edges
    ensures forall e | e in Edges :: e.0.At? && (e.1 == Successor(e.0.stage, Proceed) || e.1 == Successor(e.0.stage, Retry))
    ensures forall st: Stage :: Successor(st, Proceed) != Successor(st, Retry) <==> st == CritiqueSolutions
  {
  }

  // ---------------------------------------------------------------------
  // The shared state

  /** `github_result`: the agent's result dictionary, or the
      `{'success': False, 'error': ...}` written when it raised. */
  datatype GitHubResult = Delivered(publication: Publisher.Publication) | GitHubFailed(error: string)

  /** The state dictionary. A key the caller did not supply and no stage
      has written yet is `None`; reading it with `state[key]` raises
      `KeyError`. A missing `errors` reads as `[]` everywhere, so it is a
      plain list. `satisfied` is the `is_satisfactory` key that
      `decide_if_fixed` looks up; `AgentState` does not declare it. */
  datatype Snapshot = Snapshot(
    repoUrl: Option<string>,
    repoName: Option<string>,
    repoPath: Option<string>,
    sourceFiles: Option<RepoScan.SourceFiles>,
    issues: Option<seq<Record>>,
    enrichedIssues: Option<seq<Record>>,
    fixes: Option<seq<Manager.FixAttempt>>,
    critiques: Option<seq<Critic.Critique>>,
    githubResult: Option<GitHubResult>,
    reports: Option<map<string, string>>,
    currentStep: Option<string>,
    errors: seq<string>,
    satisfied: Option<bool>)

  /** The state a caller starts the graph with: the repository's URL and
      name. */
  function Initial(url: string, name: string): Snapshot {
    Snapshot(Some(url), Some(name), None, None, None, None, None, None, None, None, None, [], None)
  }

  /** `state.get('issues', [])`. */
  function IssuesOr(s: Snapshot): seq<Record> {
    if s.issues.Some? then s.issues.value else []
  }

  /** `state.get('critiques', [])`. */
  function CritiquesOr(s: Snapshot): seq<Critic.Critique> {
    if s.critiques.Some? then s.critiques.value else []
  }

  // ---------------------------------------------------------------------
  // The world outside the graph

  /** The report generator's three writers; each returns the path it wrote
      or raises. The paths are stamped with the clock, so they are given. */
  datatype Reporter = Reporter(
    accessibility: (seq<Record>, string) -> Outcome<string>,
    fixes: (FixesInfo, string) -> Outcome<string>,
    critiques: (seq<Critic.Critique>, string) -> Outcome<string>)

  /** The agents and the repository scan as the stages call them. Each
      agent also takes the number of the step it runs in, which selects the
      language model's answers for that step, so a retried stage may be
      answered differently. */
  datatype Agents = Agents(
    scan: seq<RepoScan.Node> -> RepoScan.SourceFiles,
    analyze: (nat, RepoScan.SourceFiles) -> Outcome<seq<Record>>,
    locate: (nat, seq<Record>, RepoScan.SourceFiles) -> Outcome<seq<Record>>,
    delegate: (nat, seq<Record>) -> Outcome<seq<Manager.FixAttempt>>,
    review: (nat, seq<Manager.FixAttempt>) -> Outcome<Critic.Review>,
    publish: (seq<Critic.Critique>, RepoScan.SourceFiles) -> Outcome<Publisher.Publication>)

  /** The issues of an analysis. */
  function IssuesFound(r: Outcome<Analyzer.Analysis>): Outcome<seq<Record>> {
    match r
    case Raised(m) => Raised(m)
    case Returned(a) => Returned(a.issues)
  }

  /** The fix records of a delegation. */
  function FixesMade(r: Outcome<Manager.Delegation>): Outcome<seq<Manager.FixAttempt>> {
    match r
    case Raised(m) => Raised(m)
    case Returned(d) => Returned(d.fixes)
  }

  /** The agents of the repository: `get_source_files` with its default
      extensions, and each agent's `execute`, consulting the language model
      through `answers` and the repository through `w`. */
  function Wired(answers: nat -> Answers, w: Publisher.World): Agents {
    Agents(
      (root: seq<RepoScan.Node>) => RepoScan.SourceFilesOf(root, RepoScan.DefaultExtensions),
      (k: nat, files: RepoScan.SourceFiles) => IssuesFound(Analyzer.AnalysisOf(answers(k), files)),
      (k: nat, issues: seq<Record>, files: RepoScan.SourceFiles) => Locator.LocatedOf(answers(k), issues, files),
      (k: nat, issues: seq<Record>) => FixesMade(Manager.Delegated(answers(k), issues)),
      (k: nat, fixes: seq<Manager.FixAttempt>) => Critic.ReviewOf(answers(k), fixes),
      (cs: seq<Critic.Critique>, files: RepoScan.SourceFiles) => Publisher.Publish(cs, files, w).outcome)
  }

  /** Everything the stages consult: cloning a URL (the path of the clone
      and the directory tree found there), the agents, and the report
      writers. */
  datatype Env = Env(
    clone: string -> Outcome<(string, seq<RepoScan.Node>)>,
    agents: Agents,
    reporter: Reporter)

  /** `str(KeyError(key))`. */
  function KeyErrorText(key: string): string {
    "'" + key + "'"
  }

  /** The text `clone_repository` puts before the reason a clone failed. */
  const CloneFailedPrefix: string := "Failed to clone repository: "

  /** A stage's `except` branch before its default is written: one error
      with the stage's prefix is appended. */
  function Failed(s: Snapshot, st: Stage, m: string): Snapshot {
    s.(errors := s.errors + [ErrorPrefix(st) + m])
  }

  /** The message of an exception, if one was raised. */
  function ErrorOf<T>(r: Outcome<T>): Option<string> {
    if r.Raised? then Some(r.message) else None
  }

  // ---------------------------------------------------------------------
  // The try blocks of the stages

  /** Stage 1: the clone's path and the source files found in it. */
  function Cloned(env: Env, s: Snapshot): Outcome<(string, RepoScan.SourceFiles)> {
    if s.repoUrl.None? then Raised(KeyErrorText("repo_url"))
    else
      match env.clone(s.repoUrl.value)
      case Raised(m) => Raised(CloneFailedPrefix + m)
      case Returned(c) => Returned((c.0, env.agents.scan(c.1)))
  }

  /** Stage 2: the issues the analyzer found. */
  function Analyzed(a: Agents, k: nat, s: Snapshot): Outcome<seq<Record>> {
    if s.sourceFiles.None? then Raised(KeyErrorText("source_files"))
    else a.analyze(k, s.sourceFiles.value)
  }

  /** Stage 3: the located issues. */
  function Located(a: Agents, k: nat, s: Snapshot): Outcome<seq<Record>> {
    if s.issues.None? then Raised(KeyErrorText("issues"))
    else if s.sourceFiles.None? then Raised(KeyErrorText("source_files"))
    else a.locate(k, s.issues.value, s.sourceFiles.value)
  }

  /** Stage 4: the fix records; the source files are looked up although
      the manager never reads them. */
  function Delegated(a: Agents, k: nat, s: Snapshot): Outcome<seq<Manager.FixAttempt>> {
    if s.enrichedIssues.None? then Raised(KeyErrorText("enriched_issues"))
    else if s.sourceFiles.None? then Raised(KeyErrorText("source_files"))
    else a.delegate(k, s.enrichedIssues.value)
  }

  /** Stage 5: the critic's review. */
  function Reviewed(a: Agents, k: nat, s: Snapshot): Outcome<Critic.Review> {
    if s.fixes.None? then Raised(KeyErrorText("fixes"))
    else a.review(k, s.fixes.value)
  }

  /** Stage 6: the GitHub agent's result; the input dictionary is built in
      the order critiques, repo_path, repo_name, source_files. */
  function Published(a: Agents, s: Snapshot): Outcome<Publisher.Publication> {
    if s.critiques.None? then Raised(KeyErrorText("critiques"))
    else if s.repoPath.None? then Raised(KeyErrorText("repo_path"))
    else if s.repoName.None? then Raised(KeyErrorText("repo_name"))
    else if s.sourceFiles.None? then Raised(KeyErrorText("source_files"))
    else a.publish(s.critiques.value, s.sourceFiles.value)
  }

  /** The names under which stage 7 records the three report paths. */
  const ReportKeys: set<string> := {"accessibility", "fixes", "critiques"}

  /** Stage 7: the accessibility report, then the fix report over the
      grouped approvals, then the critique report. */
  function Reported(rep: Reporter, s: Snapshot): Outcome<map<string, string>> {
    if s.issues.None? then Raised(KeyErrorText("issues"))
    else if s.repoName.None? then Raised(KeyErrorText("repo_name"))
    else
      var name := s.repoName.value;
      match rep.accessibility(s.issues.value, name)
      case Raised(m) => Raised(m)
      case Returned(a) =>
        match FixesInfoOf(CritiquesOr(s))
        case Raised(m) => Raised(m)
        case Returned(info) =>
          match rep.fixes(info, name)
          case Raised(m) => Raised(m)
          case Returned(f) =>
            match rep.critiques(CritiquesOr(s), name)
            case Raised(m) => Raised(m)
            case Returned(c) => Returned(map["accessibility" := a, "fixes" := f, "critiques" := c])
  }

  /** The report paths are recorded under exactly three keys, each holding
      what its writer returned. */
  lemma ReportsNameThreeFiles(rep: Reporter, s: Snapshot)
    requires Reported(rep, s).Returned?
    ensures s.issues.Some? && s.repoName.Some?
    ensures Reported(rep, s).value.Keys == ReportKeys
    ensures rep.accessibility(s.issues.value, s.repoName.value) == Returned(Reported(rep, s).value["accessibility"])
    ensures FixesInfoOf(CritiquesOr(s)).Returned? &&
            rep.fixes(FixesInfoOf(CritiquesOr(s)).value, s.repoName.value) == Returned(Reported(rep, s).value["fixes"])
    ensures rep.critiques(CritiquesOr(s), s.repoName.value) == Returned(Reported(rep, s).value["critiques"])
  {
  }

  // ---------------------------------------------------------------------
  // The stages

  /** The stage functions as the repository has them, or with the critique
      also recording the critic's `is_satisfactory` in the state. */
  datatype Build = AsWritten | Intended

  function CloneStage(env: Env, s: Snapshot): Snapshot {
    match Cloned(env, s)
    case Raised(m) => Failed(s, CloneRepo, m)
    case Returned(c) => s.(repoPath := Some(c.0), sourceFiles := Some(c.1), currentStep := Some(StepName(CloneRepo)))
  }

  function AnalyzeStage(a: Agents, k: nat, s: Snapshot): Snapshot {
    match Analyzed(a, k, s)
    case Raised(m) => Failed(s, AnalyzeAccessibility, m).(issues := Some([]))
    case Returned(issues) => s.(issues := Some(issues), currentStep := Some(StepName(AnalyzeAccessibility)))
  }

  function LocateStage(a: Agents, k: nat, s: Snapshot): Snapshot {
    match Located(a, k, s)
    case Raised(m) => Failed(s, LocateIssues, m).(enrichedIssues := Some(IssuesOr(s)))
    case Returned(e) => s.(enrichedIssues := Some(e), currentStep := Some(StepName(LocateIssues)))
  }

  function DelegateStage(a: Agents, k: nat, s: Snapshot): Snapshot {
    match Delegated(a, k, s)
    case Raised(m) => Failed(s, DelegateFixes, m).(fixes := Some([]))
    case Returned(fs) => s.(fixes := Some(fs), currentStep := Some(StepName(DelegateFixes)))
  }

  /** As written, the critique stores only the critiques. The intended
      build also stores the critic's verdict, and a failed critique, whose
      empty critique list is never satisfactory, stores `False`. */
  function CritiqueStage(b: Build, a: Agents, k: nat, s: Snapshot): Snapshot {
    match Reviewed(a, k, s)
    case Raised(m) =>
      var t := Failed(s, CritiqueSolutions, m).(critiques := Some([]));
      if b == Intended then t.(satisfied := Some(false)) else t
    case Returned(r) =>
      var t := s.(critiques := Some(r.critiques), currentStep := Some(StepName(CritiqueSolutions)));
      if b == Intended then t.(satisfied := Some(r.isSatisfactory)) else t
  }

  function ApplyStage(a: Agents, s: Snapshot): Snapshot {
    match Published(a, s)
    case Raised(m) => Failed(s, ApplyAndPush, m).(githubResult := Some(GitHubFailed(m)))
    case Returned(p) => s.(githubResult := Some(Delivered(p)), currentStep := Some(StepName(ApplyAndPush)))
  }

  function ReportStage(rep: Reporter, s: Snapshot): Snapshot {
    match Reported(rep, s)
    case Raised(m) => Failed(s, GenerateReports, m)
    case Returned(r) => s.(reports := Some(r), currentStep := Some(StepName(GenerateReports)))
  }

  /** The node function of `st`, run as the `k`-th step. */
  function StepAt(env: Env, b: Build, k: nat, st: Stage, s: Snapshot): Snapshot {
    match st
    case CloneRepo => CloneStage(env, s)
    case AnalyzeAccessibility => AnalyzeStage(env.agents, k, s)
    case LocateIssues => LocateStage(env.agents, k, s)
    case DelegateFixes => DelegateStage(env.agents, k, s)
    case CritiqueSolutions => CritiqueStage(b, env.agents, k, s)
    case ApplyAndPush => ApplyStage(env.agents, s)
    case GenerateReports => ReportStage(env.reporter, s)
  }

  /** The exception the `k`-th step's try block raises, if any. */
  function StageError(env: Env, k: nat, st: Stage, s: Snapshot): Option<string> {
    match st
    case CloneRepo => ErrorOf(Cloned(env, s))
    case AnalyzeAccessibility => ErrorOf(Analyzed(env.agents, k, s))
    case LocateIssues => ErrorOf(Located(env.agents, k, s))
    case DelegateFixes => ErrorOf(Delegated(env.agents, k, s))
    case CritiqueSolutions => ErrorOf(Reviewed(env.agents, k, s))
    case ApplyAndPush => ErrorOf(Published(env.agents, s))
    case GenerateReports => ErrorOf(Reported(env.reporter, s))
  }

  /** What a failing stage writes besides its error: its default output
      (none for the clone and the reports), and nothing else. */
  predicate FailureDefault(st: Stage, s: Snapshot, t: Snapshot, m: string) {
    var u := t.(errors := s.errors, satisfied := s.satisfied);
    match st
    case CloneRepo => u == s
    case AnalyzeAccessibility => u == s.(issues := Some([]))
    case LocateIssues => u == s.(enrichedIssues := Some(IssuesOr(s)))
    case DelegateFixes => u == s.(fixes := Some([]))
    case CritiqueSolutions => u == s.(critiques := Some([]))
    case ApplyAndPush => u == s.(githubResult := Some(GitHubFailed(m)))
    case GenerateReports => u == s
  }

  /** What a succeeding stage writes besides `current_step`: its own
      output keys, each now present, and nothing else; only the critique
      may also write `is_satisfactory`. */
  predicate SuccessWrites(st: Stage, s: Snapshot, t: Snapshot) {
    var u := t.(currentStep := s.currentStep);
    match st
    case CloneRepo =>
      t.repoPath.Some? && t.sourceFiles.Some? && u == s.(repoPath := t.repoPath, sourceFiles := t.sourceFiles)
    case AnalyzeAccessibility => t.issues.Some? && u == s.(issues := t.issues)
    case LocateIssues => t.enrichedIssues.Some? && u == s.(enrichedIssues := t.enrichedIssues)
    case DelegateFixes => t.fixes.Some? && u == s.(fixes := t.fixes)
    case CritiqueSolutions => t.critiques.Some? && u == s.(critiques := t.critiques, satisfied := t.satisfied)
    case ApplyAndPush => t.githubResult.Some? && t.githubResult.value.Delivered? && u == s.(githubResult := t.githubResult)
    case GenerateReports => t.reports.Some? && u == s.(reports := t.reports)
  }

  /** What a stage did to the bookkeeping, given the exception its try
      block raised, if any: without one, no error is recorded,
      `current_step` becomes the stage's name and only the stage's output
      is written; with one, exactly one error is appended, its prefix
      followed by the exception's text, the earlier errors and
      `current_step` stay, and the stage's default is written. */
  predicate Bookkept(st: Stage, s: Snapshot, t: Snapshot, err: Option<string>) {
    if err.None? then t.errors == s.errors && t.currentStep == Some(StepName(st)) && SuccessWrites(st, s, t)
    else
      t.errors == s.errors + [ErrorPrefix(st) + err.value] && t.currentStep == s.currentStep &&
      FailureDefault(st, s, t, err.value)
  }

  lemma CloneBookkeeping(env: Env, s: Snapshot)
    ensures Bookkept(CloneRepo, s, CloneStage(env, s), ErrorOf(Cloned(env, s)))
    ensures Cloned(env, s).Returned? ==>
              CloneStage(env, s).repoPath == Some(Cloned(env, s).value.0) &&
              CloneStage(env, s).sourceFiles == Some(Cloned(env, s).value.1)
  {
  }

  lemma AnalyzeBookkeeping(a: Agents, k: nat, s: Snapshot)
    ensures Bookkept(AnalyzeAccessibility, s, AnalyzeStage(a, k, s), ErrorOf(Analyzed(a, k, s)))
    ensures Analyzed(a, k, s).Returned? ==> AnalyzeStage(a, k, s).issues == Some(Analyzed(a, k, s).value)
  {
  }

  lemma LocateBookkeeping(a: Agents, k: nat, s: Snapshot)
    ensures Bookkept(LocateIssues, s, LocateStage(a, k, s), ErrorOf(Located(a, k, s)))
    ensures Located(a, k, s).Returned? ==> LocateStage(a, k, s).enrichedIssues == Some(Located(a, k, s).value)
  {
  }

  lemma DelegateBookkeeping(a: Agents, k: nat, s: Snapshot)
    ensures Bookkept(DelegateFixes, s, DelegateStage(a, k, s), ErrorOf(Delegated(a, k, s)))
    ensures Delegated(a, k, s).Returned? ==> DelegateStage(a, k, s).fixes == Some(Delegated(a, k, s).value)
  {
  }

  lemma CritiqueBookkeeping(b: Build, a: Agents, k: nat, s: Snapshot)
    ensures Bookkept(CritiqueSolutions, s, CritiqueStage(b, a, k, s), ErrorOf(Reviewed(a, k, s)))
    ensures Reviewed(a, k, s).Returned? ==>
              CritiqueStage(b, a, k, s).critiques == Some(Reviewed(a, k, s).value.critiques) &&
              CritiqueStage(b, a, k, s).satisfied ==
                (if b == Intended then Some(Reviewed(a, k, s).value.isSatisfactory) else s.satisfied)
  {
  }

  lemma ApplyBookkeeping(a: Agents, s: Snapshot)
    ensures Bookkept(ApplyAndPush, s, ApplyStage(a, s), ErrorOf(Published(a, s)))
    ensures Published(a, s).Returned? ==> ApplyStage(a, s).githubResult == Some(Delivered(Published(a, s).value))
  {
  }

  lemma ReportBookkeeping(rep: Reporter, s: Snapshot)
    ensures Bookkept(GenerateReports, s, ReportStage(rep, s), ErrorOf(Reported(rep, s)))
    ensures Reported(rep, s).Returned? ==> ReportStage(rep, s).reports == Some(Reported(rep, s).value)
  {
  }

  /** Every stage keeps the books the same way (see `Bookkept`). */
  lemma StepBookkeeping(env: Env, b: Build, k: nat, st: Stage, s: Snapshot)
    ensures Bookkept(st, s, StepAt(env, b, k, st, s), StageError(env, k, st, s))
  {
    match st
    case CloneRepo => CloneBookkeeping(env, s);
    case AnalyzeAccessibility => AnalyzeBookkeeping(env.agents, k, s);
    case LocateIssues => LocateBookkeeping(env.agents, k, s);
    case DelegateFixes => DelegateBookkeeping(env.agents, k, s);
    case CritiqueSolutions => CritiqueBookkeeping(b, env.agents, k, s);
    case ApplyAndPush => ApplyBookkeeping(env.agents, s);
    case GenerateReports => ReportBookkeeping(env.reporter, s);
  }

  /** As written, no stage touches the `is_satisfactory` key. */
  lemma AsWrittenKeepsGate(env: Env, k: nat, st: Stage, s: Snapshot)
    ensures StepAt(env, AsWritten, k, st, s).satisfied == s.satisfied
  {
    match st
    case CritiqueSolutions =>
      assert CritiqueStage(AsWritten, env.agents, k, s).satisfied == s.satisfied;
    case _ =>
  }

  // ---------------------------------------------------------------------
  // Running the graph

  /** `decide_if_fixed`: proceed exactly when `is_satisfactory` is present
      and true. */
  function DecideIfFixed(s: Snapshot): Verdict {
    if s.satisfied == Some(true) then Proceed else Retry
  }

  /** The node after `st`, given the state `st` produced. */
  function Next(st: Stage, s: Snapshot): Node {
    Successor(st, DecideIfFixed(s))
  }

  /** The node functions, run as the `k`-th step of a run. */
  type Steps = (nat, Stage, Snapshot) -> Snapshot

  function StepsOf(env: Env, b: Build): Steps {
    (k: nat, st: Stage, s: Snapshot) => StepAt(env, b, k, st, s)
  }

  /** Where a run stops, the state it leaves and the stages it ran. */
  datatype Journey = Journey(node: Node, state: Snapshot, visited: seq<Stage>)

  function Prefixed(p: seq<Stage>, j: Journey): Journey {
    j.(visited := p + j.visited)
  }

  /** At most `fuel` steps of the graph from `node`, the next step being the
      `k`-th. */
  function Run(step: Steps, node: Node, s: Snapshot, k: nat, fuel: nat): Journey
    decreases fuel
  {
    if fuel == 0 || node.End? then Journey(node, s, [])
    else
      var t := step(k, node.stage, s);
      Prefixed([node.stage], Run(step, Next(node.stage, t), t, k + 1, fuel - 1))
  }

  lemma PrefixedTwice(p: seq<Stage>, q: seq<Stage>, j: Journey)
    ensures Prefixed(p, Prefixed(q, j)) == Prefixed(p + q, j)
  {
    ConcatAssoc(p, q, j.visited);
  }

  /** A run takes one step per unit of fuel until it reaches `END`; it
      starts at its first node and moves only along declared edges. */
  lemma {:induction false} RunFollowsEdges(step: Steps, node: Node, s: Snapshot, k: nat, fuel: nat)
    ensures var j := Run(step, node, s, k, fuel);
            |j.visited| <= fuel && (j.node.End? || |j.visited| == fuel) &&
            (|j.visited| > 0 ==> node == At(j.visited[0])) &&
            forall i :: 0 <= i < |j.visited| - 1 ==> (At(j.visited[i]), At(j.visited[i + 1])) in Edges
    decreases fuel
  {
    if fuel > 0 && node.At? {
      var t := step(k, node.stage, s);
      var rest := Run(step, Next(node.stage, t), t, k + 1, fuel - 1);
      RunFollowsEdges(step, Next(node.stage, t), t, k + 1, fuel - 1);
      EdgesExactly();
      var vs := [node.stage] + rest.visited;
      assert Run(step, node, s, k, fuel).visited == vs;
      forall i | 0 <= i < |vs| - 1
        ensures (At(vs[i]), At(vs[i + 1])) in Edges
      {
        if i == 0 {
          assert (At(node.stage), Successor(node.stage, DecideIfFixed(t))) in Edges;
        } else {
          assert vs[i] == rest.visited[i - 1] && vs[i + 1] == rest.visited[i];
        }
      }
    }
  }

  /** `t` keeps the errors of `s` in place and adds at most one. */
  predicate AppendsAtMostOne(s: Snapshot, t: Snapshot) {
    |s.errors| <= |t.errors| <= |s.errors| + 1 && t.errors[..|s.errors|] == s.errors
  }

  /** A run whose every step appends at most one error keeps the errors it
      started with, in place, and adds at most one per stage run. */
  lemma {:induction false} ErrorsAccumulate(step: Steps, node: Node, s: Snapshot, k: nat, fuel: nat)
    requires forall k': nat, st: Stage, s': Snapshot :: AppendsAtMostOne(s', step(k', st, s'))
    ensures var j := Run(step, node, s, k, fuel);
            |s.errors| <= |j.state.errors| <= |s.errors| + |j.visited| &&
            j.state.errors[..|s.errors|] == s.errors
    decreases fuel
  {
    if fuel > 0 && node.At? {
      var t := step(k, node.stage, s);
      assert AppendsAtMostOne(s, t);
      ErrorsAccumulate(step, Next(node.stage, t), t, k + 1, fuel - 1);
      var e := Run(step, Next(node.stage, t), t, k + 1, fuel - 1).state.errors;
      assert e[..|t.errors|] == t.errors;
      assert t.errors[..|s.errors|] == s.errors;
      assert e[..|s.errors|] == e[..|t.errors|][..|s.errors|];
    }
  }

  /** Errors are only ever appended: a run of the graph keeps every error
      it started with, in place, and adds at most one per stage it ran. */
  lemma RunErrorsAppendOnly(env: Env, b: Build, node: Node, s: Snapshot, k: nat, fuel: nat)
    ensures var j := Run(StepsOf(env, b), node, s, k, fuel);
            |s.errors| <= |j.state.errors| <= |s.errors| + |j.visited| &&
            j.state.errors[..|s.errors|] == s.errors
  {
    forall k': nat, st: Stage, s': Snapshot
      ensures AppendsAtMostOne(s', StepsOf(env, b)(k', st, s'))
    {
      StepBookkeeping(env, b, k', st, s');
    }
    ErrorsAccumulate(StepsOf(env, b), node, s, k, fuel);
  }

  /** The first four steps of any run from the entry follow the fixed
      edges, whatever the states. */
  lemma OpeningSteps(step: Steps, s: Snapshot)
    ensures Run(step, At(Entry), s, 0, 4) ==
              Journey(At(CritiqueSolutions),
                      step(3, DelegateFixes, step(2, LocateIssues, step(1, AnalyzeAccessibility, step(0, CloneRepo, s)))),
                      [CloneRepo, AnalyzeAccessibility, LocateIssues, DelegateFixes])
  {
    var s1 := step(0, CloneRepo, s);
    var s2 := step(1, AnalyzeAccessibility, s1);
    var s3 := step(2, LocateIssues, s2);
    var s4 := step(3, DelegateFixes, s3);
    assert Run(step, At(CritiqueSolutions), s4, 4, 0) == Journey(At(CritiqueSolutions), s4, []);
    assert Run(step, At(DelegateFixes), s3, 3, 1) == Journey(At(CritiqueSolutions), s4, [DelegateFixes]);
    assert Run(step, At(LocateIssues), s2, 2, 2) ==
           Journey(At(CritiqueSolutions), s4, [LocateIssues, DelegateFixes]);
    assert Run(step, At(AnalyzeAccessibility), s1, 1, 3) ==
           Journey(At(CritiqueSolutions), s4, [AnalyzeAccessibility, LocateIssues, DelegateFixes]);
  }

  /** When the clone fails, `source_files` is never written, so each of
      the next three stages fails on looking it up, records its own error
      and writes its default; nothing is analyzed and no step completes. */
  lemma CloneFailureCascades(env: Env, b: Build, url: string, name: string)
    requires env.clone(url).Raised?
    ensures var j := Run(StepsOf(env, b), At(Entry), Initial(url, name), 0, 4);
            j.node == At(CritiqueSolutions) &&
            j.visited == [CloneRepo, AnalyzeAccessibility, LocateIssues, DelegateFixes] &&
            j.state.errors == [ErrorPrefix(CloneRepo) + (CloneFailedPrefix + env.clone(url).message),
                               ErrorPrefix(AnalyzeAccessibility) + KeyErrorText("source_files"),
                               ErrorPrefix(LocateIssues) + KeyErrorText("source_files"),
                               ErrorPrefix(DelegateFixes) + KeyErrorText("source_files")] &&
            j.state.issues == Some([]) && j.state.enrichedIssues == Some([]) && j.state.fixes == Some([]) &&
            j.state.currentStep.None?
  {
    var s0 := Initial(url, name);
    var s1 := CloneStage(env, s0);
    assert s1 == Failed(s0, CloneRepo, CloneFailedPrefix + env.clone(url).message);
    var s2 := AnalyzeStage(env.agents, 1, s1);
    assert s2 == Failed(s1, AnalyzeAccessibility, KeyErrorText("source_files")).(issues := Some([]));
    var s3 := LocateStage(env.agents, 2, s2);
    assert s3 == Failed(s2, LocateIssues, KeyErrorText("source_files")).(enrichedIssues := Some([]));
    var s4 := DelegateStage(env.agents, 3, s3);
    assert s4 == Failed(s3, DelegateFixes, KeyErrorText("source_files")).(fixes := Some([]));
    OpeningSteps(StepsOf(env, b), s0);
    assert StepsOf(env, b)(3, DelegateFixes, StepsOf(env, b)(2, LocateIssues,
             StepsOf(env, b)(1, AnalyzeAccessibility, StepsOf(env, b)(0, CloneRepo, s0)))) == s4;
  }

  // ---------------------------------------------------------------------
  // The gate as written, and as intended

  /** The stage at position `p` of the only path a state without
      `is_satisfactory` can take: clone, analyze, locate, then delegate and
      critique for ever. */
  function LoopStage(p: nat): Stage {
    if p == 0 then CloneRepo
    else if p == 1 then AnalyzeAccessibility
    else if p == 2 then LocateIssues
    else if (p - 3) % 2 == 0 then DelegateFixes
    else CritiqueSolutions
  }

  /** Steps that never write `is_satisfactory` keep a run on that path from
      any point of it: it never stops and every critique is followed by
      another delegation. */
  lemma {:induction false} GateClosedLoops(step: Steps, p: nat, s: Snapshot, k: nat, fuel: nat)
    requires s.satisfied.None?
    requires forall k': nat, st: Stage, s': Snapshot :: step(k', st, s').satisfied == s'.satisfied
    ensures var j := Run(step, At(LoopStage(p)), s, k, fuel);
            j.node != End && |j.visited| == fuel &&
            forall i :: 0 <= i < fuel ==> j.visited[i] == LoopStage(p + i)
    decreases fuel
  {
    if fuel > 0 {
      var t := step(k, LoopStage(p), s);
      assert t.satisfied == s.satisfied;
      assert Next(LoopStage(p), t) == At(LoopStage(p + 1));
      GateClosedLoops(step, p + 1, t, k + 1, fuel - 1);
      var rest := Run(step, At(LoopStage(p + 1)), t, k + 1, fuel - 1);
      assert Run(step, At(LoopStage(p)), s, k, fuel).visited == [LoopStage(p)] + rest.visited;
      forall i | 1 <= i < fuel
        ensures ([LoopStage(p)] + rest.visited)[i] == LoopStage(p + i)
      {
        assert rest.visited[i - 1] == LoopStage(p + 1 + (i - 1));
      }
    }
  }

  /** Steps that never write `is_satisfactory`, started at the entry on a
      state without it, never publish. */
  lemma GateClosedNeverPublishes(step: Steps, s: Snapshot, fuel: nat)
    requires s.satisfied.None?
    requires forall k': nat, st: Stage, s': Snapshot :: step(k', st, s').satisfied == s'.satisfied
    ensures var j := Run(step, At(Entry), s, 0, fuel);
            j.node != End && |j.visited| == fuel &&
            (forall i :: 0 <= i < fuel ==> j.visited[i] == LoopStage(i)) &&
            ApplyAndPush !in j.visited && GenerateReports !in j.visited
  {
    GateClosedLoops(step, 0, s, 0, fuel);
    var j := Run(step, At(Entry), s, 0, fuel);
    forall i | 0 <= i < fuel
      ensures j.visited[i] != ApplyAndPush && j.visited[i] != GenerateReports
    {
      assert j.visited[i] == LoopStage(i);
    }
  }

  /** The graph as written never publishes: from the initial state, however
      many steps it is given, it runs clone, analyze and locate once and then
      delegate and critique alternately, never reaching `apply_and_push`,
      `generate_reports` or `END`. */
  lemma AsWrittenNeverPublishes(env: Env, url: string, name: string, fuel: nat)
    ensures var j := Run(StepsOf(env, AsWritten), At(Entry), Initial(url, name), 0, fuel);
            j.node != End && |j.visited| == fuel &&
            (forall i :: 0 <= i < fuel ==> j.visited[i] == LoopStage(i)) &&
            ApplyAndPush !in j.visited && GenerateReports !in j.visited
  {
    forall k': nat, st: Stage, s': Snapshot
      ensures StepsOf(env, AsWritten)(k', st, s').satisfied == s'.satisfied
    {
      AsWrittenKeepsGate(env, k', st, s');
    }
    GateClosedNeverPublishes(StepsOf(env, AsWritten), Initial(url, name), fuel);
  }

  /** With the verdict recorded, the critique leads on to publishing exactly
      when the critic found the review satisfactory, and back to the
      delegation otherwise. */
  lemma IntendedGate(a: Agents, k: nat, s: Snapshot)
    ensures Next(CritiqueSolutions, CritiqueStage(Intended, a, k, s)) ==
              if Reviewed(a, k, s).Returned? && Reviewed(a, k, s).value.isSatisfactory then At(ApplyAndPush)
              else At(DelegateFixes)
  {
  }

  /** A critique step that opens the gate is followed by publishing and
      reporting, and then the graph ends. */
  lemma GateOpenFinishes(step: Steps, s: Snapshot, k: nat, fuel: nat)
    requires fuel >= 3 && step(k, CritiqueSolutions, s).satisfied == Some(true)
    ensures var j := Run(step, At(CritiqueSolutions), s, k, fuel);
            j.node == End && j.visited == [CritiqueSolutions, ApplyAndPush, GenerateReports]
  {
    var t := step(k, CritiqueSolutions, s);
    var u := step(k + 1, ApplyAndPush, t);
    var v := step(k + 2, GenerateReports, u);
    assert Run(step, End, v, k + 3, fuel - 3) == Journey(End, v, []);
    assert Run(step, At(GenerateReports), u, k + 2, fuel - 2) == Journey(End, v, [GenerateReports]);
    assert Run(step, At(ApplyAndPush), t, k + 1, fuel - 1) == Journey(End, v, [ApplyAndPush, GenerateReports]);
  }

  /** A satisfactory review finishes the intended run: publishing and
      reporting follow, and the graph ends. */
  lemma IntendedFinishes(env: Env, s: Snapshot, k: nat, fuel: nat)
    requires fuel >= 3
    requires Reviewed(env.agents, k, s).Returned? && Reviewed(env.agents, k, s).value.isSatisfactory
    ensures var j := Run(StepsOf(env, Intended), At(CritiqueSolutions), s, k, fuel);
            j.node == End && j.visited == [CritiqueSolutions, ApplyAndPush, GenerateReports]
  {
    assert StepsOf(env, Intended)(k, CritiqueSolutions, s).satisfied == Some(true);
    GateOpenFinishes(StepsOf(env, Intended), s, k, fuel);
  }

  // ---------------------------------------------------------------------
  // fixes_info in generate_reports

  /** `{'issues_fixed': [...], 'changes': [...]}` of one file. */
  datatype FixEntry = FixEntry(issuesFixed: seq<Value>, changes: seq<Value>)

  /** `fixes_info`, keyed by `critique.get('file')` (which may be `None`). */
  type FixesInfo = ODict<Value, FixEntry>

  const NoEntry: FixEntry := FixEntry([], [])

  /** `critique.get('issue_description')`. */
  function Described(c: Critic.Critique): Value {
    match Critic.IssueDescription(c)
    case Some(v) => v
    case None => Null
  }

  /** `critique.get('original_fix', {}).get('explanation')`. */
  function ExplanationOf(c: Critic.Critique): Value {
    match Critic.OriginalFix(c)
    case Some(f) => if f.Fixed? then f.explanation else Null
    case None => Null
  }

  /** The body of the loop for an approved critique already keyed. */
  function Recorded(e: FixEntry, c: Critic.Critique): FixEntry {
    FixEntry(e.issuesFixed + [Described(c)],
             e.changes + (if Truthy(ExplanationOf(c)) then [ExplanationOf(c)] else []))
  }

  /** The loop over `state.get('critiques', [])`: the membership test
      raises on the first approved critique whose file is a list or a
      dictionary. */
  function FixesInfoOf(cs: seq<Critic.Critique>): Outcome<FixesInfo>
    decreases |cs|
  {
    if |cs| == 0 then Returned([])
    else
      var c := cs[|cs| - 1];
      match FixesInfoOf(cs[..|cs| - 1])
      case Raised(m) => Raised(m)
      case Returned(info) =>
        if !Critic.IsApproved(c) then Returned(info)
        else if !Hashable(c.file) then Raised(UnhashableMessage)
        else Returned(Put(info, c.file, Recorded(GetOr(info, c.file, NoEntry), c)))
  }

  /** The approved critiques whose file is `k`, in order. */
  function ApprovedFor(cs: seq<Critic.Critique>, k: Value): (r: seq<Critic.Critique>)
    ensures forall i :: 0 <= i < |r| ==> Critic.IsApproved(r[i]) && r[i].file == k && r[i] in cs
    ensures forall i :: 0 <= i < |cs| && Critic.IsApproved(cs[i]) && cs[i].file == k ==> cs[i] in r
    decreases |cs|
  {
    if |cs| == 0 then []
    else
      var init := cs[..|cs| - 1];
      assert forall i :: 0 <= i < |init| ==> init[i] == cs[i];
      var c := cs[|cs| - 1];
      ApprovedFor(init, k) + (if Critic.IsApproved(c) && c.file == k then [c] else [])
  }

  /** The issue descriptions of `xs`, one each. */
  function Descriptions(xs: seq<Critic.Critique>): (r: seq<Value>)
    ensures |r| == |xs| && forall i :: 0 <= i < |xs| ==> r[i] == Described(xs[i])
  {
    seq(|xs|, i requires 0 <= i < |xs| => Described(xs[i]))
  }

  /** The truthy explanations of `xs`, in order. */
  function Changes(xs: seq<Critic.Critique>): (r: seq<Value>)
    ensures |r| <= |xs| && forall i :: 0 <= i < |r| ==> Truthy(r[i])
    decreases |xs|
  {
    if |xs| == 0 then []
    else
      var e := ExplanationOf(xs[|xs| - 1]);
      Changes(xs[..|xs| - 1]) + (if Truthy(e) then [e] else [])
  }

  lemma DescriptionsSnoc(xs: seq<Critic.Critique>, c: Critic.Critique)
    ensures Descriptions(xs + [c]) == Descriptions(xs) + [Described(c)]
  {
  }

  lemma ChangesSnoc(xs: seq<Critic.Critique>, c: Critic.Critique)
    ensures Changes(xs + [c]) == Changes(xs) + (if Truthy(ExplanationOf(c)) then [ExplanationOf(c)] else [])
  {
    assert (xs + [c])[..|xs|] == xs;
  }

  /** The grouping raises exactly when an approved critique names a list or
      a dictionary as its file, and then with the unhashable-type error. */
  lemma {:induction false} FixesInfoRaises(cs: seq<Critic.Critique>)
    ensures FixesInfoOf(cs).Raised? <==>
              exists i :: 0 <= i < |cs| && Critic.IsApproved(cs[i]) && !Hashable(cs[i].file)
    ensures FixesInfoOf(cs).Raised? ==> FixesInfoOf(cs).message == UnhashableMessage
    decreases |cs|
  {
    if |cs| > 0 {
      var init := cs[..|cs| - 1];
      FixesInfoRaises(init);
      assert forall i :: 0 <= i < |init| ==> init[i] == cs[i];
    }
  }

  /** One entry per distinct file of an approved critique (`None`
      included); a file's `issues_fixed` holds the descriptions of exactly
      its approved critiques, in order, so its length is their number, and
      its `changes` holds their truthy explanations. */
  lemma {:induction false} FixesInfoEntries(cs: seq<Critic.Critique>, k: Value)
    requires FixesInfoOf(cs).Returned?
    ensures DistinctKeys(FixesInfoOf(cs).value)
    ensures HasKey(FixesInfoOf(cs).value, k) <==> |ApprovedFor(cs, k)| > 0
    ensures GetOr(FixesInfoOf(cs).value, k, NoEntry) ==
              FixEntry(Descriptions(ApprovedFor(cs, k)), Changes(ApprovedFor(cs, k)))
    decreases |cs|
  {
    if |cs| > 0 {
      var init := cs[..|cs| - 1];
      var c := cs[|cs| - 1];
      assert FixesInfoOf(init).Returned?;
      FixesInfoEntries(init, k);
      var info := FixesInfoOf(init).value;
      var a := ApprovedFor(init, k);
      if Critic.IsApproved(c) {
        var v := Recorded(GetOr(info, c.file, NoEntry), c);
        assert FixesInfoOf(cs).value == Put(info, c.file, v);
        GetPut(info, c.file, v, k);
        DistinctPut(info, c.file, v);
        if c.file == k {
          assert ApprovedFor(cs, k) == a + [c];
          DescriptionsSnoc(a, c);
          ChangesSnoc(a, c);
        } else {
          assert ApprovedFor(cs, k) == a;
        }
      } else {
        assert FixesInfoOf(cs).value == info;
        assert ApprovedFor(cs, k) == a;
      }
    }
  }

  /** The loop that builds `fixes_info`. */
  method CollectFixesInfo(cs: seq<Critic.Critique>) returns (r: Outcome<FixesInfo>)
    ensures r == FixesInfoOf(cs)
  {
    var info: FixesInfo := [];
    var i := 0;
    while i < |cs|
      invariant 0 <= i <= |cs|
      invariant FixesInfoOf(cs[..i]) == Returned(info)
    {
      var c := cs[i];
      assert cs[..i + 1][..i] == cs[..i];
      if Critic.IsApproved(c) {
        if !Hashable(c.file) {
          FixesInfoRaises(cs);
          return Raised(UnhashableMessage);
        }
        info := Put(info, c.file, Recorded(GetOr(info, c.file, NoEntry), c));
      }
      i := i + 1;
    }
    assert cs[..i] == cs;
    r := Returned(info);
  }

  // ---------------------------------------------------------------------
  // The node functions on the shared state

  /** The state dictionary the node functions update in place. */
  class Pipeline {
    var repoUrl: Option<string>
    var repoName: Option<string>
    var repoPath: Option<string>
    var sourceFiles: Option<RepoScan.SourceFiles>
    var issues: Option<seq<Record>>
    var enrichedIssues: Option<seq<Record>>
    var fixes: Option<seq<Manager.FixAttempt>>
    var critiques: Option<seq<Critic.Critique>>
    var githubResult: Option<GitHubResult>
    var reports: Option<map<string, string>>
    var currentStep: Option<string>
    var errors: seq<string>
    var satisfied: Option<bool>
    const build: Build

    function State(): Snapshot
      reads this
    {
      Snapshot(repoUrl, repoName, repoPath, sourceFiles, issues, enrichedIssues, fixes, critiques,
               githubResult, reports, currentStep, errors, satisfied)
    }

    constructor (url: string, name: string, b: Build)
      ensures State() == Initial(url, name) && build == b
    {
      repoUrl, repoName := Some(url), Some(name);
      repoPath, sourceFiles, issues, enrichedIssues := None, None, None, None;
      fixes, critiques, githubResult, reports := None, None, None, None;
      currentStep, errors, satisfied := None, [], None;
      build := b;
    }

    /** `state['errors'] = state.get('errors', []); state['errors'].append(...)`. */
    method RecordError(st: Stage, m: string)
      modifies this
      ensures State() == Failed(old(State()), st, m)
    {
      errors := errors + [ErrorPrefix(st) + m];
    }

    /** `clone_repo`. */
    method CloneRepository(env: Env)
      modifies this
      ensures State() == CloneStage(env, old(State()))
    {
      if repoUrl.None? {
        RecordError(CloneRepo, KeyErrorText("repo_url"));
        return;
      }
      var cloned := env.clone(repoUrl.value);
      if cloned.Raised? {
        RecordError(CloneRepo, CloneFailedPrefix + cloned.message);
        return;
      }
      var files := env.agents.scan(cloned.value.1);
      repoPath := Some(cloned.value.0);
      sourceFiles := Some(files);
      currentStep := Some(StepName(CloneRepo));
    }

    /** `analyze_accessibility`, as the `k`-th step. */
    method AnalyzeCode(env: Env, k: nat)
      modifies this
      ensures State() == AnalyzeStage(env.agents, k, old(State()))
    {
      if sourceFiles.None? {
        RecordError(AnalyzeAccessibility, KeyErrorText("source_files"));
        issues := Some([]);
        return;
      }
      var result := env.agents.analyze(k, sourceFiles.value);
      if result.Raised? {
        RecordError(AnalyzeAccessibility, result.message);
        issues := Some([]);
      } else {
        issues := Some(result.value);
        currentStep := Some(StepName(AnalyzeAccessibility));
      }
    }

    /** `locate_issues`, as the `k`-th step. */
    method LocateInCode(env: Env, k: nat)
      modifies this
      ensures State() == LocateStage(env.agents, k, old(State()))
    {
      var result: Outcome<seq<Record>>;
      if issues.None? {
        result := Raised(KeyErrorText("issues"));
      } else if sourceFiles.None? {
        result := Raised(KeyErrorText("source_files"));
      } else {
        result := env.agents.locate(k, issues.value, sourceFiles.value);
      }
      if result.Raised? {
        RecordError(LocateIssues, result.message);
        enrichedIssues := if issues.Some? then issues else Some([]);
      } else {
        enrichedIssues := Some(result.value);
        currentStep := Some(StepName(LocateIssues));
      }
    }

    /** `delegate_fixes`, as the `k`-th step. */
    method DelegateToExperts(env: Env, k: nat)
      modifies this
      ensures State() == DelegateStage(env.agents, k, old(State()))
    {
      var result: Outcome<seq<Manager.FixAttempt>>;
      if enrichedIssues.None? {
        result := Raised(KeyErrorText("enriched_issues"));
      } else if sourceFiles.None? {
        result := Raised(KeyErrorText("source_files"));
      } else {
        result := env.agents.delegate(k, enrichedIssues.value);
      }
      if result.Raised? {
        RecordError(DelegateFixes, result.message);
        fixes := Some([]);
      } else {
        fixes := Some(result.value);
        currentStep := Some(StepName(DelegateFixes));
      }
    }

    /** `critique_solutions`, as the `k`-th step. */
    method CritiqueFixes(env: Env, k: nat)
      modifies this
      ensures State() == CritiqueStage(build, env.agents, k, old(State()))
    {
      var result: Outcome<Critic.Review>;
      if fixes.None? {
        result := Raised(KeyErrorText("fixes"));
      } else {
        result := env.agents.review(k, fixes.value);
      }
      if result.Raised? {
        RecordError(CritiqueSolutions, result.message);
        critiques := Some([]);
        if build == Intended {
          satisfied := Some(false);
        }
      } else {
        critiques := Some(result.value.critiques);
        currentStep := Some(StepName(CritiqueSolutions));
        if build == Intended {
          satisfied := Some(result.value.isSatisfactory);
        }
      }
    }

    /** `apply_and_push`. */
    method PushFixes(env: Env)
      modifies this
      ensures State() == ApplyStage(env.agents, old(State()))
    {
      var result: Outcome<Publisher.Publication>;
      if critiques.None? {
        result := Raised(KeyErrorText("critiques"));
      } else if repoPath.None? {
        result := Raised(KeyErrorText("repo_path"));
      } else if repoName.None? {
        result := Raised(KeyErrorText("repo_name"));
      } else if sourceFiles.None? {
        result := Raised(KeyErrorText("source_files"));
      } else {
        result := env.agents.publish(critiques.value, sourceFiles.value);
      }
      if result.Raised? {
        RecordError(ApplyAndPush, result.message);
        githubResult := Some(GitHubFailed(result.message));
      } else {
        githubResult := Some(Delivered(result.value));
        currentStep := Some(StepName(ApplyAndPush));
      }
    }

    /** `generate_reports`. */
    method WriteReports(env: Env)
      modifies this
      ensures State() == ReportStage(env.reporter, old(State()))
    {
      var result := ReportPaths(env.reporter);
      if result.Raised? {
        RecordError(GenerateReports, result.message);
      } else {
        reports := Some(result.value);
        currentStep := Some(StepName(GenerateReports));
      }
    }

    /** The try block of `generate_reports`. */
    method ReportPaths(rep: Reporter) returns (r: Outcome<map<string, string>>)
      ensures r == Reported(rep, State())
    {
      if issues.None? {
        return Raised(KeyErrorText("issues"));
      }
      if repoName.None? {
        return Raised(KeyErrorText("repo_name"));
      }
      var accessibility := rep.accessibility(issues.value, repoName.value);
      if accessibility.Raised? {
        return Raised(accessibility.message);
      }
      var reviewed := if critiques.Some? then critiques.value else [];
      var info := CollectFixesInfo(reviewed);
      if info.Raised? {
        return Raised(info.message);
      }
      var fixReport := rep.fixes(info.value, repoName.value);
      if fixReport.Raised? {
        return Raised(fixReport.message);
      }
      var critiqueReport := rep.critiques(reviewed, repoName.value);
      if critiqueReport.Raised? {
        return Raised(critiqueReport.message);
      }
      r := Returned(map["accessibility" := accessibility.value, "fixes" := fixReport.value,
                        "critiques" := critiqueReport.value]);
    }

    /** The node function of `st`, as the `k`-th step. */
    method Perform(env: Env, k: nat, st: Stage)
      modifies this
      ensures State() == StepAt(env, build, k, st, old(State()))
    {
      match st
      case CloneRepo => CloneRepository(env);
      case AnalyzeAccessibility => AnalyzeCode(env, k);
      case LocateIssues => LocateInCode(env, k);
      case DelegateFixes => DelegateToExperts(env, k);
      case CritiqueSolutions => CritiqueFixes(env, k);
      case ApplyAndPush => PushFixes(env);
      case GenerateReports => WriteReports(env);
    }

    /** The compiled graph invoked on this state, for at most `fuel` steps:
        from the entry, run the current node and follow its edge until
        `END`. */
    method Invoke(env: Env, fuel: nat) returns (node: Node, visited: seq<Stage>)
      modifies this
      ensures Journey(node, State(), visited) == Run(StepsOf(env, build), At(Entry), old(State()), 0, fuel)
    {
      ghost var whole := Run(StepsOf(env, build), At(Entry), State(), 0, fuel);
      node := At(Entry);
      visited := [];
      var k: nat := 0;
      while k < fuel && node.At?
        invariant k <= fuel
        invariant whole == Prefixed(visited, Run(StepsOf(env, build), node, State(), k, fuel - k))
        decreases fuel - k
      {
        var st := node.stage;
        ghost var before := State();
        Perform(env, k, st);
        assert StepsOf(env, build)(k, st, before) == State();
        PrefixedTwice(visited, [st], Run(StepsOf(env, build), Next(st, State()), State(), k + 1, fuel - k - 1));
        visited := visited + [st];
        node := Next(st, State());
        k := k + 1;
      }
      assert visited + [] == visited;
    }
  }
}
