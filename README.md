# Accessibility agent pipeline

A Dafny model of the orchestration core of an accessibility-repair system.
The system clones a web project and finds accessibility defects with a
language model. It locates each defect in the code, has one of three
domain experts propose a fix, and has a critic review every fix. The
approved fixes go on a branch with a pull request, and reports are
written at the end.

The seven stages of `code.py` form a LangGraph graph over one shared
state dictionary. Each stage catches its own exception, appends one
prefixed error and writes a default value. A conditional edge,
`decide_if_fixed`, loops from the critique back to the delegation until
the state says the review was satisfactory.

The model is split into one module per component:

- `Workflow` (`workflow.dfy`) covers the graph.
  - The state is a `Snapshot` value, and the node functions are modelled twice.
  - As stage functions on snapshots, they are run by `Run` with a fuel bound.
  - As the `Pipeline` class, they update the state's fields in place; its methods are proved equal to the stage functions.
  - It also holds the edge relation, the gate, and the `fixes_info` grouping of the report stage.
- Each agent has its own module:
  - `Analyzer` for `AccessibilityAnalyzer`;
  - `Locator` for `IssueLocator`;
  - `Experts` for the three domain experts, whose shared result logic is modelled once with a `Persona` tag;
  - `Manager` for `ManagerAgent`;
  - `Critic` for `CriticAgent`;
  - `Publisher` for `GitHubAgent`.
  - Each module with a loop in its source has a specification function and an `Execute` method with the source's loops, proved equal to it. `Experts` has no loop, so its operations are functions only.
- `RepoScan` models `GitHubHandler.get_source_files` as a walk over a directory tree.
- Shared pieces:
  - `Json` holds the dynamic values.
  - `ODict` holds insertion-ordered dictionaries with Python's update rules.
  - `Fence` is the markdown-fence removal that every agent repeats.
  - `Oracles` is the language model seen as an answer function.
  - `Sorting`, `Text`, `Seqs` and `Wrappers` are helpers.

The language model is an `Answers` function from a prompt's substitutions
to a parse outcome. Each graph step gets its own `Answers`, so a retried
stage may be answered differently. Git, GitHub, the clock and the file
system are also given as values:
- `Env.clone` gives the path and tree of a clone.
- `Publisher.World` gives the outcome of each backup, branch, commit, push and pull-request step.
- `Reporter` gives the path each report writer returns.

## Model

| member | source | states |
|---|---|---|
| Workflow.EdgesExactly | code.py:292-309 | every transition is one of the eight declared edges, each declared edge is a transition, and only the critique's successor depends on the verdict (retry → delegate, proceed → apply) |
| Workflow.RunFollowsEdges | code.py:292-309 | a run starts at its first node, moves only along declared edges, and takes one stage per unit of fuel until END |
| Workflow.OpeningSteps | code.py:292-295 | from the entry, the first four steps are clone, analyze, locate, delegate, whatever the states |
| Workflow.StepBookkeeping | code.py:45-271 | every stage either succeeds (no error, `current_step` := its name, only its own output keys written, each present) or appends exactly one error with its own prefix, keeps `current_step` and earlier errors, and writes only its default |
| Workflow.CloneBookkeeping | code.py:51-70 | on success, `repo_path` and `source_files` hold the clone's path and the files found, `current_step` is "clone_repo", and nothing else changes; on failure only "Clone error: " + message is appended |
| Workflow.AnalyzeBookkeeping | code.py:78-96 | on success, `issues` holds the analyzer's issues, `current_step` is set, and nothing else changes; on failure "Analysis error: " is appended and issues is set to [] |
| Workflow.LocateBookkeeping | code.py:104-122 | on success, `enriched_issues` holds the locator's result, `current_step` is set, and nothing else changes; on failure "Location error: " is appended and enriched_issues is set to `state.get('issues', [])` |
| Workflow.DelegateBookkeeping | code.py:130-149 | on success, `fixes` holds the manager's fix records, `current_step` is set, and nothing else changes; on failure "Delegation error: " is appended and fixes is set to [] |
| Workflow.CritiqueBookkeeping | code.py:157-177 | on success, `critiques` holds the critic's critiques, `current_step` is set, and nothing else changes (the intended build also records the verdict); on failure "Critique error: " is appended and critiques is set to [] |
| Workflow.ApplyBookkeeping | code.py:185-212 | on success, `github_result` holds the agent's result, `current_step` is set, and nothing else changes; on failure "GitHub error: " is appended and `{'success': False, 'error': ...}` is recorded |
| Workflow.ReportBookkeeping | code.py:220-271 | on success, `reports` holds the three paths, `current_step` is set, and nothing else changes; on failure only "Report error: " is appended |
| Workflow.RunErrorsAppendOnly | code.py:65-68 | over any run, the errors list keeps its earlier entries in place and grows by at most one per stage run |
| Workflow.CloneFailureCascades | code.py:51-149 | when the clone fails, analyze, locate and delegate each fail with `KeyError('source_files')`, record their own errors and defaults, and no step name is recorded |
| Workflow.ReportsNameThreeFiles | code.py:220-264 | a successful report stage yields exactly the keys accessibility, fixes and critiques, each the path its writer returned for the state's issues, `fixes_info` and critiques |
| Workflow.AsWrittenKeepsGate | code.py:157-177 | as written, no stage changes the `is_satisfactory` key |
| Workflow.GateClosedLoops | code.py:275-304 | steps that never write `is_satisfactory` keep a run on the clone, analyze, locate, (delegate, critique)* path and never stop |
| Workflow.GateClosedNeverPublishes | code.py:275-306 | such a run from the entry never reaches apply_and_push, generate_reports or END |
| Workflow.AsWrittenNeverPublishes | code.py:275-309 | the graph as written, from the initial state, never publishes or ends, for any fuel |
| Workflow.IntendedGate | code.py:275-303 | with the verdict recorded, the critique proceeds to apply_and_push exactly when the review is satisfactory, and retries otherwise |
| Workflow.GateOpenFinishes | code.py:297-306 | a critique step that opens the gate is followed by apply_and_push, generate_reports and END |
| Workflow.IntendedFinishes | code.py:297-306 | in the intended build, a satisfactory review finishes the run: apply, report, END |
| Workflow.ApprovedFor | code.py:229-231 | exactly the approved critiques with a given file, in order |
| Workflow.Descriptions | code.py:237 | one `issue_description` per critique, in order |
| Workflow.Changes | code.py:239-241 | only truthy explanations are kept |
| Workflow.FixesInfoRaises | code.py:229-232 | building `fixes_info` raises exactly when an approved critique's file is a list or dictionary, with the unhashable-type error |
| Workflow.FixesInfoEntries | code.py:228-241 | one entry per distinct file of an approved critique; its `issues_fixed` holds the descriptions of exactly those critiques (so its length is their number), and `changes` holds their truthy explanations |
| Workflow.CollectFixesInfo | code.py:228-241 | the loop computes `FixesInfoOf` |
| Workflow.Pipeline.constructor | code.py:16-30 | the state holds only the repository's URL and name, and no errors |
| Workflow.Pipeline.RecordError | code.py:67-68 | appends one prefixed error, nothing else changes |
| Workflow.Pipeline.CloneRepository | code.py:45-70 | updates the fields as `CloneStage` does |
| Workflow.Pipeline.AnalyzeCode | code.py:72-96 | updates the fields as `AnalyzeStage` does |
| Workflow.Pipeline.LocateInCode | code.py:98-122 | updates the fields as `LocateStage` does |
| Workflow.Pipeline.DelegateToExperts | code.py:124-149 | updates the fields as `DelegateStage` does |
| Workflow.Pipeline.CritiqueFixes | code.py:151-177 | updates the fields as `CritiqueStage` does for the pipeline's build |
| Workflow.Pipeline.PushFixes | code.py:179-212 | updates the fields as `ApplyStage` does |
| Workflow.Pipeline.WriteReports | code.py:214-271 | updates the fields as `ReportStage` does |
| Workflow.Pipeline.ReportPaths | code.py:220-263 | the three writer calls in order, each aborting on failure |
| Workflow.Pipeline.Perform | code.py:283-289 | the node function of a stage changes the state as that stage's step function does |
| Workflow.Pipeline.Invoke | code.py:280-309 | the graph loop visits the stages `Run` visits and leaves the state `Run` computes |
| Analyzer.FileIssues | agents/accessibility_analyzer.py:92-121 | every issue of a file has `file` set to that file's path; a failed request or parse yields [] |
| Analyzer.Tagged | agents/accessibility_analyzer.py:111-112 | one issue per parsed entry, each with `file` overwritten |
| Analyzer.FileIssuesSeeOnlyPrefix | agents/accessibility_analyzer.py:96 | only the first 8000 characters of a file influence its issues |
| Analyzer.AnalyzeFile | agents/accessibility_analyzer.py:50-121 | the method computes `FileIssues` |
| Analyzer.Found | agents/accessibility_analyzer.py:33-39 | a blank file contributes nothing; issues carry the file's path |
| Analyzer.IssuesOfSnoc | agents/accessibility_analyzer.py:33-39 | one more file appends exactly its own issues |
| Analyzer.IssuesOfAppend | agents/accessibility_analyzer.py:33-39 | files are analysed in isolation: the issues of a concatenation are the concatenation of the issues |
| Analyzer.IssuesNameAnalyzedFiles | agents/accessibility_analyzer.py:33-39 | every issue comes from a non-blank input file and names its path |
| Analyzer.FieldValues | agents/accessibility_analyzer.py:133-146 | the severity or the category of each issue, in order, "Unknown" when missing |
| Analyzer.SeverityRowsSound | agents/accessibility_analyzer.py:138-141 | every severity line names a listed severity with its positive count |
| Analyzer.SeverityRowsComplete | agents/accessibility_analyzer.py:138-141 | every listed severity with a positive count has a line |
| Analyzer.SeverityRowsExact | agents/accessibility_analyzer.py:138-141 | a line appears exactly for each listed severity with a positive count |
| Analyzer.SeverityRowsRanked | agents/accessibility_analyzer.py:138-141 | lines keep the order of the listing |
| Analyzer.SeverityRowsOrdered | agents/accessibility_analyzer.py:138 | severities appear in the order Critical, High, Medium, Low |
| Analyzer.SummarizeSeverities | agents/accessibility_analyzer.py:132-141 | each severity line counts exactly the issues of that severity, every present listed severity has a line, and lines are in rank order |
| Analyzer.CategoryRows | agents/accessibility_analyzer.py:150-151 | one category line per key |
| Analyzer.CategoryKeysExact | agents/accessibility_analyzer.py:144-151 | each listed category counts exactly its issues, and every issue's category is listed |
| Analyzer.CategoryKeysOrdered | agents/accessibility_analyzer.py:150 | each category is listed once, in ascending order when all are strings |
| Analyzer.ReportOf | agents/accessibility_analyzer.py:126-127 | the report for no issues is exactly "No accessibility issues found." |
| Analyzer.ReportOpensWithCount | agents/accessibility_analyzer.py:129 | a report on some issues opens with their number and is never the no-issues text |
| Analyzer.SummaryTotal | agents/accessibility_analyzer.py:129 | the summary's total is the number of issues |
| Analyzer.RenderOpensWithHeader | agents/accessibility_analyzer.py:129-151 | the rendered report starts with its header |
| Analyzer.Count | agents/accessibility_analyzer.py:132-135 | the counting loop yields the tally, or fails exactly on an unhashable value |
| Analyzer.SeverityText | agents/accessibility_analyzer.py:137-141 | the appended severity text renders exactly the severity lines |
| Analyzer.CategoryText | agents/accessibility_analyzer.py:149-151 | the appended category text renders exactly the category lines |
| Analyzer.Report | agents/accessibility_analyzer.py:123-153 | the method computes `ReportOf` |
| Analyzer.AnalysisOf | agents/accessibility_analyzer.py:29-48 | raises exactly when the report does; otherwise `total_issues` is the number of issues and `files_analyzed` the number of files, blank ones included |
| Analyzer.Execute | agents/accessibility_analyzer.py:19-48 | the method computes `AnalysisOf` |
| Fence.StripFence | agents/critic_agent.py:118-122 | unfenced text is left alone; the split segment 1 always exists |
| Fence.StripFenceLeavesNoFence | agents/critic_agent.py:119-122 | what remains of a fenced reply holds no fence |
| Fence.FencedJsonYieldsBody | agents/accessibility_analyzer.py:103-106 | a ```json BODY ``` reply reaches the parser as BODY |
| Fence.FencedPlainYieldsBody | agents/issue_locator.py:102-105 | a ``` BODY ``` reply reaches the parser as BODY |
| Fence.UnclosedFenceKeepsRest | agents/domain_experts.py:65-69 | an opening fence that is never closed keeps everything after it |
| Oracles.ConsultPlainReply | agents/critic_agent.py:107-124 | a failed request is reported as it came; an unfenced reply is parsed after stripping |
| Oracles.ConsultFencedReply | agents/critic_agent.py:118-124 | a fenced json reply is parsed as exactly its body |
| Locator.LookupFile | agents/issue_locator.py:45-49 | the membership test raises exactly on an unhashable file and finds exactly the string keys of the sources |
| Locator.LocateIssue | agents/issue_locator.py:42-125 | locating raises exactly when the issue's file is unhashable |
| Locator.LocateUnknownFile | agents/issue_locator.py:45-47 | an unknown file keeps every key and sets `code_context` and `exact_location` to None |
| Locator.UnknownFileIgnoresOracle | agents/issue_locator.py:45-47 | for an unknown file the language model is not consulted |
| Locator.LocateAnswered | agents/issue_locator.py:107-115 | a dictionary answer keeps every key and sets exactly the four location keys from it |
| Locator.LocateUnanswered | agents/issue_locator.py:117-125 | a failure sets `exact_line` to the line, `fix_approach` to the recommendation, and the other two to None |
| Locator.LocateSeesOnlyPrefix | agents/issue_locator.py:95 | only the first 6000 characters of a file influence the result |
| Locator.LocatedOfPointwise | agents/issue_locator.py:31-35 | one enriched issue per input issue, in order; the stage raises exactly when one issue does |
| Locator.Execute | agents/issue_locator.py:18-40 | the method computes `LocatedOf` |
| Experts.FixFromReply | agents/domain_experts.py:71-86 | a parsed dictionary gives a success record with the three fields unpacked and the issue echoed; anything else gives a failure record with the error and the issue |
| Experts.FixSeesOnlyPromptFields | agents/domain_experts.py:58-63 | only description, wcag, code_snippet and recommendation influence the fix |
| Experts.ExpertsAgree | agents/domain_experts.py:56-86 | given the same answers, the three experts produce the same result |
| Manager.Score | agents/manager_agent.py:86-89 | the score is the number of keyword positions whose keyword occurs in the text; so it is positive exactly when some keyword occurs, and equals the number of keywords exactly when all occur |
| Manager.ChooseByScores | agents/manager_agent.py:91-97 | CSS, JS or HTML is chosen exactly by the argmax conditions with ties CSS > JS > HTML and HTML by default |
| Manager.RouteRaises | agents/manager_agent.py:71-73 | routing raises exactly when file, description or category is present and not a string |
| Manager.RouteStylesheet | agents/manager_agent.py:76-77 | a lower-cased path ending in `.css` goes to the CSS expert |
| Manager.ScriptIsNotStylesheet | agents/manager_agent.py:76-79 | a script path never ends in `.css` |
| Manager.RouteScript | agents/manager_agent.py:78-79 | a path ending in `.js`, `.jsx`, `.ts` or `.tsx` goes to the JavaScript expert |
| Manager.RouteByKeywords | agents/manager_agent.py:81-97 | any other issue goes by the keyword scores of its lower-cased description |
| Manager.RouteIgnoresCategory | agents/manager_agent.py:73 | the category does not influence the choice |
| Manager.SuccessCount | agents/manager_agent.py:65 | the count is at most the number of records, and is equal exactly when every fix succeeded |
| Manager.DelegatedPointwise | agents/manager_agent.py:39-60 | one record per issue, in order, with its issue, its expert and `file` equal to the issue's file; the stage raises exactly when routing one issue does |
| Manager.AllSuccessful | agents/manager_agent.py:62-66 | `total_fixes` is the number of records, and `successful_fixes` equals it exactly when every fix succeeded |
| Manager.CountSuccessful | agents/manager_agent.py:65 | the counting loop computes the success count |
| Manager.Execute | agents/manager_agent.py:24-66 | the method computes `Delegated` |
| Manager.ExpertNames | agents/manager_agent.py:107-108 | one expert name per record |
| Manager.TallyByExpert | agents/manager_agent.py:105-112 | the tally loop and sort give the report's rows |
| Manager.ExpertTallyCounts | agents/manager_agent.py:106-113 | rows are in name order, one per expert that received a record, each with its number of records, summing to the number of records |
| Critic.RejectsFailedFix | agents/critic_agent.py:57-66 | a failed fix is rejected with rating 0 and the fixed weakness, whatever the language model says |
| Critic.FailsOpen | agents/critic_agent.py:138-150 | a review that cannot be obtained approves with rating 7 and a note carrying the error |
| Critic.TakesVerdict | agents/critic_agent.py:124-136 | a parsed verdict is taken as given: `approved` defaults to False and `rating` to 0, unclamped |
| Critic.ApprovedMeansFixed | agents/critic_agent.py:57-150 | only a fix the expert produced can be approved, and its critique carries it |
| Critic.CritiquesOf | agents/critic_agent.py:31-35 | one critique per fix, in order |
| Critic.ApprovedCount | agents/critic_agent.py:37 | at most the number of critiques; all exactly when every critique is approved; none exactly when none is |
| Critic.ReviewCounts | agents/critic_agent.py:37-47 | approved + rejected == total_reviewed == number of fixes, and `is_satisfactory` holds exactly when all are approved and there is at least one |
| Critic.SatisfactoryMeansAllFixed | agents/critic_agent.py:39 | a satisfactory review implies every expert produced its fix |
| Critic.TopConcernsRanked | agents/critic_agent.py:182-183 | at most five concerns, by non-increasing count, each with its number of mentions |
| Critic.TopConcernsNonEmpty | agents/critic_agent.py:176-183 | at least one concern is listed when there was any |
| Critic.TopConcernsMostMentioned | agents/critic_agent.py:178-183 | a concern left out is mentioned no more often than the last one listed |
| Critic.CollectConcerns | agents/critic_agent.py:172-174 | the extension loop computes `AllConcerns` |
| Critic.AllConcernsRaisedPersists | agents/critic_agent.py:172-174 | once the extension loop raises, later critiques do not matter |
| Critic.CountConcerns | agents/critic_agent.py:178-183 | the counting loop computes the listed concerns or the unhashable error |
| Critic.CountApproved | agents/critic_agent.py:37 | the loop computes the approval count |
| Critic.Execute | agents/critic_agent.py:19-49 | the method computes `ReviewOf` |
| Critic.Summarize | agents/critic_agent.py:152-185 | the method computes what the summary can raise or list |
| Publisher.ApprovedOf | agents/github_agent.py:42 | exactly the approved critiques, their number being the approval count |
| Publisher.FileKeyed | agents/github_agent.py:120-122 | only critiques with a truthy file, each paired with it |
| Publisher.WithFile | agents/github_agent.py:120-125 | exactly the critiques with a given file |
| Publisher.GroupsByFile | agents/github_agent.py:116-127 | one group per distinct truthy file, each holding exactly its critiques in order |
| Publisher.OrganizeRaises | agents/github_agent.py:121-123 | grouping raises exactly on a truthy list or dictionary as a file |
| Publisher.OrganizeFixesByFile | agents/github_agent.py:116-127 | the loop computes the grouping |
| Publisher.ModifiedFiles | agents/github_agent.py:134-174 | at most one modified path per group |
| Publisher.ModifiedExactly | agents/github_agent.py:137-172 | a path is marked modified exactly when it has a group, its content is non-empty and its backup step succeeds |
| Publisher.ModifiedDistinct | agents/github_agent.py:134-169 | no path is marked twice |
| Publisher.ApplyFixesToFiles | agents/github_agent.py:129-174 | the loop computes `ModifiedFiles` |
| Publisher.SliceText | agents/github_agent.py:184-185 | a string description is cut to 80 characters; only strings and lists can be sliced |
| Publisher.MoreLine | agents/github_agent.py:187-188 | the "... and N more fixes" line appears exactly when N > 5 |
| Publisher.CommitListsFirstFive | agents/github_agent.py:183-185 | the message lists the first five (or all) descriptions, numbered from 1 and cut to 80 characters, and fails exactly when one cannot be sliced |
| Publisher.CommitSeesOnlyListed | agents/github_agent.py:176-192 | only the listed critiques and their number influence the message |
| Publisher.GenerateCommitMessage | agents/github_agent.py:176-192 | the loop computes `CommitMessage` |
| Publisher.FilesOf | agents/github_agent.py:214 | one file per critique |
| Publisher.PrListsEachFileOnce | agents/github_agent.py:214-218 | the pull request lists every critique's file (None included) exactly once, in sorted order when all are strings |
| Publisher.MediumTally | agents/github_agent.py:202-207 | counting every critique under "Medium" gives one entry with their number |
| Publisher.SeverityAllMedium | agents/github_agent.py:202-210 | the summary has the single row Medium with the number of critiques |
| Publisher.CountSeverities | agents/github_agent.py:202-207 | the counting loop computes the tally |
| Publisher.ListFiles | agents/github_agent.py:217-218 | the loop renders one line per file |
| Publisher.GeneratePrDescription | agents/github_agent.py:194-228 | the method computes `PrDescription` |
| Publisher.NothingApprovedNoAction | agents/github_agent.py:42-49 | with no approved critique, the result is "No approved fixes to apply" and no action happens |
| Publisher.ModifiedAreNamedFiles | agents/github_agent.py:52-53 | the modified files are the distinct non-empty string files of approved critiques with known content and a successful backup step |
| Publisher.PublishDelivers | agents/github_agent.py:42-60 | once critiques are approved and grouped, the rest runs on the modified files |
| Publisher.DeliverNeedsModification | agents/github_agent.py:55-60 | nothing is asked of the repository exactly when no file is modified, and then the result is "No files were modified" |
| Publisher.BranchFailureIgnored | agents/github_agent.py:63-66 | a failure to create the branch changes nothing |
| Publisher.DeliverCommitFails | agents/github_agent.py:68-70 | a failed commit escapes `execute`, and nothing is pushed |
| Publisher.DeliverSucceeds | agents/github_agent.py:62-95 | on success: branch, commit, push, pull request in that order, with success, the file count, the branch and the URL |
| Publisher.DeliverPushFails | agents/github_agent.py:108-114 | a failed push gives success False with the number of files modified locally |
| Publisher.DeliverDescriptionFails | agents/github_agent.py:73-114 | a description that cannot be generated is reported like a failed push |
| Publisher.DeliverPullRequestFails | agents/github_agent.py:97-106 | a failed pull request is reported as success without a URL |
| Publisher.Execute | agents/github_agent.py:21-114 | the method computes `Publish` |
| Publisher.PushChanges | agents/github_agent.py:62-114 | the repository steps compute `Deliver` |
| RepoScan.FilesHere | utils/github_handler.py:60-69 | files found in one directory carry its path |
| RepoScan.FilesHereExactly | utils/github_handler.py:60-69 | a file of a directory is found exactly when it is readable and its name ends with a wanted extension |
| RepoScan.WalkExactly | utils/github_handler.py:56-69 | a file is found exactly when it is readable, has a wanted name, and is reached without entering a skipped directory |
| RepoScan.SubdirsExactly | utils/github_handler.py:56-58 | the subdirectory walks find exactly the reachable files strictly below |
| RepoScan.NeverSkippedDirectory | utils/github_handler.py:58 | no returned file lies inside .git, node_modules, __pycache__, dist or build |
| RepoScan.TypeScriptNotDefault | utils/github_handler.py:51-52 | a `.ts` file is not wanted by default |
| RepoScan.CollectKeys | utils/github_handler.py:62-67 | a relative path is a key exactly when a file was found there |
| RepoScan.CollectLast | utils/github_handler.py:62-67 | each key holds the text of the last file found with that path |
| RepoScan.ScanFiles | utils/github_handler.py:60-69 | the file loop adds exactly the files found in the directory |
| RepoScan.GetSourceFiles | utils/github_handler.py:40-71 | the top-down walk computes `SourceFilesOf` |

## Left out

- Printing and logging are left out.
  - The `messages` channel of `AgentState` is left out, because no stage writes it.
  - The LangGraph runtime is left out, including its recursion limit. `Run` takes a fuel bound instead, because the graph has no loop cap.
  - `MAX_ITERATIONS` (config.py:21) is never applied by the source, so no constant stands for it.
- The callers (app.py, example.py and an unshown `workflows` module) are not part of this model.
  - `Workflow.Initial` holds only the URL and the name.
  - The commented-out initial state in code.py:326-339 would supply empty values for the other keys.
  - The gate lemmas `Workflow.GateClosedLoops` and `Workflow.GateClosedNeverPublishes` hold for any start state without `is_satisfactory`.
- A missing `errors` key reads as an empty list in every stage, so `Snapshot.errors` is a plain list.
- Prompt text, the language-model client and its rate limiter are left out. Each request is its substitutions, and `json.loads` is part of the answer function.
- Report files and their timestamped names are left out. The three writers of `utils/report_generator.py` are given functions returning their paths.
- The Git, GitHub and filesystem effects are given outcomes, not modelled:
  - cloning, the `.backup` copy, the branch, the commit, the push and the pull request;
  - file contents are never changed by the source, and the model has no file contents beyond `source_files`.
- `Workflow.Pipeline`'s stage methods call the `Agents` functions of the environment. `Workflow.Wired` builds those functions from `Analyzer.AnalysisOf`, `Locator.LocatedOf`, `Manager.Delegated`, `Critic.ReviewOf`, `Publisher.Publish` and `RepoScan.SourceFilesOf`.
  - Each of those is proved equal to its agent's `Execute` method, and `RepoScan.SourceFilesOf` to `RepoScan.GetSourceFiles`.
  - The methods do not call the `Execute` methods themselves.
- Floating point is left out: `approval_rate`, the average rating and the success rate are not modelled. Summing the ratings is modelled only as far as it can raise.
- Python's `True == 1` and `hash(True) == hash(1)` are not modelled. Dictionary keys compare structurally.
- Sorting.SortValues: two or more integer or boolean keys are treated as unorderable, although Python orders them. Only all-string sets sort.
- Critic.ConcernItems: a dictionary given as `concerns` would add its keys; the model adds nothing.
- Publisher.SliceText: for a list description, `desc[:80]` is rendered as the placeholder "[...]". Python would print the sliced list, which can be longer than 80 characters.
- Unreadable files and non-UTF-8 files have no content in `RepoScan.Node`. `os.walk` visits entries in the order of the tree given.
- Text.Lower: only the ASCII letters A-Z are lower-cased, and every other character is kept, so the result has the input's length. Python's `str.lower()` also folds non-ASCII characters, and some of them become keyword letters: U+212A KELVIN SIGN lowers to `k`, and U+0130 lowers to two characters. `Manager.Route` can therefore score a description lower than the source does ("\u212Aeyboard trap" scores 0 for the JavaScript keyword "keyboard" instead of 1); Unicode case tables are not modelled.
- Exception messages that come from Python itself are fixed placeholder texts, for example "unhashable type" or "object has no attribute 'get'".

## Findings

The comment at code.py:276 says that `decide_if_fixed` reads the critic's
verdict from the state, and the critic's result carries it under
`is_satisfactory` (computed at agents/critic_agent.py:39, returned at line 47). The code never puts it in
the state: `critique_solutions` writes only `critiques` and
`current_step`, and `AgentState` (code.py:16-30) declares no
`is_satisfactory` key. The model follows the code
(`Workflow.Build.AsWritten`) and also models the evidently intended
behaviour (`Workflow.Build.Intended`), where the critique also records the
verdict.

| source | as written | input that shows it | evidently intended | confidence | as-written member | corrected member |
|---|---|---|---|---|---|---|
| code.py:168-169 | `critique_solutions` stores only `critiques`. `is_satisfactory` is never written, so `decide_if_fixed` (code.py:275-279) always answers "retry". | Any run, e.g. one issue whose fix the critic approves: the review is satisfactory, but the graph keeps alternating delegate and critique and never publishes. Without a step bound the loop does not end; under the LangGraph runtime, which is not modelled, it is cut off by the recursion limit, still without publishing. | `AgentState` declares an `is_satisfactory` key and the critique stage stores the critic's `is_satisfactory` in it, so a satisfactory review proceeds to apply_and_push, generate_reports and END. | not executed | Workflow.AsWrittenNeverPublishes | Workflow.IntendedFinishes |
