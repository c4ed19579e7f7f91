# Publication-approval workflow, modelled in Dafny

This project models the engine of a publication-approval workflow, with
its ten-state `Process.status` machine. An author submits a work. The
co-authors upload consent scans. The library checks the bibliography. For
a publication "within MIFI", three reviewers drawn at random give verdicts,
and a quorum rule combines them. The OEK office then approves and may fix
a defense date and room. After that, the work is ready for defense. A library
or OEK rejection, and a review asking for changes, lead to a "needs fix"
status from which the author resubmits. A quorum of NOT_RECOMMEND verdicts
rejects the work for good. No view offers the resubmission after a library
fix, so that service is modelled but no view calls it.

The model is split into these modules:

| module | file | what it holds |
|---|---|---|
| `Wrappers` | `wrappers.dfy` | the `Option` type |
| `Accounts` | `accounts.dfy` | the five roles, the user record, `display_name` and Python's `str.strip` |
| `Permissions` | `permissions.dfy` | the `role_required` decorator, as an allow/deny function |
| `Notifications` | `notifications.dfy` | the notification store, as class `Inbox`, with `notify`, `mark_read` and `mark_all_read` |
| `Models` | `models.dfy` | the status, decision and verdict enumerations with their stored codes and defaults, and the records |
| `Quorum` | `quorum.dfy` | the verdict counting and the four-rule chain of `reviewer_submit` |
| `Sampling` | `sampling.dfy` | reviewer selection; `random.sample` becomes an injected number `rnd` |
| `Services` | `services.dfy` | class `Workflow`, with one method per service function, over the tables it updates |
| `Views` | `views.dfy` | the guards of the publication views, as pure reply functions, and methods that run the services a reply allows |
| `AsWritten` | `aswritten.dfy` | the services as their source is written, where every notice to the author raises `TypeError` (see "## Findings") |

How the tables are modelled:
- Tables are sequences and maps, and primary keys are positions. A user's
  id is its index in `Workflow.users`, so ordering by id is sequence order.
- `timezone.now()` becomes a `now` parameter.
- The random source becomes `rnd`. Lemma `EverySampleReachable` shows that
  no sample is out of reach.
- Notification texts are a `Message` datatype holding the message's kind
  and the process id. The Russian wording is not modelled.

The class keeps one invariant, `Workflow.Valid()`. Every service method
and every view method preserves it; the step helpers `NotifyEach`,
`GetOrCreateAssignment` and `CreateAssignments` change one table each and
are used only inside methods that restore it:
- every reference points to an existing row;
- decision rows are stamped: `decided_at` is set exactly when the decision
  is not PENDING;
- each (process, reviewer) pair has at most one assignment;
- assignments exist only from internal review on;
- each decision row agrees with its process's status (`StageConsistent`).

Every service method and every view method also ensures `LegalMoves`:
each process keeps its status or takes one of the transitions in
`Transition`. `SaveNewProcess` (which appends a DRAFT process),
`SaveConsent`, `ResetReviewers` and the three step helpers state their new
tables outright instead.

Services get some guards from their callers:
- `library_apply_decision`, `reviewer_submit` and `oek_apply_decision` rely
  on their views to check the status.
- `reviewer_submit` also relies on its view to refuse a PENDING verdict.

These guards become `requires` clauses on the service methods. The view
methods in `Views` show that every call meets them.

## Model

| member | source | states |
|---|---|---|
| Accounts.RoleCodeRoundTrip | backend/apps/accounts/models.py:6-17 | each of the five roles is stored under a code of at most 32 characters that reads back as that role |
| Accounts.NewUser | backend/apps/accounts/models.py:17 | a user created without a role is an AUTHOR and not a superuser |
| Accounts.ParseRole | backend/apps/accounts/models.py:6-17 | a code parses exactly when it is one of the five role codes, and then to the role stored under it |
| Accounts.Strip | backend/apps/accounts/models.py:26 | the result is a slice of the string with only whitespace cut off on either side, and it neither starts nor ends with whitespace |
| Accounts.StripCharacterized | backend/apps/accounts/models.py:26 | any slice that cuts only whitespace and keeps no whitespace at its ends is exactly the stripped string, so `Strip` is the one such slice |
| Accounts.StripEmptyIffAllSpace | backend/apps/accounts/models.py:26-27 | stripping yields the empty string exactly when the string is whitespace only |
| Accounts.DisplayName | backend/apps/accounts/models.py:23-27 | the FIO when set; else the stripped "first last" when not blank; else the username; never empty when FIO or username is set |
| Permissions.RoleRequired | backend/apps/accounts/permissions.py:5-20 | anonymous requests get "login required"; a signed-in user gets "insufficient rights" when neither their role is allowed nor they are a superuser; otherwise the view's own result comes back, for the same request and arguments |
| Permissions.AllowsMonotone | backend/apps/accounts/permissions.py:16 | allowing more roles never refuses a request that was let through |
| Permissions.SuperuserAlwaysPasses | backend/apps/accounts/permissions.py:16-18 | a signed-in superuser reaches the view whatever roles are allowed |
| Notifications.Appended | backend/apps/notifications/utils.py:4-7 | a missing user adds nothing; otherwise exactly one unread notification with that user, message and link |
| Notifications.Inbox.Notify | backend/apps/notifications/utils.py:4-7 | the store only grows, by what `Appended` says (link "" by default) |
| Notifications.Inbox.MarkRead | backend/apps/notifications/views.py:13-20 | not found exactly for a notification of another user or a missing key; otherwise only that notification becomes read; a redirect to its link exactly when the link is not empty |
| Notifications.AllReadFor | backend/apps/notifications/views.py:25 | the requester's notifications become read; everybody else's are untouched |
| Notifications.Inbox.MarkAllRead | backend/apps/notifications/views.py:23-26 | the store afterwards is `AllReadFor` of the store before |
| Notifications.AllReadForIdempotent | backend/apps/notifications/views.py:25 | marking everything read twice equals doing it once |
| Models.ParseStatus | backend/apps/publications/models.py:32-42 | a code parses exactly when it is one of the ten codes, and then back to the status that stores it |
| Models.StatusCodesExact | backend/apps/publications/models.py:32-50 | ten distinct codes, each within the 64-character column, each reading back as its status |
| Models.NewProcess | backend/apps/publications/models.py:44-56 | a saved process starts in DRAFT, with no defense date and a blank room |
| Models.ParseDecision | backend/apps/publications/models.py:86-89 | a parsed decision is stored under the code it came from |
| Models.DecisionCodeRoundTrip | backend/apps/publications/models.py:86-93 | each decision fits the 16-character column and reads back as itself |
| Models.ParseVerdict | backend/apps/publications/models.py:102-106 | a parsed verdict is stored under the code it came from |
| Models.VerdictCodeRoundTrip | backend/apps/publications/models.py:102-110 | each verdict fits the 32-character column and reads back as itself |
| Models.GetOrNew | backend/apps/publications/services.py:51 | the existing row of the process, or a new PENDING, unstamped row |
| Models.NewAssignment | backend/apps/publications/models.py:108-112 | a new assignment is for the given process and reviewer, PENDING and undated |
| Quorum.Count | backend/apps/publications/services.py:118-120 | a count never exceeds the number of verdicts |
| Quorum.Decide | backend/apps/publications/services.py:122-144 | rule 1 fires iff two or more NOT_RECOMMEND; rule 2 iff fewer and some RECOMMEND_AFTER_FIX; rule 3 iff neither and two or more RECOMMEND |
| Quorum.TargetStatus | backend/apps/publications/services.py:122-144 | OEK review iff rule 3, REJECTED iff rule 1, and INTERNAL_REVIEW_NEEDS_FIX otherwise |
| Quorum.CountIsMultiplicity | backend/apps/publications/services.py:117-120 | counting in the list equals the verdict's multiplicity in the multiset |
| Quorum.DecideMatchesBag | backend/apps/publications/services.py:117-144 | the rule chain over the list equals the same chain over the multiset of verdicts |
| Quorum.DecideIgnoresOrder | backend/apps/publications/services.py:117-144 | two lists with the same verdicts, in any order, get the same outcome |
| Quorum.CountsAddUp | backend/apps/publications/services.py:117-120 | the four counts add up to the number of verdicts |
| Quorum.PendingCounted | backend/apps/publications/services.py:114 | a PENDING verdict is present exactly when its count is positive |
| Quorum.ThreeReviewerQuorum | backend/apps/publications/services.py:122-144 | with three decided verdicts the fallback never fires: REJECTED iff two NOT_RECOMMEND; OEK iff no AFTER_FIX and at most one NOT_RECOMMEND; NEEDS_FIX iff some AFTER_FIX and at most one NOT_RECOMMEND |
| Quorum.LoneReviewerNeverDecides | backend/apps/publications/services.py:122-144 | with at most one verdict, neither rejection nor OEK is reached: the process always needs a fix |
| Quorum.UnanimousRecommendAdvances | backend/apps/publications/services.py:136-139 | two or more unanimous RECOMMEND verdicts send the process to OEK |
| Quorum.QuorumExamples | backend/apps/publications/services.py:122-144 | {NOT,NOT,REC} is rejected; {REC,REC,AFTER_FIX} needs a fix; {REC,REC,NOT} and {REC,REC,REC} go to OEK; {REC,NOT} falls through every rule |
| Sampling.Draw | backend/apps/publications/services.py:92 | min(k, size of pool) reviewers, all from the pool, distinct when the pool is |
| Sampling.ChooseReviewers | backend/apps/publications/services.py:87-92 | min(3, size of pool) distinct reviewers from the pool; the whole pool when it has fewer than three |
| Sampling.EverySampleReachable | backend/apps/publications/services.py:92 | every sequence of k distinct pool members is drawn for some `rnd`, so the injected choice covers everything `random.sample` can return |
| Services.FirstWithRole | backend/apps/publications/services.py:44 | the lowest id with the role, or nothing when no user has it |
| Services.WithRole | backend/apps/publications/services.py:87 | exactly the ids with the role, increasing and distinct (so empty when nobody has the role) |
| Services.Broadcast | backend/apps/publications/services.py:98-99 | one unread notification per recipient, in recipient order |
| Services.CoauthorsOf | backend/apps/publications/services.py:28 | exactly the co-authors that belong to the process |
| Services.AllCoauthorConsentsUploaded | backend/apps/publications/services.py:25-28 | the gate holds iff every co-author of the process has a consent scan |
| Services.AllConsentsUploadedIff | backend/apps/publications/services.py:25-28 | the gate holds iff every co-author of the process has a consent scan; a process has co-authors iff some row refers to it |
| Services.NoCoauthorsNoGate | backend/apps/publications/services.py:26-27 | a process without co-authors passes the gate |
| Services.LastConsentOpensGate | backend/apps/publications/services.py:25-35 | after co-author `c` uploads, the gate holds exactly when every other co-author of the process already had a scan |
| Services.NewCoauthors | backend/apps/publications/views.py:96-100 | n co-author rows of the new process, none with a scan |
| Services.FreshProcessCoauthors | backend/apps/publications/services.py:11-28 | a just-created process has co-authors iff some were entered, and then does not yet pass the gate |
| Services.RowsOf | backend/apps/publications/services.py:117 | exactly the positions of the process's assignment rows, in increasing order |
| Services.VerdictsOf | backend/apps/publications/services.py:117 | one verdict per assignment row of the process, the k-th being the verdict of its k-th row |
| Services.ReviewersOf | backend/apps/publications/services.py:156 | one reviewer per assignment row of the process, the k-th being the reviewer of its k-th row |
| Services.ReviewersOfMembers | backend/apps/publications/services.py:156-157 | a reviewer is listed iff they hold an assignment of the process |
| Services.VerdictsOfAppend | backend/apps/publications/services.py:117 | the verdicts of two tables put together are the verdicts of each, in order |
| Services.PendingIffSomeAssignmentPending | backend/apps/publications/services.py:114 | a PENDING verdict is listed iff some assignment of the process is PENDING |
| Services.WithAssignment | backend/apps/publications/services.py:96 | afterwards the pair is assigned; existing rows are kept as a prefix; a row is added iff the pair had none |
| Services.WithAssignments | backend/apps/publications/services.py:94-96 | existing rows are kept as a prefix and at most one row per chosen reviewer is added |
| Services.WithAssignmentsSound | backend/apps/publications/services.py:94-96 | get-or-create keeps (process, reviewer) pairs unique, keeps every existing row, adds only PENDING rows for chosen reviewers, and leaves every chosen reviewer assigned |
| Services.FreshAssignments | backend/apps/publications/services.py:95-96 | one new PENDING row per reviewer, in order |
| Services.WithAssignmentsFresh | backend/apps/publications/services.py:94-96 | for a process without rows and distinct reviewers, get-or-create appends exactly one fresh row per reviewer |
| Services.FreshVerdicts | backend/apps/publications/services.py:94-96 | freshly assigned rows give one PENDING verdict per reviewer, so no quorum fires right after assignment |
| Services.NoReviewerNoAssignment | backend/apps/publications/services.py:87-96 | with no user in the reviewer role, nobody is chosen and no assignment is created |
| Services.ResetFor | backend/apps/publications/services.py:76-80 | a row of the process becomes PENDING, blank and undated, with the same process and reviewer; rows of other processes are untouched |
| Services.Transition | backend/apps/publications/services.py:11-239 | no transition keeps the status, enters DRAFT, or leaves READY_FOR_DEFENSE or REJECTED |
| Services.TerminalStates | backend/apps/publications/services.py:11-239 | no transition leaves READY_FOR_DEFENSE or REJECTED, and every other status has one |
| Services.EveryStatusReachable | backend/apps/publications/services.py:11-239 | each of the nine statuses other than DRAFT is reached from DRAFT by a legal run of one to three transitions, and no transition leads back into DRAFT |
| Services.Workflow.NotifyEach | backend/apps/publications/services.py:98-99 | the store grows by one notification per recipient, in order |
| Services.Workflow.SaveNewProcess | backend/apps/publications/views.py:86-100 | a DRAFT process and its co-author rows are appended; nothing else changes; the invariant is kept |
| Services.Workflow.SendToLibrary | backend/apps/publications/services.py:38-47 | LIBRARY_REVIEW, a library row, a task to the first library head and a notice to the author |
| Services.Workflow.StartOrAdvanceAfterCreation | backend/apps/publications/services.py:11-22 | with co-authors: WAITING_COAUTHOR_CONSENTS and a notice to the author; without: everything `send_to_library` does |
| Services.Workflow.TryAdvanceAfterCoauthorConsents | backend/apps/publications/services.py:31-35 | nothing changes unless the process waits for consents and all are uploaded; then it goes to the library |
| Services.Workflow.SaveConsent | backend/apps/publications/views.py:163-165 | one co-author gains a consent scan; nothing else changes |
| Services.Workflow.SendToOek | backend/apps/publications/services.py:161-170 | OEK_REVIEW, a new OEK row, a task to the first OEK officer and a notice to the author |
| Services.Workflow.GetOrCreateAssignment | backend/apps/publications/services.py:96 | the table after one get-or-create |
| Services.Workflow.CreateAssignments | backend/apps/publications/services.py:95-96 | the table after get-or-create for each chosen reviewer in turn |
| Services.Workflow.AssignChosen | backend/apps/publications/services.py:83-101 | INTERNAL_REVIEW, one fresh assignment per chosen reviewer, a task to each of them and a notice to the author |
| Services.Workflow.AssignReviewers | backend/apps/publications/services.py:83-101 | as `AssignChosen`, for the reviewers `ChooseReviewers` picks from every user with the reviewer role |
| Services.Workflow.LibraryReject | backend/apps/publications/services.py:66-71 | the rejected row is saved; LIBRARY_NEEDS_FIX; the author is told the comment |
| Services.Workflow.LibraryApprove | backend/apps/publications/services.py:56-65 | the approved row is saved; an MIFI work gets reviewers; any other goes to OEK; the author is told last |
| Services.Workflow.LibraryApplyDecision | backend/apps/publications/services.py:50-71 | the library row is stamped with decision, librarian, comment and time; the status and the notices follow approve/reject and `is_mifi` |
| Services.Workflow.ResetReviewers | backend/apps/publications/services.py:74-80 | every assignment of the process is reset, no row is added or removed, other rows are untouched |
| Services.Workflow.CloseReview | backend/apps/publications/services.py:123-134 | the process leaves internal review for the given status, and the author is told |
| Services.Workflow.ApplyOutcome | backend/apps/publications/services.py:117-144 | REJECTED, NEEDS_FIX or OEK review per the outcome, with the matching notices |
| Services.Workflow.ReviewerSubmit | backend/apps/publications/services.py:104-144 | the verdict is recorded and the author told; while a verdict of the process is PENDING nothing else changes; otherwise the status is the quorum outcome's |
| Services.Workflow.AuthorResubmitAfterInternalFix | backend/apps/publications/services.py:147-158 | a no-op outside INTERNAL_REVIEW_NEEDS_FIX; otherwise every assignment is reset without adding or removing rows, INTERNAL_REVIEW, the same reviewers are asked again, then the author is told |
| Services.Workflow.OekApprove | backend/apps/publications/services.py:179-195 | READY_FOR_DEFENSE; the date only when given; the room whenever it is not None; notices to the author and each commission member |
| Services.Workflow.OekReject | backend/apps/publications/services.py:196-201 | OEK_NEEDS_FIX, defense fields untouched, the author is told the comment |
| Services.Workflow.OekApplyDecision | backend/apps/publications/services.py:173-201 | the OEK row is stamped with decision, officer, comment and time; then approval or rejection as above |
| Services.Workflow.AuthorResubmitAfterOekFix | backend/apps/publications/services.py:204-212 | a no-op outside OEK_NEEDS_FIX; otherwise OEK_REVIEW with the OEK row untouched, a task to the first OEK officer and a notice to the author |
| Services.Workflow.AuthorResubmitAfterLibraryFix | backend/apps/publications/services.py:214-239 | a no-op outside LIBRARY_NEEDS_FIX; otherwise the library row goes back to PENDING and undated, keeping librarian and comment; LIBRARY_REVIEW; both notices |
| Views.CreateReply | backend/apps/publications/views.py:75-78 | creation is allowed to exactly the requesters `role_required(AUTHOR)` lets through; other signed-in users go to the dashboard |
| Views.ProcessCreate | backend/apps/publications/views.py:75-104 | only an allowed requester with a valid form creates; the new process is appended as theirs with its co-author rows; with co-authors it waits for consents and the author is told; otherwise it is in library review with a new library row, the librarian's task and the author's notice; no other table changes |
| Views.DetailReply | backend/apps/publications/views.py:119-141 | a 404 iff the process is missing, or the requester is an author who neither owns it nor is a superuser; a resubmission is dispatched iff the requester has the AUTHOR role and names one of the two actions |
| Views.ProcessDetailPost | backend/apps/publications/views.py:119-141 | only the internal and OEK resubmissions can run and the library table never changes; each does nothing outside its needs-fix status, and otherwise gives the service's full new state: the reset rows and reviewer tasks, or the officer's task, and the author's notice |
| Views.ConsentReply | backend/apps/publications/views.py:153-172 | found only for the process's own author and a co-author of that process; refused with a warning outside the consent stage |
| Views.UploadCoauthorConsent | backend/apps/publications/views.py:153-172 | a refused upload changes nothing; an accepted one saves the scan when a file came; when the gate then holds, the process goes to library review with a new row and both library notices, and otherwise nothing else changes |
| Views.DecideReply | backend/apps/publications/views.py:181-200 | behind `role_required`, a decision is accepted iff the process exists, is at the stage and the choice is APPROVED or REJECTED; PENDING is refused |
| Views.LibraryDecide | backend/apps/publications/views.py:181-208 | a refused request changes nothing; an accepted one stamps the library row with the requester, then: rejection gives LIBRARY_NEEDS_FIX and the comment to the author; approval of an MIFI work gives INTERNAL_REVIEW, fresh rows and tasks for the chosen reviewers; any other approval gives OEK_REVIEW and a new OEK row; each approval ends with the author's notice |
| Views.OekDecideView | backend/apps/publications/views.py:248-286 | a refused request changes nothing; an accepted one stamps the OEK row with the requester; approval gives READY_FOR_DEFENSE, the date only when given, always the submitted room text, and notices to the author and each commission member; rejection gives OEK_NEEDS_FIX with the defense fields kept and the comment to the author |
| Views.ReviewReply | backend/apps/publications/views.py:217-239 | behind `role_required(REVIEWER)`, only the requester's own assignment is found; a verdict is accepted iff its process is in INTERNAL_REVIEW and the verdict is not PENDING |
| Views.ReviewerSubmitView | backend/apps/publications/views.py:217-239 | a refused request changes nothing; an accepted one records the verdict on that assignment and tells the author; while a verdict of the process is PENDING nothing else changes; otherwise the status, the OEK row and the notices follow the quorum outcome |
| Views.ProcessesBy | backend/apps/publications/views.py:42 | exactly the processes of the author |
| Views.ProcessesIn | backend/apps/publications/views.py:46 | exactly the processes in the status |
| Views.AssignmentsOf | backend/apps/publications/views.py:50 | exactly the assignments of the reviewer |
| Views.Dashboard | backend/apps/publications/views.py:27-63 | per role: the author's own processes; the LIBRARY_REVIEW, OEK_REVIEW or READY_FOR_DEFENSE processes; or the reviewer's own assignments |
| Views.LibraryTasksActionable | backend/apps/publications/views.py:45-47 | a library head's dashboard lists exactly the processes on which the library page accepts a decision |
| Views.OekTasksActionable | backend/apps/publications/views.py:53-55 | an OEK officer's dashboard lists exactly the processes on which the OEK page accepts a decision |
| Views.ReviewerTasksFound | backend/apps/publications/views.py:49-51 | a reviewer's dashboard lists exactly the assignments the verdict page finds for them; those in internal review accept a verdict |
| AsWritten.StartOrAdvanceAsWritten | backend/apps/publications/services.py:11-22 | as written, creating a process always raises |
| AsWritten.TryAdvanceAsWritten | backend/apps/publications/services.py:31-35 | as written, the consent gate raises exactly when it opens; otherwise nothing changes |
| AsWritten.SendToLibraryAsWritten | backend/apps/publications/services.py:38-47 | as written, `send_to_library` always raises |
| AsWritten.SendToOekAsWritten | backend/apps/publications/services.py:161-170 | as written, `send_to_oek` always raises |
| AsWritten.AssignReviewersAsWritten | backend/apps/publications/services.py:83-101 | as written, `assign_reviewers` always raises |
| AsWritten.LibraryApplyDecisionAsWritten | backend/apps/publications/services.py:50-71 | as written, every library decision raises |
| AsWritten.ReviewerSubmitAsWritten | backend/apps/publications/services.py:104-111 | as written, every verdict submission raises |
| AsWritten.ResubmitInternalAsWritten | backend/apps/publications/services.py:147-158 | as written, the resubmission raises exactly when the process needs an internal fix; otherwise nothing changes |
| AsWritten.OekApplyDecisionAsWritten | backend/apps/publications/services.py:173-201 | as written, every OEK decision raises |
| AsWritten.ResubmitOekAsWritten | backend/apps/publications/services.py:204-212 | as written, the resubmission raises exactly when the process needs an OEK fix; otherwise nothing changes |
| AsWritten.ResubmitLibraryAsWritten | backend/apps/publications/services.py:214-239 | as written, the resubmission raises exactly when the process needs a library fix; otherwise nothing changes |
| AsWritten.CreationAlwaysRaises | backend/apps/publications/services.py:11-22 | creation raises after saving WAITING_COAUTHOR_CONSENTS, or the library row; an author in the AUTHOR role gets none of the notices added |
| AsWritten.SendToLibraryLosesAuthorNotice | backend/apps/publications/services.py:38-47 | status, library row and librarian task are saved; the intended notices are these plus the author's one |
| AsWritten.SendToOekLosesAuthorNotice | backend/apps/publications/services.py:161-170 | status, OEK row and officer task are saved; the intended notices are these plus the author's one |
| AsWritten.LibraryApproveMifiUnannounced | backend/apps/publications/services.py:56-65 | approving an MIFI work saves the row, INTERNAL_REVIEW, the assignments and reviewer tasks, but neither of the author's two notices |
| AsWritten.LibraryRejectUnannounced | backend/apps/publications/services.py:66-71 | a library rejection saves the row and LIBRARY_NEEDS_FIX and tells nobody |
| AsWritten.ReviewerSubmitNeverCloses | backend/apps/publications/services.py:104-111 | a submission saves only the verdict: processes, OEK rows and notifications are untouched |
| AsWritten.ReviewerSubmitCounterexample | backend/apps/publications/services.py:104-144 | with two RECOMMEND rows, the third RECOMMEND leaves the process in INTERNAL_REVIEW with no PENDING verdict, where the quorum rule names OEK review |
| AsWritten.ReviewerSubmitStrandsProcess | backend/apps/publications/services.py:104-144 | a process in internal review stays there, though the quorum rule never names INTERNAL_REVIEW |
| AsWritten.ResubmitInternalUnannounced | backend/apps/publications/services.py:147-158 | reset rows, INTERNAL_REVIEW and reviewer tasks are saved; the intended notices are these plus the author's one |
| AsWritten.OekApproveUnannounced | backend/apps/publications/services.py:179-195 | approval saves the row and READY_FOR_DEFENSE but adds no notification, where one to the author and one per commission member are intended |
| AsWritten.OekRejectUnannounced | backend/apps/publications/services.py:196-201 | an OEK rejection saves the row and OEK_NEEDS_FIX and tells nobody |
| AsWritten.ResubmitOekUnannounced | backend/apps/publications/services.py:204-212 | OEK_REVIEW and the officer task are saved; the intended notices are these plus the author's one |
| AsWritten.ResubmitLibraryUnannounced | backend/apps/publications/services.py:214-239 | the row reset, LIBRARY_REVIEW and the librarian task are saved; the intended notices are these plus the author's one |

## Findings

Every notice to a process's author passes `process=process` to `notify`, whose signature (`notifications/utils.py:4`) has no such parameter, so each of those calls raises `TypeError` before any row is written. The views do not catch it: the request ends in a server error after the saves made so far.

| source | as written | input that shows it | evidently intended | confidence | as-written member | corrected member |
|---|---|---|---|---|---|---|
| backend/apps/publications/services.py:20 | creating a process with co-authors saves WAITING_COAUTHOR_CONSENTS, then raises; the create view errors | any create form with one co-author row | the author is told to upload consents, and the view redirects | high (not executed) | AsWritten.CreationAlwaysRaises | Services.Workflow.StartOrAdvanceAfterCreation |
| backend/apps/publications/services.py:47 | `send_to_library` saves the status, the library row and the librarian task, then raises; creation without co-authors and the last consent upload error | any process without co-authors, on creation | the author is told the work went to the library | high (not executed) | AsWritten.SendToLibraryLosesAuthorNotice | Services.Workflow.SendToLibrary |
| backend/apps/publications/services.py:101 | approving an MIFI work saves the row, INTERNAL_REVIEW, assignments and reviewer tasks, then raises in `assign_reviewers`; the approval notice (line 65) is never reached | a library approval of an MIFI work | the author gets both notices | high (not executed) | AsWritten.LibraryApproveMifiUnannounced | Services.Workflow.LibraryApprove |
| backend/apps/publications/services.py:170 | approving an external work raises in `send_to_oek` after the OEK row and officer task | a library approval of a non-MIFI work | the author is told the work went to OEK, then that the library approved | high (not executed) | AsWritten.SendToOekLosesAuthorNotice | Services.Workflow.SendToOek |
| backend/apps/publications/services.py:71 | a library rejection saves LIBRARY_NEEDS_FIX, then raises; the author never sees the comment | any library rejection | the author is told the comment | high (not executed) | AsWritten.LibraryRejectUnannounced | Services.Workflow.LibraryReject |
| backend/apps/publications/services.py:111 | `reviewer_submit` saves the verdict, then raises before the quorum test: the process never leaves INTERNAL_REVIEW, and once no verdict is PENDING nothing can move it | two RECOMMEND rows and the third reviewer submits RECOMMEND | the quorum rule moves the process (OEK review here) | high (not executed) | AsWritten.ReviewerSubmitCounterexample | Services.Workflow.ReviewerSubmit |
| backend/apps/publications/services.py:158 | the internal resubmission resets the rows, saves INTERNAL_REVIEW and tasks the reviewers, then raises | a resubmission from INTERNAL_REVIEW_NEEDS_FIX | the author is told too | high (not executed) | AsWritten.ResubmitInternalUnannounced | Services.Workflow.AuthorResubmitAfterInternalFix |
| backend/apps/publications/services.py:190 | an OEK approval saves READY_FOR_DEFENSE, then raises; no commission member is told (lines 192-195 never run) | any OEK approval | the author and every commission member are told | high (not executed) | AsWritten.OekApproveUnannounced | Services.Workflow.OekApprove |
| backend/apps/publications/services.py:201 | an OEK rejection saves OEK_NEEDS_FIX, then raises | any OEK rejection | the author is told the comment | high (not executed) | AsWritten.OekRejectUnannounced | Services.Workflow.OekReject |
| backend/apps/publications/services.py:212 | the OEK resubmission saves OEK_REVIEW and the officer task, then raises | a resubmission from OEK_NEEDS_FIX | the author is told too | high (not executed) | AsWritten.ResubmitOekUnannounced | Services.Workflow.AuthorResubmitAfterOekFix |
| backend/apps/publications/services.py:234-239 | the library resubmission resets the row, saves LIBRARY_REVIEW and the librarian task, then raises | a call from LIBRARY_NEEDS_FIX | the author is told too | high (not executed) | AsWritten.ResubmitLibraryUnannounced | Services.Workflow.AuthorResubmitAfterLibraryFix |

## Left out

- `Services` and `Views` model the workflow as evidently intended: `notify` is called by its own signature, `(user, message, link="")`, without the `process=process` keyword the services pass. How the code behaves as written is modelled in `AsWritten` and listed under "## Findings".
- The settings module is not part of this model. `AsWritten` assumes Django's default autocommit, so every `save()` before the failing call is kept.
- `Workflow.Valid()` (through `StageConsistent`) admits a process in LIBRARY_REVIEW or OEK_REVIEW without its decision row, as demo data may create it; `LibraryApplyDecision` and `OekApplyDecision` then create the row, as `get_or_create` does. It does not admit a status whose decision row contradicts it (an approved library row in LIBRARY_REVIEW, for instance).
- Commission notices go out in user-id order (`WithRole`). The source's `User.objects.filter(role=COMMISSION)` (`services.py:193`) has no `order_by`, so the database may return another order; the model fixes one.
- No view reaches `author_resubmit_after_library_fix` (`views.py:16-24`, `views.py:131-139`). It is modelled as a service; `Views.ProcessDetailPost` proves that the library table never changes from the process page.
- With no user in the reviewer role, `assign_reviewers` leaves the process in INTERNAL_REVIEW with no assignment (`Services.NoReviewerNoAssignment`). No verdict can then be submitted, so the process stays put.
- With one reviewer, OEK is never reached (`Quorum.LoneReviewerNeverDecides`).
- The dashboard fallback for "other" roles (`views.py:61-63`) is unreachable, because every user has one of the five roles. A superuser is listed by role too.
- Ordering of listings (`order_by("-created_at")` and similar) and the 50-row slice of the fallback are not modelled. Listings are in id order; their lemmas state only membership.
- `process_list`, `library_tasks`, `reviewer_tasks` and `oek_tasks` are the same filters as the dashboard, behind `role_required`. They are not modelled separately.
- `template_download`, rendering, `messages`, redirects, forms and file storage are presentation and I/O, except as listed here:
  - A view's outcome becomes a `Reply` value.
  - A valid form becomes `Some(form)`.
  - A consent upload is "with a file" or "without a file". The "clear" checkbox of a file field is not modelled.
- `Views.ProcessCreate`: title, journal, council and the documents form are opaque. Only `is_mifi` and the number of kept co-author rows reach the model.
- Anonymous requests to `login_required` views are redirected to the login page. The model answers `Denied(LoginRequired)` instead.
- `Views.Dashboard` is defined only for a signed-in user.
- The OEK view always passes the submitted room, `""` when left blank. The resulting overwrite is noted in `Views.OekDecideView`'s contract.
- The wording of notification texts (Russian f-strings) is a `Message` value of the same kind and process.
- `Services.Workflow.ReviewerSubmit`: the reviewer's display name in the notice is replaced by the reviewer's id.
- `Services.Workflow.AuthorResubmitAfterInternalFix`: `for a in process.review_assignments.all(): notify(...)` is modelled as `NotifyEach` over `ReviewersOf`, the reviewers of the process's rows in table order.
- The field `updated_at`, `created_at`, the decision rows' `librarian`/`oek_user` on deletion of users (`SET_NULL`), cascade deletes, and `ProcessDocuments` are not modelled.
- Concurrency (two reviewers submitting at once) and transactions are not modelled; the model is single-threaded.
- `save(update_fields=…)` and `get_or_create` as database calls become updates of in-memory sequences and maps. `Models.GetOrNew` and `Services.WithAssignment` are the model's own get-or-create.
- The randomness of `random.sample` is the parameter `rnd`; the uniform distribution is not modelled, only which samples are possible.
- `timezone.now()` is the parameter `now`.
- `backend/apps/publications/migrations/0001_initial.py`, `seed_demo.py`, the admin and URL modules, and the account views are not part of this model.
