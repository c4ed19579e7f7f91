/**
 * The guards of the publication views and the service each one calls.
 *
 * A view is a pure reply function, deciding from the request and the
 * tables how the view answers, and a method that performs the saves and
 * service calls the reply allows on a `Workflow`. A signed-in requester is a
 * user id (an index into `users`); `None` is an anonymous request. A valid
 * POSTed form is `Some(form)`; `None` stands for a GET or a form that did
 * not validate, on which the page is only rendered again.
 */
module Views {
  import opened Wrappers
  import opened Accounts
  import opened Permissions
  import opened Models
  import opened Quorum
  import opened Sampling
  import Notifications
  import opened Services

  /** How a view answers. */
  datatype Reply =
    | Done                    // the save or service call ran; redirect with a success message
    | Page                    // the page is rendered; nothing is saved
    | ToDashboard             // `process_create` sends a non-author back to the dashboard
    | NotFound                // Http404, from `get_object_or_404` or the ownership check
    | Denied(denial: Denial)  // `login_required` or `role_required` turned the request away
    | WrongStage              // warning and redirect: the process is not at this view's stage
    | NoChoice                // warning and redirect: PENDING was submitted as the decision

  /** `request.user` for an optional signed-in user id. */
  function RequesterOf(users: seq<User>, who: Option<UserId>): (r: Requester)
    requires who.Some? ==> who.value < |users|
  {
    if who.None? then Anonymous else SignedIn(users[who.value])
  }

  /** The answer of a view behind `role_required(role)` to a requester it turns away. */
  function DeniedTo(who: Requester): Reply
  {
    if who.Anonymous? then Denied(LoginRequired) else Denied(InsufficientRights)
  }

  // ---------------------------------------------------------------------
  // process_create

  /** The valid POST of the creation page: the MIFI flag and the co-author rows kept. */
  datatype CreateForm = CreateForm(isMifi: bool, coauthorCount: nat)

  /**
   * `process_create`: creation is open to the same requesters as
   * `role_required(AUTHOR)` would let through (authors and superusers); any
   * other signed-in user is sent to the dashboard.
   */
  function CreateReply(who: Requester, post: Option<CreateForm>): (r: Reply)
    ensures r == Done <==> Allows({Author}, who) && post.Some?
    ensures r == Page <==> Allows({Author}, who) && post.None?
    ensures r == ToDashboard <==> who.SignedIn? && !Allows({Author}, who)
    ensures who.Anonymous? ==> r == Denied(LoginRequired)
  {
    if who.Anonymous? then Denied(LoginRequired)
    else if who.user.role != Author && !who.user.isSuperuser then ToDashboard
    else if post.None? then Page
    else Done
  }

  /**
   * `process_create`: a valid POST saves the process with the requester as
   * author and its co-authors, then always runs creation routing.
   */
  method ProcessCreate(w: Workflow, who: Option<UserId>, post: Option<CreateForm>) returns (r: Reply, pid: ProcessId)
    requires w.Valid() && (who.Some? ==> who.value < |w.users|)
    modifies w, w.inbox
    ensures w.Valid() && LegalMoves(old(w.processes), w.processes)
    ensures r == CreateReply(RequesterOf(w.users, who), post)
    ensures r != Done ==> unchanged(w) && unchanged(w.inbox)
    ensures r == Done ==>
      var n, created := post.value.coauthorCount, NewProcess(who.value, post.value.isMifi);
      && who.Some? && post.Some? && pid == |old(w.processes)|
      && w.coauthors == old(w.coauthors) + NewCoauthors(pid, n)
      && w.oekDecisions == old(w.oekDecisions) && w.assignments == old(w.assignments)
      && (n > 0 ==>
            && w.processes == old(w.processes) + [created.(status := WaitingCoauthorConsents)]
            && w.libraryDecisions == old(w.libraryDecisions)
            && w.inbox.notifications == old(w.inbox.notifications) + Notifications.Appended(Some(who.value), ConsentsNeeded(pid), ProcessLink(pid)))
      && (n == 0 ==>
            && w.processes == old(w.processes) + [created.(status := LibraryReview)]
            && w.libraryDecisions == old(w.libraryDecisions)[pid := NewDecisionRecord]
            && w.inbox.notifications == old(w.inbox.notifications) + LibraryNotices(w.users, pid, who.value))
  {
    pid := 0;
    r := CreateReply(RequesterOf(w.users, who), post);
    if r != Done {
      return;
    }
    ghost var cs0 := w.coauthors;
    ghost var ps0 := w.processes;
    pid := w.SaveNewProcess(who.value, post.value.isMifi, post.value.coauthorCount);
    FreshProcessCoauthors(cs0, pid, post.value.coauthorCount);
    w.StartOrAdvanceAfterCreation(pid);
    ghost var created := NewProcess(who.value, post.value.isMifi);
    assert (ps0 + [created])[pid := created.(status := w.processes[pid].status)] == ps0 + [created.(status := w.processes[pid].status)];
  }

  // ---------------------------------------------------------------------
  // process_detail

  /** The `action` of a POST to the process page; anything else, or a GET, is `NoAction`. */
  datatype DetailAction = ResubmitInternal | ResubmitOek | NoAction

  /**
   * `process_detail`: an author who neither owns the process nor is a
   * superuser gets a 404; resubmissions are dispatched only for requesters
   * with the AUTHOR role and only for the two recognised actions.
   */
  function DetailReply(users: seq<User>, who: Option<UserId>, ps: seq<Process>, pid: ProcessId, action: DetailAction): (r: Reply)
    requires who.Some? ==> who.value < |users|
    ensures who.None? ==> r == Denied(LoginRequired)
    ensures r == NotFound <==>
      who.Some? && (pid >= |ps|
        || (users[who.value].role == Author && ps[pid].author != who.value && !users[who.value].isSuperuser))
    ensures r == Done <==>
      who.Some? && pid < |ps| && users[who.value].role == Author
      && (ps[pid].author == who.value || users[who.value].isSuperuser) && action != NoAction
    ensures r == Done || r == Page || r == NotFound || r == Denied(LoginRequired)
  {
    if who.None? then Denied(LoginRequired)
    else if pid >= |ps| then NotFound
    else
      var u := users[who.value];
      if u.role == Author && ps[pid].author != who.value && !u.isSuperuser then NotFound
      else if u.role == Author && action != NoAction then Done
      else Page
  }

  /**
   * `process_detail`: the two author resubmissions, each a no-op outside
   * its fix status. The library decision table is never touched: no view
   * reaches `author_resubmit_after_library_fix`.
   */
  method ProcessDetailPost(w: Workflow, who: Option<UserId>, pid: ProcessId, action: DetailAction) returns (r: Reply)
    requires w.Valid() && (who.Some? ==> who.value < |w.users|)
    modifies w, w.inbox
    ensures w.Valid() && LegalMoves(old(w.processes), w.processes)
    ensures r == DetailReply(w.users, who, old(w.processes), pid, action)
    ensures w.libraryDecisions == old(w.libraryDecisions) && w.coauthors == old(w.coauthors)
    ensures r != Done ==> unchanged(w) && unchanged(w.inbox)
    ensures r == Done && action == ResubmitInternal ==>
      && w.oekDecisions == old(w.oekDecisions)
      && (old(w.processes[pid].status) == InternalReviewNeedsFix ==>
            && w.processes == old(w.processes)[pid := old(w.processes[pid]).(status := InternalReview)]
            && |w.assignments| == |old(w.assignments)|
            && (forall i :: 0 <= i < |w.assignments| ==> w.assignments[i] == ResetFor(old(w.assignments[i]), pid))
            && w.inbox.notifications == old(w.inbox.notifications)
                 + Broadcast(ReviewersOf(w.assignments, pid), ReviewAgainTask(pid), ReviewerTasksLink)
                 + Notifications.Appended(Some(old(w.processes[pid]).author), SentToReviewAgain(pid), ProcessLink(pid)))
      && (old(w.processes[pid].status) != InternalReviewNeedsFix ==>
            && w.processes == old(w.processes) && w.assignments == old(w.assignments)
            && w.inbox.notifications == old(w.inbox.notifications))
    ensures r == Done && action == ResubmitOek ==>
      && w.oekDecisions == old(w.oekDecisions) && w.assignments == old(w.assignments)
      && (old(w.processes[pid].status) == OekNeedsFix ==>
            && w.processes == old(w.processes)[pid := old(w.processes[pid]).(status := OekReview)]
            && w.inbox.notifications == old(w.inbox.notifications)
                 + Notifications.Appended(FirstWithRole(w.users, Oek), OekAgainTask(pid), OekTasksLink)
                 + Notifications.Appended(Some(old(w.processes[pid]).author), SentToOekAgain(pid), ProcessLink(pid)))
      && (old(w.processes[pid].status) != OekNeedsFix ==>
            w.processes == old(w.processes) && w.inbox.notifications == old(w.inbox.notifications))
  {
    r := DetailReply(w.users, who, w.processes, pid, action);
    if r != Done {
      return;
    }
    if action == ResubmitInternal {
      w.AuthorResubmitAfterInternalFix(pid);
    } else {
      w.AuthorResubmitAfterOekFix(pid);
    }
  }

  // ---------------------------------------------------------------------
  // upload_coauthor_consent

  /**
   * What is POSTed to the consent page: nothing valid, a scan, or a valid
   * form without a file (the field may be blank), which saves nothing new.
   */
  datatype ConsentPost = NoPost | WithFile | WithoutFile

  /**
   * `upload_coauthor_consent`: only the process's own author finds it (no
   * superuser exception), the co-author must belong to that process, and
   * the upload stage must be active.
   */
  function ConsentReply(who: Option<UserId>, ps: seq<Process>, cs: seq<CoAuthor>, pid: ProcessId, c: nat, post: ConsentPost): (r: Reply)
    ensures who.None? ==> r == Denied(LoginRequired)
    ensures r == NotFound <==>
      who.Some? && (pid >= |ps| || ps[pid].author != who.value || c >= |cs| || cs[c].process != pid)
    ensures r == WrongStage <==>
      who.Some? && pid < |ps| && ps[pid].author == who.value && c < |cs| && cs[c].process == pid
      && ps[pid].status != WaitingCoauthorConsents
    ensures r == Done <==>
      who.Some? && pid < |ps| && ps[pid].author == who.value && c < |cs| && cs[c].process == pid
      && ps[pid].status == WaitingCoauthorConsents && post != NoPost
    ensures r == Done || r == Page || r == NotFound || r == WrongStage || r == Denied(LoginRequired)
  {
    if who.None? then Denied(LoginRequired)
    else if pid >= |ps| || ps[pid].author != who.value then NotFound
    else if c >= |cs| || cs[c].process != pid then NotFound
    else if ps[pid].status != WaitingCoauthorConsents then WrongStage
    else if post == NoPost then Page
    else Done
  }

  /** `upload_coauthor_consent`: a successful upload is saved and always tries to advance. */
  method UploadCoauthorConsent(w: Workflow, who: Option<UserId>, pid: ProcessId, c: nat, post: ConsentPost) returns (r: Reply)
    requires w.Valid()
    modifies w, w.inbox
    ensures w.Valid() && LegalMoves(old(w.processes), w.processes)
    ensures r == ConsentReply(who, old(w.processes), old(w.coauthors), pid, c, post)
    ensures r != Done ==> unchanged(w) && unchanged(w.inbox)
    ensures r == Done ==>
      && w.coauthors == (if post == WithFile then old(w.coauthors)[c := old(w.coauthors[c]).(hasConsent := true)]
                         else old(w.coauthors))
      && w.oekDecisions == old(w.oekDecisions) && w.assignments == old(w.assignments)
      && (AllCoauthorConsentsUploaded(w.coauthors, pid) ==>
            && w.processes == old(w.processes)[pid := old(w.processes[pid]).(status := LibraryReview)]
            && w.libraryDecisions == old(w.libraryDecisions)[pid := NewDecisionRecord]
            && w.inbox.notifications == old(w.inbox.notifications) + LibraryNotices(w.users, pid, who.value))
      && (!AllCoauthorConsentsUploaded(w.coauthors, pid) ==>
            && w.processes == old(w.processes) && w.libraryDecisions == old(w.libraryDecisions)
            && w.inbox.notifications == old(w.inbox.notifications))
  {
    r := ConsentReply(who, w.processes, w.coauthors, pid, c, post);
    if r != Done {
      return;
    }
    if post == WithFile {
      w.SaveConsent(c);
    }
    w.TryAdvanceAfterCoauthorConsents(pid);
  }

  // ---------------------------------------------------------------------
  // library_decide and oek_decide_view

  /**
   * `library_decide` and `oek_decide_view` before the service call: behind
   * `role_required(role)`, the process must exist and be at `stage`, and a
   * submitted decision must be APPROVED or REJECTED.
   */
  function DecideReply(role: Role, who: Requester, ps: seq<Process>, pid: ProcessId, stage: Status, choice: Option<Decision>): (r: Reply)
    ensures !Allows({role}, who) ==> r == DeniedTo(who)
    ensures r == NotFound <==> Allows({role}, who) && pid >= |ps|
    ensures r == WrongStage <==> Allows({role}, who) && pid < |ps| && ps[pid].status != stage
    ensures r == Page <==> Allows({role}, who) && pid < |ps| && ps[pid].status == stage && choice.None?
    ensures r == NoChoice <==> Allows({role}, who) && pid < |ps| && ps[pid].status == stage && choice == Some(Decision.Pending)
    ensures r == Done <==>
      Allows({role}, who) && pid < |ps| && ps[pid].status == stage && choice.Some? && choice.value != Decision.Pending
  {
    if !Allows({role}, who) then DeniedTo(who)
    else if pid >= |ps| then NotFound
    else if ps[pid].status != stage then WrongStage
    else if choice.None? then Page
    else if choice.value == Decision.Pending then NoChoice
    else Done
  }

  /** The decision form of the library and OEK pages. */
  datatype DecisionForm = DecisionForm(decision: Decision, comment: string)

  function ChoiceOf(post: Option<DecisionForm>): Option<Decision>
  {
    if post.None? then None else Some(post.value.decision)
  }

  /**
   * `library_decide`: an accepted decision is applied by
   * `library_apply_decision` with the requester as librarian.
   */
  method LibraryDecide(w: Workflow, who: Option<UserId>, pid: ProcessId, post: Option<DecisionForm>, now: Timestamp, rnd: nat)
    returns (r: Reply)
    requires w.Valid() && (who.Some? ==> who.value < |w.users|)
    modifies w, w.inbox
    ensures w.Valid() && LegalMoves(old(w.processes), w.processes)
    ensures r == DecideReply(LibraryHead, RequesterOf(w.users, who), old(w.processes), pid, LibraryReview, ChoiceOf(post))
    ensures r != Done ==> unchanged(w) && unchanged(w.inbox)
    ensures r == Done ==>
      var approved, author := post.value.decision == Approved, old(w.processes[pid]).author;
      var approvedNotice := Notifications.Appended(Some(author), LibraryApproved(pid), ProcessLink(pid));
      && who.Some?
      && w.libraryDecisions == old(w.libraryDecisions)[pid :=
           DecisionRecord(post.value.decision, Some(who.value), post.value.comment, Some(now))]
      && w.coauthors == old(w.coauthors)
      && (!approved ==>
            && w.processes == old(w.processes)[pid := old(w.processes[pid]).(status := LibraryNeedsFix)]
            && w.oekDecisions == old(w.oekDecisions) && w.assignments == old(w.assignments)
            && w.inbox.notifications == old(w.inbox.notifications)
                 + Notifications.Appended(Some(author), LibraryRejected(pid, post.value.comment), ProcessLink(pid)))
      && (approved && old(w.processes[pid].isMifi) ==>
            var chosen := ChooseReviewers(WithRole(w.users, Reviewer), rnd);
            && w.processes == old(w.processes)[pid := old(w.processes[pid]).(status := InternalReview)]
            && w.oekDecisions == old(w.oekDecisions)
            && w.assignments == old(w.assignments) + FreshAssignments(pid, chosen)
            && w.inbox.notifications == old(w.inbox.notifications) + ReviewNotices(chosen, pid, author) + approvedNotice)
      && (approved && !old(w.processes[pid].isMifi) ==>
            && w.processes == old(w.processes)[pid := old(w.processes[pid]).(status := OekReview)]
            && w.oekDecisions == old(w.oekDecisions)[pid := NewDecisionRecord]
            && w.assignments == old(w.assignments)
            && w.inbox.notifications == old(w.inbox.notifications) + OekNotices(w.users, pid, author) + approvedNotice)
  {
    r := DecideReply(LibraryHead, RequesterOf(w.users, who), w.processes, pid, LibraryReview, ChoiceOf(post));
    if r != Done {
      return;
    }
    w.LibraryApplyDecision(pid, post.value.decision == Approved, post.value.comment, who.value, now, rnd);
  }

  /** The OEK decision form: the decision, and the optional defense date and room. */
  datatype OekForm = OekForm(decision: Decision, comment: string, defenseDatetime: Option<Timestamp>, defenseRoom: string)

  function OekChoiceOf(post: Option<OekForm>): Option<Decision>
  {
    if post.None? then None else Some(post.value.decision)
  }

  /**
   * `oek_decide_view`: an accepted decision is applied by
   * `oek_apply_decision` with the requester as officer. The room field
   * always arrives (blank when left empty), so an approval always
   * overwrites the room; the date only when one is entered.
   */
  method OekDecideView(w: Workflow, who: Option<UserId>, pid: ProcessId, post: Option<OekForm>, now: Timestamp)
    returns (r: Reply)
    requires w.Valid() && (who.Some? ==> who.value < |w.users|)
    modifies w, w.inbox
    ensures w.Valid() && LegalMoves(old(w.processes), w.processes)
    ensures r == DecideReply(Oek, RequesterOf(w.users, who), old(w.processes), pid, OekReview, OekChoiceOf(post))
    ensures r != Done ==> unchanged(w) && unchanged(w.inbox)
    ensures r == Done ==>
      && who.Some?
      && w.oekDecisions == old(w.oekDecisions)[pid :=
           DecisionRecord(post.value.decision, Some(who.value), post.value.comment, Some(now))]
      && w.coauthors == old(w.coauthors) && w.libraryDecisions == old(w.libraryDecisions)
      && w.assignments == old(w.assignments)
      && (post.value.decision == Approved ==>
            && w.processes == old(w.processes)[pid := old(w.processes[pid]).(
                 status := ReadyForDefense,
                 defenseDatetime := if post.value.defenseDatetime.Some? then post.value.defenseDatetime
                                    else old(w.processes[pid].defenseDatetime),
                 defenseRoom := post.value.defenseRoom)]
            && w.inbox.notifications == old(w.inbox.notifications)
                 + Notifications.Appended(Some(old(w.processes[pid]).author), OekApproved(pid), ProcessLink(pid))
                 + Broadcast(WithRole(w.users, Commission), ReadyForDefenseNotice(pid), ProcessLink(pid)))
      && (post.value.decision != Approved ==>
            && w.processes == old(w.processes)[pid := old(w.processes[pid]).(status := OekNeedsFix)]
            && w.inbox.notifications == old(w.inbox.notifications)
                 + Notifications.Appended(Some(old(w.processes[pid]).author), OekRejected(pid, post.value.comment), ProcessLink(pid)))
  {
    r := DecideReply(Oek, RequesterOf(w.users, who), w.processes, pid, OekReview, OekChoiceOf(post));
    if r != Done {
      return;
    }
    var f := post.value;
    w.OekApplyDecision(pid, f.decision == Approved, f.comment, who.value, now, f.defenseDatetime, Some(f.defenseRoom));
  }

  // ---------------------------------------------------------------------
  // reviewer_submit_view

  /** The verdict form of the reviewer page. */
  datatype VerdictForm = VerdictForm(verdict: Verdict, comment: string)

  /**
   * `reviewer_submit_view`: behind `role_required(REVIEWER)`, only the
   * requester's own assignment is found (a superuser too must be its
   * reviewer), its process must be in INTERNAL_REVIEW, and PENDING is not a
   * verdict.
   */
  function ReviewReply(users: seq<User>, who: Option<UserId>, ps: seq<Process>, asg: seq<Assignment>, aid: nat,
                       choice: Option<Verdict>): (r: Reply)
    requires who.Some? ==> who.value < |users|
    requires forall i :: 0 <= i < |asg| ==> asg[i].process < |ps|
    ensures !Allows({Reviewer}, RequesterOf(users, who)) ==> r == DeniedTo(RequesterOf(users, who))
    ensures r == NotFound <==>
      Allows({Reviewer}, RequesterOf(users, who)) && (aid >= |asg| || asg[aid].reviewer != who.value)
    ensures r == WrongStage <==>
      Allows({Reviewer}, RequesterOf(users, who)) && aid < |asg| && asg[aid].reviewer == who.value
      && ps[asg[aid].process].status != InternalReview
    ensures r == NoChoice <==>
      Allows({Reviewer}, RequesterOf(users, who)) && aid < |asg| && asg[aid].reviewer == who.value
      && ps[asg[aid].process].status == InternalReview && choice == Some(Verdict.Pending)
    ensures r == Done <==>
      Allows({Reviewer}, RequesterOf(users, who)) && aid < |asg| && asg[aid].reviewer == who.value
      && ps[asg[aid].process].status == InternalReview && choice.Some? && choice.value != Verdict.Pending
  {
    var requester := RequesterOf(users, who);
    if !Allows({Reviewer}, requester) then DeniedTo(requester)
    else if aid >= |asg| || asg[aid].reviewer != who.value then NotFound
    else if ps[asg[aid].process].status != InternalReview then WrongStage
    else if choice.None? then Page
    else if choice.value == Verdict.Pending then NoChoice
    else Done
  }

  function VerdictOf(post: Option<VerdictForm>): Option<Verdict>
  {
    if post.None? then None else Some(post.value.verdict)
  }

  /** `reviewer_submit_view`: an accepted verdict is recorded by `reviewer_submit`. */
  method ReviewerSubmitView(w: Workflow, who: Option<UserId>, aid: nat, post: Option<VerdictForm>, now: Timestamp)
    returns (r: Reply)
    requires w.Valid() && (who.Some? ==> who.value < |w.users|)
    modifies w, w.inbox
    ensures w.Valid() && LegalMoves(old(w.processes), w.processes)
    ensures r == ReviewReply(w.users, who, old(w.processes), old(w.assignments), aid, VerdictOf(post))
    ensures r != Done ==> unchanged(w) && unchanged(w.inbox)
    ensures r == Done ==>
      && w.assignments == old(w.assignments)[aid := old(w.assignments[aid]).(
           verdict := post.value.verdict, comment := post.value.comment, decidedAt := Some(now))]
      && w.coauthors == old(w.coauthors) && w.libraryDecisions == old(w.libraryDecisions)
      && var pid := old(w.assignments[aid]).process;
         var author := old(w.processes[pid]).author;
         var received := old(w.inbox.notifications) + Notifications.Appended(Some(author), ReviewReceived(pid, who.value), ProcessLink(pid));
         var vs := VerdictsOf(w.assignments, pid);
         if Verdict.Pending in vs then
           w.processes == old(w.processes) && w.oekDecisions == old(w.oekDecisions) && w.inbox.notifications == received
         else
           && w.processes == old(w.processes)[pid := old(w.processes[pid]).(status := TargetStatus(Decide(vs)))]
           && w.oekDecisions == (if Decide(vs) == TwoRecommend then old(w.oekDecisions)[pid := NewDecisionRecord]
                                 else old(w.oekDecisions))
           && w.inbox.notifications == received + QuorumNotices(w.users, pid, author, Decide(vs))
  {
    r := ReviewReply(w.users, who, w.processes, w.assignments, aid, VerdictOf(post));
    if r != Done {
      return;
    }
    w.ReviewerSubmit(aid, post.value.verdict, post.value.comment, now);
  }

  // ---------------------------------------------------------------------
  // dashboard

  /** The ids of the processes of one author, in id order. */
  function ProcessesBy(ps: seq<Process>, author: UserId): (ids: seq<ProcessId>)
    ensures forall q: ProcessId :: q in ids <==> q < |ps| && ps[q].author == author
  {
    if ps == [] then []
    else
      var init := ProcessesBy(ps[..|ps| - 1], author);
      init + (if ps[|ps| - 1].author == author then [|ps| - 1] else [])
  }

  /** The ids of the processes in one status, in id order. */
  function ProcessesIn(ps: seq<Process>, s: Status): (ids: seq<ProcessId>)
    ensures forall q: ProcessId :: q in ids <==> q < |ps| && ps[q].status == s
  {
    if ps == [] then []
    else
      var init := ProcessesIn(ps[..|ps| - 1], s);
      init + (if ps[|ps| - 1].status == s then [|ps| - 1] else [])
  }

  /** The ids of the assignments of one reviewer, in id order. */
  function AssignmentsOf(asg: seq<Assignment>, reviewer: UserId): (ids: seq<nat>)
    ensures forall i: nat :: i in ids <==> i < |asg| && asg[i].reviewer == reviewer
  {
    if asg == [] then []
    else
      var init := AssignmentsOf(asg[..|asg| - 1], reviewer);
      init + (if asg[|asg| - 1].reviewer == reviewer then [|asg| - 1] else [])
  }

  /** What the dashboard lists: processes, or (for a reviewer) assignments. */
  datatype Listing = ProcessIds(ids: seq<ProcessId>) | AssignmentIds(ids: seq<nat>)

  /**
   * `dashboard` for a signed-in user: the role alone selects the list
   * (a superuser is listed by role like everyone else).
   */
  function Dashboard(users: seq<User>, who: UserId, ps: seq<Process>, asg: seq<Assignment>): (l: Listing)
    requires who < |users|
    ensures l.AssignmentIds? <==> users[who].role == Reviewer
    ensures users[who].role == Reviewer ==> forall i: nat :: i in l.ids <==> i < |asg| && asg[i].reviewer == who
    ensures users[who].role == Author ==> forall q: nat :: q in l.ids <==> q < |ps| && ps[q].author == who
    ensures users[who].role == LibraryHead ==> forall q: nat :: q in l.ids <==> q < |ps| && ps[q].status == LibraryReview
    ensures users[who].role == Oek ==> forall q: nat :: q in l.ids <==> q < |ps| && ps[q].status == OekReview
    ensures users[who].role == Commission ==> forall q: nat :: q in l.ids <==> q < |ps| && ps[q].status == ReadyForDefense
  {
    match users[who].role
    case Author => ProcessIds(ProcessesBy(ps, who))
    case LibraryHead => ProcessIds(ProcessesIn(ps, LibraryReview))
    case Reviewer => AssignmentIds(AssignmentsOf(asg, who))
    case Oek => ProcessIds(ProcessesIn(ps, OekReview))
    case Commission => ProcessIds(ProcessesIn(ps, ReadyForDefense))
  }

  /**
   * A library head's dashboard lists exactly the processes on which the
   * library decision page accepts a decision.
   */
  lemma LibraryTasksActionable(users: seq<User>, who: UserId, ps: seq<Process>, asg: seq<Assignment>, pid: ProcessId, d: Decision)
    requires who < |users| && users[who].role == LibraryHead && d != Decision.Pending
    ensures pid in Dashboard(users, who, ps, asg).ids
            <==> DecideReply(LibraryHead, RequesterOf(users, Some(who)), ps, pid, LibraryReview, Some(d)) == Done
  {
  }

  /** An OEK officer's dashboard lists exactly the processes on which the OEK page accepts a decision. */
  lemma OekTasksActionable(users: seq<User>, who: UserId, ps: seq<Process>, asg: seq<Assignment>, pid: ProcessId, d: Decision)
    requires who < |users| && users[who].role == Oek && d != Decision.Pending
    ensures pid in Dashboard(users, who, ps, asg).ids
            <==> DecideReply(Oek, RequesterOf(users, Some(who)), ps, pid, OekReview, Some(d)) == Done
  {
  }

  /**
   * A reviewer's dashboard lists exactly the assignments the verdict page
   * finds for them; those of processes still in internal review accept a
   * verdict.
   */
  lemma ReviewerTasksFound(users: seq<User>, who: UserId, ps: seq<Process>, asg: seq<Assignment>, aid: nat, v: Verdict)
    requires who < |users| && users[who].role == Reviewer && v != Verdict.Pending
    requires forall i :: 0 <= i < |asg| ==> asg[i].process < |ps|
    ensures aid in Dashboard(users, who, ps, asg).ids <==> ReviewReply(users, Some(who), ps, asg, aid, Some(v)) != NotFound
    ensures aid in Dashboard(users, who, ps, asg).ids && ps[asg[aid].process].status == InternalReview
            ==> ReviewReply(users, Some(who), ps, asg, aid, Some(v)) == Done
  {
  }
}
