/**
 * The publication-approval workflow engine: creation routing, the co-author
 * consent gate, the library decision, reviewer assignment and verdicts with
 * the quorum rule, the OEK decision, and the three resubmissions after a fix.
 *
 * The class `Workflow` holds the tables the engine reads and writes. Primary
 * keys are positions: a user's id is its index in `users` (so ordering by id
 * is sequence order), a process's id its index in `processes`, an
 * assignment's id its index in `assignments`, a co-author's id its index in
 * `coauthors`. `timezone.now()` is the parameter `now`; the random source of
 * `random.sample` is the parameter `rnd`.
 */
module Services {
  import opened Wrappers
  import opened Accounts
  import opened Models
  import opened Quorum
  import opened Sampling
  import opened Notifications

  /** The notification texts, by kind; the wording itself is opaque. */
  datatype Message =
    | ConsentsNeeded(process: ProcessId)
    | LibraryTask(process: ProcessId)
    | SentToLibrary(process: ProcessId)
    | LibraryApproved(process: ProcessId)
    | LibraryRejected(process: ProcessId, comment: string)
    | ReviewTask(process: ProcessId)
    | SentToInternalReview(process: ProcessId)
    | ReviewReceived(process: ProcessId, reviewer: UserId)
    | RejectedByReviews(process: ProcessId)
    | FixRequestedByReviews(process: ProcessId)
    | ClarificationRequestedByReviews(process: ProcessId)
    | ReviewAgainTask(process: ProcessId)
    | SentToReviewAgain(process: ProcessId)
    | OekTask(process: ProcessId)
    | SentToOek(process: ProcessId)
    | OekApproved(process: ProcessId)
    | ReadyForDefenseNotice(process: ProcessId)
    | OekRejected(process: ProcessId, comment: string)
    | OekAgainTask(process: ProcessId)
    | SentToOekAgain(process: ProcessId)
    | LibraryAgainTask(process: ProcessId)
    | SentToLibraryAgain(process: ProcessId)

  const LibraryTasksLink: string := "/tasks/library/"
  const ReviewerTasksLink: string := "/tasks/reviewer/"
  const OekTasksLink: string := "/tasks/oek/"

  /** Decimal digits of a primary key. */
  function Digits(n: nat): (s: string)
    ensures |s| >= 1
  {
    var d := ['0', '1', '2', '3', '4', '5', '6', '7', '8', '9'][n % 10];
    if n < 10 then [d] else Digits(n / 10) + [d]
  }

  /** `/process/<pk>/`, the page of one process. */
  function ProcessLink(pid: ProcessId): string
  {
    "/process/" + Digits(pid) + "/"
  }

  // ---------------------------------------------------------------------
  // Queries on the user directory

  /** `User.objects.filter(role=role).order_by("id").first()`. */
  function FirstWithRole(users: seq<User>, role: Role): (r: Option<UserId>)
    ensures r.Some? ==> r.value < |users| && users[r.value].role == role
    ensures r.Some? ==> forall j :: 0 <= j < r.value ==> users[j].role != role
    ensures r.None? ==> forall j :: 0 <= j < |users| ==> users[j].role != role
  {
    if users == [] then None
    else
      var first := FirstWithRole(users[..|users| - 1], role);
      if first.Some? then first
      else if users[|users| - 1].role == role then Some(|users| - 1)
      else None
  }

  /** `User.objects.filter(role=role).order_by("id")`, as ids. */
  function WithRole(users: seq<User>, role: Role): (ids: seq<UserId>)
    ensures forall x: UserId :: x in ids <==> x < |users| && users[x].role == role
    ensures (forall u :: 0 <= u < |users| ==> users[u].role != role) ==> ids == []
    ensures forall i, j :: 0 <= i < j < |ids| ==> ids[i] < ids[j]
    ensures Distinct(ids)
  {
    if users == [] then []
    else
      var init := WithRole(users[..|users| - 1], role);
      assert forall i :: 0 <= i < |init| ==> init[i] < |users| - 1 by {
        forall i | 0 <= i < |init| ensures init[i] < |users| - 1 {
          assert init[i] in init;
        }
      }
      init + (if users[|users| - 1].role == role then [|users| - 1] else [])
  }

  // ---------------------------------------------------------------------
  // Batches of notifications

  /** One unread notification per recipient, in order. */
  function Broadcast(recipients: seq<UserId>, m: Message, link: string): (ns: seq<Notification<Message>>)
    ensures |ns| == |recipients|
    ensures forall i :: 0 <= i < |ns| ==> ns[i] == Notification(recipients[i], m, link, false)
  {
    if recipients == [] then []
    else Broadcast(recipients[..|recipients| - 1], m, link) + [Notification(recipients[|recipients| - 1], m, link, false)]
  }

  /** What `send_to_library` sends: a task to the first library head, a notice to the author. */
  function LibraryNotices(users: seq<User>, pid: ProcessId, author: UserId): seq<Notification<Message>>
  {
    Appended(FirstWithRole(users, LibraryHead), LibraryTask(pid), LibraryTasksLink)
    + Appended(Some(author), SentToLibrary(pid), ProcessLink(pid))
  }

  /** What `send_to_oek` sends: a task to the first OEK officer, a notice to the author. */
  function OekNotices(users: seq<User>, pid: ProcessId, author: UserId): seq<Notification<Message>>
  {
    Appended(FirstWithRole(users, Oek), OekTask(pid), OekTasksLink)
    + Appended(Some(author), SentToOek(pid), ProcessLink(pid))
  }

  /** What `assign_reviewers` sends: a task to each chosen reviewer, a notice to the author. */
  function ReviewNotices(chosen: seq<UserId>, pid: ProcessId, author: UserId): seq<Notification<Message>>
  {
    Broadcast(chosen, ReviewTask(pid), ReviewerTasksLink)
    + Appended(Some(author), SentToInternalReview(pid), ProcessLink(pid))
  }

  /** What `reviewer_submit` sends the author once the quorum rule has fired. */
  function QuorumNotices(users: seq<User>, pid: ProcessId, author: UserId, o: Outcome): seq<Notification<Message>>
  {
    match o
    case TwoNotRecommend => Appended(Some(author), RejectedByReviews(pid), ProcessLink(pid))
    case AfterFixRequested => Appended(Some(author), FixRequestedByReviews(pid), ProcessLink(pid))
    case TwoRecommend => OekNotices(users, pid, author)
    case NoRuleMatched => Appended(Some(author), ClarificationRequestedByReviews(pid), ProcessLink(pid))
  }

  // ---------------------------------------------------------------------
  // Co-authors and the consent gate

  /** `process.coauthors.all()`. */
  function CoauthorsOf(cs: seq<CoAuthor>, pid: ProcessId): (r: seq<CoAuthor>)
    ensures forall c :: c in r <==> c in cs && c.process == pid
  {
    if cs == [] then []
    else
      var last := cs[|cs| - 1];
      CoauthorsOf(cs[..|cs| - 1], pid) + (if last.process == pid then [last] else [])
  }

  predicate HasCoauthors(cs: seq<CoAuthor>, pid: ProcessId)
  {
    CoauthorsOf(cs, pid) != []
  }

  predicate AllConsented(cs: seq<CoAuthor>)
  {
    forall i :: 0 <= i < |cs| ==> cs[i].hasConsent
  }

  /**
   * `all_coauthor_consents_uploaded`: true without co-authors, else all must
   * have a scan; the early return for no co-authors is the vacuous case of `all`.
   */
  function AllCoauthorConsentsUploaded(cs: seq<CoAuthor>, pid: ProcessId): (ok: bool)
    ensures ok <==> forall c :: c in CoauthorsOf(cs, pid) ==> c.hasConsent
  {
    if !HasCoauthors(cs, pid) then true
    else AllConsented(CoauthorsOf(cs, pid))
  }

  /** The gate holds exactly when every co-author of the process has a consent scan. */
  lemma AllConsentsUploadedIff(cs: seq<CoAuthor>, pid: ProcessId)
    ensures AllCoauthorConsentsUploaded(cs, pid)
            <==> forall i :: 0 <= i < |cs| && cs[i].process == pid ==> cs[i].hasConsent
    ensures HasCoauthors(cs, pid) <==> exists i :: 0 <= i < |cs| && cs[i].process == pid
  {
    var mine := CoauthorsOf(cs, pid);
    if forall i :: 0 <= i < |cs| && cs[i].process == pid ==> cs[i].hasConsent {
      forall k | 0 <= k < |mine| ensures mine[k].hasConsent {
        assert mine[k] in cs;
      }
    }
    if exists i :: 0 <= i < |cs| && cs[i].process == pid {
      var i :| 0 <= i < |cs| && cs[i].process == pid;
      assert cs[i] in mine;
    }
    if mine != [] {
      assert mine[0] in cs;
    }
  }

  /** Consents are vacuously complete for a process without co-authors. */
  lemma NoCoauthorsNoGate(cs: seq<CoAuthor>, pid: ProcessId)
    requires forall i :: 0 <= i < |cs| ==> cs[i].process != pid
    ensures AllCoauthorConsentsUploaded(cs, pid) && !HasCoauthors(cs, pid)
  {
    AllConsentsUploadedIff(cs, pid);
  }

  /**
   * Uploading the consent of co-author `c` opens the gate exactly when every
   * other co-author of the process already has one.
   */
  lemma LastConsentOpensGate(cs: seq<CoAuthor>, pid: ProcessId, c: nat)
    requires c < |cs| && cs[c].process == pid
    ensures AllCoauthorConsentsUploaded(cs[c := cs[c].(hasConsent := true)], pid)
            <==> forall i :: 0 <= i < |cs| && i != c && cs[i].process == pid ==> cs[i].hasConsent
  {
    var after := cs[c := cs[c].(hasConsent := true)];
    AllConsentsUploadedIff(after, pid);
    if forall i :: 0 <= i < |cs| && i != c && cs[i].process == pid ==> cs[i].hasConsent {
      forall i | 0 <= i < |after| && after[i].process == pid ensures after[i].hasConsent {
        if i != c { assert after[i] == cs[i]; }
      }
    }
    if forall i :: 0 <= i < |after| && after[i].process == pid ==> after[i].hasConsent {
      forall i | 0 <= i < |cs| && i != c && cs[i].process == pid ensures cs[i].hasConsent {
        assert after[i] == cs[i];
      }
    }
  }

  /** `n` co-authors of process `pid`, none having a consent scan yet. */
  function NewCoauthors(pid: ProcessId, n: nat): (cs: seq<CoAuthor>)
    ensures |cs| == n
    ensures forall i :: 0 <= i < n ==> cs[i] == CoAuthor(pid, false)
  {
    if n == 0 then [] else NewCoauthors(pid, n - 1) + [CoAuthor(pid, false)]
  }

  /**
   * The co-authors of a process just saved are exactly the ones saved with
   * it: it has some iff `n > 0`, and then none has a consent scan yet.
   */
  lemma FreshProcessCoauthors(cs: seq<CoAuthor>, pid: ProcessId, n: nat)
    requires forall i :: 0 <= i < |cs| ==> cs[i].process < pid
    ensures HasCoauthors(cs + NewCoauthors(pid, n), pid) <==> n > 0
    ensures AllCoauthorConsentsUploaded(cs + NewCoauthors(pid, n), pid) <==> n == 0
  {
    var all := cs + NewCoauthors(pid, n);
    AllConsentsUploadedIff(all, pid);
    if n > 0 {
      assert all[|cs|] == CoAuthor(pid, false);
    }
  }

  // ---------------------------------------------------------------------
  // Reviewer assignments

  /** The ids of the rows of `process.review_assignments`, in table order. */
  function RowsOf(asg: seq<Assignment>, pid: ProcessId): (ids: seq<nat>)
    ensures forall i: nat :: i in ids <==> i < |asg| && asg[i].process == pid
    ensures forall k :: 0 <= k < |ids| ==> ids[k] < |asg| && asg[ids[k]].process == pid
    ensures forall j, k :: 0 <= j < k < |ids| ==> ids[j] < ids[k]
  {
    if asg == [] then []
    else
      var init := RowsOf(asg[..|asg| - 1], pid);
      init + (if asg[|asg| - 1].process == pid then [|asg| - 1] else [])
  }

  /** `process.review_assignments.values_list("verdict", flat=True)`: the verdict of each row, in table order. */
  function VerdictsOf(asg: seq<Assignment>, pid: ProcessId): (vs: seq<Verdict>)
    ensures |vs| == |RowsOf(asg, pid)| && |vs| <= |asg|
    ensures forall k :: 0 <= k < |vs| ==> vs[k] == asg[RowsOf(asg, pid)[k]].verdict
  {
    if asg == [] then []
    else
      var last := asg[|asg| - 1];
      VerdictsOf(asg[..|asg| - 1], pid) + (if last.process == pid then [last.verdict] else [])
  }

  /** The reviewers of `process.review_assignments.all()`, in table order. */
  function ReviewersOf(asg: seq<Assignment>, pid: ProcessId): (rs: seq<UserId>)
    ensures |rs| == |RowsOf(asg, pid)| && |rs| <= |asg|
    ensures forall k :: 0 <= k < |rs| ==> rs[k] == asg[RowsOf(asg, pid)[k]].reviewer
  {
    if asg == [] then []
    else
      var last := asg[|asg| - 1];
      ReviewersOf(asg[..|asg| - 1], pid) + (if last.process == pid then [last.reviewer] else [])
  }

  /** The reviewers listed are exactly those holding an assignment of the process. */
  lemma {:induction false} ReviewersOfMembers(asg: seq<Assignment>, pid: ProcessId)
    ensures forall r :: r in ReviewersOf(asg, pid) <==> HasAssignment(asg, pid, r)
  {
    if asg != [] {
      var init := asg[..|asg| - 1];
      ReviewersOfMembers(init, pid);
      forall r | HasAssignment(init, pid, r) ensures HasAssignment(asg, pid, r) {
        var i :| 0 <= i < |init| && init[i].process == pid && init[i].reviewer == r;
        assert asg[i] == init[i];
      }
      forall r | HasAssignment(asg, pid, r) ensures r in ReviewersOf(asg, pid) {
        var i :| 0 <= i < |asg| && asg[i].process == pid && asg[i].reviewer == r;
        if i < |init| { assert init[i] == asg[i]; }
      }
    }
  }

  /** Filtering distributes over concatenation of tables. */
  lemma {:induction false} VerdictsOfAppend(xs: seq<Assignment>, ys: seq<Assignment>, pid: ProcessId)
    ensures VerdictsOf(xs + ys, pid) == VerdictsOf(xs, pid) + VerdictsOf(ys, pid)
  {
    if ys != [] {
      var init := ys[..|ys| - 1];
      VerdictsOfAppend(xs, init, pid);
      assert (xs + ys)[..|xs + ys| - 1] == xs + init;
      assert (xs + ys)[|xs + ys| - 1] == ys[|ys| - 1];
    } else {
      assert xs + ys == xs;
    }
  }

  /** A PENDING verdict is listed exactly when some assignment of the process is PENDING. */
  lemma {:induction false} PendingIffSomeAssignmentPending(asg: seq<Assignment>, pid: ProcessId)
    ensures Verdict.Pending in VerdictsOf(asg, pid)
            <==> exists i :: 0 <= i < |asg| && asg[i].process == pid && asg[i].verdict == Verdict.Pending
  {
    var vs, ids := VerdictsOf(asg, pid), RowsOf(asg, pid);
    if Verdict.Pending in vs {
      var k :| 0 <= k < |vs| && vs[k] == Verdict.Pending;
      assert asg[ids[k]].process == pid && asg[ids[k]].verdict == Verdict.Pending;
    }
    if exists i :: 0 <= i < |asg| && asg[i].process == pid && asg[i].verdict == Verdict.Pending {
      var i :| 0 <= i < |asg| && asg[i].process == pid && asg[i].verdict == Verdict.Pending;
      assert i in ids;
      var k :| 0 <= k < |ids| && ids[k] == i;
      assert vs[k] == Verdict.Pending;
    }
  }

  /** `ReviewerAssignment.objects.get_or_create(process=pid, reviewer=r)`. */
  function WithAssignment(asg: seq<Assignment>, pid: ProcessId, r: UserId): (out: seq<Assignment>)
    ensures HasAssignment(out, pid, r)
    ensures |asg| <= |out| <= |asg| + 1 && out[..|asg|] == asg
    ensures |out| == |asg| <==> HasAssignment(asg, pid, r)
  {
    assert !HasAssignment(asg, pid, r) ==> (asg + [NewAssignment(pid, r)])[|asg|] == NewAssignment(pid, r);
    if HasAssignment(asg, pid, r) then asg else asg + [NewAssignment(pid, r)]
  }

  /** `get_or_create` for each reviewer of `rs`, in order. */
  function WithAssignments(asg: seq<Assignment>, pid: ProcessId, rs: seq<UserId>): (out: seq<Assignment>)
    ensures |asg| <= |out| <= |asg| + |rs| && out[..|asg|] == asg
  {
    if rs == [] then asg
    else WithAssignment(WithAssignments(asg, pid, rs[..|rs| - 1]), pid, rs[|rs| - 1])
  }

  /**
   * Get-or-create never duplicates a (process, reviewer) pair, keeps every
   * existing row as it was, only adds PENDING rows of this process for
   * reviewers in `rs`, and leaves every reviewer of `rs` assigned.
   */
  lemma {:induction false} WithAssignmentsSound(asg: seq<Assignment>, pid: ProcessId, rs: seq<UserId>)
    requires UniquePairs(asg)
    ensures var out := WithAssignments(asg, pid, rs);
      && UniquePairs(out)
      && |asg| <= |out| && out[..|asg|] == asg
      && (forall i :: |asg| <= i < |out| ==> out[i] == NewAssignment(pid, out[i].reviewer) && out[i].reviewer in rs)
      && (forall r :: r in rs ==> HasAssignment(out, pid, r))
  {
    if rs != [] {
      var init := rs[..|rs| - 1];
      var r := rs[|rs| - 1];
      WithAssignmentsSound(asg, pid, init);
      var mid := WithAssignments(asg, pid, init);
      var out := WithAssignment(mid, pid, r);
      assert out == WithAssignments(asg, pid, rs);
      if !HasAssignment(mid, pid, r) {
        assert out == mid + [NewAssignment(pid, r)];
        forall r' | r' in rs ensures HasAssignment(out, pid, r') {
          if r' == r {
            assert out[|mid|].process == pid && out[|mid|].reviewer == r;
          } else {
            assert r' in init;
            var i :| 0 <= i < |mid| && mid[i].process == pid && mid[i].reviewer == r';
            assert out[i] == mid[i];
          }
        }
        assert out[..|asg|] == mid[..|asg|];
      } else {
        forall r' | r' in rs ensures HasAssignment(out, pid, r') {
          if r' != r { assert r' in init; }
        }
      }
    }
  }

  /**
   * Without any user in the reviewer role, `assign_reviewers` creates no
   * assignment: the process rests in INTERNAL_REVIEW with no verdict ever
   * to submit.
   */
  lemma NoReviewerNoAssignment(users: seq<User>, pid: ProcessId, rnd: nat)
    requires forall u :: 0 <= u < |users| ==> users[u].role != Reviewer
    ensures ChooseReviewers(WithRole(users, Reviewer), rnd) == []
    ensures FreshAssignments(pid, ChooseReviewers(WithRole(users, Reviewer), rnd)) == []
  {
  }

  /** Fresh PENDING assignments of `pid` for each reviewer of `rs`. */
  function FreshAssignments(pid: ProcessId, rs: seq<UserId>): (out: seq<Assignment>)
    ensures |out| == |rs|
    ensures forall i :: 0 <= i < |rs| ==> out[i] == NewAssignment(pid, rs[i])
  {
    if rs == [] then [] else FreshAssignments(pid, rs[..|rs| - 1]) + [NewAssignment(pid, rs[|rs| - 1])]
  }

  /** For a process with no assignments yet and distinct reviewers, each reviewer gets exactly one new row. */
  lemma {:induction false} WithAssignmentsFresh(asg: seq<Assignment>, pid: ProcessId, rs: seq<UserId>)
    requires forall i :: 0 <= i < |asg| ==> asg[i].process != pid
    requires Distinct(rs)
    ensures WithAssignments(asg, pid, rs) == asg + FreshAssignments(pid, rs)
  {
    if rs != [] {
      var init := rs[..|rs| - 1];
      var r := rs[|rs| - 1];
      assert Distinct(init);
      WithAssignmentsFresh(asg, pid, init);
      var mid := asg + FreshAssignments(pid, init);
      assert !HasAssignment(mid, pid, r);
    }
  }

  /** All verdicts of freshly created assignments are PENDING, one per reviewer. */
  lemma {:induction false} FreshVerdicts(pid: ProcessId, rs: seq<UserId>)
    ensures VerdictsOf(FreshAssignments(pid, rs), pid) == seq(|rs|, _ => Verdict.Pending)
  {
    if rs != [] {
      var init := rs[..|rs| - 1];
      FreshVerdicts(pid, init);
      var out := FreshAssignments(pid, rs);
      assert out[..|out| - 1] == FreshAssignments(pid, init);
      assert VerdictsOf(out, pid) == VerdictsOf(FreshAssignments(pid, init), pid) + [Verdict.Pending];
    }
  }

  /** `reset_reviewers` on one row: back to PENDING, comment and decision time cleared. */
  function ResetFor(a: Assignment, pid: ProcessId): (b: Assignment)
    ensures b.process == a.process && b.reviewer == a.reviewer
    ensures a.Stamped() ==> b.Stamped()
    ensures a.process == pid ==> b.verdict == Verdict.Pending && b.comment == "" && b.decidedAt.None?
    ensures a.process != pid ==> b == a
  {
    if a.process == pid then a.(verdict := Verdict.Pending, comment := "", decidedAt := None) else a
  }

  // ---------------------------------------------------------------------
  // The state machine

  predicate LibraryApprovedRecord(lib: Option<DecisionRecord>)
  {
    lib.Some? && lib.value.decision == Approved
  }

  /**
   * The decision rows a process has in each status: none before the
   * library stage; in library review at most a PENDING library row (a
   * process put there directly may have none yet); an APPROVED one from
   * then on; in OEK review at most an undecided OEK row, and from then on
   * one that is APPROVED exactly when the process is ready for defense.
   */
  predicate StageConsistent(p: Process, lib: Option<DecisionRecord>, oek: Option<DecisionRecord>)
  {
    match p.status
    case Draft => lib.None? && oek.None?
    case WaitingCoauthorConsents => lib.None? && oek.None?
    case LibraryReview => (lib.None? || lib.value.decision == Decision.Pending) && oek.None?
    case LibraryNeedsFix => lib.Some? && lib.value.decision == Decision.Rejected && oek.None?
    case InternalReview => p.isMifi && LibraryApprovedRecord(lib) && oek.None?
    case InternalReviewNeedsFix => p.isMifi && LibraryApprovedRecord(lib) && oek.None?
    case Rejected => p.isMifi && LibraryApprovedRecord(lib) && oek.None?
    case OekReview => LibraryApprovedRecord(lib) && (oek.None? || oek.value.decision != Approved)
    case OekNeedsFix => LibraryApprovedRecord(lib) && oek.Some? && oek.value.decision == Decision.Rejected
    case ReadyForDefense => LibraryApprovedRecord(lib) && oek.Some? && oek.value.decision == Approved
  }

  /** Statuses in which a process may have reviewer assignments. */
  predicate ReviewStarted(s: Status)
  {
    s in {InternalReview, InternalReviewNeedsFix, OekReview, OekNeedsFix, ReadyForDefense, Status.Rejected}
  }

  /** The legal status transitions of the engine. */
  predicate Transition(from: Status, to: Status)
    ensures Transition(from, to) ==> from != to && to != Draft
    ensures Transition(from, to) ==> from != ReadyForDefense && from != Status.Rejected
  {
    match from
    case Draft => to == WaitingCoauthorConsents || to == LibraryReview
    case WaitingCoauthorConsents => to == LibraryReview
    case LibraryReview => to == InternalReview || to == OekReview || to == LibraryNeedsFix
    case LibraryNeedsFix => to == LibraryReview
    case InternalReview => to == OekReview || to == InternalReviewNeedsFix || to == Status.Rejected
    case InternalReviewNeedsFix => to == InternalReview
    case OekReview => to == ReadyForDefense || to == OekNeedsFix
    case OekNeedsFix => to == OekReview
    case ReadyForDefense => false
    case Rejected => false
  }

  /** Every existing process kept its status or made one legal transition. */
  predicate LegalMoves(before: seq<Process>, after: seq<Process>)
  {
    |before| <= |after|
    && forall q :: 0 <= q < |before| ==> before[q].status == after[q].status || Transition(before[q].status, after[q].status)
  }

  /** READY_FOR_DEFENSE and REJECTED are final; every other non-draft status can still be left. */
  lemma TerminalStates(s: Status)
    ensures (forall t :: !Transition(s, t)) <==> s == ReadyForDefense || s == Status.Rejected
  {
    if s != ReadyForDefense && s != Status.Rejected {
      assert Transition(s, if s == Draft || s == LibraryNeedsFix || s == WaitingCoauthorConsents then LibraryReview
                           else if s == InternalReviewNeedsFix then InternalReview
                           else if s == OekNeedsFix || s == LibraryReview || s == InternalReview then OekReview
                           else OekNeedsFix);
    }
  }

  /** A run of the state machine: each status is followed by a legal transition. */
  predicate IsRun(run: seq<Status>)
  {
    forall i :: 0 <= i < |run| - 1 ==> Transition(run[i], run[i + 1])
  }

  /**
   * Every status but DRAFT is reachable from DRAFT by legal transitions, in
   * at most three steps; no transition leads back into DRAFT.
   */
  lemma EveryStatusReachable(s: Status)
    ensures s != Draft ==> exists run :: 2 <= |run| <= 4 && IsRun(run) && run[0] == Draft && run[|run| - 1] == s
    ensures forall t :: !Transition(t, Draft)
  {
    var run := match s
      case Draft => [Draft, Draft]
      case WaitingCoauthorConsents => [Draft, WaitingCoauthorConsents]
      case LibraryReview => [Draft, LibraryReview]
      case LibraryNeedsFix => [Draft, LibraryReview, LibraryNeedsFix]
      case InternalReview => [Draft, LibraryReview, InternalReview]
      case InternalReviewNeedsFix => [Draft, LibraryReview, InternalReview, InternalReviewNeedsFix]
      case Rejected => [Draft, LibraryReview, InternalReview, Status.Rejected]
      case OekReview => [Draft, LibraryReview, OekReview]
      case OekNeedsFix => [Draft, LibraryReview, OekReview, OekNeedsFix]
      case ReadyForDefense => [Draft, LibraryReview, OekReview, ReadyForDefense];
    if s != Draft {
      assert IsRun(run) && run[0] == Draft && run[|run| - 1] == s;
    }
  }

  function Lookup(m: map<ProcessId, DecisionRecord>, pid: ProcessId): Option<DecisionRecord>
  {
    if pid in m then Some(m[pid]) else None
  }

  /** A decision table after an optional `save()` of the row of `pid`. */
  function Put(m: map<ProcessId, DecisionRecord>, pid: ProcessId, d: Option<DecisionRecord>): map<ProcessId, DecisionRecord>
  {
    if d.Some? then m[pid := d.value] else m
  }

  /** Referential integrity of processes, co-authors and decision rows; decision rows are stamped. */
  ghost predicate Refs(users: seq<User>, ps: seq<Process>, cs: seq<CoAuthor>,
                       lib: map<ProcessId, DecisionRecord>, oek: map<ProcessId, DecisionRecord>)
  {
    && (forall q :: 0 <= q < |ps| ==> ps[q].author < |users|)
    && (forall i :: 0 <= i < |cs| ==> cs[i].process < |ps|)
    && (forall q :: q in lib ==> q < |ps| && lib[q].Stamped())
    && (forall q :: q in oek ==> q < |ps| && oek[q].Stamped())
  }

  /**
   * Assignment rows refer to existing processes and users, are stamped,
   * are unique per (process, reviewer), and exist only for processes that
   * have reached internal review.
   */
  ghost predicate AssignmentsOk(users: seq<User>, ps: seq<Process>, asg: seq<Assignment>)
  {
    && (forall i :: 0 <= i < |asg| ==>
          && asg[i].process < |ps|
          && asg[i].reviewer < |users|
          && asg[i].Stamped()
          && ReviewStarted(ps[asg[i].process].status))
    && UniquePairs(asg)
  }

  /** Every process other than `except` has the decision rows its status calls for. */
  ghost predicate StagesOk(ps: seq<Process>, lib: map<ProcessId, DecisionRecord>, oek: map<ProcessId, DecisionRecord>, except: int)
  {
    forall q :: 0 <= q < |ps| && q != except ==> StageConsistent(ps[q], Lookup(lib, q), Lookup(oek, q))
  }

  ghost predicate ValidTables(users: seq<User>, ps: seq<Process>, cs: seq<CoAuthor>,
                              lib: map<ProcessId, DecisionRecord>, oek: map<ProcessId, DecisionRecord>, asg: seq<Assignment>)
  {
    Refs(users, ps, cs, lib, oek) && AssignmentsOk(users, ps, asg) && StagesOk(ps, lib, oek, -1)
  }

  /**
   * Moving one process to a new status, saving its decision rows, restores
   * the invariant as soon as the new status and rows agree, provided a
   * process that had reached internal review stays past it.
   */
  lemma MoveOne(users: seq<User>, ps: seq<Process>, cs: seq<CoAuthor>,
                lib: map<ProcessId, DecisionRecord>, oek: map<ProcessId, DecisionRecord>, asg: seq<Assignment>,
                pid: ProcessId, p: Process, dl: Option<DecisionRecord>, dk: Option<DecisionRecord>)
    requires pid < |ps| && Refs(users, ps, cs, lib, oek) && AssignmentsOk(users, ps, asg) && StagesOk(ps, lib, oek, pid)
    requires p.author == ps[pid].author
    requires dl.Some? ==> dl.value.Stamped()
    requires dk.Some? ==> dk.value.Stamped()
    requires ReviewStarted(ps[pid].status) ==> ReviewStarted(p.status)
    requires StageConsistent(p, Lookup(Put(lib, pid, dl), pid), Lookup(Put(oek, pid, dk), pid))
    ensures ValidTables(users, ps[pid := p], cs, Put(lib, pid, dl), Put(oek, pid, dk), asg)
  {
    var ps2 := ps[pid := p];
    var lib2 := Put(lib, pid, dl);
    var oek2 := Put(oek, pid, dk);
    forall q | 0 <= q < |ps2| ensures StageConsistent(ps2[q], Lookup(lib2, q), Lookup(oek2, q)) {
      if q != pid {
        assert Lookup(lib2, q) == Lookup(lib, q) && Lookup(oek2, q) == Lookup(oek, q);
      }
    }
    forall i | 0 <= i < |asg| ensures ReviewStarted(ps2[asg[i].process].status) {
      if asg[i].process == pid {
        assert ReviewStarted(ps[pid].status);
      }
    }
  }

  /** Saving a decision row of `pid` alone keeps every other process consistent. */
  lemma SaveRecord(users: seq<User>, ps: seq<Process>, cs: seq<CoAuthor>,
                   lib: map<ProcessId, DecisionRecord>, oek: map<ProcessId, DecisionRecord>,
                   pid: ProcessId, d: DecisionRecord)
    requires pid < |ps| && Refs(users, ps, cs, lib, oek) && StagesOk(ps, lib, oek, pid) && d.Stamped()
    ensures Refs(users, ps, cs, lib[pid := d], oek) && StagesOk(ps, lib[pid := d], oek, pid)
  {
    forall q | 0 <= q < |ps| && q != pid
      ensures StageConsistent(ps[q], Lookup(lib[pid := d], q), Lookup(oek, q))
    {
      assert Lookup(lib[pid := d], q) == Lookup(lib, q);
    }
  }

  /** Appending a DRAFT process and its fresh co-authors keeps the invariant. */
  lemma AppendProcess(users: seq<User>, ps: seq<Process>, cs: seq<CoAuthor>,
                      lib: map<ProcessId, DecisionRecord>, oek: map<ProcessId, DecisionRecord>, asg: seq<Assignment>,
                      p: Process, n: nat)
    requires ValidTables(users, ps, cs, lib, oek, asg)
    requires p.author < |users| && p.status == Draft
    ensures ValidTables(users, ps + [p], cs + NewCoauthors(|ps|, n), lib, oek, asg)
  {
    var ps2 := ps + [p];
    var cs2 := cs + NewCoauthors(|ps|, n);
    forall i | 0 <= i < |cs2| ensures cs2[i].process < |ps2| {
      if i >= |cs| { assert cs2[i] == CoAuthor(|ps|, false); }
    }
    forall q | 0 <= q < |ps2| ensures StageConsistent(ps2[q], Lookup(lib, q), Lookup(oek, q)) {
      if q == |ps| {
        assert q !in lib && q !in oek;
      } else {
        assert ps2[q] == ps[q];
      }
    }
    forall i | 0 <= i < |asg| ensures ReviewStarted(ps2[asg[i].process].status) {
      assert ps2[asg[i].process] == ps[asg[i].process];
    }
  }

  /** A process that has not reached internal review has no assignment rows. */
  lemma NoRowsBeforeReview(users: seq<User>, ps: seq<Process>, asg: seq<Assignment>, pid: ProcessId)
    requires AssignmentsOk(users, ps, asg) && pid < |ps| && !ReviewStarted(ps[pid].status)
    ensures forall i :: 0 <= i < |asg| ==> asg[i].process != pid
  {
  }

  /** Moving an approved MIFI work into internal review with fresh rows for distinct reviewers keeps the tables valid. */
  lemma StartReview(users: seq<User>, ps: seq<Process>, cs: seq<CoAuthor>,
                    lib: map<ProcessId, DecisionRecord>, oek: map<ProcessId, DecisionRecord>, asg: seq<Assignment>,
                    pid: ProcessId, chosen: seq<UserId>)
    requires pid < |ps| && Refs(users, ps, cs, lib, oek) && AssignmentsOk(users, ps, asg) && StagesOk(ps, lib, oek, pid)
    requires ps[pid].status == LibraryReview && ps[pid].isMifi && LibraryApprovedRecord(Lookup(lib, pid)) && pid !in oek
    requires Distinct(chosen) && forall r :: r in chosen ==> r < |users|
    ensures ValidTables(users, ps[pid := ps[pid].(status := InternalReview)], cs, lib, oek, asg + FreshAssignments(pid, chosen))
  {
    NoRowsBeforeReview(users, ps, asg, pid);
    var p := ps[pid].(status := InternalReview);
    MoveOne(users, ps, cs, lib, oek, asg, pid, p, None, None);
    AddFresh(users, ps[pid := p], asg, pid, chosen);
  }

  /** Rewriting rows in place, keeping each (process, reviewer) pair and its stamp, keeps the table valid. */
  lemma SamePairs(users: seq<User>, ps: seq<Process>, asg: seq<Assignment>, asg2: seq<Assignment>)
    requires AssignmentsOk(users, ps, asg) && |asg2| == |asg|
    requires forall i :: 0 <= i < |asg| ==>
      asg2[i].process == asg[i].process && asg2[i].reviewer == asg[i].reviewer && asg2[i].Stamped()
    ensures AssignmentsOk(users, ps, asg2)
  {
  }

  /** Fresh rows for distinct existing reviewers of a process in review keep the table valid. */
  lemma AddFresh(users: seq<User>, ps: seq<Process>, asg: seq<Assignment>, pid: ProcessId, rs: seq<UserId>)
    requires AssignmentsOk(users, ps, asg) && pid < |ps| && ReviewStarted(ps[pid].status)
    requires forall i :: 0 <= i < |asg| ==> asg[i].process != pid
    requires Distinct(rs) && forall r :: r in rs ==> r < |users|
    ensures AssignmentsOk(users, ps, asg + FreshAssignments(pid, rs))
  {
    var out := asg + FreshAssignments(pid, rs);
    forall i | 0 <= i < |out| ensures out[i].process < |ps| && out[i].reviewer < |users| && out[i].Stamped()
      && ReviewStarted(ps[out[i].process].status)
    {
      if i >= |asg| {
        assert out[i] == NewAssignment(pid, rs[i - |asg|]);
        assert rs[i - |asg|] in rs;
      }
    }
    forall i, j | 0 <= i < j < |out| ensures out[i].process != out[j].process || out[i].reviewer != out[j].reviewer {
      if j >= |asg| {
        assert out[j] == NewAssignment(pid, rs[j - |asg|]);
        if i >= |asg| {
          assert out[i] == NewAssignment(pid, rs[i - |asg|]);
        }
      }
    }
  }

  class Workflow {
    const users: seq<User>
    const inbox: Inbox<Message>
    var processes: seq<Process>
    var coauthors: seq<CoAuthor>
    var libraryDecisions: map<ProcessId, DecisionRecord>
    var oekDecisions: map<ProcessId, DecisionRecord>
    var assignments: seq<Assignment>

    /** The invariant with process `pid` possibly in the middle of a transition. */
    ghost predicate ValidExcept(pid: ProcessId)
      reads this
    {
      && Refs(users, processes, coauthors, libraryDecisions, oekDecisions)
      && AssignmentsOk(users, processes, assignments)
      && StagesOk(processes, libraryDecisions, oekDecisions, pid)
    }

    ghost predicate Valid()
      reads this
    {
      ValidTables(users, processes, coauthors, libraryDecisions, oekDecisions, assignments)
    }

    constructor (users: seq<User>)
      ensures Valid() && fresh(inbox)
      ensures this.users == users && inbox.notifications == []
      ensures processes == [] && coauthors == [] && assignments == []
      ensures libraryDecisions == map[] && oekDecisions == map[]
    {
      this.users := users;
      inbox := new Inbox<Message>();
      processes := [];
      coauthors := [];
      libraryDecisions := map[];
      oekDecisions := map[];
      assignments := [];
    }

    /** Notifies each recipient in turn (the `for r in ...: notify(r, ...)` loops). */
    method NotifyEach(recipients: seq<UserId>, m: Message, link: string)
      modifies inbox
      ensures inbox.notifications == old(inbox.notifications) + Broadcast(recipients, m, link)
    {
      var i := 0;
      while i < |recipients|
        invariant 0 <= i <= |recipients|
        invariant inbox.notifications == old(inbox.notifications) + Broadcast(recipients[..i], m, link)
      {
        inbox.Notify(Some(recipients[i]), m, link);
        assert recipients[..i + 1][..i] == recipients[..i];
        i := i + 1;
      }
      assert recipients[..i] == recipients;
    }

    /**
     * Saving a new process row (status DRAFT) and its co-authors, as the
     * creation view does before it routes the process.
     */
    method SaveNewProcess(author: UserId, isMifi: bool, coauthorCount: nat) returns (pid: ProcessId)
      requires Valid() && author < |users|
      modifies this
      ensures Valid()
      ensures pid == |old(processes)| && processes == old(processes) + [NewProcess(author, isMifi)]
      ensures coauthors == old(coauthors) + NewCoauthors(pid, coauthorCount)
      ensures libraryDecisions == old(libraryDecisions) && oekDecisions == old(oekDecisions)
      ensures assignments == old(assignments)
    {
      pid := |processes|;
      processes := processes + [NewProcess(author, isMifi)];
      var i := 0;
      while i < coauthorCount
        invariant 0 <= i <= coauthorCount
        invariant coauthors == old(coauthors) + NewCoauthors(pid, i)
        invariant processes == old(processes) + [NewProcess(author, isMifi)]
        invariant libraryDecisions == old(libraryDecisions) && oekDecisions == old(oekDecisions)
        invariant assignments == old(assignments)
      {
        coauthors := coauthors + [CoAuthor(pid, false)];
        i := i + 1;
      }
      AppendProcess(users, old(processes), old(coauthors), libraryDecisions, oekDecisions, assignments,
                    NewProcess(author, isMifi), coauthorCount);
    }

    /** `send_to_library`: LIBRARY_REVIEW, a library decision row, and the two notices. */
    method SendToLibrary(pid: ProcessId)
      requires Valid() && pid < |processes|
      requires processes[pid].status == Draft || processes[pid].status == WaitingCoauthorConsents
      modifies this, inbox
      ensures Valid() && LegalMoves(old(processes), processes)
      ensures processes == old(processes)[pid := old(processes[pid]).(status := LibraryReview)]
      ensures libraryDecisions == old(libraryDecisions)[pid := NewDecisionRecord]
      ensures coauthors == old(coauthors) && oekDecisions == old(oekDecisions) && assignments == old(assignments)
      ensures inbox.notifications == old(inbox.notifications) + LibraryNotices(users, pid, old(processes[pid]).author)
    {
      ghost var ps0, lib0 := processes, libraryDecisions;
      assert StageConsistent(ps0[pid], Lookup(lib0, pid), Lookup(oekDecisions, pid));
      var p := processes[pid].(status := LibraryReview);
      processes := processes[pid := p];
      libraryDecisions := libraryDecisions[pid := GetOrNew(libraryDecisions, pid)];
      MoveOne(users, ps0, coauthors, lib0, oekDecisions, assignments, pid, p, Some(GetOrNew(lib0, pid)), None);
      var librarian := FirstWithRole(users, LibraryHead);
      if librarian.Some? {
        inbox.Notify(librarian, LibraryTask(pid), LibraryTasksLink);
      }
      inbox.Notify(Some(processes[pid].author), SentToLibrary(pid), ProcessLink(pid));
    }

    /**
     * `start_or_advance_after_creation`: a process with co-authors waits for
     * their consents, one without goes straight to the library.
     */
    method StartOrAdvanceAfterCreation(pid: ProcessId)
      requires Valid() && pid < |processes| && processes[pid].status == Draft
      modifies this, inbox
      ensures Valid() && LegalMoves(old(processes), processes)
      ensures coauthors == old(coauthors) && oekDecisions == old(oekDecisions) && assignments == old(assignments)
      ensures HasCoauthors(coauthors, pid) ==>
        && processes == old(processes)[pid := old(processes[pid]).(status := WaitingCoauthorConsents)]
        && libraryDecisions == old(libraryDecisions)
        && inbox.notifications == old(inbox.notifications) + Appended(Some(old(processes[pid]).author), ConsentsNeeded(pid), ProcessLink(pid))
      ensures !HasCoauthors(coauthors, pid) ==>
        && processes == old(processes)[pid := old(processes[pid]).(status := LibraryReview)]
        && libraryDecisions == old(libraryDecisions)[pid := NewDecisionRecord]
        && inbox.notifications == old(inbox.notifications) + LibraryNotices(users, pid, old(processes[pid]).author)
    {
      if HasCoauthors(coauthors, pid) {
        ghost var ps0 := processes;
        assert StageConsistent(ps0[pid], Lookup(libraryDecisions, pid), Lookup(oekDecisions, pid));
        var p := processes[pid].(status := WaitingCoauthorConsents);
        processes := processes[pid := p];
        MoveOne(users, ps0, coauthors, libraryDecisions, oekDecisions, assignments, pid, p, None, None);
        inbox.Notify(Some(processes[pid].author), ConsentsNeeded(pid), ProcessLink(pid));
      } else {
        SendToLibrary(pid);
      }
    }

    /** `try_advance_after_coauthor_consents`: only a waiting process with every consent moves on. */
    method TryAdvanceAfterCoauthorConsents(pid: ProcessId)
      requires Valid() && pid < |processes|
      modifies this, inbox
      ensures Valid() && LegalMoves(old(processes), processes)
      ensures coauthors == old(coauthors) && oekDecisions == old(oekDecisions) && assignments == old(assignments)
      ensures (old(processes[pid].status) == WaitingCoauthorConsents && AllCoauthorConsentsUploaded(coauthors, pid)) ==>
        && processes == old(processes)[pid := old(processes[pid]).(status := LibraryReview)]
        && libraryDecisions == old(libraryDecisions)[pid := NewDecisionRecord]
        && inbox.notifications == old(inbox.notifications) + LibraryNotices(users, pid, old(processes[pid]).author)
      ensures !(old(processes[pid].status) == WaitingCoauthorConsents && AllCoauthorConsentsUploaded(coauthors, pid)) ==>
        && processes == old(processes) && libraryDecisions == old(libraryDecisions)
        && inbox.notifications == old(inbox.notifications)
    {
      if processes[pid].status != WaitingCoauthorConsents {
        return;
      }
      if AllCoauthorConsentsUploaded(coauthors, pid) {
        SendToLibrary(pid);
      }
    }

    /** The consent upload form's save: the co-author now has a consent scan. */
    method SaveConsent(c: nat)
      requires Valid() && c < |coauthors|
      modifies this
      ensures Valid()
      ensures coauthors == old(coauthors)[c := old(coauthors[c]).(hasConsent := true)]
      ensures processes == old(processes) && libraryDecisions == old(libraryDecisions)
      ensures oekDecisions == old(oekDecisions) && assignments == old(assignments)
    {
      coauthors := coauthors[c := coauthors[c].(hasConsent := true)];
    }

    /** `send_to_oek`: OEK_REVIEW, an OEK decision row, and the two notices. */
    method SendToOek(pid: ProcessId)
      requires ValidExcept(pid) && pid < |processes|
      requires processes[pid].status == LibraryReview || processes[pid].status == InternalReview
      requires LibraryApprovedRecord(Lookup(libraryDecisions, pid)) && pid !in oekDecisions
      modifies this, inbox
      ensures Valid() && LegalMoves(old(processes), processes)
      ensures processes == old(processes)[pid := old(processes[pid]).(status := OekReview)]
      ensures oekDecisions == old(oekDecisions)[pid := NewDecisionRecord]
      ensures coauthors == old(coauthors) && libraryDecisions == old(libraryDecisions) && assignments == old(assignments)
      ensures inbox.notifications == old(inbox.notifications) + OekNotices(users, pid, old(processes[pid]).author)
    {
      ghost var ps0, oek0 := processes, oekDecisions;
      var p := processes[pid].(status := OekReview);
      processes := processes[pid := p];
      oekDecisions := oekDecisions[pid := GetOrNew(oekDecisions, pid)];
      MoveOne(users, ps0, coauthors, libraryDecisions, oek0, assignments, pid, p, None, Some(GetOrNew(oek0, pid)));
      var officer := FirstWithRole(users, Oek);
      if officer.Some? {
        inbox.Notify(officer, OekTask(pid), OekTasksLink);
      }
      inbox.Notify(Some(processes[pid].author), SentToOek(pid), ProcessLink(pid));
    }

    /** The `get_or_create` of one assignment. */
    method GetOrCreateAssignment(pid: ProcessId, r: UserId)
      modifies this
      ensures assignments == WithAssignment(old(assignments), pid, r)
      ensures processes == old(processes) && coauthors == old(coauthors)
      ensures libraryDecisions == old(libraryDecisions) && oekDecisions == old(oekDecisions)
    {
      if !HasAssignment(assignments, pid, r) {
        assignments := assignments + [NewAssignment(pid, r)];
      }
    }

    /** The `for r in chosen: get_or_create(...)` loop of `assign_reviewers`. */
    method CreateAssignments(pid: ProcessId, chosen: seq<UserId>)
      modifies this
      ensures assignments == WithAssignments(old(assignments), pid, chosen)
      ensures processes == old(processes) && coauthors == old(coauthors)
      ensures libraryDecisions == old(libraryDecisions) && oekDecisions == old(oekDecisions)
    {
      var i := 0;
      while i < |chosen|
        invariant 0 <= i <= |chosen|
        invariant assignments == WithAssignments(old(assignments), pid, chosen[..i])
        invariant processes == old(processes) && coauthors == old(coauthors)
        invariant libraryDecisions == old(libraryDecisions) && oekDecisions == old(oekDecisions)
      {
        GetOrCreateAssignment(pid, chosen[i]);
        assert chosen[..i + 1][..i] == chosen[..i];
        i := i + 1;
      }
      assert chosen[..i] == chosen;
    }

    /**
     * `assign_reviewers` once the sample is drawn: INTERNAL_REVIEW, an
     * assignment for each chosen reviewer, a task to each of them and a
     * notice to the author.
     */
    method AssignChosen(pid: ProcessId, chosen: seq<UserId>)
      requires ValidExcept(pid) && pid < |processes|
      requires processes[pid].status == LibraryReview && processes[pid].isMifi
      requires LibraryApprovedRecord(Lookup(libraryDecisions, pid)) && pid !in oekDecisions
      requires Distinct(chosen) && forall r :: r in chosen ==> r < |users|
      modifies this, inbox
      ensures Valid() && LegalMoves(old(processes), processes)
      ensures processes == old(processes)[pid := old(processes[pid]).(status := InternalReview)]
      ensures assignments == old(assignments) + FreshAssignments(pid, chosen)
      ensures inbox.notifications == old(inbox.notifications) + ReviewNotices(chosen, pid, old(processes[pid]).author)
      ensures coauthors == old(coauthors) && libraryDecisions == old(libraryDecisions) && oekDecisions == old(oekDecisions)
    {
      StartReview(users, processes, coauthors, libraryDecisions, oekDecisions, assignments, pid, chosen);
      WithAssignmentsFresh(assignments, pid, chosen);
      var p := processes[pid].(status := InternalReview);
      processes := processes[pid := p];
      CreateAssignments(pid, chosen);
      NotifyEach(chosen, ReviewTask(pid), ReviewerTasksLink);
      inbox.Notify(Some(p.author), SentToInternalReview(pid), ProcessLink(pid));
    }

    /**
     * `assign_reviewers`: three reviewers drawn by `rnd` from all users with
     * the reviewer role, or every one of them when fewer than three exist.
     */
    method AssignReviewers(pid: ProcessId, rnd: nat)
      requires ValidExcept(pid) && pid < |processes|
      requires processes[pid].status == LibraryReview && processes[pid].isMifi
      requires LibraryApprovedRecord(Lookup(libraryDecisions, pid)) && pid !in oekDecisions
      modifies this, inbox
      ensures Valid() && LegalMoves(old(processes), processes)
      ensures processes == old(processes)[pid := old(processes[pid]).(status := InternalReview)]
      ensures var chosen := ChooseReviewers(WithRole(users, Reviewer), rnd);
        && assignments == old(assignments) + FreshAssignments(pid, chosen)
        && inbox.notifications == old(inbox.notifications) + ReviewNotices(chosen, pid, old(processes[pid]).author)
      ensures coauthors == old(coauthors) && libraryDecisions == old(libraryDecisions) && oekDecisions == old(oekDecisions)
    {
      var reviewers := WithRole(users, Reviewer);
      var chosen := ChooseReviewers(reviewers, rnd);
      AssignChosen(pid, chosen);
    }

    /** The rejecting branch of `library_apply_decision`: LIBRARY_NEEDS_FIX and a notice with the comment. */
    method LibraryReject(pid: ProcessId, d: DecisionRecord)
      requires Valid() && pid < |processes| && processes[pid].status == LibraryReview
      requires d.decision == Decision.Rejected && d.Stamped()
      modifies this, inbox
      ensures Valid() && LegalMoves(old(processes), processes)
      ensures libraryDecisions == old(libraryDecisions)[pid := d]
      ensures processes == old(processes)[pid := old(processes[pid]).(status := LibraryNeedsFix)]
      ensures inbox.notifications == old(inbox.notifications)
        + Appended(Some(old(processes[pid]).author), LibraryRejected(pid, d.comment), ProcessLink(pid))
      ensures coauthors == old(coauthors) && oekDecisions == old(oekDecisions) && assignments == old(assignments)
    {
      ghost var ps0, lib0 := processes, libraryDecisions;
      assert StageConsistent(ps0[pid], Lookup(lib0, pid), Lookup(oekDecisions, pid));
      libraryDecisions := libraryDecisions[pid := d];
      var p := processes[pid].(status := LibraryNeedsFix);
      processes := processes[pid := p];
      MoveOne(users, ps0, coauthors, lib0, oekDecisions, assignments, pid, p, Some(d), None);
      inbox.Notify(Some(p.author), LibraryRejected(pid, d.comment), ProcessLink(pid));
    }

    /**
     * The approving branch of `library_apply_decision`: internal review for
     * an MIFI publication, OEK review otherwise, then a notice to the author.
     */
    method LibraryApprove(pid: ProcessId, d: DecisionRecord, rnd: nat)
      requires Valid() && pid < |processes| && processes[pid].status == LibraryReview
      requires d.decision == Approved && d.Stamped()
      modifies this, inbox
      ensures Valid() && LegalMoves(old(processes), processes)
      ensures libraryDecisions == old(libraryDecisions)[pid := d]
      ensures coauthors == old(coauthors)
      ensures old(processes[pid].isMifi) ==>
        var chosen := ChooseReviewers(WithRole(users, Reviewer), rnd);
        && processes == old(processes)[pid := old(processes[pid]).(status := InternalReview)]
        && oekDecisions == old(oekDecisions)
        && assignments == old(assignments) + FreshAssignments(pid, chosen)
        && inbox.notifications == old(inbox.notifications) + ReviewNotices(chosen, pid, old(processes[pid]).author)
             + Appended(Some(old(processes[pid]).author), LibraryApproved(pid), ProcessLink(pid))
      ensures !old(processes[pid].isMifi) ==>
        && processes == old(processes)[pid := old(processes[pid]).(status := OekReview)]
        && oekDecisions == old(oekDecisions)[pid := NewDecisionRecord]
        && assignments == old(assignments)
        && inbox.notifications == old(inbox.notifications) + OekNotices(users, pid, old(processes[pid]).author)
             + Appended(Some(old(processes[pid]).author), LibraryApproved(pid), ProcessLink(pid))
    {
      ghost var lib0 := libraryDecisions;
      assert StageConsistent(processes[pid], Lookup(lib0, pid), Lookup(oekDecisions, pid));
      libraryDecisions := libraryDecisions[pid := d];
      SaveRecord(users, processes, coauthors, lib0, oekDecisions, pid, d);
      var author := processes[pid].author;
      if processes[pid].isMifi {
        AssignReviewers(pid, rnd);
      } else {
        SendToOek(pid);
      }
      inbox.Notify(Some(author), LibraryApproved(pid), ProcessLink(pid));
    }

    /**
     * `library_apply_decision`, called only for a process in LIBRARY_REVIEW:
     * the decision row is stamped with the librarian, comment and time;
     * approval routes to internal review or to OEK on `is_mifi`; rejection
     * asks for a fix. The author is told either way.
     */
    method LibraryApplyDecision(pid: ProcessId, approved: bool, comment: string, librarian: UserId, now: Timestamp, rnd: nat)
      requires Valid() && pid < |processes| && processes[pid].status == LibraryReview
      modifies this, inbox
      ensures Valid() && LegalMoves(old(processes), processes)
      ensures libraryDecisions == old(libraryDecisions)[pid :=
        DecisionRecord(if approved then Approved else Decision.Rejected, Some(librarian), comment, Some(now))]
      ensures coauthors == old(coauthors)
      ensures !approved ==>
        && processes == old(processes)[pid := old(processes[pid]).(status := LibraryNeedsFix)]
        && oekDecisions == old(oekDecisions) && assignments == old(assignments)
        && inbox.notifications == old(inbox.notifications)
             + Appended(Some(old(processes[pid]).author), LibraryRejected(pid, comment), ProcessLink(pid))
      ensures approved && old(processes[pid].isMifi) ==>
        var chosen := ChooseReviewers(WithRole(users, Reviewer), rnd);
        && processes == old(processes)[pid := old(processes[pid]).(status := InternalReview)]
        && oekDecisions == old(oekDecisions)
        && assignments == old(assignments) + FreshAssignments(pid, chosen)
        && inbox.notifications == old(inbox.notifications) + ReviewNotices(chosen, pid, old(processes[pid]).author)
             + Appended(Some(old(processes[pid]).author), LibraryApproved(pid), ProcessLink(pid))
      ensures approved && !old(processes[pid].isMifi) ==>
        && processes == old(processes)[pid := old(processes[pid]).(status := OekReview)]
        && oekDecisions == old(oekDecisions)[pid := NewDecisionRecord]
        && assignments == old(assignments)
        && inbox.notifications == old(inbox.notifications) + OekNotices(users, pid, old(processes[pid]).author)
             + Appended(Some(old(processes[pid]).author), LibraryApproved(pid), ProcessLink(pid))
    {
      var ld := GetOrNew(libraryDecisions, pid).(decidedBy := Some(librarian), comment := comment, decidedAt := Some(now));
      if approved {
        LibraryApprove(pid, ld.(decision := Approved), rnd);
      } else {
        LibraryReject(pid, ld.(decision := Decision.Rejected));
      }
    }

    /** `reset_reviewers`: every assignment of the process back to PENDING, blank, undated. */
    method ResetReviewers(pid: ProcessId)
      requires Valid()
      modifies this
      ensures Valid()
      ensures |assignments| == |old(assignments)|
      ensures forall i :: 0 <= i < |assignments| ==> assignments[i] == ResetFor(old(assignments[i]), pid)
      ensures processes == old(processes) && coauthors == old(coauthors)
      ensures libraryDecisions == old(libraryDecisions) && oekDecisions == old(oekDecisions)
    {
      var i := 0;
      while i < |assignments|
        invariant 0 <= i <= |assignments| && |assignments| == |old(assignments)|
        invariant forall k :: 0 <= k < i ==> assignments[k] == ResetFor(old(assignments[k]), pid)
        invariant forall k :: i <= k < |assignments| ==> assignments[k] == old(assignments[k])
        invariant processes == old(processes) && coauthors == old(coauthors)
        invariant libraryDecisions == old(libraryDecisions) && oekDecisions == old(oekDecisions)
      {
        if assignments[i].process == pid {
          assignments := assignments[i := assignments[i].(verdict := Verdict.Pending, comment := "", decidedAt := None)];
        }
        i := i + 1;
      }
      SamePairs(users, processes, old(assignments), assignments);
    }

    /** Ends a round of internal review without OEK: the new status and a notice to the author. */
    method CloseReview(pid: ProcessId, next: Status, m: Message)
      requires Valid() && pid < |processes| && processes[pid].status == InternalReview
      requires next == Status.Rejected || next == InternalReviewNeedsFix
      modifies this, inbox
      ensures Valid() && LegalMoves(old(processes), processes)
      ensures processes == old(processes)[pid := old(processes[pid]).(status := next)]
      ensures inbox.notifications == old(inbox.notifications) + Appended(Some(old(processes[pid]).author), m, ProcessLink(pid))
      ensures assignments == old(assignments) && coauthors == old(coauthors)
      ensures libraryDecisions == old(libraryDecisions) && oekDecisions == old(oekDecisions)
    {
      assert StageConsistent(processes[pid], Lookup(libraryDecisions, pid), Lookup(oekDecisions, pid));
      ghost var ps0 := processes;
      var p := processes[pid].(status := next);
      processes := processes[pid := p];
      MoveOne(users, ps0, coauthors, libraryDecisions, oekDecisions, assignments, pid, p, None, None);
      inbox.Notify(Some(processes[pid].author), m, ProcessLink(pid));
    }

    /**
     * The quorum step of `reviewer_submit` for outcome `o`: rejection, a
     * fix, or OEK review, with the matching notice.
     */
    method ApplyOutcome(pid: ProcessId, o: Outcome)
      requires Valid() && pid < |processes| && processes[pid].status == InternalReview
      modifies this, inbox
      ensures Valid() && LegalMoves(old(processes), processes)
      ensures processes == old(processes)[pid := old(processes[pid]).(status := TargetStatus(o))]
      ensures oekDecisions == (if o == TwoRecommend then old(oekDecisions)[pid := NewDecisionRecord] else old(oekDecisions))
      ensures inbox.notifications == old(inbox.notifications) + QuorumNotices(users, pid, old(processes[pid]).author, o)
      ensures assignments == old(assignments) && coauthors == old(coauthors) && libraryDecisions == old(libraryDecisions)
    {
      match o
      case TwoNotRecommend =>
        CloseReview(pid, Status.Rejected, RejectedByReviews(pid));
      case AfterFixRequested =>
        CloseReview(pid, InternalReviewNeedsFix, FixRequestedByReviews(pid));
      case TwoRecommend =>
        assert StageConsistent(processes[pid], Lookup(libraryDecisions, pid), Lookup(oekDecisions, pid));
        SendToOek(pid);
      case NoRuleMatched =>
        CloseReview(pid, InternalReviewNeedsFix, ClarificationRequestedByReviews(pid));
    }

    /**
     * `reviewer_submit`, called only for an assignment of a process in
     * INTERNAL_REVIEW and with a final verdict: the verdict is recorded and
     * the author told; once no assignment of the process is PENDING, the
     * quorum rule sets the next status.
     */
    method ReviewerSubmit(aid: nat, verdict: Verdict, comment: string, now: Timestamp)
      requires Valid() && aid < |assignments|
      requires processes[assignments[aid].process].status == InternalReview
      requires verdict != Verdict.Pending
      modifies this, inbox
      ensures Valid() && LegalMoves(old(processes), processes)
      ensures assignments == old(assignments)[aid := old(assignments[aid]).(verdict := verdict, comment := comment, decidedAt := Some(now))]
      ensures coauthors == old(coauthors) && libraryDecisions == old(libraryDecisions)
      ensures var pid := old(assignments[aid]).process;
        var author := old(processes[pid]).author;
        var received := old(inbox.notifications) + Appended(Some(author), ReviewReceived(pid, old(assignments[aid]).reviewer), ProcessLink(pid));
        var vs := VerdictsOf(assignments, pid);
        if Verdict.Pending in vs then
          processes == old(processes) && oekDecisions == old(oekDecisions) && inbox.notifications == received
        else
          && processes == old(processes)[pid := old(processes[pid]).(status := TargetStatus(Decide(vs)))]
          && oekDecisions == (if Decide(vs) == TwoRecommend then old(oekDecisions)[pid := NewDecisionRecord] else old(oekDecisions))
          && inbox.notifications == received + QuorumNotices(users, pid, author, Decide(vs))
    {
      var a := assignments[aid];
      var pid := a.process;
      ghost var asg0 := assignments;
      assignments := assignments[aid := a.(verdict := verdict, comment := comment, decidedAt := Some(now))];
      SamePairs(users, processes, asg0, assignments);
      inbox.Notify(Some(processes[pid].author), ReviewReceived(pid, a.reviewer), ProcessLink(pid));
      if Verdict.Pending in VerdictsOf(assignments, pid) {
        return;
      }
      ApplyOutcome(pid, Decide(VerdictsOf(assignments, pid)));
    }

    /**
     * `author_resubmit_after_internal_fix`: only from INTERNAL_REVIEW_NEEDS_FIX;
     * the same reviewers are reset and asked again, the author is told.
     */
    method AuthorResubmitAfterInternalFix(pid: ProcessId)
      requires Valid() && pid < |processes|
      modifies this, inbox
      ensures Valid() && LegalMoves(old(processes), processes)
      ensures coauthors == old(coauthors) && libraryDecisions == old(libraryDecisions) && oekDecisions == old(oekDecisions)
      ensures old(processes[pid].status) != InternalReviewNeedsFix ==>
        && processes == old(processes) && assignments == old(assignments)
        && inbox.notifications == old(inbox.notifications)
      ensures old(processes[pid].status) == InternalReviewNeedsFix ==>
        && processes == old(processes)[pid := old(processes[pid]).(status := InternalReview)]
        && |assignments| == |old(assignments)|
        && (forall i :: 0 <= i < |assignments| ==> assignments[i] == ResetFor(old(assignments[i]), pid))
        && inbox.notifications == old(inbox.notifications)
             + Broadcast(ReviewersOf(assignments, pid), ReviewAgainTask(pid), ReviewerTasksLink)
             + Appended(Some(old(processes[pid]).author), SentToReviewAgain(pid), ProcessLink(pid))
    {
      if processes[pid].status != InternalReviewNeedsFix {
        return;
      }
      assert StageConsistent(processes[pid], Lookup(libraryDecisions, pid), Lookup(oekDecisions, pid));
      ResetReviewers(pid);
      ghost var ps0 := processes;
      var p := processes[pid].(status := InternalReview);
      processes := processes[pid := p];
      MoveOne(users, ps0, coauthors, libraryDecisions, oekDecisions, assignments, pid, p, None, None);
      NotifyEach(ReviewersOf(assignments, pid), ReviewAgainTask(pid), ReviewerTasksLink);
      inbox.Notify(Some(processes[pid].author), SentToReviewAgain(pid), ProcessLink(pid));
    }

    /**
     * The approving branch of `oek_apply_decision`: READY_FOR_DEFENSE, the
     * defense date when one is given, the room whenever it is not None, a
     * notice to the author and one to every commission member.
     */
    method OekApprove(pid: ProcessId, d: DecisionRecord, defenseDatetime: Option<Timestamp>, defenseRoom: Option<string>)
      requires Valid() && pid < |processes| && processes[pid].status == OekReview
      requires d.decision == Approved && d.Stamped()
      modifies this, inbox
      ensures Valid() && LegalMoves(old(processes), processes)
      ensures oekDecisions == old(oekDecisions)[pid := d]
      ensures processes == old(processes)[pid := old(processes[pid]).(
        status := ReadyForDefense,
        defenseDatetime := if defenseDatetime.Some? then defenseDatetime else old(processes[pid].defenseDatetime),
        defenseRoom := if defenseRoom.Some? then defenseRoom.value else old(processes[pid].defenseRoom))]
      ensures inbox.notifications == old(inbox.notifications)
        + Appended(Some(old(processes[pid]).author), OekApproved(pid), ProcessLink(pid))
        + Broadcast(WithRole(users, Commission), ReadyForDefenseNotice(pid), ProcessLink(pid))
      ensures coauthors == old(coauthors) && libraryDecisions == old(libraryDecisions) && assignments == old(assignments)
    {
      ghost var ps0, oek0 := processes, oekDecisions;
      assert StageConsistent(ps0[pid], Lookup(libraryDecisions, pid), Lookup(oek0, pid));
      oekDecisions := oekDecisions[pid := d];
      var p := processes[pid].(status := ReadyForDefense);
      if defenseDatetime.Some? {
        p := p.(defenseDatetime := defenseDatetime);
      }
      if defenseRoom.Some? {
        p := p.(defenseRoom := defenseRoom.value);
      }
      processes := processes[pid := p];
      MoveOne(users, ps0, coauthors, libraryDecisions, oek0, assignments, pid, p, None, Some(d));
      inbox.Notify(Some(p.author), OekApproved(pid), ProcessLink(pid));
      NotifyEach(WithRole(users, Commission), ReadyForDefenseNotice(pid), ProcessLink(pid));
    }

    /** The rejecting branch of `oek_apply_decision`: OEK_NEEDS_FIX and a notice with the comment. */
    method OekReject(pid: ProcessId, d: DecisionRecord)
      requires Valid() && pid < |processes| && processes[pid].status == OekReview
      requires d.decision == Decision.Rejected && d.Stamped()
      modifies this, inbox
      ensures Valid() && LegalMoves(old(processes), processes)
      ensures oekDecisions == old(oekDecisions)[pid := d]
      ensures processes == old(processes)[pid := old(processes[pid]).(status := OekNeedsFix)]
      ensures inbox.notifications == old(inbox.notifications)
        + Appended(Some(old(processes[pid]).author), OekRejected(pid, d.comment), ProcessLink(pid))
      ensures coauthors == old(coauthors) && libraryDecisions == old(libraryDecisions) && assignments == old(assignments)
    {
      ghost var ps0, oek0 := processes, oekDecisions;
      assert StageConsistent(ps0[pid], Lookup(libraryDecisions, pid), Lookup(oek0, pid));
      oekDecisions := oekDecisions[pid := d];
      var p := processes[pid].(status := OekNeedsFix);
      processes := processes[pid := p];
      MoveOne(users, ps0, coauthors, libraryDecisions, oek0, assignments, pid, p, None, Some(d));
      inbox.Notify(Some(p.author), OekRejected(pid, d.comment), ProcessLink(pid));
    }

    /**
     * `oek_apply_decision`, called only for a process in OEK_REVIEW: the OEK
     * row is stamped with the officer, comment and time; then approval or
     * rejection as above.
     */
    method OekApplyDecision(pid: ProcessId, approved: bool, comment: string, officer: UserId, now: Timestamp,
                            defenseDatetime: Option<Timestamp> := None, defenseRoom: Option<string> := Some(""))
      requires Valid() && pid < |processes| && processes[pid].status == OekReview
      modifies this, inbox
      ensures Valid() && LegalMoves(old(processes), processes)
      ensures oekDecisions == old(oekDecisions)[pid :=
        DecisionRecord(if approved then Approved else Decision.Rejected, Some(officer), comment, Some(now))]
      ensures coauthors == old(coauthors) && libraryDecisions == old(libraryDecisions) && assignments == old(assignments)
      ensures approved ==>
        && processes == old(processes)[pid := old(processes[pid]).(
             status := ReadyForDefense,
             defenseDatetime := if defenseDatetime.Some? then defenseDatetime else old(processes[pid].defenseDatetime),
             defenseRoom := if defenseRoom.Some? then defenseRoom.value else old(processes[pid].defenseRoom))]
        && inbox.notifications == old(inbox.notifications)
             + Appended(Some(old(processes[pid]).author), OekApproved(pid), ProcessLink(pid))
             + Broadcast(WithRole(users, Commission), ReadyForDefenseNotice(pid), ProcessLink(pid))
      ensures !approved ==>
        && processes == old(processes)[pid := old(processes[pid]).(status := OekNeedsFix)]
        && inbox.notifications == old(inbox.notifications)
             + Appended(Some(old(processes[pid]).author), OekRejected(pid, comment), ProcessLink(pid))
    {
      var od := GetOrNew(oekDecisions, pid).(decidedBy := Some(officer), comment := comment, decidedAt := Some(now));
      if approved {
        OekApprove(pid, od.(decision := Approved), defenseDatetime, defenseRoom);
      } else {
        OekReject(pid, od.(decision := Decision.Rejected));
      }
    }

    /** `author_resubmit_after_oek_fix`: only from OEK_NEEDS_FIX, back to OEK review. */
    method AuthorResubmitAfterOekFix(pid: ProcessId)
      requires Valid() && pid < |processes|
      modifies this, inbox
      ensures Valid() && LegalMoves(old(processes), processes)
      ensures coauthors == old(coauthors) && libraryDecisions == old(libraryDecisions)
      ensures oekDecisions == old(oekDecisions) && assignments == old(assignments)
      ensures old(processes[pid].status) != OekNeedsFix ==>
        processes == old(processes) && inbox.notifications == old(inbox.notifications)
      ensures old(processes[pid].status) == OekNeedsFix ==>
        && processes == old(processes)[pid := old(processes[pid]).(status := OekReview)]
        && inbox.notifications == old(inbox.notifications)
             + Appended(FirstWithRole(users, Oek), OekAgainTask(pid), OekTasksLink)
             + Appended(Some(old(processes[pid]).author), SentToOekAgain(pid), ProcessLink(pid))
    {
      if processes[pid].status != OekNeedsFix {
        return;
      }
      ghost var ps0 := processes;
      assert StageConsistent(ps0[pid], Lookup(libraryDecisions, pid), Lookup(oekDecisions, pid));
      var p := processes[pid].(status := OekReview);
      processes := processes[pid := p];
      MoveOne(users, ps0, coauthors, libraryDecisions, oekDecisions, assignments, pid, p, None, None);
      var officer := FirstWithRole(users, Oek);
      if officer.Some? {
        inbox.Notify(officer, OekAgainTask(pid), OekTasksLink);
      }
      inbox.Notify(Some(processes[pid].author), SentToOekAgain(pid), ProcessLink(pid));
    }

    /**
     * `author_resubmit_after_library_fix`: only from LIBRARY_NEEDS_FIX; the
     * library row goes back to PENDING and undated, keeping its comment and
     * librarian, and the process returns to library review.
     */
    method AuthorResubmitAfterLibraryFix(pid: ProcessId)
      requires Valid() && pid < |processes|
      modifies this, inbox
      ensures Valid() && LegalMoves(old(processes), processes)
      ensures coauthors == old(coauthors) && oekDecisions == old(oekDecisions) && assignments == old(assignments)
      ensures old(processes[pid].status) != LibraryNeedsFix ==>
        && processes == old(processes) && libraryDecisions == old(libraryDecisions)
        && inbox.notifications == old(inbox.notifications)
      ensures old(processes[pid].status) == LibraryNeedsFix ==>
        && pid in old(libraryDecisions)
        && processes == old(processes)[pid := old(processes[pid]).(status := LibraryReview)]
        && libraryDecisions == old(libraryDecisions)[pid := old(libraryDecisions[pid]).(decision := Decision.Pending, decidedAt := None)]
        && inbox.notifications == old(inbox.notifications)
             + Appended(FirstWithRole(users, LibraryHead), LibraryAgainTask(pid), LibraryTasksLink)
             + Appended(Some(old(processes[pid]).author), SentToLibraryAgain(pid), ProcessLink(pid))
    {
      if processes[pid].status != LibraryNeedsFix {
        return;
      }
      ghost var ps0, lib0 := processes, libraryDecisions;
      assert StageConsistent(ps0[pid], Lookup(lib0, pid), Lookup(oekDecisions, pid));
      var ld := GetOrNew(libraryDecisions, pid).(decision := Decision.Pending, decidedAt := None);
      libraryDecisions := libraryDecisions[pid := ld];
      var p := processes[pid].(status := LibraryReview);
      processes := processes[pid := p];
      MoveOne(users, ps0, coauthors, lib0, oekDecisions, assignments, pid, p, Some(ld), None);
      var librarian := FirstWithRole(users, LibraryHead);
      if librarian.Some? {
        inbox.Notify(librarian, LibraryAgainTask(pid), LibraryTasksLink);
      }
      inbox.Notify(Some(processes[pid].author), SentToLibraryAgain(pid), ProcessLink(pid));
    }
  }
}
