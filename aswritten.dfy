/**
 * The services as their source is written. Every notice to a process's
 * author passes `process=process` to `notify(user, message, link="")`,
 * which has no such parameter, so the call raises `TypeError` before any
 * notification row is created. The statements before that call have run
 * and their saves are kept (each `save()` commits on its own); nothing
 * after it runs, and the exception propagates out of the service and its
 * callers, up to the view.
 *
 * `Services.Workflow` models the services as evidently intended, with the
 * keyword dropped; the lemmas here relate each as-written run to it.
 */
module AsWritten {
  import opened Wrappers
  import opened Accounts
  import opened Models
  import opened Quorum
  import opened Sampling
  import opened Notifications
  import opened Services

  /** The tables a service writes. */
  datatype Tables = Tables(
    processes: seq<Process>,
    libraryDecisions: map<ProcessId, DecisionRecord>,
    oekDecisions: map<ProcessId, DecisionRecord>,
    assignments: seq<Assignment>,
    notifications: seq<Notification<Message>>)

  /** How a call ended: the tables it left, and whether `TypeError` escaped. */
  datatype Run = Run(after: Tables, raised: bool)

  function SetStatus(t: Tables, pid: ProcessId, s: Status): Tables
    requires pid < |t.processes|
  {
    t.(processes := t.processes[pid := t.processes[pid].(status := s)])
  }

  /** `notify(user, ..., link=...)` without the keyword: it runs. */
  function Told(t: Tables, user: Option<UserId>, m: Message, link: string): Tables
  {
    t.(notifications := t.notifications + Appended(user, m, link))
  }

  /** `start_or_advance_after_creation`, raising at services.py:20 or inside `send_to_library`. */
  function StartOrAdvanceAsWritten(users: seq<User>, cs: seq<CoAuthor>, t: Tables, pid: ProcessId): (r: Run)
    requires pid < |t.processes|
    ensures r.raised
  {
    if HasCoauthors(cs, pid) then Run(SetStatus(t, pid, WaitingCoauthorConsents), true)
    else SendToLibraryAsWritten(users, t, pid)
  }

  /** `try_advance_after_coauthor_consents`: raises whenever it calls `send_to_library`. */
  function TryAdvanceAsWritten(users: seq<User>, cs: seq<CoAuthor>, t: Tables, pid: ProcessId): (r: Run)
    requires pid < |t.processes|
    ensures r.raised <==> t.processes[pid].status == WaitingCoauthorConsents && AllCoauthorConsentsUploaded(cs, pid)
    ensures !r.raised ==> r.after == t
  {
    if t.processes[pid].status == WaitingCoauthorConsents && AllCoauthorConsentsUploaded(cs, pid)
    then SendToLibraryAsWritten(users, t, pid)
    else Run(t, false)
  }

  /** `send_to_library`: status, library row and librarian task saved, then the author notice raises. */
  function SendToLibraryAsWritten(users: seq<User>, t: Tables, pid: ProcessId): (r: Run)
    requires pid < |t.processes|
    ensures r.raised
  {
    var t1 := SetStatus(t, pid, LibraryReview).(
      libraryDecisions := t.libraryDecisions[pid := GetOrNew(t.libraryDecisions, pid)]);
    Run(Told(t1, FirstWithRole(users, LibraryHead), LibraryTask(pid), LibraryTasksLink), true)
  }

  /** `send_to_oek`: status, OEK row and officer task saved, then the author notice raises. */
  function SendToOekAsWritten(users: seq<User>, t: Tables, pid: ProcessId): (r: Run)
    requires pid < |t.processes|
    ensures r.raised
  {
    var t1 := SetStatus(t, pid, OekReview).(oekDecisions := t.oekDecisions[pid := GetOrNew(t.oekDecisions, pid)]);
    Run(Told(t1, FirstWithRole(users, Oek), OekTask(pid), OekTasksLink), true)
  }

  /** `assign_reviewers`: status, rows and reviewer tasks saved, then the author notice raises. */
  function AssignReviewersAsWritten(users: seq<User>, t: Tables, pid: ProcessId, rnd: nat): (r: Run)
    requires pid < |t.processes|
    ensures r.raised
  {
    var chosen := ChooseReviewers(WithRole(users, Reviewer), rnd);
    var t1 := SetStatus(t, pid, InternalReview).(assignments := WithAssignments(t.assignments, pid, chosen));
    Run(t1.(notifications := t.notifications + Broadcast(chosen, ReviewTask(pid), ReviewerTasksLink)), true)
  }

  /**
   * `library_apply_decision`: the row is saved; on approval the routing
   * raises, so the approval notice is never reached; on rejection the
   * status is saved and the notice raises.
   */
  function LibraryApplyDecisionAsWritten(users: seq<User>, t: Tables, pid: ProcessId, approved: bool, comment: string,
                                         librarian: UserId, now: Timestamp, rnd: nat): (r: Run)
    requires pid < |t.processes|
    ensures r.raised
  {
    var ld := GetOrNew(t.libraryDecisions, pid).(decidedBy := Some(librarian), comment := comment, decidedAt := Some(now));
    if approved then
      var t1 := t.(libraryDecisions := t.libraryDecisions[pid := ld.(decision := Approved)]);
      if t.processes[pid].isMifi then AssignReviewersAsWritten(users, t1, pid, rnd) else SendToOekAsWritten(users, t1, pid)
    else
      var t1 := t.(libraryDecisions := t.libraryDecisions[pid := ld.(decision := Decision.Rejected)]);
      Run(SetStatus(t1, pid, LibraryNeedsFix), true)
  }

  /** `reviewer_submit`: the verdict is saved, then the author notice raises before the quorum test. */
  function ReviewerSubmitAsWritten(t: Tables, aid: nat, verdict: Verdict, comment: string, now: Timestamp): (r: Run)
    requires aid < |t.assignments|
    ensures r.raised
  {
    var a := t.assignments[aid].(verdict := verdict, comment := comment, decidedAt := Some(now));
    Run(t.(assignments := t.assignments[aid := a]), true)
  }

  /** `author_resubmit_after_internal_fix`: reset, status and reviewer tasks saved, then the author notice raises. */
  function ResubmitInternalAsWritten(t: Tables, pid: ProcessId): (r: Run)
    requires pid < |t.processes|
    ensures r.raised <==> t.processes[pid].status == InternalReviewNeedsFix
    ensures !r.raised ==> r.after == t
  {
    if t.processes[pid].status != InternalReviewNeedsFix then Run(t, false)
    else
      var asg := seq(|t.assignments|, i requires 0 <= i < |t.assignments| => ResetFor(t.assignments[i], pid));
      var t1 := SetStatus(t, pid, InternalReview).(assignments := asg);
      Run(t1.(notifications := t.notifications + Broadcast(ReviewersOf(asg, pid), ReviewAgainTask(pid), ReviewerTasksLink)), true)
  }

  /** `oek_apply_decision`: the row and the new status are saved, then the author notice raises. */
  function OekApplyDecisionAsWritten(t: Tables, pid: ProcessId, approved: bool, comment: string, officer: UserId,
                                     now: Timestamp, defenseDatetime: Option<Timestamp>, defenseRoom: Option<string>): (r: Run)
    requires pid < |t.processes|
    ensures r.raised
  {
    var od := GetOrNew(t.oekDecisions, pid).(decidedBy := Some(officer), comment := comment, decidedAt := Some(now));
    if approved then
      var p := t.processes[pid];
      var p1 := p.(status := ReadyForDefense,
                   defenseDatetime := if defenseDatetime.Some? then defenseDatetime else p.defenseDatetime,
                   defenseRoom := if defenseRoom.Some? then defenseRoom.value else p.defenseRoom);
      Run(t.(oekDecisions := t.oekDecisions[pid := od.(decision := Approved)], processes := t.processes[pid := p1]), true)
    else
      Run(SetStatus(t.(oekDecisions := t.oekDecisions[pid := od.(decision := Decision.Rejected)]), pid, OekNeedsFix), true)
  }

  /** `author_resubmit_after_oek_fix`: status and officer task saved, then the author notice raises. */
  function ResubmitOekAsWritten(users: seq<User>, t: Tables, pid: ProcessId): (r: Run)
    requires pid < |t.processes|
    ensures r.raised <==> t.processes[pid].status == OekNeedsFix
    ensures !r.raised ==> r.after == t
  {
    if t.processes[pid].status != OekNeedsFix then Run(t, false)
    else Run(Told(SetStatus(t, pid, OekReview), FirstWithRole(users, Oek), OekAgainTask(pid), OekTasksLink), true)
  }

  /** `author_resubmit_after_library_fix`: row reset, status and librarian task saved, then the author notice raises. */
  function ResubmitLibraryAsWritten(users: seq<User>, t: Tables, pid: ProcessId): (r: Run)
    requires pid < |t.processes|
    ensures r.raised <==> t.processes[pid].status == LibraryNeedsFix
    ensures !r.raised ==> r.after == t
  {
    if t.processes[pid].status != LibraryNeedsFix then Run(t, false)
    else
      var ld := GetOrNew(t.libraryDecisions, pid).(decision := Decision.Pending, decidedAt := None);
      var t1 := SetStatus(t, pid, LibraryReview).(libraryDecisions := t.libraryDecisions[pid := ld]);
      Run(Told(t1, FirstWithRole(users, LibraryHead), LibraryAgainTask(pid), LibraryTasksLink), true)
  }

  // ---------------------------------------------------------------------
  // What is lost, service by service, against the intended model

  /** The notifications a run added. */
  function Added(t: Tables, r: Run): seq<Notification<Message>>
  {
    if |t.notifications| <= |r.after.notifications| then r.after.notifications[|t.notifications|..] else []
  }

  /**
   * Creating a process always raises, so the creation view never
   * redirects: with co-authors after the WAITING status is saved, without
   * them after the library row and the librarian's task. Either way an
   * author who holds the AUTHOR role is told nothing.
   */
  lemma CreationAlwaysRaises(users: seq<User>, cs: seq<CoAuthor>, t: Tables, pid: ProcessId)
    requires pid < |t.processes| && t.processes[pid].author < |users| && users[t.processes[pid].author].role == Author
    ensures var r := StartOrAdvanceAsWritten(users, cs, t, pid);
      && r.raised
      && (HasCoauthors(cs, pid) ==> r.after == SetStatus(t, pid, WaitingCoauthorConsents))
      && (!HasCoauthors(cs, pid) ==> r.after.processes[pid].status == LibraryReview && pid in r.after.libraryDecisions)
      && forall n :: n in Added(t, r) ==> n.user != t.processes[pid].author
  {
    var r := StartOrAdvanceAsWritten(users, cs, t, pid);
    if !HasCoauthors(cs, pid) {
      assert Added(t, r) == Appended(FirstWithRole(users, LibraryHead), LibraryTask(pid), LibraryTasksLink);
    } else {
      assert Added(t, r) == [];
    }
  }

  /**
   * `send_to_library` (from creation or from the last consent upload)
   * saves the status and the library row and tasks the librarian; the
   * intended run differs only by the author's notice.
   */
  lemma SendToLibraryLosesAuthorNotice(users: seq<User>, t: Tables, pid: ProcessId)
    requires pid < |t.processes|
    ensures var r, author := SendToLibraryAsWritten(users, t, pid), t.processes[pid].author;
      && r.raised
      && r.after.processes == t.processes[pid := t.processes[pid].(status := LibraryReview)]
      && r.after.libraryDecisions == t.libraryDecisions[pid := GetOrNew(t.libraryDecisions, pid)]
      && r.after.notifications + Appended(Some(author), SentToLibrary(pid), ProcessLink(pid))
         == t.notifications + LibraryNotices(users, pid, author)
  {
  }

  /** `send_to_oek` (library approval of an external work): likewise, without the author's notice. */
  lemma SendToOekLosesAuthorNotice(users: seq<User>, t: Tables, pid: ProcessId)
    requires pid < |t.processes|
    ensures var r, author := SendToOekAsWritten(users, t, pid), t.processes[pid].author;
      && r.raised
      && r.after.processes == t.processes[pid := t.processes[pid].(status := OekReview)]
      && r.after.oekDecisions == t.oekDecisions[pid := GetOrNew(t.oekDecisions, pid)]
      && r.after.notifications + Appended(Some(author), SentToOek(pid), ProcessLink(pid))
         == t.notifications + OekNotices(users, pid, author)
  {
  }

  /** `assign_reviewers`: rows and reviewer tasks are saved; the intended run differs only by the author's notice. */
  lemma AssignReviewersLosesAuthorNotice(users: seq<User>, t: Tables, pid: ProcessId, rnd: nat)
    requires pid < |t.processes|
    ensures var r, author := AssignReviewersAsWritten(users, t, pid, rnd), t.processes[pid].author;
      var chosen := ChooseReviewers(WithRole(users, Reviewer), rnd);
      && r.raised
      && r.after.processes == t.processes[pid := t.processes[pid].(status := InternalReview)]
      && r.after.libraryDecisions == t.libraryDecisions
      && r.after.assignments == WithAssignments(t.assignments, pid, chosen)
      && r.after.notifications + Appended(Some(author), SentToInternalReview(pid), ProcessLink(pid))
         == t.notifications + ReviewNotices(chosen, pid, author)
  {
  }

  /**
   * Library approval of an MIFI work: the approved row, INTERNAL_REVIEW,
   * the assignments and the reviewer tasks are saved, but `assign_reviewers`
   * raises, so neither of the author's two notices is sent.
   */
  lemma LibraryApproveMifiUnannounced(users: seq<User>, t: Tables, pid: ProcessId, comment: string,
                                      librarian: UserId, now: Timestamp, rnd: nat)
    requires pid < |t.processes| && t.processes[pid].isMifi
    ensures var r := LibraryApplyDecisionAsWritten(users, t, pid, true, comment, librarian, now, rnd);
      var chosen, author := ChooseReviewers(WithRole(users, Reviewer), rnd), t.processes[pid].author;
      && r.raised
      && r.after.libraryDecisions[pid] == DecisionRecord(Approved, Some(librarian), comment, Some(now))
      && r.after.processes == t.processes[pid := t.processes[pid].(status := InternalReview)]
      && r.after.assignments == WithAssignments(t.assignments, pid, chosen)
      && r.after.notifications + Appended(Some(author), SentToInternalReview(pid), ProcessLink(pid))
           + Appended(Some(author), LibraryApproved(pid), ProcessLink(pid))
         == t.notifications + ReviewNotices(chosen, pid, author) + Appended(Some(author), LibraryApproved(pid), ProcessLink(pid))
  {
    var ld := GetOrNew(t.libraryDecisions, pid).(decidedBy := Some(librarian), comment := comment, decidedAt := Some(now));
    var t1 := t.(libraryDecisions := t.libraryDecisions[pid := ld.(decision := Approved)]);
    assert LibraryApplyDecisionAsWritten(users, t, pid, true, comment, librarian, now, rnd)
        == AssignReviewersAsWritten(users, t1, pid, rnd);
    AssignReviewersLosesAuthorNotice(users, t1, pid, rnd);
  }

  /** Library rejection: the row and LIBRARY_NEEDS_FIX are saved; the author never hears the comment. */
  lemma LibraryRejectUnannounced(users: seq<User>, t: Tables, pid: ProcessId, comment: string,
                                 librarian: UserId, now: Timestamp, rnd: nat)
    requires pid < |t.processes|
    ensures var r := LibraryApplyDecisionAsWritten(users, t, pid, false, comment, librarian, now, rnd);
      && r.raised
      && r.after.libraryDecisions[pid] == DecisionRecord(Decision.Rejected, Some(librarian), comment, Some(now))
      && r.after.processes == t.processes[pid := t.processes[pid].(status := LibraryNeedsFix)]
      && r.after.notifications == t.notifications
  {
  }

  /** As written, a verdict never moves its process: the status is left as it was, for every submission. */
  lemma ReviewerSubmitNeverCloses(t: Tables, aid: nat, verdict: Verdict, comment: string, now: Timestamp)
    requires aid < |t.assignments|
    ensures var r := ReviewerSubmitAsWritten(t, aid, verdict, comment, now);
      r.raised && r.after.processes == t.processes && r.after.oekDecisions == t.oekDecisions
      && r.after.notifications == t.notifications
  {
  }

  /**
   * The input that shows it: two reviewers have recommended and the third
   * recommends too. The intended quorum rule sends the work to OEK; as
   * written it stays in INTERNAL_REVIEW with no PENDING verdict left, and
   * no reviewer can submit again.
   */
  lemma ReviewerSubmitCounterexample()
    ensures var t := Tables(
        [Process(0, true, InternalReview, None, "")], map[], map[],
        [Assignment(0, 1, Recommend, "", Some(0)), Assignment(0, 2, Recommend, "", Some(0)),
         Assignment(0, 3, Verdict.Pending, "", None)], []);
      var r := ReviewerSubmitAsWritten(t, 2, Recommend, "", 1);
      var vs := VerdictsOf(r.after.assignments, 0);
      && r.raised && r.after.processes[0].status == InternalReview
      && Verdict.Pending !in vs && TargetStatus(Decide(vs)) == OekReview
  {
    var a0, a1 := Assignment(0, 1, Recommend, "", Some(0)), Assignment(0, 2, Recommend, "", Some(0));
    var a2 := Assignment(0, 3, Verdict.Pending, "", None);
    var t := Tables([Process(0, true, InternalReview, None, "")], map[], map[], [a0, a1, a2], []);
    var r := ReviewerSubmitAsWritten(t, 2, Recommend, "", 1);
    var b2 := a2.(verdict := Recommend, comment := "", decidedAt := Some(1));
    assert r.after.assignments == [a0, a1, b2];
    ThreeRecommendations(a0, a1, b2);
    ThreeInARow(a0, a1, b2);
    ThreeInARow(Recommend, Recommend, Recommend);
    QuorumExamples();
  }

  /** Closing the last verdict never finds its process moved, although the quorum rule always names a status other than INTERNAL_REVIEW. */
  lemma ReviewerSubmitStrandsProcess(t: Tables, aid: nat, verdict: Verdict, comment: string, now: Timestamp)
    requires aid < |t.assignments| && t.assignments[aid].process < |t.processes|
    requires t.processes[t.assignments[aid].process].status == InternalReview
    ensures var r, pid := ReviewerSubmitAsWritten(t, aid, verdict, comment, now), t.assignments[aid].process;
      r.after.processes[pid].status == InternalReview
      && r.after.processes[pid].status != TargetStatus(Decide(VerdictsOf(r.after.assignments, pid)))
  {
  }

  lemma ThreeRecommendations(a0: Assignment, a1: Assignment, a2: Assignment)
    requires a0.process == a1.process == a2.process == 0
    requires a0.verdict == a1.verdict == a2.verdict == Recommend
    ensures VerdictsOf([a0] + [a1] + [a2], 0) == [Recommend] + [Recommend] + [Recommend]
  {
    VerdictsOfSnoc([], a0, 0);
    assert [] + [a0] == [a0];
    VerdictsOfSnoc([a0], a1, 0);
    VerdictsOfSnoc([a0] + [a1], a2, 0);
  }

  lemma ThreeInARow<T>(x: T, y: T, z: T)
    ensures [x] + [y] + [z] == [x, y, z]
  {
  }

  lemma VerdictsOfSnoc(asg: seq<Assignment>, a: Assignment, pid: ProcessId)
    requires a.process == pid
    ensures VerdictsOf(asg + [a], pid) == VerdictsOf(asg, pid) + [a.verdict]
  {
    assert (asg + [a])[..|asg|] == asg;
  }

  /** Resubmission after an internal fix: the reset, INTERNAL_REVIEW and the reviewer tasks are saved; the author is not told. */
  lemma ResubmitInternalUnannounced(t: Tables, pid: ProcessId)
    requires pid < |t.processes| && t.processes[pid].status == InternalReviewNeedsFix
    ensures var r, author := ResubmitInternalAsWritten(t, pid), t.processes[pid].author;
      && r.raised
      && r.after.processes == t.processes[pid := t.processes[pid].(status := InternalReview)]
      && |r.after.assignments| == |t.assignments|
      && (forall i :: 0 <= i < |t.assignments| ==> r.after.assignments[i] == ResetFor(t.assignments[i], pid))
      && r.after.notifications + Appended(Some(author), SentToReviewAgain(pid), ProcessLink(pid))
         == t.notifications + Broadcast(ReviewersOf(r.after.assignments, pid), ReviewAgainTask(pid), ReviewerTasksLink)
           + Appended(Some(author), SentToReviewAgain(pid), ProcessLink(pid))
  {
  }

  /**
   * OEK approval: the approved row and READY_FOR_DEFENSE are saved, with
   * the defense date and room, but neither the author nor any commission
   * member is told, although the intended run tells each of them.
   */
  lemma OekApproveUnannounced(users: seq<User>, t: Tables, pid: ProcessId, comment: string, officer: UserId,
                              now: Timestamp, defenseDatetime: Option<Timestamp>, defenseRoom: Option<string>)
    requires pid < |t.processes|
    ensures var r := OekApplyDecisionAsWritten(t, pid, true, comment, officer, now, defenseDatetime, defenseRoom);
      var intended := Appended(Some(t.processes[pid].author), OekApproved(pid), ProcessLink(pid))
                      + Broadcast(WithRole(users, Commission), ReadyForDefenseNotice(pid), ProcessLink(pid));
      && r.raised
      && r.after.oekDecisions[pid] == DecisionRecord(Approved, Some(officer), comment, Some(now))
      && r.after.processes[pid].status == ReadyForDefense
      && r.after.notifications == t.notifications
      && |intended| == 1 + |WithRole(users, Commission)|
  {
  }

  /** OEK rejection: the row and OEK_NEEDS_FIX are saved; the author never hears the comment. */
  lemma OekRejectUnannounced(t: Tables, pid: ProcessId, comment: string, officer: UserId, now: Timestamp,
                             defenseDatetime: Option<Timestamp>, defenseRoom: Option<string>)
    requires pid < |t.processes|
    ensures var r := OekApplyDecisionAsWritten(t, pid, false, comment, officer, now, defenseDatetime, defenseRoom);
      && r.raised
      && r.after.oekDecisions[pid] == DecisionRecord(Decision.Rejected, Some(officer), comment, Some(now))
      && r.after.processes == t.processes[pid := t.processes[pid].(status := OekNeedsFix)]
      && r.after.notifications == t.notifications
  {
  }

  /** Resubmission after an OEK fix: OEK_REVIEW and the officer's task are saved; the author is not told. */
  lemma ResubmitOekUnannounced(users: seq<User>, t: Tables, pid: ProcessId)
    requires pid < |t.processes| && t.processes[pid].status == OekNeedsFix
    ensures var r, author := ResubmitOekAsWritten(users, t, pid), t.processes[pid].author;
      && r.raised
      && r.after.processes == t.processes[pid := t.processes[pid].(status := OekReview)]
      && r.after.notifications + Appended(Some(author), SentToOekAgain(pid), ProcessLink(pid))
         == t.notifications + Appended(FirstWithRole(users, Oek), OekAgainTask(pid), OekTasksLink)
           + Appended(Some(author), SentToOekAgain(pid), ProcessLink(pid))
  {
  }

  /** Resubmission after a library fix: the row reset, LIBRARY_REVIEW and the librarian's task are saved; the author is not told. */
  lemma ResubmitLibraryUnannounced(users: seq<User>, t: Tables, pid: ProcessId)
    requires pid < |t.processes| && t.processes[pid].status == LibraryNeedsFix
    ensures var r, author := ResubmitLibraryAsWritten(users, t, pid), t.processes[pid].author;
      && r.raised
      && r.after.processes == t.processes[pid := t.processes[pid].(status := LibraryReview)]
      && r.after.libraryDecisions == t.libraryDecisions[pid :=
           GetOrNew(t.libraryDecisions, pid).(decision := Decision.Pending, decidedAt := None)]
      && r.after.notifications + Appended(Some(author), SentToLibraryAgain(pid), ProcessLink(pid))
         == t.notifications + Appended(FirstWithRole(users, LibraryHead), LibraryAgainTask(pid), LibraryTasksLink)
           + Appended(Some(author), SentToLibraryAgain(pid), ProcessLink(pid))
  {
  }
}
