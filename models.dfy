/**
 * The records of the publications application: the ten process states, the
 * decision and verdict enumerations with their defaults, and the rows the
 * workflow keeps about a process.
 */
module Models {
  import opened Wrappers
  import opened Accounts

  /** A process is identified by its primary key. */
  type ProcessId = nat

  /** `timezone.now()` values; only their identity matters to the workflow. */
  type Timestamp = int

  datatype Status =
    | Draft
    | WaitingCoauthorConsents
    | LibraryReview
    | LibraryNeedsFix
    | InternalReview
    | InternalReviewNeedsFix
    | OekReview
    | OekNeedsFix
    | ReadyForDefense
    | Rejected

  const DefaultStatus: Status := Draft

  /** The value stored in `Process.status` (a CharField of at most 64 characters). */
  function StatusCode(s: Status): string
  {
    match s
    case Draft => "DRAFT"
    case WaitingCoauthorConsents => "WAITING_COAUTHOR_CONSENTS"
    case LibraryReview => "LIBRARY_REVIEW"
    case LibraryNeedsFix => "LIBRARY_NEEDS_FIX"
    case InternalReview => "INTERNAL_REVIEW"
    case InternalReviewNeedsFix => "INTERNAL_REVIEW_NEEDS_FIX"
    case OekReview => "OEK_REVIEW"
    case OekNeedsFix => "OEK_NEEDS_FIX"
    case ReadyForDefense => "READY_FOR_DEFENSE"
    case Rejected => "REJECTED"
  }

  /** The ten stored codes, in declaration order. */
  const StatusCodes: seq<string> := [
    "DRAFT", "WAITING_COAUTHOR_CONSENTS", "LIBRARY_REVIEW", "LIBRARY_NEEDS_FIX",
    "INTERNAL_REVIEW", "INTERNAL_REVIEW_NEEDS_FIX", "OEK_REVIEW", "OEK_NEEDS_FIX",
    "READY_FOR_DEFENSE", "REJECTED"]

  function ParseStatus(code: string): (r: Option<Status>)
    ensures r.Some? ==> StatusCode(r.value) == code
    ensures r.Some? <==> code in StatusCodes
  {
    if code == "DRAFT" then Some(Draft)
    else if code == "WAITING_COAUTHOR_CONSENTS" then Some(WaitingCoauthorConsents)
    else if code == "LIBRARY_REVIEW" then Some(LibraryReview)
    else if code == "LIBRARY_NEEDS_FIX" then Some(LibraryNeedsFix)
    else if code == "INTERNAL_REVIEW" then Some(InternalReview)
    else if code == "INTERNAL_REVIEW_NEEDS_FIX" then Some(InternalReviewNeedsFix)
    else if code == "OEK_REVIEW" then Some(OekReview)
    else if code == "OEK_NEEDS_FIX" then Some(OekNeedsFix)
    else if code == "READY_FOR_DEFENSE" then Some(ReadyForDefense)
    else if code == "REJECTED" then Some(Status.Rejected)
    else None
  }

  /**
   * A stored status is exactly one of ten distinct codes, each fitting the
   * column, and each reads back as the status that wrote it.
   */
  lemma StatusCodesExact(s: Status)
    ensures |StatusCodes| == 10
    ensures forall i, j :: 0 <= i < j < |StatusCodes| ==> StatusCodes[i] != StatusCodes[j]
    ensures StatusCode(s) in StatusCodes && |StatusCode(s)| <= 64
    ensures ParseStatus(StatusCode(s)) == Some(s)
  {
  }

  /** The outcome enumeration shared by `LibraryDecision` and `OEKDecision`. */
  datatype Decision = Pending | Approved | Rejected

  function DecisionCode(d: Decision): string
  {
    match d
    case Pending => "PENDING"
    case Approved => "APPROVED"
    case Rejected => "REJECTED"
  }

  function ParseDecision(code: string): (r: Option<Decision>)
    ensures r.Some? ==> DecisionCode(r.value) == code
  {
    if code == "PENDING" then Some(Decision.Pending)
    else if code == "APPROVED" then Some(Approved)
    else if code == "REJECTED" then Some(Decision.Rejected)
    else None
  }

  lemma DecisionCodeRoundTrip(d: Decision)
    ensures |DecisionCode(d)| <= 16
    ensures ParseDecision(DecisionCode(d)) == Some(d)
  {
  }

  datatype Verdict = Pending | Recommend | RecommendAfterFix | NotRecommend

  function VerdictCode(v: Verdict): string
  {
    match v
    case Pending => "PENDING"
    case Recommend => "RECOMMEND"
    case RecommendAfterFix => "RECOMMEND_AFTER_FIX"
    case NotRecommend => "NOT_RECOMMEND"
  }

  function ParseVerdict(code: string): (r: Option<Verdict>)
    ensures r.Some? ==> VerdictCode(r.value) == code
  {
    if code == "PENDING" then Some(Verdict.Pending)
    else if code == "RECOMMEND" then Some(Recommend)
    else if code == "RECOMMEND_AFTER_FIX" then Some(RecommendAfterFix)
    else if code == "NOT_RECOMMEND" then Some(NotRecommend)
    else None
  }

  lemma VerdictCodeRoundTrip(v: Verdict)
    ensures |VerdictCode(v)| <= 32
    ensures ParseVerdict(VerdictCode(v)) == Some(v)
  {
  }

  /** The workflow-relevant columns of a `Process` row (title, journal and council are opaque). */
  datatype Process = Process(
    author: UserId,
    isMifi: bool,
    status: Status,
    defenseDatetime: Option<Timestamp>,
    defenseRoom: string)

  /** A freshly saved process: status DRAFT, no defense date, blank room. */
  function NewProcess(author: UserId, isMifi: bool): (p: Process)
    ensures p.status == DefaultStatus && p.defenseDatetime.None? && p.defenseRoom == ""
    ensures p.author == author && p.isMifi == isMifi
  {
    Process(author, isMifi, DefaultStatus, None, "")
  }

  /** A co-author of one process; the consent scan may be absent. */
  datatype CoAuthor = CoAuthor(process: ProcessId, hasConsent: bool)

  /**
   * A `LibraryDecision` or `OEKDecision` row: the decision, who decided
   * (librarian or OEK officer), the comment and the decision time.
   */
  datatype DecisionRecord = DecisionRecord(
    decision: Decision,
    decidedBy: Option<UserId>,
    comment: string,
    decidedAt: Option<Timestamp>)
  {
    /** The decision time is recorded exactly when a decision has been taken. */
    predicate Stamped()
    {
      decidedAt.Some? <==> decision != Decision.Pending
    }
  }

  /** The row `get_or_create` makes: PENDING, nobody, blank comment, no time. */
  const NewDecisionRecord: DecisionRecord := DecisionRecord(Decision.Pending, None, "", None)

  /** `get_or_create(process=pid)` on a one-to-one decision table. */
  function GetOrNew(m: map<ProcessId, DecisionRecord>, pid: ProcessId): (d: DecisionRecord)
    ensures pid in m ==> d == m[pid]
    ensures pid !in m ==> d == NewDecisionRecord && d.Stamped()
  {
    if pid in m then m[pid] else NewDecisionRecord
  }

  /** A `ReviewerAssignment` row. */
  datatype Assignment = Assignment(
    process: ProcessId,
    reviewer: UserId,
    verdict: Verdict,
    comment: string,
    decidedAt: Option<Timestamp>)
  {
    predicate Stamped()
    {
      decidedAt.Some? <==> verdict != Verdict.Pending
    }
  }

  /** The row `get_or_create(process=pid, reviewer=r)` makes. */
  function NewAssignment(pid: ProcessId, r: UserId): (a: Assignment)
    ensures a.process == pid && a.reviewer == r && a.verdict == Verdict.Pending && a.Stamped()
  {
    Assignment(pid, r, Verdict.Pending, "", None)
  }

  /** `unique_together = ("process", "reviewer")`. */
  predicate UniquePairs(asg: seq<Assignment>)
  {
    forall i, j :: 0 <= i < j < |asg| ==> asg[i].process != asg[j].process || asg[i].reviewer != asg[j].reviewer
  }

  predicate HasAssignment(asg: seq<Assignment>, pid: ProcessId, r: UserId)
  {
    exists i :: 0 <= i < |asg| && asg[i].process == pid && asg[i].reviewer == r
  }
}
