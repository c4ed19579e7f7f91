/**
 * The reviewer quorum rule that closes internal review: once no assignment
 * of a process is PENDING, its verdicts are counted and the first matching
 * rule decides the next status.
 */
module Quorum {
  import opened Models

  /** `verdicts.count(v)` on the list of a process's verdicts. */
  function Count(vs: seq<Verdict>, v: Verdict): (n: nat)
    ensures n <= |vs|
  {
    if vs == [] then 0
    else Count(vs[..|vs| - 1], v) + (if vs[|vs| - 1] == v then 1 else 0)
  }

  /** Which of the four rules matched, in order of precedence. */
  datatype Outcome =
    | TwoNotRecommend    // rule 1: two or more NOT_RECOMMEND
    | AfterFixRequested  // rule 2: any RECOMMEND_AFTER_FIX
    | TwoRecommend       // rule 3: two or more RECOMMEND
    | NoRuleMatched      // rule 4: the conservative fallback

  /** The rule chain, first match wins: each rule fires exactly when the earlier ones do not. */
  function Decide(vs: seq<Verdict>): (o: Outcome)
    ensures o == TwoNotRecommend <==> Count(vs, NotRecommend) >= 2
    ensures o == AfterFixRequested <==> Count(vs, NotRecommend) < 2 && Count(vs, RecommendAfterFix) >= 1
    ensures o == TwoRecommend <==>
      Count(vs, NotRecommend) < 2 && Count(vs, RecommendAfterFix) == 0 && Count(vs, Recommend) >= 2
  {
    var notRec := Count(vs, NotRecommend);
    var afterFix := Count(vs, RecommendAfterFix);
    var rec := Count(vs, Recommend);
    if notRec >= 2 then TwoNotRecommend
    else if afterFix >= 1 then AfterFixRequested
    else if rec >= 2 then TwoRecommend
    else NoRuleMatched
  }

  /** The status each rule sends the process to: only rule 3 leads to OEK, only rule 1 is final. */
  function TargetStatus(o: Outcome): (s: Status)
    ensures s == OekReview <==> o == TwoRecommend
    ensures s == Status.Rejected <==> o == TwoNotRecommend
    ensures s == OekReview || s == Status.Rejected || s == InternalReviewNeedsFix
  {
    match o
    case TwoNotRecommend => Status.Rejected
    case AfterFixRequested => InternalReviewNeedsFix
    case TwoRecommend => OekReview
    case NoRuleMatched => InternalReviewNeedsFix
  }

  /** The rule chain stated over a multiset of verdicts, where order cannot matter. */
  function DecideBag(m: multiset<Verdict>): Outcome
  {
    if m[NotRecommend] >= 2 then TwoNotRecommend
    else if m[RecommendAfterFix] >= 1 then AfterFixRequested
    else if m[Recommend] >= 2 then TwoRecommend
    else NoRuleMatched
  }

  /** Counting in the list is the multiplicity in its multiset. */
  lemma {:induction false} CountIsMultiplicity(vs: seq<Verdict>, v: Verdict)
    ensures Count(vs, v) == multiset(vs)[v]
  {
    if vs != [] {
      var init := vs[..|vs| - 1];
      CountIsMultiplicity(init, v);
      assert vs == init + [vs[|vs| - 1]];
    }
  }

  /** Deciding on the list agrees with deciding on its multiset of verdicts. */
  lemma DecideMatchesBag(vs: seq<Verdict>)
    ensures Decide(vs) == DecideBag(multiset(vs))
  {
    CountIsMultiplicity(vs, NotRecommend);
    CountIsMultiplicity(vs, RecommendAfterFix);
    CountIsMultiplicity(vs, Recommend);
  }

  /** The order in which verdicts arrive never changes the outcome. */
  lemma DecideIgnoresOrder(s: seq<Verdict>, t: seq<Verdict>)
    requires multiset(s) == multiset(t)
    ensures Decide(s) == Decide(t)
  {
    DecideMatchesBag(s);
    DecideMatchesBag(t);
  }

  /** Every verdict is counted under exactly one of the four values. */
  lemma {:induction false} CountsAddUp(vs: seq<Verdict>)
    ensures Count(vs, Verdict.Pending) + Count(vs, Recommend) + Count(vs, RecommendAfterFix) + Count(vs, NotRecommend) == |vs|
  {
    if vs != [] {
      CountsAddUp(vs[..|vs| - 1]);
    }
  }

  /** A PENDING verdict is in the list exactly when its count is positive. */
  lemma {:induction false} PendingCounted(vs: seq<Verdict>)
    ensures Verdict.Pending in vs <==> Count(vs, Verdict.Pending) > 0
  {
    if vs != [] {
      var init := vs[..|vs| - 1];
      PendingCounted(init);
      assert vs == init + [vs[|vs| - 1]];
    }
  }

  /**
   * With the standard three decided reviewers the fallback never fires:
   * the process is rejected exactly when two reviewers say NOT_RECOMMEND,
   * goes to OEK exactly when nobody asks for a fix and at most one says
   * NOT_RECOMMEND, and otherwise needs a fix.
   */
  lemma ThreeReviewerQuorum(vs: seq<Verdict>)
    requires |vs| == 3 && Verdict.Pending !in vs
    ensures Decide(vs) != NoRuleMatched
    ensures TargetStatus(Decide(vs)) == Status.Rejected <==> Count(vs, NotRecommend) >= 2
    ensures TargetStatus(Decide(vs)) == OekReview <==> Count(vs, RecommendAfterFix) == 0 && Count(vs, NotRecommend) <= 1
    ensures TargetStatus(Decide(vs)) == InternalReviewNeedsFix <==> Count(vs, NotRecommend) <= 1 && Count(vs, RecommendAfterFix) >= 1
  {
    CountsAddUp(vs);
    PendingCounted(vs);
  }

  /** With at most one reviewer the process is neither rejected nor advanced: it always needs a fix. */
  lemma LoneReviewerNeverDecides(vs: seq<Verdict>)
    requires |vs| <= 1
    ensures Decide(vs) != TwoNotRecommend && Decide(vs) != TwoRecommend
    ensures TargetStatus(Decide(vs)) == InternalReviewNeedsFix
  {
  }

  /** Unanimous recommendation by two or more reviewers sends the work to OEK. */
  lemma {:induction false} UnanimousRecommendAdvances(vs: seq<Verdict>)
    requires |vs| >= 2 && forall i :: 0 <= i < |vs| ==> vs[i] == Recommend
    ensures Decide(vs) == TwoRecommend
  {
    CountsAddUp(vs);
    forall v | v != Recommend ensures Count(vs, v) == 0 {
      CountIsMultiplicity(vs, v);
      assert v !in multiset(vs);
    }
  }

  /**
   * The worked cases: precedence of rule 1 over rule 3, of rule 2 over
   * rule 3, and a single NOT_RECOMMEND not blocking two recommendations,
   * so one RECOMMEND_AFTER_FIX weighs more than one NOT_RECOMMEND.
   */
  lemma QuorumExamples()
    ensures TargetStatus(Decide([NotRecommend, NotRecommend, Recommend])) == Status.Rejected
    ensures TargetStatus(Decide([Recommend, Recommend, RecommendAfterFix])) == InternalReviewNeedsFix
    ensures TargetStatus(Decide([Recommend, Recommend, NotRecommend])) == OekReview
    ensures TargetStatus(Decide([Recommend, Recommend, Recommend])) == OekReview
    ensures Decide([Recommend, NotRecommend]) == NoRuleMatched
  {
    DecideMatchesBag([NotRecommend, NotRecommend, Recommend]);
    DecideMatchesBag([Recommend, Recommend, RecommendAfterFix]);
    DecideMatchesBag([Recommend, Recommend, NotRecommend]);
    DecideMatchesBag([Recommend, Recommend, Recommend]);
    DecideMatchesBag([Recommend, NotRecommend]);
  }
}
