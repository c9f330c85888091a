/** The feature state machine of machine.mjs. */
module Machine {

  /** A status column is free text; `Other` is any text outside the eight known states. */
  datatype Status =
    | Proposed | Spec | Designing | ReadyForImpl | InProgress | InReview | Done | Blocked
    | Other(name: string)

  function Targets(from: Status): set<Status> {
    match from
    case Proposed => {Spec, Blocked}
    case Spec => {Designing, Blocked}
    case Designing => {ReadyForImpl, Blocked}
    case ReadyForImpl => {InProgress, Designing, Blocked}
    case InProgress => {InReview, Blocked}
    case InReview => {Done, InProgress, Blocked}
    case Done => {}
    case Blocked => {ReadyForImpl, InProgress, Designing, Spec}
    case Other(_) => {}
  }

  predicate IsLegal(from: Status, to: Status) {
    !from.Other? && !to.Other? && (from == to || to in Targets(from))
  }

  /** How far along the pipeline a state is. */
  function Stage(s: Status): nat {
    match s
    case Proposed => 0
    case Spec => 1
    case Designing => 2
    case ReadyForImpl => 3
    case InProgress => 4
    case InReview => 5
    case Done => 6
    case _ => 7
  }

  /**
   * Work moves one stage at a time, and back only from ready-for-impl to designing and from review to
   * implementation; anything not done can be blocked, and what is blocked comes back to a stage that is worked on.
   */
  lemma LegalIff(from: Status, to: Status)
    ensures IsLegal(from, to) <==>
            && !from.Other? && !to.Other?
            && (|| from == to
                || (from != Blocked && to != Blocked && Stage(to) == Stage(from) + 1)
                || (from == ReadyForImpl && to == Designing) || (from == InReview && to == InProgress)
                || (from != Done && to == Blocked) || (from == Blocked && 1 <= Stage(to) <= 4))
  {
  }

  const CLAIMABLE: set<Status> := {Spec, Designing, ReadyForImpl, InProgress}

  /** Entering one of these frees the lease: nobody is working the task any more. */
  predicate FreesLease(to: Status) {
    to == InReview || to == Done || to == Blocked
  }

  /** Where a legal move can leave a claimable status: another claimable one, or one that frees the lease. */
  lemma ClaimableMovesStayOrFree(from: Status, to: Status)
    requires from in CLAIMABLE && IsLegal(from, to)
    ensures to in CLAIMABLE || FreesLease(to)
  {
    assert to == from || to in Targets(from);
  }

  ghost predicate IsPath(path: seq<Status>) {
    |path| > 0 && forall i :: 0 < i < |path| ==> IsLegal(path[i - 1], path[i])
  }

  /** `done` is terminal: whatever legal path leaves it never gets anywhere else. */
  lemma {:induction false} DoneIsTerminal(path: seq<Status>)
    requires IsPath(path) && path[0] == Done
    ensures forall i :: 0 <= i < |path| ==> path[i] == Done
  {
    if |path| > 1 {
      var init := path[..|path| - 1];
      DoneIsTerminal(init);
      assert IsLegal(path[|path| - 2], path[|path| - 1]);
      assert path[|path| - 2] == init[|init| - 1] == Done;
    }
  }
}
