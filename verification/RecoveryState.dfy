/** The states of a recovery operation, the moves between them, and what a restart does in each. */
module RecoveryState {

  datatype State =
    | Detected
    | DiagnosisOnly
    | Planned
    | Snapshotted
    | Applying
    | Validating
    | Succeeded
    | RollingBack
    | RolledBack
    | RollbackFailed
    | Suppressed

  predicate ValidTransition(from: State, to: State) {
    from == to ||
    match from
    case Planned => to.Snapshotted?
    case Snapshotted => to.Applying? || to.RollingBack?
    case Applying => to.Validating? || to.RollingBack?
    case Validating => to.Succeeded? || to.RollingBack?
    case RollingBack => to.RolledBack? || to.RollbackFailed?
    case _ => false
  }

  datatype Disposition = NoRestart | BeginRollback | ResumeValidation | ResumeRollback

  function RestartDispositionFor(state: State): Disposition {
    match state
    case Applying => BeginRollback
    case Validating => ResumeValidation
    case RollingBack => ResumeRollback
    case _ => NoRestart
  }

  /** Retention never removes an operation in one of these. */
  predicate Active(state: State) {
    state.Snapshotted? || state.Applying? || state.Validating? || state.RollingBack? || state.RollbackFailed?
  }

  // ----- paths -----

  ghost predicate Path(states: seq<State>) {
    states != [] && forall i | 0 <= i < |states| - 1 :: ValidTransition(states[i], states[i + 1])
  }

  predicate Terminal(state: State) {
    forall to | to != state :: !ValidTransition(state, to)
  }

  predicate Undoing(state: State) {
    state.RollingBack? || state.RolledBack? || state.RollbackFailed?
  }

  /** How far an operation has come; no move goes back. */
  function Stage(state: State): nat {
    match state
    case Planned => 0
    case Snapshotted => 1
    case Applying => 2
    case Validating => 3
    case RollingBack => 4
    case _ => 5
  }

  lemma {:induction false} PathMovesOn(states: seq<State>, i: nat, j: nat)
    requires Path(states) && i <= j < |states|
    ensures Stage(states[i]) <= Stage(states[j])
    ensures Stage(states[i]) == Stage(states[j]) ==> states[i] == states[j]
    ensures Undoing(states[i]) ==> Undoing(states[j])
    ensures states[i].Succeeded? ==> states[j].Succeeded?
    decreases j - i
  {
    if i < j {
      PathMovesOn(states, i, j - 1);
      assert ValidTransition(states[j - 1], states[(j - 1) + 1]);
    }
  }

  /** Whatever a path passes through, a mutation is applied at most once and never after a rollback
      began; an outcome is final. */
  lemma OutcomesAreFinal(states: seq<State>, i: nat, j: nat)
    requires Path(states) && i <= j < |states|
    ensures states[i].Succeeded? || states[i].RolledBack? || states[i].RollbackFailed? ==> states[j] == states[i]
    ensures states[j].Applying? ==> states[i].Planned? || states[i].Snapshotted? || states[i].Applying?
    ensures states[j].Succeeded? ==> !Undoing(states[i])
    ensures states[i].Applying? && states[j].Applying? ==> forall k | i <= k <= j :: states[k].Applying?
  {
    PathMovesOn(states, i, j);
    forall k | i <= k <= j ensures states[i].Applying? && states[j].Applying? ==> states[k].Applying? {
      PathMovesOn(states, i, k);
      PathMovesOn(states, k, j);
    }
  }

  /** A restart goes on exactly where a mutation may be half done or unproven, and only to validate or
      undo it: the move it makes is a valid one and never leads back to applying. */
  lemma RestartOnlyUndoesOrValidates(state: State)
    ensures RestartDispositionFor(state).BeginRollback? <==> state.Applying?
    ensures !RestartDispositionFor(state).NoRestart? ==> ValidTransition(state, RollingBack) && !Terminal(state)
    ensures RestartDispositionFor(state).ResumeValidation? ==> ValidTransition(state, Succeeded)
    ensures RestartDispositionFor(state).NoRestart? && !Terminal(state) <==> state.Planned? || state.Snapshotted?
  {
    assert ValidTransition(Applying, RollingBack) && ValidTransition(Validating, RollingBack) && ValidTransition(RollingBack, RolledBack);
    assert ValidTransition(Planned, Snapshotted) && ValidTransition(Snapshotted, Applying);
  }
}
