/** The task record and its state machine (pkg/dag/task.go). */
module Tasks {

  datatype TaskState =
    | Pending | Ready | Scheduled | Running
    | Passed | Failed | Skipped | Cancelled | TimedOut
  {
    predicate IsTerminal() {
      this == Passed || this == Failed || this == Skipped || this == Cancelled || this == TimedOut
    }

    predicate IsSuccess() {
      this == Passed
    }

    /** Failed or timed out: the outcomes that start the skip cascade. */
    predicate IsBroken() {
      this == Failed || this == TimedOut
    }

    /** Position in the lifecycle; all terminal states share the last place. */
    function Rank(): nat {
      match this
      case Pending => 0
      case Ready => 1
      case Scheduled => 2
      case Running => 3
      case _ => 4
    }
  }

  /** The transition table. */
  predicate CanMove(from: TaskState, to: TaskState) {
    match from
    case Pending => to == Ready || to == Skipped || to == Cancelled
    case Ready => to == Scheduled || to == Cancelled
    case Scheduled => to == Running || to == Cancelled || to == TimedOut
    case Running => to == Passed || to == Failed || to == Cancelled || to == TimedOut
    case _ => false
  }

  /** Every move of the table goes forward in the lifecycle, and exactly the terminal states
      have none. */
  lemma TransitionsClimb(from: TaskState, to: TaskState)
    ensures CanMove(from, to) ==> from.Rank() < to.Rank()
    ensures from.IsTerminal() <==> forall t :: !CanMove(from, t)
  {
    if !from.IsTerminal() {
      assert CanMove(from, Cancelled);
    }
  }

  /** The table by its columns: from where each state is entered. */
  lemma EnteredFrom(from: TaskState, to: TaskState)
    ensures CanMove(from, to) <==>
            match to
            case Pending => false
            case Ready => from == Pending
            case Scheduled => from == Ready
            case Running => from == Scheduled
            case Passed => from == Running
            case Failed => from == Running
            case TimedOut => from == Scheduled || from == Running
            case Skipped => from == Pending
            case Cancelled => from == Pending || from == Ready || from == Scheduled || from == Running
    ensures from.IsTerminal() <==>
            from == Passed || from == Failed || from == Skipped || from == Cancelled || from == TimedOut
  {
  }

  predicate IsUint32(n: int) {
    0 <= n < 0x1_0000_0000
  }

  type uint32 = n: int | IsUint32(n)

  /** What a task asks of a worker. */
  datatype Need = Need(cpu: uint32, memory: uint32, disk: uint32)

  /** When a task is to run; any condition string but the two named means the default. */
  datatype Policy = OnSuccess | OnFailure | Always
  {
    predicate RunsAfterFailure() {
      this != OnSuccess
    }
  }

  function PolicyOf(condition: string): Policy {
    if condition == "on_failure" then OnFailure
    else if condition == "always" then Always
    else OnSuccess
  }

  class Task {
    const id: string
    const name: string
    const condition: string
    const need: Need
    var state: TaskState
    var exitCode: int
    var errorMessage: string
    var startedAt: int
    var finishedAt: int

    constructor (id: string, name: string, condition: string, need: Need)
      ensures this.id == id && this.name == name && this.condition == condition && this.need == need
      ensures state == Pending
    {
      this.id, this.name, this.condition, this.need := id, name, condition, need;
      state := Pending;
      exitCode, errorMessage, startedAt, finishedAt := 0, "", 0, 0;
    }

    predicate ShouldRunAfterFailure()
      ensures ShouldRunAfterFailure() == PolicyOf(condition).RunsAfterFailure()
      ensures ShouldRunAfterFailure() <==> condition == "always" || condition == "on_failure"
    {
      condition == "always" || condition == "on_failure"
    }

    predicate CanTransitionTo(target: TaskState)
      reads this
    {
      CanMove(state, target)
    }

    method TransitionTo(target: TaskState, now: int) returns (ok: bool)
      modifies this`state, this`startedAt, this`finishedAt
      ensures ok == CanMove(old(state), target)
      ensures ok <==>
        || (target == Ready && old(state) == Pending) || (target == Scheduled && old(state) == Ready)
        || (target == Running && old(state) == Scheduled) || (target == Skipped && old(state) == Pending)
        || ((target == Passed || target == Failed) && old(state) == Running)
        || (target == TimedOut && (old(state) == Scheduled || old(state) == Running))
        || (target == Cancelled &&
              (old(state) == Pending || old(state) == Ready || old(state) == Scheduled || old(state) == Running))
      ensures state == if ok then target else old(state)
      ensures startedAt == if ok && target == Running then now else old(startedAt)
      ensures finishedAt == if ok && target != Ready && target != Scheduled && target != Running then now
                            else old(finishedAt)
    {
      EnteredFrom(state, target);
      if !CanTransitionTo(target) {
        return false;
      }
      state := target;
      if target == Running {
        startedAt := now;
      }
      if target.IsTerminal() {
        finishedAt := now;
      }
      return true;
    }
  }
}
