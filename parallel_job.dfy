// A job run by the parallel executor: a fixed key and command, and the
// state, process id, error and result the executor records on it.

module ParallelJob {
  import opened Errors
  import opened Json
  import opened ProtocolCommand

  /** A job is always in exactly one of these states. */
  datatype JobState = Pending | Running | Done

  /** The name a state is logged under. */
  function StateName(s: JobState): (n: string)
    ensures |n| > 0 && forall i :: 0 <= i < |n| ==> 'a' <= n[i] <= 'z'
  {
    match s
    case Pending => "pending"
    case Running => "running"
    case Done => "done"
  }

  /** Distinct states have distinct names. */
  lemma StateNameInjective(a: JobState, b: JobState)
    requires StateName(a) == StateName(b)
    ensures a == b
  {
    assert StateName(a)[0] == StateName(b)[0];
  }

  /** The only transitions allowed: pending to running, running to done. */
  predicate ValidTransition(from: JobState, to: JobState)
  {
    (from == Pending && to == Running) || (from == Running && to == Done)
  }

  function Rank(s: JobState): nat
  {
    match s
    case Pending => 0
    case Running => 1
    case Done => 2
  }

  /**
   * Every allowed transition moves exactly one step forward: none leaves
   * done, none returns to pending, and none re-sets the current state.
   */
  lemma TransitionsAdvance(from: JobState, to: JobState)
    ensures ValidTransition(from, to) <==> Rank(to) == Rank(from) + 1
    ensures ValidTransition(from, to) ==> from != Done && to != Pending && from != to
  {
  }

  function TransitionError(from: JobState, to: JobState): Error
  {
    Error(AssertError, "invalid state transition from '" + StateName(from) + "' to '" + StateName(to) + "'")
  }

  class Job {
    /** Identifies the job; fixed for its lifetime. */
    const key: Value
    /** The command the job runs; fixed for its lifetime. */
    const command: Command
    /** The 1-based index of the process that ran the job; 0 before it is dispatched. */
    var processId: nat
    var state: JobState
    /** Non-zero when the job failed. */
    var code: int
    /** The error message when the job failed. */
    var message: Option<string>
    /** The output of a successful job. */
    var result: Option<Value>

    constructor(key: Value, command: Command)
      ensures this.key == key && this.command == command
      ensures processId == 0 && state == Pending && code == 0 && message == None && result == None
    {
      this.key := key;
      this.command := command;
      processId := 0;
      state := Pending;
      code := 0;
      message := None;
      result := None;
    }

    /** Moves the job to a new state; any transition but the two allowed is refused and changes nothing. */
    method StateSet(to: JobState) returns (outcome: Outcome)
      modifies this
      ensures ValidTransition(old(state), to) ==> outcome == Pass && state == to
      ensures !ValidTransition(old(state), to) ==> outcome == Raise(TransitionError(old(state), to)) && state == old(state)
      ensures processId == old(processId) && code == old(code) && message == old(message) && result == old(result)
    {
      if ValidTransition(state, to) {
        state := to;
        outcome := Pass;
      } else {
        outcome := Raise(TransitionError(state, to));
      }
    }

    /** Records that the job failed with a (non-zero) code and a message. */
    method ErrorSet(code: int, message: string)
      requires code != 0
      modifies this
      ensures this.code == code && this.message == Some(message)
      ensures processId == old(processId) && state == old(state) && result == old(result)
    {
      this.code := code;
      this.message := Some(message);
    }

    /** Records the output of a successful job. */
    method ResultSet(result: Option<Value>)
      modifies this
      ensures this.result == result
      ensures processId == old(processId) && state == old(state) && code == old(code) && message == old(message)
    {
      this.result := result;
    }

    /** Records which process runs the job. */
    method ProcessIdSet(processId: nat)
      modifies this
      ensures this.processId == processId
      ensures state == old(state) && code == old(code) && message == old(message) && result == old(result)
    {
      this.processId := processId;
    }
  }

  /**
   * The two transitions the executor makes, in order, are accepted, and the
   * job then refuses to go back or to be started again.
   */
  method Lifecycle(key: Value, command: Command) returns (j: Job, early: Outcome, back: Outcome, again: Outcome)
    ensures fresh(j)
    ensures j.state == Done && j.key == key && j.command == command
    ensures early == Raise(TransitionError(Pending, Done))
    ensures back == Raise(TransitionError(Running, Pending))
    ensures again == Raise(TransitionError(Done, Running))
  {
    j := new Job(key, command);
    early := j.StateSet(Done);
    var o := j.StateSet(Running);
    assert o == Pass;
    back := j.StateSet(Pending);
    o := j.StateSet(Done);
    assert o == Pass;
    again := j.StateSet(Running);
  }
}
