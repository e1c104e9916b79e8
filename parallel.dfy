// The parallel executor: a pool of workers, a source of jobs pulled one
// worker at a time, a slot per worker for the job it runs, and a queue of
// completed jobs handed to the caller one at a time.
//
// Waiting on the workers' pipes is not modelled: each pass receives the
// replies that are ready, keyed by worker index, as its input.

module Parallel {
  import opened Errors
  import opened Json
  import opened ProtocolCommand
  import opened ProtocolClient
  import opened ParallelJob

  /** Distinct elements. */
  ghost predicate Distinct(s: seq<Job>)
  {
    forall i, j :: 0 <= i < j < |s| ==> s[i] != s[j]
  }

  /** No element of a is an element of b. */
  ghost predicate Disjoint(a: seq<Job>, b: seq<Job>)
  {
    forall m, n :: 0 <= m < |a| && 0 <= n < |b| ==> a[m] != b[n]
  }

  /**
   * The job source the executor pulls from: a list of jobs handed out in
   * order, remembering which workers asked.
   */
  class JobSource {
    var jobList: seq<Job>
    var jobIdx: nat
    var clientSeen: set<nat>

    constructor()
      ensures jobList == [] && jobIdx == 0 && clientSeen == {}
    {
      jobList := [];
      jobIdx := 0;
      clientSeen := {};
    }

    method Add(job: Job)
      modifies this
      ensures jobList == old(jobList) + [job] && jobIdx == old(jobIdx) && clientSeen == old(clientSeen)
    {
      jobList := jobList + [job];
    }

    /** The next job for a worker, or null when every job has been handed out. */
    method Next(clientIdx: nat) returns (job: Job?)
      modifies this
      ensures jobList == old(jobList) && clientSeen == old(clientSeen) + {clientIdx}
      ensures old(jobIdx) < |jobList| ==> job == jobList[old(jobIdx)] && jobIdx == old(jobIdx) + 1
      ensures old(jobIdx) >= |jobList| ==> job == null && jobIdx == old(jobIdx)
    {
      clientSeen := clientSeen + {clientIdx};
      if jobIdx < |jobList| {
        job := jobList[jobIdx];
        jobIdx := jobIdx + 1;
      } else {
        job := null;
      }
    }
  }

  /** With every worker idle, nothing is collected and nothing is cleared. */
  lemma {:induction false} CollectedIdle(slots: seq<Job?>, replies: map<nat, string>)
    requires forall k :: 0 <= k < |slots| ==> slots[k] == null
    ensures Collected(slots, replies) == [] && Cleared(slots, replies) == slots
  {
    if |slots| > 0 {
      CollectedIdle(slots[..|slots| - 1], replies);
    }
  }

  /** With the source exhausted, dispatch changes nothing and sends nothing. */
  lemma {:induction false} AssignExhausted(slots: seq<Job?>, jobs: seq<Job>)
    ensures Assign(slots, jobs, |jobs|) == DispatchRun(slots, |jobs|, [])
  {
    if |slots| > 0 {
      var k := |slots| - 1;
      AssignExhausted(slots[..k], jobs);
      assert slots[..k] + [slots[k]] == slots;
    }
  }

  /** The idle workers below k. */
  function IdleBelow(slots: seq<Job?>, k: nat): (r: set<nat>)
    ensures forall l: nat :: l in r <==> l < k && l < |slots| && slots[l] == null
  {
    set l | 0 <= l < k && l < |slots| && slots[l] == null
  }

  /** The jobs the source has not handed out yet. */
  ghost function Untaken(source: JobSource): set<Job>
    reads source
  {
    set i | source.jobIdx <= i < |source.jobList| :: source.jobList[i]
  }

  /** A worker: the client connected to it, and whether it has a readable channel. */
  datatype Worker = Worker(client: Client, hasReadFd: bool)

  // ---------------------------------------------------------------------
  // One pass, as functions of the slots
  // ---------------------------------------------------------------------

  /** A worker whose job has a reply ready this pass. */
  predicate Ready(slots: seq<Job?>, replies: map<nat, string>, k: nat)
  {
    k < |slots| && slots[k] != null && k in replies
  }

  /** The jobs of the ready workers, in worker order: the jobs completed this pass. */
  function Collected(slots: seq<Job?>, replies: map<nat, string>): (r: seq<Job>)
    ensures |r| <= |slots|
    ensures forall j :: j in r ==> j in slots
  {
    if |slots| == 0 then []
    else
      var k := |slots| - 1;
      Collected(slots[..k], replies) + (if slots[k] != null && k in replies then [slots[k]] else [])
  }

  /** Every ready worker's job is among those collected. */
  lemma {:induction false} CollectedReady(slots: seq<Job?>, replies: map<nat, string>)
    ensures forall k :: 0 <= k < |slots| && Ready(slots, replies, k) ==> slots[k] in Collected(slots, replies)
  {
    if |slots| > 0 {
      var n := |slots| - 1;
      CollectedReady(slots[..n], replies);
      forall k | 0 <= k < n && Ready(slots, replies, k)
        ensures slots[k] in Collected(slots, replies)
      {
        assert slots[..n][k] == slots[k] && Ready(slots[..n], replies, k);
      }
    }
  }

  /** A later suffix holds no job an earlier one does not. */
  lemma SuffixWithin(s: seq<Job>, i: nat, j: nat)
    requires i <= j <= |s|
    ensures forall x :: x in s[j..] ==> x in s[i..]
  {
    forall x | x in s[j..]
      ensures x in s[i..]
    {
      var n :| 0 <= n < |s[j..]| && s[j..][n] == x;
      assert s[i..][n + j - i] == x;
    }
  }

  /** The slots once the ready workers' jobs are taken out. */
  function Cleared(slots: seq<Job?>, replies: map<nat, string>): (r: seq<Job?>)
    ensures |r| == |slots|
    ensures forall k :: 0 <= k < |slots| ==> r[k] == if Ready(slots, replies, k) then null else slots[k]
  {
    ClearedBelow(slots, replies, |slots|)
  }

  /** The slots once the ready workers below k have their jobs taken out. */
  function ClearedBelow(slots: seq<Job?>, replies: map<nat, string>, k: nat): (r: seq<Job?>)
    ensures |r| == |slots|
    ensures forall l :: 0 <= l < |slots| ==> r[l] == if l < k && Ready(slots, replies, l) then null else slots[l]
  {
    seq(|slots|, l requires 0 <= l < |slots| => if l < k && Ready(slots, replies, l) then null else slots[l])
  }

  /** What dispatching to the idle workers does: the new slots, the source position, and the commands sent. */
  datatype DispatchRun = DispatchRun(slots: seq<Job?>, next: nat, sent: seq<(nat, string)>)

  /**
   * Dispatching in worker order: each idle worker is given the next job
   * of the source, if any, and is sent its command.
   */
  function Assign(slots: seq<Job?>, jobs: seq<Job>, next: nat): (r: DispatchRun)
    requires next <= |jobs|
    ensures |r.slots| == |slots| && next <= r.next <= |jobs|
  {
    if |slots| == 0 then DispatchRun([], next, [])
    else
      var k := |slots| - 1;
      var pre := Assign(slots[..k], jobs, next);
      if slots[k] != null then DispatchRun(pre.slots + [slots[k]], pre.next, pre.sent)
      else if pre.next < |jobs| then
        DispatchRun(pre.slots + [jobs[pre.next]], pre.next + 1, pre.sent + [(k, CommandJson(jobs[pre.next].command))])
      else DispatchRun(pre.slots + [null], pre.next, pre.sent)
  }

  /** Dispatch leaves a worker idle only once the source is exhausted, and keeps busy workers' jobs. */
  lemma {:induction false} AssignFills(slots: seq<Job?>, jobs: seq<Job>, next: nat)
    requires next <= |jobs|
    ensures forall k :: 0 <= k < |slots| && Assign(slots, jobs, next).slots[k] == null ==> Assign(slots, jobs, next).next == |jobs|
    ensures forall k :: 0 <= k < |slots| && slots[k] != null ==> Assign(slots, jobs, next).slots[k] == slots[k]
    ensures forall k :: 0 <= k < |slots| && slots[k] == null && Assign(slots, jobs, next).slots[k] != null ==>
              Assign(slots, jobs, next).slots[k] in jobs[next..Assign(slots, jobs, next).next]
  {
    if |slots| > 0 {
      AssignFills(slots[..|slots| - 1], jobs, next);
    }
  }

  /** The jobs handed out by one dispatch are those from the old source position to the new. */
  lemma {:induction false} AssignTakes(slots: seq<Job?>, jobs: seq<Job>, next: nat)
    requires next <= |jobs|
    ensures forall i :: next <= i < Assign(slots, jobs, next).next ==> jobs[i] in Assign(slots, jobs, next).slots
  {
    if |slots| > 0 {
      var k := |slots| - 1;
      AssignTakes(slots[..k], jobs, next);
      var pre := Assign(slots[..k], jobs, next);
      var r := Assign(slots, jobs, next);
      forall i | next <= i < r.next
        ensures jobs[i] in r.slots
      {
        if i < pre.next {
          assert jobs[i] in pre.slots;
          assert r.slots[..k] == pre.slots;
        } else {
          assert r.slots[k] == jobs[i];
        }
      }
    }
  }

  /**
   * Assigning to one more worker: the slots so far followed by k's slot,
   * which an idle worker fills with the next job if there is one; the
   * remaining slots are untouched, and k counts as seen only when idle.
   */
  lemma AssignStep(s0: seq<Job?>, jobs: seq<Job>, next0: nat, k: nat)
    requires k < |s0| && next0 <= |jobs|
    ensures var d := Assign(s0[..k], jobs, next0);
            var x := if s0[k] == null && d.next < |jobs| then jobs[d.next] else s0[k];
            && (d.slots + s0[k..])[k] == s0[k]
            && (d.slots + s0[k..])[k := x] == Assign(s0[..k + 1], jobs, next0).slots + s0[k + 1..]
            && Assign(s0[..k + 1], jobs, next0).next == (if s0[k] == null && d.next < |jobs| then d.next + 1 else d.next)
            && Assign(s0[..k + 1], jobs, next0).sent
               == d.sent + (if s0[k] == null && d.next < |jobs| then [(k, CommandJson(jobs[d.next].command))] else [])
            && IdleBelow(s0, k + 1) == IdleBelow(s0, k) + (if s0[k] == null then {k} else {})
  {
    assert s0[..k + 1][..k] == s0[..k];
    assert s0[k..] == [s0[k]] + s0[k + 1..];
  }

  /**
   * The effect of the reply of worker k's job: the job is done, still names
   * process k + 1, and holds the result on success or the error code and
   * message on failure.
   */
  ghost predicate Recorded(j: Job, k: nat, outcome: Result<Option<Value>>)
    reads j
  {
    j.state == Done && j.processId == k + 1 &&
    match outcome
    case Ok(out) => j.result == out && j.code == 0 && j.message == None
    case Fail(e) => j.code == Code(e.errType) && j.message == Some(e.message) && j.result == None
  }

  /** A job that has recorded no outcome yet. */
  ghost predicate Blank(j: Job)
    reads j
  {
    j.code == 0 && j.message == None && j.result == None
  }

  /** Records a running job's outcome on it and moves it to done. */
  method Finish(job: Job, outcome: Result<Option<Value>>)
    requires job.state == Running && Blank(job)
    modifies job
    ensures job.state == Done && job.processId == old(job.processId)
    ensures match outcome
            case Ok(out) => job.result == out && job.code == 0 && job.message == None
            case Fail(e) => job.code == Code(e.errType) && job.message == Some(e.message) && job.result == None
  {
    if outcome.Ok? {
      job.ResultSet(outcome.value);
    } else {
      job.ErrorSet(Code(outcome.error.errType), outcome.error.message);
    }
    var o := job.StateSet(JobState.Done);
  }

  /** Marks a pending job as run by the given process. */
  method Launch(job: Job, processId: nat)
    requires job.state == Pending
    modifies job
    ensures job.state == Running && job.processId == processId
    ensures job.code == old(job.code) && job.message == old(job.message) && job.result == old(job.result)
  {
    job.ProcessIdSet(processId);
    var o := job.StateSet(Running);
  }

  // ---------------------------------------------------------------------
  // The executor
  // ---------------------------------------------------------------------

  class Executor {
    /** The longest a pass waits for a reply, in milliseconds. */
    const timeout: nat
    const source: JobSource
    var state: JobState
    var workers: seq<Worker>
    /** The job each worker is running, or null when it is idle. */
    var slots: seq<Job?>
    /** Completed jobs not yet handed to the caller, in the order they completed. */
    var staged: seq<Job>
    /** The command lines written, with the worker each was written to. */
    var sent: seq<(nat, string)>
    /** The jobs handed to the caller so far. */
    ghost var reported: seq<Job>

    /**
     * The bookkeeping that holds during a pass: jobs not yet handed out are
     * pending, each running job sits in the slot of the process it names,
     * completed jobs are done, and every job handed out is running, staged
     * or reported, and staged or reported only once.
     */
    ghost predicate Coherent()
      reads this, source`jobList, source`jobIdx, source.jobList, slots, staged, reported
    {
      SourceCoherent() && SlotsCoherent() && FinishedCoherent() && Covered()
    }

    /** The source's position is within its list, and the jobs it has not handed out are distinct and pending. */
    ghost predicate SourceCoherent()
      reads this, source`jobList, source`jobIdx, source.jobList
    {
      && source.jobIdx <= |source.jobList|
      && Distinct(source.jobList)
      && (forall i :: source.jobIdx <= i < |source.jobList| ==> source.jobList[i].state == Pending && Blank(source.jobList[i]))
    }

    /** There is a slot per worker, and each running job sits in the slot of the process it names. */
    ghost predicate SlotsCoherent()
      reads this, slots
    {
      && |slots| == |workers|
      && (forall k :: 0 <= k < |slots| && slots[k] != null ==>
            slots[k].state == Running && slots[k].processId == k + 1 && Blank(slots[k]))
    }

    /** Staged and reported jobs are done, and none is staged or reported twice. */
    ghost predicate FinishedCoherent()
      reads this, staged, reported
    {
      && (forall m :: 0 <= m < |staged| ==> staged[m].state == JobState.Done)
      && (forall m :: 0 <= m < |reported| ==> reported[m].state == JobState.Done)
      && Distinct(staged) && Distinct(reported) && Disjoint(staged, reported)
    }

    /** Every job handed out is running, staged or reported. */
    ghost predicate Covered()
      reads this, source`jobList, source`jobIdx
    {
      && source.jobIdx <= |source.jobList|
      && forall i :: 0 <= i < source.jobIdx ==>
           source.jobList[i] in slots || source.jobList[i] in staged || source.jobList[i] in reported
    }

    /**
     * Between passes, in addition: a worker is idle only when the source has
     * no job left, and once done nothing is running or staged.
     */
    ghost predicate Valid()
      reads this, source, source.jobList, slots, staged, reported
    {
      && Coherent()
      && (state == Running && null in slots ==> source.jobIdx == |source.jobList|)
      && (state == JobState.Done ==>
            && (forall k :: 0 <= k < |slots| ==> slots[k] == null)
            && staged == []
            && (|workers| > 0 ==> source.jobIdx == |source.jobList|))
    }

    /** A new executor is pending, with no workers. */
    constructor(timeout: nat, source: JobSource)
      requires source.jobIdx == 0 && Distinct(source.jobList)
      requires forall i :: 0 <= i < |source.jobList| ==> source.jobList[i].state == Pending && Blank(source.jobList[i])
      ensures Valid()
      ensures this.timeout == timeout && this.source == source
      ensures state == Pending && workers == [] && slots == [] && staged == [] && sent == [] && reported == []
    {
      this.timeout := timeout;
      this.source := source;
      state := Pending;
      workers := [];
      slots := [];
      staged := [];
      sent := [];
      reported := [];
    }

    /**
     * Adds a job to the source of an executor that has not started: the
     * callback's list may grow after the executor is created.
     */
    method JobAdd(job: Job)
      requires Valid() && state == Pending
      requires job.state == Pending && Blank(job) && job !in source.jobList
      modifies source
      ensures Valid()
      ensures source.jobList == old(source.jobList) + [job] && source.jobIdx == old(source.jobIdx)
      ensures source.clientSeen == old(source.clientSeen)
    {
      source.Add(job);
    }

    /** Adds an idle worker before the first pass; one without a readable channel is refused. */
    method ClientAdd(w: Worker) returns (outcome: Outcome)
      requires Valid() && state == Pending
      modifies this
      ensures Valid()
      ensures w.hasReadFd ==> outcome == Pass && workers == old(workers) + [w] && slots == old(slots) + [null]
      ensures !w.hasReadFd ==>
                outcome == Raise(Error(AssertError, "client with read fd is required")) && workers == old(workers) && slots == old(slots)
      ensures state == old(state) && staged == old(staged) && sent == old(sent) && reported == old(reported)
    {
      if !w.hasReadFd {
        return Raise(Error(AssertError, "client with read fd is required"));
      }
      workers := workers + [w];
      slots := slots + [null];
      outcome := Pass;
    }

    /** The job in slot k has finished with the given reply: it is recorded, done, and staged. */
    method CollectOne(k: nat, outcome: Result<Option<Value>>)
      requires Coherent()
      requires k < |slots| && slots[k] != null
      modifies this, slots[k]
      ensures Coherent()
      ensures slots == old(slots)[k := null] && staged == old(staged) + [old(slots)[k]]
      ensures Recorded(old(slots)[k], k, outcome)
      ensures state == old(state) && workers == old(workers) && sent == old(sent) && reported == old(reported)
    {
      var job := slots[k];
      ghost var s0 := slots;
      assert forall m :: 0 <= m < |staged| ==> staged[m] != job;
      assert forall m :: 0 <= m < |reported| ==> reported[m] != job;
      Finish(job, outcome);
      staged, slots := staged + [job], slots[k := null];
      forall i | 0 <= i < source.jobIdx
        ensures source.jobList[i] in slots || source.jobList[i] in staged || source.jobList[i] in reported
      {
        var x := source.jobList[i];
        if x in s0 && x != job {
          var l :| 0 <= l < |s0| && s0[l] == x;
          assert slots[l] == x;
        }
      }
    }

    /**
     * Collection of the slots s0 has reached worker k: the ready jobs below k
     * are recorded, out of their slots, and staged after staged0 in worker
     * order.
     */
    ghost predicate CollectedBelow(s0: seq<Job?>, staged0: seq<Job>, replies: map<nat, string>,
                                   outcomes: map<nat, Result<Option<Value>>>, k: nat)
      reads this, s0
    {
      && k <= |s0|
      && (forall a, b :: 0 <= a < b < |s0| && s0[a] != null ==> s0[a] != s0[b])
      && slots == ClearedBelow(s0, replies, k)
      && staged == staged0 + Collected(s0[..k], replies)
      && (forall l :: 0 <= l < k && Ready(s0, replies, l) ==> l in outcomes && Recorded(s0[l], l, outcomes[l]))
    }

    /** Collects worker k if its reply is ready; reports whether it was. */
    method CollectStep(ghost s0: seq<Job?>, ghost staged0: seq<Job>, replies: map<nat, string>,
                       outcomes: map<nat, Result<Option<Value>>>, k: nat) returns (taken: bool)
      requires Coherent()
      requires CollectedBelow(s0, staged0, replies, outcomes, k) && k < |s0|
      requires Ready(s0, replies, k) ==> k in outcomes
      modifies this, s0[k]
      ensures Coherent() && CollectedBelow(s0, staged0, replies, outcomes, k + 1)
      ensures taken == Ready(s0, replies, k)
      ensures |staged| == |old(staged)| + (if taken then 1 else 0)
      ensures state == old(state) && workers == old(workers) && sent == old(sent) && reported == old(reported)
    {
      assert s0[..k + 1][..k] == s0[..k];
      ghost var done := Collected(s0[..k], replies);
      assert slots[k] == s0[k];
      if slots[k] != null && k in replies {
        assert Collected(s0[..k + 1], replies) == done + [s0[k]];
        CollectOne(k, outcomes[k]);
        assert staged == staged0 + (done + [s0[k]]);
        assert forall l :: 0 <= l < k && Ready(s0, replies, l) ==> s0[l] != s0[k];
        assert slots == ClearedBelow(s0, replies, k + 1);
        taken := true;
      } else {
        assert Collected(s0[..k + 1], replies) == done + [];
        assert slots == ClearedBelow(s0, replies, k + 1);
        taken := false;
      }
    }

    /** Collects each worker in turn, from the first; returns how many were ready. */
    method CollectAll(ghost s0: seq<Job?>, ghost staged0: seq<Job>, replies: map<nat, string>,
                      outcomes: map<nat, Result<Option<Value>>>) returns (completed: nat)
      requires Coherent()
      requires CollectedBelow(s0, staged0, replies, outcomes, 0) && |slots| == |s0|
      requires forall k :: k in replies && k < |s0| ==> k in outcomes
      modifies this, s0
      ensures Coherent() && CollectedBelow(s0, staged0, replies, outcomes, |s0|)
      ensures |staged| == |old(staged)| + completed
      ensures state == old(state) && workers == old(workers) && sent == old(sent) && reported == old(reported)
      ensures source.jobList == old(source.jobList) && source.jobIdx == old(source.jobIdx)
    {
      completed := 0;
      var k := 0;
      while k < |slots|
        invariant k <= |slots| == |s0|
        invariant Coherent() && CollectedBelow(s0, staged0, replies, outcomes, k)
        invariant |staged| == |old(staged)| + completed
        invariant state == old(state) && workers == old(workers) && sent == old(sent) && reported == old(reported)
        invariant source.jobList == old(source.jobList) && source.jobIdx == old(source.jobIdx)
      {
        var taken := CollectStep(s0, staged0, replies, outcomes, k);
        completed := completed + if taken then 1 else 0;
        k := k + 1;
      }
    }

    /**
     * Takes in the ready replies in worker order, each read as its outcome:
     * each ready job gets its result or its error, becomes done, leaves its
     * slot and is staged.
     */
    method Collect(replies: map<nat, string>, outcomes: map<nat, Result<Option<Value>>>) returns (completed: nat)
      requires Coherent()
      requires forall k :: k in replies && k < |slots| ==> k in outcomes
      modifies this, slots
      ensures Coherent()
      ensures slots == Cleared(old(slots), replies)
      ensures staged == old(staged) + Collected(old(slots), replies)
      ensures completed == |Collected(old(slots), replies)|
      ensures forall k :: 0 <= k < |old(slots)| && Ready(old(slots), replies, k) ==> Recorded(old(slots)[k], k, outcomes[k])
      ensures state == old(state) && workers == old(workers) && sent == old(sent) && reported == old(reported)
      ensures source.jobList == old(source.jobList) && source.jobIdx == old(source.jobIdx)
    {
      ghost var s0 := slots;
      assert forall a, b :: 0 <= a < b < |s0| && s0[a] != null ==> s0[a] != s0[b] by {
        assert forall a :: 0 <= a < |s0| && s0[a] != null ==> s0[a].processId == a + 1;
      }
      assert slots == ClearedBelow(s0, replies, 0);
      assert staged == staged + Collected(s0[..0], replies);
      completed := CollectAll(s0, staged, replies, outcomes);
      assert s0[..|s0|] == s0;
    }

    /** Gives the idle worker k the next job of the source, if any: its command is sent and it runs as process k + 1. */
    method DispatchOne(k: nat)
      requires Coherent() && state == Running
      requires k < |slots| && slots[k] == null
      modifies this, source, if source.jobIdx < |source.jobList| then {source.jobList[source.jobIdx]} else {}
      ensures Coherent()
      ensures var next := old(source.jobIdx);
              if next < |source.jobList| then
                && slots == old(slots)[k := source.jobList[next]] && source.jobIdx == next + 1
                && sent == old(sent) + [(k, CommandJson(source.jobList[next].command))]
              else slots == old(slots) && source.jobIdx == next && sent == old(sent)
      ensures source.jobList == old(source.jobList) && source.clientSeen == old(source.clientSeen) + {k}
      ensures state == old(state) && workers == old(workers) && staged == old(staged) && reported == old(reported)
    {
      ghost var s0 := slots;
      ghost var next := source.jobIdx;
      var job := source.Next(k);
      if job != null {
        assert job.state == Pending;
        assert forall m :: 0 <= m < |staged| ==> staged[m] != job;
        assert forall m :: 0 <= m < |reported| ==> reported[m] != job;
        Launch(job, k + 1);
        sent, slots := sent + [(k, CommandJson(job.command))], slots[k := job];
        assert forall i :: next < i < |source.jobList| ==> source.jobList[i] != job;
        forall i | 0 <= i < source.jobIdx
          ensures source.jobList[i] in slots || source.jobList[i] in staged || source.jobList[i] in reported
        {
          var x := source.jobList[i];
          if i < next && x in s0 {
            var l :| 0 <= l < |s0| && s0[l] == x;
            assert slots[l] == x;
          }
          if i == next {
            assert slots[k] == x;
          }
        }
      }
    }

    /**
     * Dispatch over the slots s0 has reached worker k: the slots below k, the
     * source position and the commands sent are those of assigning to them.
     */
    ghost predicate DispatchedBelow(s0: seq<Job?>, jobs: seq<Job>, next0: nat, sent0: seq<(nat, string)>,
                                    seen0: set<nat>, k: nat)
      reads this, source
    {
      && k <= |s0| && next0 <= |jobs|
      && source.jobList == jobs
      && var d := Assign(s0[..k], jobs, next0);
         && slots == d.slots + s0[k..]
         && source.jobIdx == d.next
         && sent == sent0 + d.sent
         && source.clientSeen == seen0 + IdleBelow(s0, k)
    }

    /** Dispatches to worker k if it is idle. */
    method DispatchStep(ghost s0: seq<Job?>, ghost jobs: seq<Job>, ghost next0: nat, ghost sent0: seq<(nat, string)>,
                        ghost seen0: set<nat>, k: nat)
      requires Coherent() && state == Running
      requires DispatchedBelow(s0, jobs, next0, sent0, seen0, k) && k < |s0|
      modifies this, source, if source.jobIdx < |source.jobList| then {source.jobList[source.jobIdx]} else {}
      ensures Coherent() && DispatchedBelow(s0, jobs, next0, sent0, seen0, k + 1)
      ensures old(source.jobIdx) <= source.jobIdx
      ensures state == old(state) && workers == old(workers) && staged == old(staged) && reported == old(reported)
    {
      AssignStep(s0, jobs, next0, k);
      if slots[k] == null {
        DispatchOne(k);
      }
    }

    /** Dispatches to each worker in turn, from the first. */
    method DispatchAll(ghost s0: seq<Job?>, ghost jobs: seq<Job>, ghost next0: nat, ghost sent0: seq<(nat, string)>,
                       ghost seen0: set<nat>)
      requires Coherent() && state == Running
      requires DispatchedBelow(s0, jobs, next0, sent0, seen0, 0) && |slots| == |s0|
      modifies this, source, Untaken(source)
      ensures Coherent() && DispatchedBelow(s0, jobs, next0, sent0, seen0, |s0|)
      ensures state == old(state) && workers == old(workers) && staged == old(staged) && reported == old(reported)
    {
      var k := 0;
      while k < |slots|
        invariant k <= |slots| == |s0|
        invariant Coherent() && DispatchedBelow(s0, jobs, next0, sent0, seen0, k)
        invariant old(source.jobIdx) <= source.jobIdx
        invariant state == old(state) && workers == old(workers) && staged == old(staged) && reported == old(reported)
      {
        DispatchStep(s0, jobs, next0, sent0, seen0, k);
        k := k + 1;
      }
    }

    /**
     * Gives each idle worker, in worker order, the next job of the source:
     * the command is sent, the job records the 1-based process and runs.
     */
    method Dispatch()
      requires Coherent() && state == Running
      modifies this, source, Untaken(source)
      ensures Valid()
      ensures var d := Assign(old(slots), old(source.jobList), old(source.jobIdx));
              slots == d.slots && source.jobIdx == d.next && sent == old(sent) + d.sent
      ensures source.jobList == old(source.jobList)
      ensures source.clientSeen == old(source.clientSeen) + IdleBelow(old(slots), |old(slots)|)
      ensures state == old(state) && workers == old(workers) && staged == old(staged) && reported == old(reported)
    {
      ghost var s0 := slots;
      ghost var jobs := source.jobList;
      ghost var next0 := source.jobIdx;
      assert s0[0..] == s0;
      assert IdleBelow(s0, 0) == {};
      DispatchAll(s0, jobs, next0, sent, source.clientSeen);
      assert s0[..|s0|] == s0;
      assert null in slots ==> source.jobIdx == |jobs| by {
        if null in slots {
          var k :| 0 <= k < |slots| && slots[k] == null;
          AssignFills(s0, jobs, next0);
        }
      }
    }

    /**
     * Reads the reply of each ready worker as the terminating response of
     * its command, output required, and collects the ready jobs with those
     * outcomes.
     */
    method Receive(replies: map<nat, string>, debug: bool) returns (completed: nat)
      requires Coherent()
      modifies this, slots
      ensures Coherent()
      ensures slots == Cleared(old(slots), replies)
      ensures staged == old(staged) + Collected(old(slots), replies)
      ensures completed == |Collected(old(slots), replies)|
      ensures forall k :: 0 <= k < |old(slots)| && Ready(old(slots), replies, k) ==>
                Recorded(old(slots)[k], k, ReadOutput(workers[k].client.name, replies[k], true, debug))
      ensures state == old(state) && workers == old(workers) && sent == old(sent) && reported == old(reported)
      ensures source.jobList == old(source.jobList) && source.jobIdx == old(source.jobIdx)
    {
      ghost var s0 := slots;
      var outcomes := map k | k in replies && k < |workers| :: ReadOutput(workers[k].client.name, replies[k], true, debug);
      completed := Collect(replies, outcomes);
      forall k | 0 <= k < |s0| && Ready(s0, replies, k)
        ensures Recorded(s0[k], k, ReadOutput(workers[k].client.name, replies[k], true, debug))
      {
        assert outcomes[k] == ReadOutput(workers[k].client.name, replies[k], true, debug);
      }
    }

    /**
     * The second half of a pass: unless the executor is done, it is running
     * and each idle worker is given the next job of the source.
     */
    method Advance()
      requires Coherent()
      requires state == JobState.Done ==>
                 && (forall k :: 0 <= k < |slots| ==> slots[k] == null)
                 && staged == []
                 && (|workers| > 0 ==> source.jobIdx == |source.jobList|)
      modifies this, source, Untaken(source)
      ensures Valid()
      ensures var d := Assign(old(slots), old(source.jobList), old(source.jobIdx));
              slots == d.slots && source.jobIdx == d.next && sent == old(sent) + d.sent
      ensures old(state) == JobState.Done ==> state == JobState.Done
      ensures old(state) != JobState.Done ==> state == Running
      ensures source.jobList == old(source.jobList)
      ensures workers == old(workers) && staged == old(staged) && reported == old(reported)
    {
      if state == JobState.Done {
        if |slots| > 0 {
          assert slots[0] == null;
          AssignExhausted(slots, source.jobList);
        }
        return;
      }
      state := Running;
      Dispatch();
    }

    /**
     * One pass: the ready replies are taken in, then the idle workers are
     * given new jobs (unless the executor is done). Returns how many jobs
     * completed in this pass.
     */
    method Process(replies: map<nat, string>, debug: bool) returns (completed: nat)
      requires Valid()
      modifies this, source, source.jobList, slots
      ensures Valid()
      ensures var d := Assign(Cleared(old(slots), replies), old(source.jobList), old(source.jobIdx));
              && completed == |Collected(old(slots), replies)|
              && staged == old(staged) + Collected(old(slots), replies)
              && slots == d.slots && source.jobIdx == d.next && sent == old(sent) + d.sent
              && (forall k :: 0 <= k < |old(slots)| && Ready(old(slots), replies, k) ==>
                    Recorded(old(slots)[k], k, ReadOutput(workers[k].client.name, replies[k], true, debug)))
      ensures workers == old(workers) && reported == old(reported) && source.jobList == old(source.jobList)
      ensures old(state) == JobState.Done ==> state == JobState.Done
      ensures old(state) != JobState.Done ==> state == Running
    {
      ghost var s0 := slots;
      completed := Receive(replies, debug);
      if state == JobState.Done {
        CollectedIdle(s0, replies);
      }
      assert forall k :: 0 <= k < |s0| && Ready(s0, replies, k) ==> s0[k] !in Untaken(source);
      Advance();
    }

    /** Hands the caller the job that completed first among those not yet handed out, or null. */
    method Result() returns (job: Job?)
      requires Valid()
      modifies this
      ensures Valid()
      ensures old(staged) == [] ==> job == null && staged == [] && reported == old(reported)
      ensures old(staged) != [] ==> job == old(staged)[0] && staged == old(staged)[1..] && reported == old(reported) + [old(staged)[0]]
      ensures state == old(state) && slots == old(slots) && workers == old(workers) && sent == old(sent)
    {
      if |staged| == 0 {
        return null;
      }
      job := staged[0];
      staged := staged[1..];
      reported := reported + [job];
      forall i | 0 <= i < source.jobIdx
        ensures source.jobList[i] in slots || source.jobList[i] in staged || source.jobList[i] in reported
      {
        var x := source.jobList[i];
        if x in old(staged) {
          assert x == job || x in staged by {
            assert old(staged) == [job] + staged;
          }
        }
      }
    }

    /** True once nothing is running or staged; it stays true. */
    method Done() returns (done: bool)
      requires Valid() && state != Pending
      modifies this
      ensures Valid()
      ensures done <==> state == JobState.Done
      ensures done <==> old(state) == JobState.Done || ((forall k :: 0 <= k < |slots| ==> slots[k] == null) && staged == [])
      ensures slots == old(slots) && staged == old(staged) && workers == old(workers) && sent == old(sent) && reported == old(reported)
    {
      if state != JobState.Done && (forall k :: 0 <= k < |slots| ==> slots[k] == null) && staged == [] {
        if |slots| > 0 {
          assert slots[0] == null;
        }
        state := JobState.Done;
      }
      done := state == JobState.Done;
    }
  }

  /**
   * Once the executor with at least one worker is done, every job of the
   * source has been handed to the caller, and none twice.
   */
  lemma AllReported(e: Executor)
    requires e.Valid() && e.state == JobState.Done && |e.workers| > 0
    ensures forall i :: 0 <= i < |e.source.jobList| ==> e.source.jobList[i] in e.reported
    ensures Distinct(e.reported)
  {
    forall i | 0 <= i < |e.source.jobList|
      ensures e.source.jobList[i] in e.reported
    {
      var j := e.source.jobList[i];
      assert j in e.slots || j in e.staged || j in e.reported;
      assert forall k :: 0 <= k < |e.slots| ==> e.slots[k] != j;
    }
  }

  /** Collection over two workers. */
  lemma CollectedPair(a: Job?, b: Job?, replies: map<nat, string>)
    ensures Collected([a, b], replies) == (if a != null && 0 in replies then [a] else [])
                                         + (if b != null && 1 in replies then [b] else [])
    ensures Cleared([a, b], replies) == [if a != null && 0 in replies then null else a,
                                         if b != null && 1 in replies then null else b]
  {
    assert [a, b][..1] == [a] && [a][..0] == [];
  }

  /**
   * Two workers and three jobs, where the second worker answers its first
   * job, then its second, and the first worker answers last. The first pass
   * completes nothing and hands out the first two jobs in worker order.
   */
  lemma FirstPass(j1: Job, j2: Job, j3: Job)
    ensures Collected([null, null], map[]) == [] && Cleared([null, null], map[]) == [null, null]
    ensures Assign([null, null], [j1, j2, j3], 0)
            == DispatchRun([j1, j2], 2, [(0, CommandJson(j1.command)), (1, CommandJson(j2.command))])
  {
    CollectedPair(null, null, map[]);
    assert [null, null][..1] == [null];
    assert Assign([null], [j1, j2, j3], 0) == DispatchRun([j1], 1, [(0, CommandJson(j1.command))]);
  }

  /** The second worker's answer completes job2, and that worker is given job3. */
  lemma SecondPass(j1: Job, j2: Job, j3: Job, r2: string)
    ensures Collected([j1, j2], map[1 := r2]) == [j2] && Cleared([j1, j2], map[1 := r2]) == [j1, null]
    ensures Assign([j1, null], [j1, j2, j3], 2) == DispatchRun([j1, j3], 3, [(1, CommandJson(j3.command))])
  {
    CollectedPair(j1, j2, map[1 := r2]);
    assert [j1, null][..1] == [j1];
    assert Assign([j1], [j1, j2, j3], 2) == DispatchRun([j1], 2, []);
  }

  /** Its next answer completes job3; with the source exhausted that worker stays idle. */
  lemma ThirdPass(j1: Job, j2: Job, j3: Job, r3: string)
    ensures Collected([j1, j3], map[1 := r3]) == [j3] && Cleared([j1, j3], map[1 := r3]) == [j1, null]
    ensures Assign([j1, null], [j1, j2, j3], 3) == DispatchRun([j1, null], 3, [])
  {
    CollectedPair(j1, j3, map[1 := r3]);
    assert [j1, null][..1] == [j1];
    assert Assign([j1], [j1, j2, j3], 3) == DispatchRun([j1], 3, []);
  }

  /** A pass with no answer changes nothing; the first worker's answer then completes job1. */
  lemma LastPasses(j1: Job, j2: Job, j3: Job, r1: string)
    ensures Collected([j1, null], map[]) == [] && Cleared([j1, null], map[]) == [j1, null]
    ensures Collected([j1, null], map[0 := r1]) == [j1] && Cleared([j1, null], map[0 := r1]) == [null, null]
    ensures Assign([null, null], [j1, j2, j3], 3) == DispatchRun([null, null], 3, [])
  {
    CollectedPair(j1, null, map[]);
    CollectedPair(j1, null, map[0 := r1]);
    AssignExhausted([null, null], [j1, j2, j3]);
  }

  /**
   * With no jobs and one worker, the first pass completes nothing, whatever
   * replies are offered, and the executor is then done.
   */
  method ZeroJobs(w: Worker, replies: map<nat, string>) returns (completed: nat, done: bool)
    requires w.hasReadFd
    ensures completed == 0 && done
  {
    var source := new JobSource();
    var e := new Executor(2000, source);
    var added := e.ClientAdd(w);
    CollectedIdle([null], replies);
    AssignExhausted([null], []);
    completed := e.Process(replies, false);
    done := e.Done();
  }

  /** An executor with one worker, created before its one job was added to the source. */
  method OneJobAddedLater(w: Worker, key: Value, command: Command) returns (e: Executor, job: Job)
    requires w.hasReadFd
    ensures fresh(e) && fresh(e.source) && fresh(job)
    ensures e.Valid() && e.state == Pending && e.slots == [null] && e.sent == []
    ensures e.source.jobList == [job] && e.source.jobIdx == 0 && job.key == key && job.command == command
  {
    var source := new JobSource();
    e := new Executor(2000, source);
    var added := e.ClientAdd(w);
    job := new Job(key, command);
    e.JobAdd(job);
  }

  /**
   * A job added after the executor and its worker were created is
   * dispatched by the first pass, which completes nothing.
   */
  method JobAddedLater(w: Worker, key: Value, command: Command) returns (completed: nat, running: seq<Job?>, sentLines: seq<(nat, string)>)
    requires w.hasReadFd
    ensures completed == 0
    ensures |running| == 1 && running[0] != null && running[0].key == key
    ensures sentLines == [(0, CommandJson(command))]
  {
    var e, job := OneJobAddedLater(w, key, command);
    CollectedIdle([null], map[]);
    assert Assign([null], [job], 0) == DispatchRun([job], 1, [(0, CommandJson(job.command))]) by {
      assert [null][..0] == [];
    }
    completed := e.Process(map[], false);
    running := e.slots;
    sentLines := e.sent;
  }
}
