/** The interface side of a run: it submits the assembled cases to a worker and follows the
    worker's signals until the terminal one. */
module BenchmarkRunner {
  import opened Util
  import opened Assembler
  import opened TaskRun

  datatype RunningStatus = Pending | Finished

  datatype Notice = NoNotice | Cannot(problem: AssembleError) | TaskFailed

  function CountFinished(status: seq<RunningStatus>): nat {
    if status == [] then 0
    else CountFinished(status[..|status| - 1]) + if status[|status| - 1].Finished? then 1 else 0
  }

  /** The first t of n cases are finished. */
  ghost function FirstFinished(n: nat, t: nat): (status: seq<RunningStatus>)
    ensures |status| == n
  {
    seq(n, i => if i < t then Finished else Pending)
  }

  lemma {:induction false} CountFirstFinished(n: nat, t: nat)
    requires t <= n
    ensures CountFinished(FirstFinished(n, t)) == t
  {
    if n > 0 {
      assert FirstFinished(n, t)[..n - 1] == FirstFinished(n - 1, if t < n then t else n - 1);
      CountFirstFinished(n - 1, if t < n then t else n - 1);
    }
  }

  lemma ArrangedSize(tasks: seq<Runner>)
    ensures |Arranged(tasks)| == |tasks|
  {
    ArrangedIsPermutation(tasks);
    assert |multiset(Arranged(tasks))| == |Arranged(tasks)| && |multiset(tasks)| == |tasks|;
  }

  class TaskRunner {
    const caseRunners: seq<Runner>
    var status: seq<RunningStatus>

    constructor (caseRunners: seq<Runner>)
      ensures this.caseRunners == caseRunners && status == FirstFinished(|caseRunners|, 0)
    {
      this.caseRunners := caseRunners;
      status := seq(|caseRunners|, i => Pending);
    }

    method SetFinished(idx: nat)
      requires idx < |status|
      modifies this
      ensures status == old(status)[idx := Finished]
    {
      status := status[idx := Finished];
    }

    method NumFinished() returns (n: nat)
      ensures n == CountFinished(status)
    {
      n := 0;
      var i := 0;
      while i < |status|
        invariant 0 <= i <= |status| && n == CountFinished(status[..i])
      {
        assert status[..i + 1][..i] == status[..i];
        if status[i].Finished? {
          n := n + 1;
        }
        i := i + 1;
      }
      assert status[..i] == status;
    }
  }

  class BenchMarkRunner {
    var runningTask: TaskRunner?
    var latestError: Notice
    /** The receiving end: what the worker has sent, or will send, and nobody has read yet. */
    var receiveConn: Option<seq<Signal>>
    /** Everything the worker of the running task sends. */
    ghost var wire: seq<Signal>
    ghost var taken: nat

    /** While a task runs, exactly the cases whose signals were read are finished, and the terminal
        signal is still to come. */
    ghost predicate Valid()
      reads this, runningTask
    {
      runningTask != null ==>
        && var n := |runningTask.caseRunners|;
        && WorkerSends(n, wire) && taken < |wire| && receiveConn == Some(wire[taken..])
        && runningTask.status == FirstFinished(n, taken)
    }

    constructor ()
      ensures Valid() && runningTask == null
    {
      runningTask, latestError, receiveConn := null, NoNotice, None;
    }

    /** run(). installed: which databases have their client module; sent: what the worker will send if the
        task is submitted. Missing full-text support is raised to the caller, the other problems are noted. */
    method Run(tasks: seq<Runner>, installed: string -> bool, sent: seq<Signal>)
      returns (r: Result<bool, AssembleError>)
      requires Valid() && WorkerSends(|tasks|, sent)
      modifies this
      ensures Valid()
      ensures old(runningTask) != null ==>
        && r == Ok(false) && runningTask == old(runningTask)
        && (wire, taken, receiveConn) == old((wire, taken, receiveConn))
      ensures old(runningTask) == null && tasks == [] ==> r == Ok(false) && runningTask == null
      ensures old(runningTask) == null && tasks != [] ==>
        match FirstProblem(installed, tasks)
        case None =>
          && r == Ok(true) && latestError == NoNotice && runningTask != null && fresh(runningTask)
          && runningTask.caseRunners == Arranged(tasks) && wire == sent && taken == 0
        case Some(problem) =>
          && runningTask == null
          && if problem.FullTextNotSupported? then r == Err(problem) && latestError == NoNotice
             else r == Ok(true) && latestError == Cannot(problem)
    {
      latestError := NoNotice;
      if runningTask != null {
        return Ok(false);
      }
      if |tasks| == 0 {
        return Ok(false);
      }
      receiveConn := Some(sent);
      var all := AssembleAll(installed, tasks);
      match all {
        case Err(problem) =>
          if problem.FullTextNotSupported? {
            return Err(problem);
          }
          latestError := Cannot(problem);
          return Ok(true);
        case Ok(caseRunners) =>
          ArrangedSize(tasks);
          runningTask := new TaskRunner(caseRunners);
          wire, taken := sent, 0;
          assert sent[0..] == sent;
          return Ok(true);
      }
    }

    /** The reading loop of _try_get_signal. poll() answers yes n times before it answers no. */
    method TryGetSignal(n: nat)
      requires Valid() && runningTask != null && n <= |receiveConn.value|
      modifies this, runningTask
      ensures Valid() && wire == old(wire) && taken == old(taken) + n
      ensures n < |old(receiveConn.value)| ==>
        && runningTask == old(runningTask) && latestError == old(latestError)
        && CountFinished(runningTask.status) == old(CountFinished(runningTask.status)) + n == taken
      ensures n == |old(receiveConn.value)| ==>
        && runningTask == null && receiveConn.None?
        && latestError == if wire[|wire| - 1].SuccessSignal? then old(latestError) else TaskFailed
      ensures var task := old(runningTask); task.status == FirstFinished(|task.caseRunners|, Min(taken, |wire| - 1))
    {
      ghost var task := runningTask;
      ghost var total := |task.caseRunners|;
      CountFirstFinished(total, taken);
      var polled := 0;
      while receiveConn.Some? && polled < n
        invariant 0 <= polled <= n && wire == old(wire) && taken == old(taken) + polled
        invariant Valid() && (runningTask == task || runningTask == null)
        invariant (runningTask == null <==> taken == |wire|) && (receiveConn.None? <==> taken == |wire|)
        invariant task.status == FirstFinished(total, Min(taken, |wire| - 1))
        invariant latestError
               == if taken == |wire| && !wire[|wire| - 1].SuccessSignal? then TaskFailed else old(latestError)
      {
        var sig := receiveConn.value[0];
        assert sig == wire[taken];
        assert taken < |wire| - 1 ==> wire[taken] == wire[..|wire| - 1][taken];
        receiveConn := Some(receiveConn.value[1..]);
        match sig {
          case Wip(idx) =>
            runningTask.SetFinished(idx);
            assert task.status == FirstFinished(total, taken + 1);
          case SuccessSignal =>
            runningTask, receiveConn := null, None;
          case ErrorSignal =>
            latestError := TaskFailed;
            ClearRunningTask();
        }
        taken := taken + 1;
        polled := polled + 1;
      }
      if taken < |wire| {
        CountFirstFinished(total, taken);
      }
    }

    method HasRunning(n: nat) returns (r: bool)
      requires Valid() && (runningTask != null ==> n <= |receiveConn.value|)
      modifies this, runningTask
      ensures Valid() && (r <==> runningTask != null)
      ensures r <==> old(runningTask != null && n < |receiveConn.value|)
      ensures r ==> runningTask == old(runningTask)
      ensures r ==> CountFinished(runningTask.status) == old(CountFinished(runningTask.status)) + n
    {
      if runningTask != null {
        TryGetSignal(n);
      }
      r := runningTask != null;
    }

    /** The number of finished cases, which is the number of WIP signals read; -1 when nothing runs. */
    method GetCurrentTaskId() returns (r: int)
      requires Valid()
      ensures r == if runningTask == null then -1 else taken
    {
      if runningTask == null {
        return -1;
      }
      CountFirstFinished(|runningTask.caseRunners|, taken);
      r := runningTask.NumFinished();
    }

    method ClearRunningTask()
      modifies this
      ensures runningTask == null && receiveConn == None
      ensures wire == old(wire) && taken == old(taken) && latestError == old(latestError)
    {
      runningTask := null;
      receiveConn := None;
    }
  }

  /** A task that ends without an error notice has had every case finished: the SUCCESS signal is the one
      after the last case's. */
  lemma SuccessComesLast(n: nat, sent: seq<Signal>, t: nat)
    requires WorkerSends(n, sent) && t < |sent|
    ensures sent[t] == SuccessSignal ==> t == n && CountFinished(FirstFinished(n, t)) == n
    ensures sent[t].Wip? <==> t < |sent| - 1
    ensures sent[t].Wip? ==> sent[t].index == t < n
  {
    CountFirstFinished(n, if t <= n then t else n);
    assert t < |sent| - 1 ==> sent[t] == sent[..|sent| - 1][t];
  }
}
