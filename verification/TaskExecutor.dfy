/** The threaded task executor as steps under its lock: submissions, worker starts and finishes, collection of
    results, cancellation and shutdown may follow each other in any order. */
module TaskExecutor {

  datatype Config = Config(maxInflight: nat, queueCapacity: nat, maxWorkers: nat, overflow: string, shutdownPolicy: string)

  predicate DropsOldest(overflow: string) {
    overflow == "drop_oldest" || overflow == "overwrite"
  }

  predicate CancelsOnShutdown(policy: string) {
    policy == "cancel_pending" || policy == "cancel" || policy == "discard_pending"
  }

  function AtLeastOne(n: nat): (r: nat)
    ensures r >= 1
  {
    if n == 0 then 1 else n
  }

  datatype Worker = Looking | Running(task: nat) | Exited

  datatype Completion = Completion(task: nat, ok: bool)

  datatype Submission = Accepted(task: nat) | Rejected

  predicate Increasing(s: seq<nat>) {
    forall i, j :: 0 <= i < j < |s| ==> s[i] < s[j]
  }

  /** The tasks the workers are running, in worker order. */
  function RunningTasks(workers: seq<Worker>): seq<nat> {
    if workers == [] then []
    else
      var front, last := RunningTasks(workers[..|workers| - 1]), workers[|workers| - 1];
      if last.Running? then front + [last.task] else front
  }

  lemma {:induction false} RunningSplit(workers: seq<Worker>, w: nat)
    requires w < |workers|
    ensures RunningTasks(workers) ==
      RunningTasks(workers[..w]) + RunningTasks([workers[w]]) + RunningTasks(workers[w + 1..])
    decreases |workers|
  {
    var front, last := workers[..|workers| - 1], workers[|workers| - 1];
    if w == |workers| - 1 {
      assert workers[w + 1..] == [] && [workers[w]][..0] == [];
    } else {
      RunningSplit(front, w);
      assert front[..w] == workers[..w] && front[w + 1..] == workers[w + 1..][..|workers[w + 1..]| - 1];
    }
  }

  function Ran(state: Worker): multiset<nat> {
    if state.Running? then multiset{state.task} else multiset{}
  }

  lemma RunningOne(state: Worker)
    ensures RunningTasks([state]) == if state.Running? then [state.task] else []
  {
    assert [state][..0] == [];
  }

  /** Changing one worker changes the running tasks by what that worker ran and runs. */
  lemma RunningUpdate(workers: seq<Worker>, w: nat, state: Worker)
    requires w < |workers|
    ensures multiset(RunningTasks(workers[w := state])) + Ran(workers[w]) == multiset(RunningTasks(workers)) + Ran(state)
    ensures |RunningTasks(workers[w := state])| + |Ran(workers[w])| == |RunningTasks(workers)| + |Ran(state)|
  {
    var changed := workers[w := state];
    RunningSplit(workers, w);
    RunningSplit(changed, w);
    RunningOne(workers[w]);
    RunningOne(state);
    assert changed[..w] == workers[..w] && changed[w + 1..] == workers[w + 1..];
    assert [changed[w]] == [state];
  }

  lemma {:induction false} RunningBound(workers: seq<Worker>)
    ensures |RunningTasks(workers)| <= |workers|
    ensures RunningTasks(workers) == [] <==> forall w :: 0 <= w < |workers| ==> !workers[w].Running?
  {
    if workers != [] {
      RunningBound(workers[..|workers| - 1]);
    }
  }

  function Tasks(completions: seq<Completion>): seq<nat> {
    seq(|completions|, i requires 0 <= i < |completions| => completions[i].task)
  }

  // ----- the invariant, over plain values

  /** Started tasks and then pending ones, in the order of their numbers. */
  ghost predicate Ordered(started: seq<nat>, pending: seq<nat>, nextTask: nat) {
    Increasing(started + pending) && forall t :: t in started + pending ==> t < nextTask
  }

  /** Every started task is running, finished and waiting to be collected, or collected: exactly one of these. */
  ghost predicate Accounted(started: seq<nat>, workers: seq<Worker>, completed: seq<Completion>, returned: seq<nat>) {
    && multiset(started) == multiset(RunningTasks(workers)) + multiset(returned + Tasks(completed))
    && |started| == |RunningTasks(workers)| + |returned| + |completed|
  }

  /** Results come out in starting order. */
  ghost predicate InOrder(started: seq<nat>, completed: seq<Completion>, returned: seq<nat>) {
    returned + Tasks(completed) <= started
  }

  /** A worker leaves only when there is nothing left to start, now or later. */
  ghost predicate ExitsRight(workers: seq<Worker>, stopping: bool, pending: seq<nat>, cancels: bool) {
    && (stopping && cancels ==> pending == [])
    && (forall w :: 0 <= w < |workers| && workers[w].Exited? ==> stopping && pending == [])
  }

  lemma OrderedSubmit(started: seq<nat>, pending: seq<nat>, nextTask: nat)
    requires Ordered(started, pending, nextTask)
    ensures Ordered(started, pending + [nextTask], nextTask + 1)
  {
    var all := started + pending;
    assert started + (pending + [nextTask]) == all + [nextTask];
    forall i | 0 <= i < |all| ensures all[i] < nextTask {
      assert all[i] in all;
    }
  }

  lemma OrderedDrop(started: seq<nat>, pending: seq<nat>, nextTask: nat)
    requires Ordered(started, pending, nextTask) && pending != []
    ensures Ordered(started, pending[1..], nextTask)
  {
    var all, rest := started + pending, started + pending[1..];
    forall i | 0 <= i < |rest| ensures rest[i] == all[if i < |started| then i else i + 1] && rest[i] in all {
      assert all[if i < |started| then i else i + 1] in all;
    }
  }

  lemma OrderedClear(started: seq<nat>, pending: seq<nat>, nextTask: nat)
    requires Ordered(started, pending, nextTask)
    ensures Ordered(started, [], nextTask)
  {
    var all := started + pending;
    assert started + [] == started && started == all[..|started|];
    assert forall t :: t in started ==> t in all;
  }

  lemma OrderedStart(started: seq<nat>, pending: seq<nat>, nextTask: nat)
    requires Ordered(started, pending, nextTask) && pending != []
    ensures Ordered(started + [pending[0]], pending[1..], nextTask)
  {
    assert started + pending == (started + [pending[0]]) + pending[1..];
  }

  lemma AccountedStart(started: seq<nat>, workers: seq<Worker>, completed: seq<Completion>, returned: seq<nat>, w: nat, task: nat)
    requires Accounted(started, workers, completed, returned) && w < |workers| && workers[w].Looking?
    ensures Accounted(started + [task], workers[w := Running(task)], completed, returned)
    ensures |RunningTasks(workers[w := Running(task)])| == |RunningTasks(workers)| + 1
  {
    hide RunningTasks, Tasks;
    RunningUpdate(workers, w, Running(task));
    var before, after := multiset(RunningTasks(workers)), multiset(RunningTasks(workers[w := Running(task)]));
    assert after == after + multiset{} == before + multiset{task};
    assert |multiset{task}| == 1 && |Ran(Looking)| == 0;
  }

  lemma AccountedExit(started: seq<nat>, workers: seq<Worker>, completed: seq<Completion>, returned: seq<nat>, w: nat)
    requires Accounted(started, workers, completed, returned) && w < |workers| && workers[w].Looking?
    ensures Accounted(started, workers[w := Exited], completed, returned)
    ensures |RunningTasks(workers[w := Exited])| == |RunningTasks(workers)|
  {
    hide RunningTasks, Tasks;
    RunningUpdate(workers, w, Exited);
    var before, after := multiset(RunningTasks(workers)), multiset(RunningTasks(workers[w := Exited]));
    assert after == after + multiset{} == before + multiset{} == before;
    assert |Ran(Exited)| == 0 && |Ran(Looking)| == 0;
  }

  lemma TasksPush(completed: seq<Completion>, c: Completion, returned: seq<nat>)
    ensures returned + Tasks(completed + [c]) == (returned + Tasks(completed)) + [c.task]
  {
  }

  lemma AccountedFinish(started: seq<nat>, workers: seq<Worker>, completed: seq<Completion>, returned: seq<nat>, w: nat, ok: bool)
    requires Accounted(started, workers, completed, returned) && w < |workers| && workers[w].Running?
    ensures Accounted(started, workers[w := Looking], completed + [Completion(workers[w].task, ok)], returned)
    ensures |RunningTasks(workers[w := Looking])| == |RunningTasks(workers)| - 1
  {
    hide RunningTasks, Tasks;
    RunningUpdate(workers, w, Looking);
    var before, after := multiset(RunningTasks(workers)), multiset(RunningTasks(workers[w := Looking]));
    assert after + multiset{workers[w].task} == before + multiset{} == before;
    assert |multiset{workers[w].task}| == 1 && |Ran(Looking)| == 0;
    TasksPush(completed, Completion(workers[w].task, ok), returned);
  }

  /** With one task running, it is the task started last. */
  lemma FinishInOrder(started: seq<nat>, workers: seq<Worker>, completed: seq<Completion>, returned: seq<nat>, w: nat, ok: bool)
    requires Accounted(started, workers, completed, returned) && InOrder(started, completed, returned)
    requires w < |workers| && workers[w].Running? && |RunningTasks(workers)| == 1
    ensures InOrder(started, completed + [Completion(workers[w].task, ok)], returned)
  {
    var task, done := workers[w].task, returned + Tasks(completed);
    RunningSplit(workers, w);
    RunningOne(workers[w]);
    assert RunningTasks(workers) == [task];
    hide RunningTasks, Tasks;
    var last := started[|started| - 1];
    assert |done| == |started| - 1 by { TasksLength(completed); }
    assert started == done + [last];
    assert multiset{task} + multiset(done) == multiset{last} + multiset(done);
    assert multiset{task} == (multiset{last} + multiset(done)) - multiset(done) == multiset{last};
    assert task in multiset{last};
    TasksPush(completed, Completion(task, ok), returned);
  }

  lemma TasksLength(completed: seq<Completion>)
    ensures |Tasks(completed)| == |completed|
  {
  }

  lemma CollectAccounted(started: seq<nat>, workers: seq<Worker>, before: seq<Completion>, out: seq<Completion>,
                         after: seq<Completion>, returned: seq<nat>)
    requires before == out + after
    ensures Accounted(started, workers, before, returned) ==> Accounted(started, workers, after, returned + Tasks(out))
    ensures InOrder(started, before, returned) ==> InOrder(started, after, returned + Tasks(out))
    ensures |Tasks(out)| == |out|
  {
    TasksConcat(out, after, returned);
  }

  lemma TasksConcat(a: seq<Completion>, b: seq<Completion>, returned: seq<nat>)
    ensures returned + Tasks(a + b) == (returned + Tasks(a)) + Tasks(b)
  {
  }

  lemma {:induction false} IncreasingOnce(s: seq<nat>, t: nat)
    requires Increasing(s)
    ensures multiset(s)[t] <= 1
  {
    if s != [] {
      IncreasingOnce(s[..|s| - 1], t);
      assert s == s[..|s| - 1] + [s[|s| - 1]];
    }
  }

  lemma CountTwice(s: seq<nat>, i: nat, j: nat)
    requires i < j < |s|
    ensures s[i] == s[j] ==> multiset(s)[s[i]] >= 2
    ensures multiset(s)[s[i]] >= 1
  {
    assert s == s[..j] + s[j..] && s[i] in s[..j] && s[j] in s[j..];
  }

  // ----- the executor

  class ThreadedTaskExecutor {
    const config: Config
    var nextTask: nat
    var pending: seq<nat>
    var active: nat
    var completed: seq<Completion>
    var workers: seq<Worker>
    var stopping: bool
    var submittedCount: nat
    var completedCount: nat
    var failedCount: nat
    var cancelledCount: nat
    var rejectedCount: nat
    ghost var started: seq<nat>
    ghost var returned: seq<nat>

    function Capacity(): nat {
      config.maxInflight + config.queueCapacity
    }

    ghost predicate Bounded()
      reads this
    {
      && config.maxInflight >= 1 && |workers| == config.maxWorkers >= 1
      && |pending| + active + |completed| <= Capacity()
      && active == |RunningTasks(workers)| <= config.maxInflight
      && submittedCount == |pending| + active + completedCount + failedCount + cancelledCount
      && |returned| + |completed| == completedCount + failedCount
    }

    ghost predicate OneAtATime() {
      config.maxInflight == 1 || config.maxWorkers == 1
    }

    ghost predicate Valid()
      reads this
    {
      && Bounded() && Accounted(started, workers, completed, returned) && Ordered(started, pending, nextTask)
      && (OneAtATime() ==> InOrder(started, completed, returned))
      && ExitsRight(workers, stopping, pending, CancelsOnShutdown(config.shutdownPolicy))
    }

    constructor (config: Config)
      ensures Valid() && started == [] && returned == [] && !stopping
      ensures submittedCount == completedCount == failedCount == cancelledCount == rejectedCount == 0
      ensures this.config.queueCapacity == config.queueCapacity && this.config.overflow == config.overflow
      ensures this.config.maxInflight == (if config.maxInflight == 0 then 1 else config.maxInflight)
      ensures this.config.maxWorkers == (if config.maxWorkers == 0 then 1 else config.maxWorkers)
      ensures this.config.shutdownPolicy == config.shutdownPolicy
    {
      this.config := config.(maxInflight := AtLeastOne(config.maxInflight), maxWorkers := AtLeastOne(config.maxWorkers));
      nextTask, pending, active, completed, stopping := 1, [], 0, [], false;
      workers := seq(AtLeastOne(config.maxWorkers), _ => Looking);
      submittedCount, completedCount, failedCount, cancelledCount, rejectedCount := 0, 0, 0, 0, 0;
      started, returned := [], [];
      new;
      RunningBound(workers);
    }

    predicate HasRoom()
      reads this
    {
      |pending| + active + |completed| < Capacity()
    }

    predicate CanMakeRoom()
      reads this
    {
      DropsOldest(config.overflow) && pending != []
    }

    /** Admits a task while there is room; a full executor either drops its oldest pending task for it or
        refuses it, and one that is shutting down refuses it. */
    method Submit(hasWork: bool) returns (r: Submission)
      requires Valid()
      modifies this
      ensures Valid() && returned == old(returned) && started == old(started) && workers == old(workers) && completed == old(completed)
      ensures var room := old(|pending| + active + |completed| < config.maxInflight + config.queueCapacity);
        && (r.Accepted? <==>
             hasWork && !old(stopping) &&
             (room || ((config.overflow == "drop_oldest" || config.overflow == "overwrite") && old(pending) != [])))
        && (r.Accepted? ==> pending == (if room then old(pending) else old(pending)[1..]) + [r.task])
      ensures r.Accepted? ==> r.task == old(nextTask) && submittedCount == old(submittedCount) + 1
      ensures r.Rejected? ==> pending == old(pending) && rejectedCount == old(rejectedCount) + 1
    {
      hide Ordered, Accounted, InOrder, RunningTasks;
      if !hasWork || stopping {
        rejectedCount := rejectedCount + 1;
        return Rejected;
      }
      if !HasRoom() {
        if CanMakeRoom() {
          OrderedDrop(started, pending, nextTask);
          pending := pending[1..];
          cancelledCount := cancelledCount + 1;
        } else {
          rejectedCount := rejectedCount + 1;
          return Rejected;
        }
      }
      r := Accepted(nextTask);
      OrderedSubmit(started, pending, nextTask);
      pending := pending + [nextTask];
      nextTask := nextTask + 1;
      submittedCount := submittedCount + 1;
    }

    /** A worker that looks for work may move when it can start a task or has to leave. */
    predicate CanLook(w: nat)
      reads this
    {
      && w < |workers| && workers[w].Looking?
      && ((pending != [] && active < config.maxInflight) ||
          (stopping && (pending == [] || CancelsOnShutdown(config.shutdownPolicy))))
    }

    method Look(w: nat)
      requires Valid() && CanLook(w)
      modifies this
      ensures Valid() && returned == old(returned) && completed == old(completed)
      ensures old(stopping) && old(pending) == [] ==>
        workers == old(workers)[w := Exited] && pending == [] && started == old(started)
      ensures !old(stopping) || old(pending) != [] ==>
        old(pending) != [] && workers == old(workers)[w := Running(old(pending)[0])] && pending == old(pending)[1..] &&
        started == old(started) + [old(pending)[0]] && active == old(active) + 1
    {
      hide Ordered, Accounted, InOrder, RunningTasks;
      if stopping && (pending == [] || CancelsOnShutdown(config.shutdownPolicy)) {
        AccountedExit(started, workers, completed, returned, w);
        workers := workers[w := Exited];
        return;
      }
      var task := pending[0];
      AccountedStart(started, workers, completed, returned, w, task);
      OrderedStart(started, pending, nextTask);
      InOrderStart(started, task, completed, returned);
      pending := pending[1..];
      active := active + 1;
      workers := workers[w := Running(task)];
      started := started + [task];
    }

    /** A worker comes back from its task and files the result. */
    method Finish(w: nat, ok: bool)
      requires Valid() && w < |workers| && workers[w].Running?
      modifies this
      ensures Valid() && workers == old(workers)[w := Looking] && active == old(active) - 1
      ensures completed == old(completed) + [Completion(old(workers)[w].task, ok)]
      ensures completedCount == old(completedCount) + (if ok then 1 else 0) && failedCount == old(failedCount) + (if ok then 0 else 1)
      ensures pending == old(pending) && started == old(started) && returned == old(returned)
    {
      hide Ordered, Accounted, InOrder, RunningTasks;
      var task := workers[w].task;
      RunningBound(workers);
      AccountedFinish(started, workers, completed, returned, w, ok);
      if OneAtATime() {
        FinishInOrder(started, workers, completed, returned, w, ok);
      }
      if ok {
        completedCount := completedCount + 1;
      } else {
        failedCount := failedCount + 1;
      }
      active := active - 1;
      workers := workers[w := Looking];
      completed := completed + [Completion(task, ok)];
    }

    /** Hands out finished results, oldest first; a cancelled token also clears what has not started. */
    method RunReady(maxTasks: nat, cancelRequested: bool) returns (out: seq<Completion>)
      requires Valid()
      modifies this
      ensures Valid() && old(completed) == out + completed && returned == old(returned) + Tasks(out)
      ensures |out| == if maxTasks == 0 || maxTasks > old(|completed|) then old(|completed|) else maxTasks
      ensures pending == (if cancelRequested then [] else old(pending)) && workers == old(workers) && started == old(started)
    {
      hide Ordered, RunningTasks, ExitsRight, Accounted, InOrder;
      if cancelRequested {
        var n := CancelPending();
      }
      var count := if maxTasks == 0 || maxTasks > |completed| then |completed| else maxTasks;
      out := TakeCompleted(count);
      CollectAccounted(started, workers, old(completed), out, completed, returned);
      returned := returned + Tasks(out);
    }

    method TakeCompleted(count: nat) returns (out: seq<Completion>)
      requires count <= |completed|
      modifies `completed
      ensures old(completed) == out + completed && |out| == count
    {
      out := [];
      for k := 0 to count
        invariant old(completed) == out + completed && |out| == k
      {
        assert out + completed == (out + [completed[0]]) + completed[1..];
        out := out + [completed[0]];
        completed := completed[1..];
      }
    }

    method CancelPending() returns (count: nat)
      requires Valid()
      modifies `pending, `cancelledCount
      ensures Valid() && pending == [] && count == |old(pending)| && cancelledCount == old(cancelledCount) + count
    {
      hide Ordered, Accounted, InOrder, RunningTasks;
      count := |pending|;
      OrderedClear(started, pending, nextTask);
      cancelledCount := cancelledCount + |pending|;
      pending := [];
    }

    /** The first half of shutdown; what follows is waiting for the workers to exit. */
    method BeginShutdown()
      requires Valid()
      modifies `stopping, `pending, `cancelledCount
      ensures Valid() && stopping
      ensures pending == if config.shutdownPolicy in {"cancel_pending", "cancel", "discard_pending"} then [] else old(pending)
    {
      hide Ordered, Accounted, InOrder, RunningTasks;
      if CancelsOnShutdown(config.shutdownPolicy) {
        var n := CancelPending();
      }
      stopping := true;
    }

    // ----- what all of this is for

    /** A pending task never waits for nothing: some worker can start it now, or is at work and will come back. */
    lemma PendingLeavesAStep()
      requires Valid() && pending != []
      ensures exists w :: 0 <= w < |workers| && (workers[w].Running? || CanLook(w))
    {
      hide Ordered, Accounted, InOrder;
      RunningBound(workers);
      assert !workers[0].Exited?;
      if active == 0 {
        assert CanLook(0);
      }
    }

    /** After a shutdown whose workers have all left, nothing is pending or running, and every accepted task was
        completed, failed or cancelled. */
    lemma ShutdownLeavesNothing()
      requires Valid() && forall w :: 0 <= w < |workers| ==> workers[w].Exited?
      ensures stopping && pending == [] && active == 0
      ensures submittedCount == completedCount + failedCount + cancelledCount
    {
      hide Ordered, Accounted, InOrder;
      RunningBound(workers);
      assert workers[0].Exited?;
    }

    /** No task is returned twice, and none that is returned is still waiting or running. */
    lemma ReturnedOnce(i: nat, j: nat)
      requires Valid() && i < j < |returned|
      ensures returned[i] != returned[j] && returned[i] !in pending && returned[i] !in RunningTasks(workers)
    {
      hide InOrder, ExitsRight, RunningTasks, Tasks;
      IncreasingOnce(started + pending, returned[i]);
      CountTwice(returned, i, j);
      assert multiset(started + pending) == multiset(RunningTasks(workers)) + multiset(returned) + multiset(Tasks(completed)) + multiset(pending);
    }
  }

  lemma InOrderStart(started: seq<nat>, task: nat, completed: seq<Completion>, returned: seq<nat>)
    ensures InOrder(started, completed, returned) ==> InOrder(started + [task], completed, returned)
  {
  }
}
