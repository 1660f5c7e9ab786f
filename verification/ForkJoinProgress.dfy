/** What join, the destructor and the wake-up protocol of fork_join.cpp guarantee, whatever is
    joined by whom. */
module ForkJoinProgress {
  import opened Common
  import opened ForkJoinPool
  import opened ForkJoinSystem

  // ---------- join and shutdown ----------

  ghost predicate GroupFinished(s: State, g: nat) {
    forall t | 0 <= t < |s.tasks| && s.tasks[t].group == Some(g) :: s.tasks[t].place.Done? && s.tasks[t].runs == 1
  }

  ghost predicate PoolFinished(s: State) {
    forall t | 0 <= t < |s.tasks| && s.tasks[t].group.Some? :: s.tasks[t].place.Done? && s.tasks[t].runs == 1
  }

  ghost predicate Leaves(s: State, i: nat)
    requires Enabled(s, Check(i))
  {
    |Step(s, Check(i)).stacks[i]| < |s.stacks[i]|
  }

  lemma NothingPending(s: State, g: nat)
    requires Placed(s) && Accounting(s) && g < |s.pool.workCount|
    ensures s.pool.workCount[g] == 0 <==> GroupFinished(s, g)
  {
    if s.pool.workCount[g] == 0 {
      forall t | 0 <= t < |s.tasks| && s.tasks[t].group == Some(g)
        ensures s.tasks[t].place.Done? && s.tasks[t].runs == 1
      {
        assert t !in Pending(s, g);
        assert PlaceOk(s, t);
      }
    }
    if GroupFinished(s, g) {
      assert Pending(s, g) == {};
    }
  }

  /** join() returns exactly when every function submitted so far through the executor, queued
      or run inline, has run once and finished. */
  lemma JoinReturnsWhenGroupFinished(s: State, i: nat)
    requires Placed(s) && Accounting(s) && Enabled(s, Check(i)) && Top(s, i).Join?
    ensures Leaves(s, i) <==> GroupFinished(s, Top(s, i).group)
  {
    NothingPending(s, Top(s, i).group);
  }

  lemma NoUse(s: State)
    requires Placed(s) && Accounting(s)
    ensures s.pool.useCount >= 0
    ensures s.pool.useCount == 0 <==> s.stopped && PoolFinished(s)
  {
    if s.pool.useCount == 0 {
      forall t | 0 <= t < |s.tasks| && s.tasks[t].group.Some?
        ensures s.tasks[t].place.Done? && s.tasks[t].runs == 1
      {
        assert PlaceOk(s, t);
        var g := s.tasks[t].group.value;
        assert g !in Busy(s.pool);
        assert t !in Pending(s, g);
      }
    }
    if PoolFinished(s) {
      forall g | 0 <= g < |s.pool.workCount| ensures g !in Busy(s.pool) {
        assert Pending(s, g) == {};
      }
      assert Busy(s.pool) == {};
    }
  }

  /** A worker leaves its loop exactly when the pool is being destroyed and every function that
      was ever submitted has run once and finished. */
  lemma WorkerLeavesWhenAllFinished(s: State, i: nat)
    requires Placed(s) && Accounting(s) && Enabled(s, Check(i)) && Top(s, i).Loop?
    ensures Leaves(s, i) <==> s.stopped && PoolFinished(s)
  {
    NoUse(s);
  }

  lemma TopTask(s: State, i: nat)
    requires Placed(s) && Running(s, i)
    ensures var t := s.tasks[Top(s, i).task];
            && t.place == On(i, |s.stacks[i]| - 1) && (t.group.None? <==> |s.stacks[i]| == 1)
            && (|s.stacks[i]| == 1 ==> i >= s.pool.threadCount)
  {
    assert FrameOk(s, i, |s.stacks[i]| - 1);
  }

  lemma QueueFront(s: State)
    requires Placed(s) && s.pool.queue != []
    ensures s.pool.queue[0] < |s.tasks| && s.tasks[s.pool.queue[0]].group.Some?
    ensures s.tasks[s.pool.queue[0]].place.Queued?
  {
    assert PlaceOk(s, s.pool.queue[0]);
  }

  lemma StaysFinishedStep(s: State, e: Event)
    requires Placed(s) && Accounting(s) && s.pool.useCount == 0 && Enabled(s, e)
    ensures Step(s, e).pool.useCount == 0 && |Step(s, e).tasks| == |s.tasks|
  {
    NoUse(s);
    if e.Submit? || e.Return? || e.Stop? { TopTask(s, e.i); }
    if s.pool.queue != [] { QueueFront(s); }
  }

  /** From the moment a worker may leave, nothing is submitted any more: whatever happens later,
      the functions are the same ones, each run exactly once. */
  lemma {:induction false} StaysFinished(s: State, es: seq<Event>)
    requires Placed(s) && Accounting(s) && s.stopped && PoolFinished(s) && Possible(s, es)
    ensures var s' := After(s, es);
            |s'.tasks| == |s.tasks| && s'.stopped && PoolFinished(s')
    decreases |es|
  {
    NoUse(s);
    if es != [] {
      StaysFinishedStep(s, es[0]);
      StepPlaced(s, es[0]);
      StepAccounting(s, es[0]);
      NoUse(Step(s, es[0]));
      StaysFinished(Step(s, es[0]), es[1..]);
    }
  }

  /** Both, in every run: thread i leaves join, or a worker its loop, only after the functions it
      waits for have each run exactly once, and then it does. */
  lemma JoinAndShutdownSafety(workers: nat, outside: nat, es: seq<Event>, i: nat, s: State)
    requires Possible(Init(workers, outside), es) && s == After(Init(workers, outside), es) && Enabled(s, Check(i))
    ensures Top(s, i).Join? ==> (Leaves(s, i) <==> GroupFinished(s, Top(s, i).group))
    ensures Top(s, i).Loop? ==> (Leaves(s, i) <==> s.stopped && PoolFinished(s))
  {
    InitPlaced(workers, outside);
    RunKeepsBooks(Init(workers, outside), es);
    if Top(s, i).Join? { JoinReturnsWhenGroupFinished(s, i); }
    if Top(s, i).Loop? { WorkerLeavesWhenAllFinished(s, i); }
  }

  // ---------- Sleeping and waking ----------

  /** A thread that sleeps un-notified has a reason to: its loop condition still holds. */
  ghost predicate SleeperOk(s: State, i: nat) {
    && Live(s, i)
    && match Top(s, i)
       case Loop => s.pool.useCount > 0
       case Join(g) => g < |s.pool.workCount| && s.pool.workCount[g] > 0
       case _ => false
  }

  ghost predicate Sleepers(s: State) {
    && (forall i | i in s.pool.sleepers :: SleeperOk(s, i))
    && s.pool.threadCount <= |s.stacks|
    && (s.pool.useCount > 0 ==> forall i | 0 <= i < s.pool.threadCount :: s.stacks[i] != [])
  }

  /** Threads outside the pool that are about to look at the queue before they can leave join. */
  ghost function Helpers(s: State): set<nat> {
    set i: nat | i < |s.stacks| && Helper(s, i)
  }

  ghost predicate Helper(s: State, i: nat) {
    && Live(s, i) && s.pool.threadCount <= i && i !in s.pool.sleepers
    && Top(s, i).Join? && Top(s, i).group < |s.pool.workCount| && s.pool.workCount[Top(s, i).group] > 0
  }

  ghost predicate AwakeWorker(s: State, i: nat) {
    i < s.pool.threadCount && i !in s.pool.sleepers
  }

  /** No wake-up is lost: while all workers sleep, every queued function has a helper of its own. */
  ghost predicate WakeUps(s: State) {
    || s.pool.queue == []
    || (exists i :: AwakeWorker(s, i))
    || |s.pool.queue| <= |Helpers(s)|
  }

  lemma SubsetSize<T>(a: set<T>, b: set<T>)
    requires a <= b
    ensures |a| <= |b|
  {
    assert b == a + (b - a);
  }

  lemma StepSleepers(s: State, e: Event)
    requires Placed(s) && Accounting(s) && Sleepers(s) && Enabled(s, e)
    ensures Sleepers(Step(s, e))
  {
    var s' := Step(s, e);
    NoUse(s);
    if s.pool.useCount == 0 { StaysFinishedStep(s, e); }
    if e.Return? { TopTask(s, e.i); }
    if e.Check? { assert FrameOk(s, e.i, |s.stacks[e.i]| - 1); }
    assert s'.pool.useCount > 0 ==> forall i | 0 <= i < s'.pool.threadCount :: s'.stacks[i] != [];
    forall i | i in s'.pool.sleepers ensures SleeperOk(s', i) {
      StepSleeper(s, e, i);
    }
  }

  lemma CheckSleeper(s: State, i: nat, j: nat)
    requires Placed(s) && Sleepers(s) && Enabled(s, Check(i))
    requires j in Step(s, Check(i)).pool.sleepers
    ensures SleeperOk(Step(s, Check(i)), j)
  {
    assert FrameOk(s, i, |s.stacks[i]| - 1);
    assert j in s.pool.sleepers ==> SleeperOk(s, j);
  }

  lemma StepSleeper(s: State, e: Event, i: nat)
    requires Placed(s) && Accounting(s) && Sleepers(s) && Enabled(s, e)
    requires i in Step(s, e).pool.sleepers
    ensures SleeperOk(Step(s, e), i)
  {
    if e.Check? {
      CheckSleeper(s, e.i, i);
    } else {
      assert SleeperOk(s, i);
    }
  }

  lemma SameWakeUps(s: State, s': State)
    requires WakeUps(s) && s'.pool.queue == s.pool.queue && s'.pool.threadCount == s.pool.threadCount
    requires s'.pool.sleepers <= s.pool.sleepers
    requires Helpers(s) <= Helpers(s')
    ensures WakeUps(s')
  {
    SubsetSize(Helpers(s), Helpers(s'));
    if i: nat :| AwakeWorker(s, i) { assert AwakeWorker(s', i); }
  }

  lemma SubmitKeepsHelpers(s: State, i: nat, g: nat, w: nat)
    requires Placed(s) && Accounting(s) && Enabled(s, Submit(i, g, w))
    ensures Helpers(s) <= Helpers(Step(s, Submit(i, g, w)))
  {
  }

  /** notify_one picks a worker, or a joiner that will look at the queue. */
  lemma WokenHelps(s: State, i: nat, g: nat, w: nat)
    requires Placed(s) && Accounting(s) && Sleepers(s) && Enabled(s, Submit(i, g, w))
    requires !Overloaded(s.pool) && w in s.pool.sleepers && w >= s.pool.threadCount
    ensures w !in Helpers(s) && w in Helpers(Step(s, Submit(i, g, w)))
  {
    assert SleeperOk(s, w) && FrameOk(s, w, |s.stacks[w]| - 1);
  }

  lemma SubmitWakeUps(s: State, i: nat, g: nat, w: nat)
    requires Placed(s) && Accounting(s) && Sleepers(s) && WakeUps(s) && Enabled(s, Submit(i, g, w))
    requires s.pool.threadCount > 0
    ensures WakeUps(Step(s, Submit(i, g, w)))
  {
    var s' := Step(s, Submit(i, g, w));
    SubmitKeepsHelpers(s, i, g, w);
    if Overloaded(s.pool) {
      SameWakeUps(s, s');
    } else if s.pool.sleepers == {} {
      assert AwakeWorker(s', 0);
    } else if w < s.pool.threadCount {
      assert AwakeWorker(s', w);
    } else if j: nat :| AwakeWorker(s, j) {
      assert AwakeWorker(s', j);
    } else {
      WokenHelps(s, i, g, w);
      SubsetSize(Helpers(s) + {w}, Helpers(s'));
    }
  }

  lemma CheckKeepsHelpers(s: State, i: nat)
    requires Placed(s) && Enabled(s, Check(i))
    ensures Helpers(Step(s, Check(i))) >= Helpers(s) - {i}
    ensures s.pool.queue != [] && Step(s, Check(i)).pool.queue == s.pool.queue ==> i !in Helpers(s)
    ensures s.pool.queue != [] && Step(s, Check(i)).pool.queue != s.pool.queue && i >= s.pool.threadCount ==>
        i in Helpers(s)
  {
    assert FrameOk(s, i, |s.stacks[i]| - 1);
  }

  lemma CheckWakeUps(s: State, i: nat)
    requires Placed(s) && Accounting(s) && WakeUps(s) && Enabled(s, Check(i))
    ensures WakeUps(Step(s, Check(i)))
  {
    var s' := Step(s, Check(i));
    CheckKeepsHelpers(s, i);
    if s.pool.queue == [] {
    } else if s'.pool.queue == s.pool.queue {
      SameWakeUps(s, s');
    } else if i < s.pool.threadCount {
      assert AwakeWorker(s', i);
    } else if j: nat :| AwakeWorker(s, j) {
      assert AwakeWorker(s', j);
    } else {
      SubsetSize(Helpers(s) - {i}, Helpers(s'));
    }
  }

  lemma StepWakeUps(s: State, e: Event)
    requires Placed(s) && Accounting(s) && Sleepers(s) && WakeUps(s) && Enabled(s, e)
    requires s.pool.threadCount > 0
    ensures WakeUps(Step(s, e))
  {
    var s' := Step(s, e);
    match e
    case Submit(i, g, w) => SubmitWakeUps(s, i, g, w);
    case Check(i) => CheckWakeUps(s, i);
    case Stop(_) => assert AwakeWorker(s', 0);
    case Return(i) =>
      TopTask(s, i);
      if s'.pool.sleepers == {} { assert AwakeWorker(s', 0); } else { SameWakeUps(s, s'); }
    case _ => SameWakeUps(s, s');
  }

  // ---------- Some thread looks at the queue ----------

  ghost predicate Sound(s: State) {
    Placed(s) && Accounting(s) && Sleepers(s) && WakeUps(s) && s.pool.threadCount > 0
  }

  /** Thread i can take a step that is not a spurious wake-up. */
  ghost predicate CanStep(s: State, i: nat) {
    Live(s, i) && i !in s.pool.sleepers && (Top(s, i).Await? ==> WorkersGone(s))
  }

  ghost predicate Stuck(s: State) {
    forall i | 0 <= i < |s.stacks| :: !CanStep(s, i)
  }

  lemma CanStepIsEnabled(s: State, i: nat)
    requires Placed(s) && Accounting(s) && CanStep(s, i)
    ensures Enabled(s, if Top(s, i).Run? then Return(i) else Check(i))
  {
    assert FrameOk(s, i, |s.stacks[i]| - 1);
    if Running(s, i) { assert PlaceOk(s, Top(s, i).task); }
    if s.pool.queue != [] { QueueFront(s); }
  }

  /** No lost wake-up: while anything is queued, a thread that has not been put to sleep will
      look at the queue. */
  lemma QueuedMeansCanStep(s: State)
    requires Sound(s) && s.pool.queue != []
    ensures exists i: nat :: i < |s.stacks| && CanStep(s, i)
  {
    var t := s.pool.queue[0];
    QueueFront(s);
    assert PlaceOk(s, t);
    NoUse(s);
    assert s.pool.useCount > 0;
    if i: nat :| AwakeWorker(s, i) {
      assert FrameOk(s, i, |s.stacks[i]| - 1) && FrameOk(s, i, 0);
      assert CanStep(s, i);
    } else {
      var i :| i in Helpers(s);
      assert CanStep(s, i);
    }
  }

  lemma InitSound(workers: nat, outside: nat)
    requires workers > 0
    ensures Sound(Init(workers, outside))
  {
    InitPlaced(workers, outside);
    assert AwakeWorker(Init(workers, outside), 0);
  }

  lemma StepSound(s: State, e: Event)
    requires Sound(s) && Enabled(s, e)
    ensures Sound(Step(s, e))
  {
    StepPlaced(s, e);
    StepAccounting(s, e);
    StepSleepers(s, e);
    StepWakeUps(s, e);
  }

  lemma {:induction false} RunSound(s: State, es: seq<Event>)
    requires Sound(s) && Possible(s, es)
    ensures Sound(After(s, es))
    decreases |es|
  {
    if es != [] {
      StepSound(s, es[0]);
      RunSound(Step(s, es[0]), es[1..]);
    }
  }
}
