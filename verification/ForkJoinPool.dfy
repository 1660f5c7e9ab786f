/** The state that `mutex_` protects in fork_join.cpp, and the pool's critical sections.

    Each critical section appears twice: as a function on `Pool` values, which the transition
    system of ForkJoinSystem interleaves, and as a method of `ForkJoinPool` that updates the
    fields in place and is proved to compute that function. */
module ForkJoinPool {

  /** `queue` holds function ids. A fork_executor group is named by the index of its shared
      counter in `workCount`. `sleepers` are the threads blocked in `condition_.wait` that
      have not been notified. The counters are integers here; ForkJoinSystem.Accounting shows
      that they never go below zero, where the source's std::size_t would wrap. */
  datatype Pool = Pool(threadCount: nat, queue: seq<nat>, useCount: int, workCount: seq<int>, sleepers: set<nat>)

  ghost function AddGroup(p: Pool): Pool {
    p.(workCount := p.workCount + [0])
  }

  /** do_work_started: the first piece of work of a group takes a use of the pool. */
  ghost function WorkStarted(p: Pool, g: nat): Pool
    requires g < |p.workCount|
  {
    var n := p.workCount[g] + 1;
    p.(workCount := p.workCount[g := n], useCount := if n == 1 then p.useCount + 1 else p.useCount)
  }

  /** do_work_finished: the last piece of work of a group gives the use back and wakes everyone. */
  ghost function WorkFinished(p: Pool, g: nat): Pool
    requires g < |p.workCount|
  {
    var n := p.workCount[g] - 1;
    var q := p.(workCount := p.workCount[g := n]);
    if n == 0 then q.(useCount := p.useCount - 1, sleepers := {}) else q
  }

  /** notify_one may wake any thread that waits, and does nothing when none does. */
  ghost predicate MayWake(p: Pool, w: nat) {
    p.sleepers != {} ==> w in p.sleepers
  }

  ghost function WakeOne(p: Pool, w: nat): Pool {
    p.(sleepers := p.sleepers - {w})
  }

  /** The queue is "already loaded": the submitting thread runs the function itself. */
  predicate Overloaded(p: Pool) {
    |p.queue| > p.threadCount * 16
  }

  /** do_execute up to the point where it releases the mutex. */
  ghost function Submitted(p: Pool, f: nat, g: nat, w: nat): Pool
    requires g < |p.workCount|
  {
    if Overloaded(p) then WorkStarted(p, g)
    else WakeOne(WorkStarted(p.(queue := p.queue + [f]), g), w)
  }

  /** The front of the queue leaves it in execute_next. */
  ghost function Taken(p: Pool): Pool
    requires p.queue != []
  {
    p.(queue := p.queue[1..])
  }

  ghost function ThreadsStopped(p: Pool): Pool {
    p.(useCount := p.useCount - 1, sleepers := {})
  }

  class ForkJoinPool {
    const threadCount: nat
    var queue: seq<nat>
    var useCount: int
    var workCount: seq<int>
    var sleepers: set<nat>

    ghost function View(): Pool
      reads this
    {
      Pool(threadCount, queue, useCount, workCount, sleepers)
    }

    constructor (threads: nat)
      ensures View() == Pool(threads, [], 1, [], {})
    {
      threadCount := threads;
      queue, useCount, workCount, sleepers := [], 1, [], {};
    }

    /** fork_executor's constructor allocates a fresh counter. */
    method NewExecutor() returns (g: nat)
      modifies this
      ensures g == |old(workCount)| && View() == AddGroup(old(View()))
    {
      g := |workCount|;
      workCount := workCount + [0];
    }

    method DoWorkStarted(g: nat)
      requires g < |workCount|
      modifies this
      ensures View() == WorkStarted(old(View()), g)
    {
      workCount := workCount[g := workCount[g] + 1];
      if workCount[g] == 1 {
        useCount := useCount + 1;
      }
    }

    method DoWorkFinished(g: nat)
      requires g < |workCount|
      modifies this
      ensures View() == WorkFinished(old(View()), g)
    {
      workCount := workCount[g := workCount[g] - 1];
      if workCount[g] == 0 {
        useCount := useCount - 1;
        NotifyAll();
      }
    }

    method NotifyOne() returns (ghost w: nat)
      modifies this`sleepers
      ensures MayWake(old(View()), w) && View() == WakeOne(old(View()), w)
    {
      w := 0;
      if sleepers != {} {
        var chosen :| chosen in sleepers;
        sleepers, w := sleepers - {chosen}, chosen;
      }
    }

    method NotifyAll()
      modifies this`sleepers
      ensures sleepers == {}
    {
      sleepers := {};
    }

    /** Returns true when the caller has to run `f` inline. */
    method DoExecute(f: nat, g: nat) returns (inline: bool, ghost w: nat)
      requires g < |workCount|
      modifies this
      ensures MayWake(old(View()), w)
      ensures inline <==> |old(queue)| > 16 * threadCount
      ensures queue == if inline then old(queue) else old(queue) + [f]
      ensures View() == Submitted(old(View()), f, g, w)
    {
      if |queue| > threadCount * 16 {
        inline, w := true, 0;
        if sleepers != {} {
          w :| w in sleepers;
        }
        DoWorkStarted(g);
      } else {
        inline := false;
        queue := queue + [f];
        DoWorkStarted(g);
        w := NotifyOne();
      }
    }

    /** execute_next up to its unlock: false means that the queue was empty. */
    method ExecuteNext() returns (found: bool, f: nat)
      modifies this`queue
      ensures found == (old(queue) != [])
      ensures found ==> [f] + queue == old(queue) && View() == Taken(old(View()))
      ensures !found ==> View() == old(View())
    {
      found, f := false, 0;
      if queue != [] {
        found, f := true, queue[0];
        queue := queue[1..];
      }
    }

    method StopThreads()
      modifies this
      ensures View() == ThreadsStopped(old(View()))
    {
      useCount := useCount - 1;
      NotifyAll();
    }
  }
}
