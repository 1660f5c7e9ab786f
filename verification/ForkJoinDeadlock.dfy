/** Deadlock in fork_join.cpp: what it is, which join brings it about, and why functions that join
    only their own executors never do. */
module ForkJoinDeadlock {
  import opened Common
  import opened ForkJoinPool
  import opened ForkJoinSystem
  import opened ForkJoinProgress

  // ---------- Traps ----------

  ghost predicate IsRunning(s: State, t: nat) {
    t < |s.tasks| && s.tasks[t].place.On?
  }

  ghost predicate RunsIn(s: State, t: nat, g: nat) {
    IsRunning(s, t) && s.tasks[t].group == Some(g)
  }

  /** A join on group g lies above running function t on its stack. */
  ghost predicate JoinAbove(s: State, t: nat, k: nat, g: nat) {
    && IsRunning(s, t) && s.tasks[t].place.thread < |s.stacks|
    && s.tasks[t].place.depth < k < |s.stacks[s.tasks[t].place.thread]|
    && s.stacks[s.tasks[t].place.thread][k] == Join(g)
  }

  /** Function t cannot go on before function u, which is running, has finished. */
  ghost predicate WaitsFor(s: State, t: nat, u: nat) {
    exists k: nat, g: nat :: JoinAbove(s, t, k, g) && RunsIn(s, u, g)
  }

  ghost predicate WaitsIn(s: State, t: nat, trap: set<nat>) {
    exists u: nat :: u in trap && WaitsFor(s, t, u)
  }

  /** Running functions each of which waits for one of them. */
  ghost predicate Trap(s: State, trap: set<nat>) {
    trap != {} && forall t {:trigger WaitsIn(s, t, trap)} | t in trap :: WaitsIn(s, t, trap)
  }

  ghost predicate Trapped(s: State) {
    exists trap: set<nat> :: Trap(s, trap)
  }

  /** A join with a running function in its group is not left. */
  lemma CheckKeepsJoins(s: State, i: nat, t: nat, k: nat, g: nat, u: nat)
    requires Placed(s) && Accounting(s) && Enabled(s, Check(i)) && JoinAbove(s, t, k, g) && RunsIn(s, u, g)
    ensures JoinAbove(Step(s, Check(i)), t, k, g) && Step(s, Check(i)).tasks[t] == s.tasks[t]
  {
    assert PlaceOk(s, t) && u in Pending(s, g);
    assert FrameOk(s, s.tasks[t].place.thread, k);
    if s.pool.queue != [] { QueueFront(s); }
  }

  lemma JoinStays(s: State, e: Event, t: nat, k: nat, g: nat, u: nat)
    requires Placed(s) && Accounting(s) && Enabled(s, e) && JoinAbove(s, t, k, g) && RunsIn(s, u, g)
    ensures JoinAbove(Step(s, e), t, k, g) && Step(s, e).tasks[t] == s.tasks[t]
  {
    if e.Check? {
      CheckKeepsJoins(s, e.i, t, k, g, u);
    } else {
      assert PlaceOk(s, t);
      if e.Return? { TopTask(s, e.i); }
    }
  }

  lemma TrappedRuns(s: State, trap: set<nat>, u: nat)
    requires Trap(s, trap) && u in trap
    ensures IsRunning(s, u)
  {
    assert WaitsIn(s, u, trap);
    var v: nat :| v in trap && WaitsFor(s, u, v);
    var k: nat, g: nat :| JoinAbove(s, u, k, g) && RunsIn(s, v, g);
  }

  lemma TrapMember(s: State, e: Event, trap: set<nat>, t: nat)
    requires Placed(s) && Accounting(s) && Enabled(s, e) && Trap(s, trap) && t in trap
    ensures t < |s.tasks| && t < |Step(s, e).tasks| && Step(s, e).tasks[t] == s.tasks[t]
  {
    assert WaitsIn(s, t, trap);
    var u: nat :| u in trap && WaitsFor(s, t, u);
    var k: nat, g: nat :| JoinAbove(s, t, k, g) && RunsIn(s, u, g);
    JoinStays(s, e, t, k, g, u);
  }

  /** A trap is for ever: no step of any thread frees any of its functions. */
  lemma TrapStays(s: State, e: Event, trap: set<nat>)
    requires Placed(s) && Accounting(s) && Enabled(s, e) && Trap(s, trap)
    ensures Trap(Step(s, e), trap)
  {
    var s' := Step(s, e);
    forall t | t in trap ensures WaitsIn(s', t, trap) {
      assert WaitsIn(s, t, trap);
      var u: nat :| u in trap && WaitsFor(s, t, u);
      var k: nat, g: nat :| JoinAbove(s, t, k, g) && RunsIn(s, u, g);
      JoinStays(s, e, t, k, g, u);
      TrapMember(s, e, trap, u);
      assert JoinAbove(s', t, k, g) && RunsIn(s', u, g);
      assert WaitsFor(s', t, u);
    }
  }

  // ---------- Stuck states ----------

  /** Everything has finished: the workers sleep in their loop, or have left it if the pool is
      being destroyed, and no other thread is inside join or the destructor. */
  ghost predicate Idle(s: State) {
    && (forall t | 0 <= t < |s.tasks| :: s.tasks[t].place.Done? && s.tasks[t].runs == 1)
    && (forall i | 0 <= i < |s.stacks| ::
          if s.stopped || i >= s.pool.threadCount then s.stacks[i] == []
          else s.stacks[i] == [Loop] && i in s.pool.sleepers)
  }

  /** The functions on stacks that end in a join. */
  ghost function Joiners(s: State): set<nat> {
    set t: nat | t < |s.tasks| && UnderJoin(s, t)
  }

  ghost predicate UnderJoin(s: State, t: nat) {
    && IsRunning(s, t) && Live(s, s.tasks[t].place.thread) && Top(s, s.tasks[t].place.thread).Join?
  }

  /** A function of a group that is stuck on a stack is stuck below a join. */
  lemma StuckUnderJoin(s: State, u: nat)
    requires Sound(s) && Stuck(s) && IsRunning(s, u) && s.tasks[u].group.Some?
    ensures UnderJoin(s, u)
  {
    var i, k := s.tasks[u].place.thread, s.tasks[u].place.depth;
    assert PlaceOk(s, u) && FrameOk(s, i, k) && FrameOk(s, i, |s.stacks[i]| - 1) && !CanStep(s, i);
    if i in s.pool.sleepers { assert SleeperOk(s, i); }
  }

  lemma JoinersTrapped(s: State)
    requires Sound(s) && Stuck(s) && Joiners(s) != {}
    ensures Trap(s, Joiners(s))
  {
    if s.pool.queue != [] { QueuedMeansCanStep(s); }
    forall t | t in Joiners(s) ensures WaitsIn(s, t, Joiners(s)) {
      var i := s.tasks[t].place.thread;
      var top := |s.stacks[i]| - 1;
      assert PlaceOk(s, t) && FrameOk(s, i, top) && !CanStep(s, i) && SleeperOk(s, i);
      var g := Top(s, i).group;
      var u :| u in Pending(s, g);
      assert PlaceOk(s, u);
      StuckUnderJoin(s, u);
      assert JoinAbove(s, t, top, g) && RunsIn(s, u, g);
      assert WaitsFor(s, t, u);
    }
  }

  lemma NoneStuck(s: State, t: nat)
    requires Sound(s) && Stuck(s) && !Trapped(s) && t < |s.tasks| && s.tasks[t].group.Some?
    ensures s.tasks[t].place.Done? && s.tasks[t].runs == 1
  {
    assert PlaceOk(s, t);
    if s.pool.queue != [] { QueuedMeansCanStep(s); }
    if IsRunning(s, t) {
      StuckUnderJoin(s, t);
      SomeJoiner(s, t);
      JoinersTrapped(s);
    }
  }

  lemma SomeJoiner(s: State, t: nat)
    requires t < |s.tasks| && UnderJoin(s, t)
    ensures Joiners(s) != {}
  {
    assert t in Joiners(s);
  }

  /** A state in which no thread can step and no function is trapped has nothing left to do. */
  lemma StuckMeansIdle(s: State)
    requires Sound(s) && Stuck(s) && !Trapped(s)
    ensures Idle(s)
  {
    forall t | 0 <= t < |s.tasks| && s.tasks[t].group.Some? ensures s.tasks[t].place.Done? && s.tasks[t].runs == 1 {
      NoneStuck(s, t);
    }
    NoUse(s);
    forall i | 0 <= i < |s.stacks| && s.stacks[i] != []
      ensures i < s.pool.threadCount && s.stacks[i] == [Loop] && i in s.pool.sleepers && !s.stopped
    {
      StuckThread(s, i);
    }
    forall t | 0 <= t < |s.tasks| ensures s.tasks[t].place.Done? && s.tasks[t].runs == 1 { assert PlaceOk(s, t); }
  }

  lemma StuckThread(s: State, i: nat)
    requires Sound(s) && Stuck(s) && PoolFinished(s) && Live(s, i)
    ensures i < s.pool.threadCount && s.stacks[i] == [Loop] && i in s.pool.sleepers && !s.stopped
  {
    NoUse(s);
    assert !CanStep(s, i) && FrameOk(s, i, |s.stacks[i]| - 1);
    if Top(s, i).Await? {
      var j :| 0 <= j < |s.stacks| && j < s.pool.threadCount && s.stacks[j] != [];
      StuckWorker(s, j);
    } else {
      assert SleeperOk(s, i);
      if Top(s, i).Join? { NothingPending(s, Top(s, i).group); }
    }
  }

  lemma StuckWorker(s: State, j: nat)
    requires Sound(s) && Stuck(s) && PoolFinished(s) && Live(s, j) && j < s.pool.threadCount
    ensures !s.stopped
  {
    NoUse(s);
    assert !CanStep(s, j) && FrameOk(s, j, |s.stacks[j]| - 1) && FrameOk(s, j, 0);
    assert SleeperOk(s, j);
    if Top(s, j).Join? { NothingPending(s, Top(s, j).group); }
  }

  lemma IdleMeansNoTrap(s: State)
    requires Idle(s)
    ensures !Trapped(s)
  {
    if trap: set<nat> :| Trap(s, trap) { TrapHolds(s, trap); }
  }

  lemma TrapHolds(s: State, trap: set<nat>)
    requires Trap(s, trap)
    ensures exists t: nat :: IsRunning(s, t)
  {
    var t :| t in trap;
    TrappedRuns(s, trap, t);
  }

  // ---------- The join that closes a trap ----------

  /** A chain of functions, each waiting for the next, that ends on the stack of thread i. */
  ghost predicate Chain(s: State, ts: seq<nat>, i: nat)
    decreases |ts|
  {
    && ts != [] && IsRunning(s, ts[0])
    && if |ts| == 1 then s.tasks[ts[0]].place.thread == i else WaitsFor(s, ts[0], ts[1]) && Chain(s, ts[1..], i)
  }

  ghost predicate LeadsTo(s: State, t: nat, i: nat) {
    exists ts :: Chain(s, ts, i) && ts[0] == t
  }

  /** What a caller of join can ask beforehand: does a running function of the group wait, directly
      or through others, for a function on the caller's own stack, or lie there itself? */
  ghost predicate Closes(s: State, i: nat, g: nat) {
    exists u: nat :: RunsIn(s, u, g) && LeadsTo(s, u, i)
  }

  lemma ChainLonger(s: State, t: nat, u: nat, i: nat)
    requires WaitsFor(s, t, u) && LeadsTo(s, u, i)
    ensures LeadsTo(s, t, i)
  {
    var ts :| Chain(s, ts, i) && ts[0] == u;
    var k: nat, g: nat :| JoinAbove(s, t, k, g) && RunsIn(s, u, g);
    assert ([t] + ts)[1..] == ts;
    assert Chain(s, [t] + ts, i);
  }

  /** The functions of a chain. */
  ghost function Links(ts: seq<nat>): set<nat> {
    set t | t in ts
  }

  /** What BeginJoin(i, g) adds: functions on stack i wait for those that run in g. */
  ghost predicate NewWait(s: State, i: nat, g: nat, t: nat, u: nat) {
    IsRunning(s, t) && s.tasks[t].place.thread == i && RunsIn(s, u, g)
  }

  ghost predicate Joined(s: State, i: nat, g: nat, s': State) {
    && s'.tasks == s.tasks
    && forall t: nat, u: nat :: WaitsFor(s', t, u) <==> WaitsFor(s, t, u) || NewWait(s, i, g, t, u)
  }

  lemma JoinAdds(s: State, i: nat, g: nat, s': State, t: nat, u: nat)
    requires Placed(s) && Running(s, i) && s' == Push(s, i, Join(g))
    ensures WaitsFor(s', t, u) <==> WaitsFor(s, t, u) || NewWait(s, i, g, t, u)
  {
    if NewWait(s, i, g, t, u) {
      assert PlaceOk(s, t);
      assert JoinAbove(s', t, |s.stacks[i]|, g) && RunsIn(s', u, g);
    }
    if WaitsFor(s, t, u) {
      var k: nat, h: nat :| JoinAbove(s, t, k, h) && RunsIn(s, u, h);
      assert JoinAbove(s', t, k, h) && RunsIn(s', u, h);
    }
    if WaitsFor(s', t, u) {
      var k: nat, h: nat :| JoinAbove(s', t, k, h) && RunsIn(s', u, h);
      if k < |s.stacks[s.tasks[t].place.thread]| { assert JoinAbove(s, t, k, h) && RunsIn(s, u, h); }
    }
  }

  lemma BeginJoins(s: State, i: nat, g: nat)
    requires Placed(s) && Enabled(s, BeginJoin(i, g))
    ensures Joined(s, i, g, Step(s, BeginJoin(i, g)))
  {
    var s' := Push(s, i, Join(g));
    forall t: nat, u: nat ensures WaitsFor(s', t, u) <==> WaitsFor(s, t, u) || NewWait(s, i, g, t, u) {
      JoinAdds(s, i, g, s', t, u);
    }
  }

  lemma {:induction false} ChainCloses(s: State, i: nat, g: nat, s': State, first: nat, ts: seq<nat>)
    requires Joined(s, i, g, s') && Chain(s, ts, i) && RunsIn(s, first, g)
    ensures forall t | t in ts :: WaitsIn(s', t, Links(ts) + {first})
    decreases |ts|
  {
    var all := Links(ts) + {first};
    if |ts| == 1 {
      assert NewWait(s, i, g, ts[0], first);
      assert WaitsFor(s', ts[0], first);
    } else {
      assert WaitsFor(s', ts[0], ts[1]) && ts[1] in all;
      ChainCloses(s, i, g, s', first, ts[1..]);
      forall t | t in ts ensures WaitsIn(s', t, all) {
        if t != ts[0] {
          assert t in ts[1..] && WaitsIn(s', t, Links(ts[1..]) + {first});
          var u: nat :| u in Links(ts[1..]) + {first} && WaitsFor(s', t, u);
          assert u in all;
        }
      }
    }
  }

  lemma ClosingJoin(s: State, i: nat, g: nat, s': State)
    requires Joined(s, i, g, s') && Closes(s, i, g)
    ensures Trapped(s')
  {
    var u: nat :| RunsIn(s, u, g) && LeadsTo(s, u, i);
    var ts :| Chain(s, ts, i) && ts[0] == u;
    ChainCloses(s, i, g, s', u, ts);
    assert u in ts && Links(ts) + {u} == Links(ts);
    assert Trap(s', Links(ts));
  }

  /** The functions from which no chain leads to the thread that has joined wait for one another. */
  ghost function Lost(s: State, i: nat, trap: set<nat>): set<nat> {
    set t | t in trap && !LeadsTo(s, t, i)
  }

  lemma LostWait(s: State, i: nat, g: nat, s': State, trap: set<nat>, t: nat)
    requires Joined(s, i, g, s') && Trap(s', trap) && t in Lost(s, i, trap)
    ensures WaitsIn(s, t, Lost(s, i, trap))
  {
    assert WaitsIn(s', t, trap);
    var u: nat :| u in trap && WaitsFor(s', t, u);
    if NewWait(s, i, g, t, u) { assert Chain(s, [t], i); }
    if LeadsTo(s, u, i) && WaitsFor(s, t, u) { ChainLonger(s, t, u, i); }
  }

  lemma TrapLeadsBack(s: State, i: nat, g: nat, s': State, trap: set<nat>)
    requires Joined(s, i, g, s') && !Trapped(s) && Trap(s', trap)
    ensures Lost(s, i, trap) == {}
  {
    var lost := Lost(s, i, trap);
    forall t | t in lost ensures WaitsIn(s, t, lost) { LostWait(s, i, g, s', trap, t); }
    if lost != {} { ItIsATrap(s, lost); }
  }

  lemma OldWait(s: State, i: nat, g: nat, s': State, trap: set<nat>, t: nat)
    requires Joined(s, i, g, s') && Trap(s', trap) && Lost(s, i, trap) == {} && !Closes(s, i, g) && t in trap
    ensures WaitsIn(s, t, trap)
  {
    assert WaitsIn(s', t, trap);
    var u: nat :| u in trap && WaitsFor(s', t, u);
    assert u !in Lost(s, i, trap);
    assert LeadsTo(s, u, i);
    assert !RunsIn(s, u, g);
  }

  lemma NewTrapCloses(s: State, i: nat, g: nat, s': State, trap: set<nat>)
    requires Joined(s, i, g, s') && !Trapped(s) && Trap(s', trap)
    ensures Closes(s, i, g)
  {
    TrapLeadsBack(s, i, g, s', trap);
    if !Closes(s, i, g) {
      forall t | t in trap ensures WaitsIn(s, t, trap) { OldWait(s, i, g, s', trap, t); }
      ItIsATrap(s, trap);
    }
  }

  lemma ItIsATrap(s: State, trap: set<nat>)
    requires trap != {} && forall t {:trigger WaitsIn(s, t, trap)} | t in trap :: WaitsIn(s, t, trap)
    ensures Trapped(s)
  {
    assert Trap(s, trap);
  }

  /** A join frame of the new state that lies above a function was there before. */
  lemma OldJoin(s: State, e: Event, t: nat, k: nat, g: nat)
    requires Placed(s) && Accounting(s) && Enabled(s, e) && !e.BeginJoin? && JoinAbove(Step(s, e), t, k, g)
    ensures JoinAbove(s, t, k, g) && s.tasks[t] == Step(s, e).tasks[t]
  {
    var s' := Step(s, e);
    StepPlaced(s, e);
    assert PlaceOk(s', t);
    if s.pool.queue != [] { QueueFront(s); assert PlaceOk(s, s.pool.queue[0]); }
    if e.Return? { TopTask(s, e.i); }
    if t < |s.tasks| { assert PlaceOk(s, t); }
  }

  lemma OldMember(s: State, e: Event, trap: set<nat>, t: nat)
    requires Placed(s) && Accounting(s) && Enabled(s, e) && !e.BeginJoin? && Trap(Step(s, e), trap) && t in trap
    ensures t < |s.tasks| && s.tasks[t] == Step(s, e).tasks[t]
  {
    var s' := Step(s, e);
    assert WaitsIn(s', t, trap);
    var u: nat :| u in trap && WaitsFor(s', t, u);
    var k: nat, g: nat :| JoinAbove(s', t, k, g) && RunsIn(s', u, g);
    OldJoin(s, e, t, k, g);
  }

  /** No other step closes a trap. */
  lemma OnlyJoinsClose(s: State, e: Event, trap: set<nat>)
    requires Placed(s) && Accounting(s) && Enabled(s, e) && !e.BeginJoin? && Trap(Step(s, e), trap)
    ensures Trap(s, trap)
  {
    var s' := Step(s, e);
    forall t | t in trap ensures WaitsIn(s, t, trap) {
      assert WaitsIn(s', t, trap);
      var u: nat :| u in trap && WaitsFor(s', t, u);
      var k: nat, g: nat :| JoinAbove(s', t, k, g) && RunsIn(s', u, g);
      OldJoin(s, e, t, k, g);
      OldMember(s, e, trap, u);
      assert RunsIn(s, u, g) && WaitsFor(s, t, u);
    }
  }

  ghost predicate ClosingStep(s: State, e: Event) {
    e.BeginJoin? && Closes(s, e.i, e.g)
  }

  lemma TrapNeedsClosing(s: State, e: Event)
    requires Placed(s) && Accounting(s) && Enabled(s, e) && !Trapped(s) && Trapped(Step(s, e))
    ensures ClosingStep(s, e)
  {
    var trap: set<nat> :| Trap(Step(s, e), trap);
    if e.BeginJoin? {
      BeginJoins(s, e.i, e.g);
      NewTrapCloses(s, e.i, e.g, Step(s, e), trap);
    } else {
      OnlyJoinsClose(s, e, trap);
    }
  }

  lemma ClosingTraps(s: State, e: Event)
    requires Placed(s) && Enabled(s, e) && ClosingStep(s, e)
    ensures Trapped(Step(s, e))
  {
    BeginJoins(s, e.i, e.g);
    ClosingJoin(s, e.i, e.g, Step(s, e));
  }

  lemma TrappedStays(s: State, e: Event)
    requires Placed(s) && Accounting(s) && Enabled(s, e) && Trapped(s)
    ensures Trapped(Step(s, e))
  {
    var trap: set<nat> :| Trap(s, trap);
    TrapStays(s, e, trap);
  }

  /** Exactly the joins that close a cycle of waiting bring functions into a trap. */
  lemma TrapClosesExactlyWhen(s: State, e: Event)
    requires Placed(s) && Accounting(s) && Enabled(s, e)
    ensures Trapped(Step(s, e)) <==> Trapped(s) || ClosingStep(s, e)
  {
    if Trapped(s) {
      TrappedStays(s, e);
    } else if ClosingStep(s, e) {
      ClosingTraps(s, e);
    } else if Trapped(Step(s, e)) {
      TrapNeedsClosing(s, e);
    }
  }

  // ---------- Every run, whatever is joined ----------

  /** Some join of the run closes a cycle of waiting. */
  ghost predicate HasClosingJoin(s: State, es: seq<Event>)
    requires Possible(s, es)
    decreases |es|
  {
    es != [] && (ClosingStep(s, es[0]) || HasClosingJoin(Step(s, es[0]), es[1..]))
  }

  lemma {:induction false} TrappedExactlyWhen(s: State, es: seq<Event>)
    requires Placed(s) && Accounting(s) && Possible(s, es)
    ensures Trapped(After(s, es)) <==> Trapped(s) || HasClosingJoin(s, es)
    decreases |es|
  {
    if es != [] {
      TrapClosesExactlyWhen(s, es[0]);
      StepPlaced(s, es[0]);
      StepAccounting(s, es[0]);
      TrappedExactlyWhen(Step(s, es[0]), es[1..]);
    }
  }

  lemma NoTrapAtFirst(workers: nat, outside: nat)
    ensures !Trapped(Init(workers, outside))
  {
    var s := Init(workers, outside);
    if trap: set<nat> :| Trap(s, trap) { TrapNeedsHeight(s, trap); }
  }

  lemma TrapNeedsHeight(s: State, trap: set<nat>)
    requires Trap(s, trap)
    ensures exists i: nat :: i < |s.stacks| && |s.stacks[i]| > 1
  {
    var t :| t in trap;
    assert WaitsIn(s, t, trap);
    var u: nat :| u in trap && WaitsFor(s, t, u);
    var k: nat, g: nat :| JoinAbove(s, t, k, g) && RunsIn(s, u, g);
  }

  /** For any number of workers and outside threads, any schedule and any joins: when no thread
      can step, either everything has finished or some join has closed a cycle of waiting, and not
      both. */
  lemma DeadlocksExactlyWhen(workers: nat, outside: nat, es: seq<Event>, s: State)
    requires workers > 0 && Possible(Init(workers, outside), es) && s == After(Init(workers, outside), es)
    ensures Trapped(s) <==> HasClosingJoin(Init(workers, outside), es)
    ensures Stuck(s) ==> (Idle(s) <==> !HasClosingJoin(Init(workers, outside), es))
  {
    InitSound(workers, outside);
    NoTrapAtFirst(workers, outside);
    TrappedExactlyWhen(Init(workers, outside), es);
    RunSound(Init(workers, outside), es);
    if Stuck(s) && !Trapped(s) { StuckMeansIdle(s); }
    if Idle(s) { IdleMeansNoTrap(s); }
  }

  /** Without a closing join some thread can step until all the work is finished; after one the
      work is never finished, however the run goes on. */
  lemma FinishesExactlyWhen(workers: nat, outside: nat, es: seq<Event>, s: State)
    requires workers > 0 && Possible(Init(workers, outside), es) && s == After(Init(workers, outside), es)
    ensures !HasClosingJoin(Init(workers, outside), es) ==> Idle(s) || Moves(s)
    ensures HasClosingJoin(Init(workers, outside), es) ==> forall more | Possible(s, more) :: !Idle(After(s, more))
  {
    DeadlocksExactlyWhen(workers, outside, es, s);
    InitSound(workers, outside);
    RunSound(Init(workers, outside), es);
    if !Stuck(s) {
      var i :| 0 <= i < |s.stacks| && CanStep(s, i);
      CanStepIsEnabled(s, i);
    }
    forall more | Possible(s, more) && Trapped(s) ensures !Idle(After(s, more)) {
      TrappedExactlyWhen(s, more);
      if Idle(After(s, more)) { IdleMeansNoTrap(After(s, more)); }
    }
  }

  /** A thread that is not asleep can step. */
  ghost predicate Moves(s: State) {
    exists i: nat, e: Event :: CanStep(s, i) && !e.Wake? && e.i == i && Enabled(s, e)
  }

  // ---------- Functions that join only the executors they created ----------

  ghost predicate OwnJoin(s: State, e: Event)
    requires Enabled(s, e)
  {
    e.BeginJoin? ==> s.owner[e.g] == Top(s, e.i).task
  }

  ghost predicate OwnJoins(s: State, es: seq<Event>)
    requires Possible(s, es)
    decreases |es|
  {
    es == [] || (OwnJoin(s, es[0]) && OwnJoins(Step(s, es[0]), es[1..]))
  }

  ghost predicate StartedTask(s: State, t: nat) {
    t < |s.tasks| && !s.tasks[t].place.Queued?
  }

  /** A function of an executor starts after the function that created the executor. */
  ghost predicate TaskOrder(s: State, t: nat)
    requires t < |s.tasks|
  {
    StartedTask(s, t) ==>
      && s.tasks[t].started < s.clock
      && (s.tasks[t].group.Some? && s.tasks[t].group.value < |s.owner| ==>
            var o := s.owner[s.tasks[t].group.value];
            StartedTask(s, o) && s.tasks[o].started < s.tasks[t].started)
  }

  ghost predicate TaskOrders(s: State) {
    && (forall t | 0 <= t < |s.tasks| :: TaskOrder(s, t))
    && (forall g | 0 <= g < |s.owner| :: StartedTask(s, s.owner[g]))
  }

  /** A function started on top of another one starts later. */
  ghost predicate StackOrder(s: State, i: nat, j: nat, k: nat)
    requires i < |s.stacks| && j < k < |s.stacks[i]|
  {
    var low, high := s.stacks[i][j], s.stacks[i][k];
    low.Run? && high.Run? && low.task < |s.tasks| && high.task < |s.tasks| ==>
      s.tasks[low.task].started < s.tasks[high.task].started
  }

  ghost predicate StackOrders(s: State) {
    forall i, j, k | 0 <= i < |s.stacks| && 0 <= j < k < |s.stacks[i]| :: StackOrder(s, i, j, k)
  }

  ghost predicate JoinOwned(s: State, i: nat, k: nat)
    requires i < |s.stacks| && 0 < k < |s.stacks[i]|
  {
    s.stacks[i][k].Join? ==>
      s.stacks[i][k].group < |s.owner| && s.stacks[i][k - 1] == Run(s.owner[s.stacks[i][k].group])
  }

  ghost predicate JoinsOwned(s: State) {
    forall i, k | 0 <= i < |s.stacks| && 0 < k < |s.stacks[i]| :: JoinOwned(s, i, k)
  }

  ghost predicate Ordered(s: State) {
    TaskOrders(s) && StackOrders(s) && JoinsOwned(s)
  }

  lemma EvolvesTaskOrders(s: State, s': State)
    requires TaskOrders(s) && Evolves(s, s')
    requires forall t | 0 <= t < |s.tasks| && s.tasks[t].group.Some? :: s.tasks[t].group.value < |s.owner|
    requires forall g | |s.owner| <= g < |s'.owner| :: StartedTask(s, s'.owner[g])
    ensures TaskOrders(s')
  {
    forall t | 0 <= t < |s.tasks| && StartedTask(s, t)
      ensures StartedTask(s', t) && s'.tasks[t].started == s.tasks[t].started < s.clock
    {
      assert TaskEvolves(s, s', t) && TaskOrder(s, t);
    }
    forall t | 0 <= t < |s'.tasks| ensures TaskOrder(s', t) {
      if t < |s.tasks| {
        assert TaskEvolves(s, s', t) && TaskOrder(s, t);
      } else {
        assert IsNewTask(s, s', t);
      }
      if s'.tasks[t].group.Some? {
        var g := s'.tasks[t].group.value;
        assert g < |s.owner| && s'.owner[g] == s.owner[g] && StartedTask(s, s.owner[g]);
      }
    }
    forall g | 0 <= g < |s'.owner| ensures StartedTask(s', s'.owner[g]) {
      if g < |s.owner| { assert s'.owner[g] == s.owner[g] && StartedTask(s, s.owner[g]); }
    }
  }

  lemma StepTaskOrders(s: State, e: Event)
    requires Placed(s) && Accounting(s) && TaskOrders(s) && Enabled(s, e)
    ensures TaskOrders(Step(s, e))
  {
    StepEvolves(s, e);
    if e.NewExecutor? { TopTask(s, e.i); }
    forall t | 0 <= t < |s.tasks| && s.tasks[t].group.Some? ensures s.tasks[t].group.value < |s.owner| {
      assert PlaceOk(s, t);
    }
    EvolvesTaskOrders(s, Step(s, e));
  }

  lemma StepStackOrders(s: State, e: Event)
    requires Placed(s) && Accounting(s) && TaskOrders(s) && StackOrders(s) && Enabled(s, e)
    ensures StackOrders(Step(s, e))
  {
    var s' := Step(s, e);
    StepEvolves(s, e);
    forall i, j, k | 0 <= i < |s'.stacks| && 0 <= j < k < |s'.stacks[i]| ensures StackOrder(s', i, j, k) {
      assert StackEvolves(s, s', i) && FrameOk(s, i, j);
      if s.stacks[i][j].Run? { assert TaskOrder(s, s.stacks[i][j].task) && TaskEvolves(s, s', s.stacks[i][j].task); }
      if k < |s.stacks[i]| {
        assert StackOrder(s, i, j, k) && FrameOk(s, i, k);
        if s.stacks[i][k].Run? { assert TaskEvolves(s, s', s.stacks[i][k].task); }
      }
    }
  }

  lemma StepJoinsOwned(s: State, e: Event)
    requires Placed(s) && Accounting(s) && JoinsOwned(s) && Enabled(s, e) && OwnJoin(s, e)
    ensures JoinsOwned(Step(s, e))
  {
    var s' := Step(s, e);
    forall i, k | 0 <= i < |s'.stacks| && 0 < k < |s'.stacks[i]| ensures JoinOwned(s', i, k) {
      if k < |s.stacks[i]| { assert JoinOwned(s, i, k); }
    }
  }

  // ---------- Own joins never close a trap ----------

  ghost predicate Inv(s: State) {
    Sound(s) && Ordered(s)
  }

  /** A function waits only for functions that started later. */
  lemma WaitsForLater(s: State, t: nat, u: nat)
    requires Placed(s) && Ordered(s) && WaitsFor(s, t, u)
    ensures s.tasks[t].started < s.tasks[u].started < s.clock
  {
    var k: nat, g: nat :| JoinAbove(s, t, k, g) && RunsIn(s, u, g);
    var i, j := s.tasks[t].place.thread, s.tasks[t].place.depth;
    assert PlaceOk(s, t) && PlaceOk(s, u) && FrameOk(s, i, k);
    assert JoinOwned(s, i, k) && FrameOk(s, i, k - 1) && TaskOrder(s, u);
    if j < k - 1 { assert StackOrder(s, i, j, k - 1); }
  }

  /** So a trap would contain functions that started ever later. */
  lemma {:induction false} NoTrapWhenOrdered(s: State, trap: set<nat>, t: nat)
    requires Placed(s) && Ordered(s) && t in trap
    requires t < |s.tasks| && s.tasks[t].started < s.clock
    ensures !Trap(s, trap)
    decreases s.clock - s.tasks[t].started
  {
    if Trap(s, trap) {
      assert WaitsIn(s, t, trap);
      var u: nat :| u in trap && WaitsFor(s, t, u);
      WaitsForLater(s, t, u);
      NoTrapWhenOrdered(s, trap, u);
    }
  }

  lemma StartedBefore(s: State, t: nat)
    requires TaskOrders(s) && IsRunning(s, t)
    ensures s.tasks[t].started < s.clock
  {
    assert TaskOrder(s, t);
  }

  lemma NoneTrapped(s: State, trap: set<nat>)
    requires Placed(s) && Ordered(s)
    ensures !Trap(s, trap)
  {
    if Trap(s, trap) {
      var t :| t in trap;
      TrappedRuns(s, trap, t);
      StartedBefore(s, t);
      NoTrapWhenOrdered(s, trap, t);
    }
  }

  lemma OrderedMeansNoTrap(s: State)
    requires Placed(s) && Ordered(s)
    ensures !Trapped(s)
  {
    if trap: set<nat> :| Trap(s, trap) { NoneTrapped(s, trap); }
  }

  lemma InitInv(workers: nat, outside: nat)
    requires workers > 0
    ensures Inv(Init(workers, outside))
  {
    InitSound(workers, outside);
  }

  lemma StepInv(s: State, e: Event)
    requires Inv(s) && Enabled(s, e) && OwnJoin(s, e)
    ensures Inv(Step(s, e)) && Step(s, e).pool.threadCount == s.pool.threadCount
  {
    StepSound(s, e);
    StepTaskOrders(s, e);
    StepStackOrders(s, e);
    StepJoinsOwned(s, e);
  }

  lemma {:induction false} RunInv(s: State, es: seq<Event>)
    requires Inv(s) && Possible(s, es) && OwnJoins(s, es)
    ensures Inv(After(s, es))
    decreases |es|
  {
    if es != [] {
      StepInv(s, es[0]);
      RunInv(Step(s, es[0]), es[1..]);
    }
  }

  /** For any number of workers and outside threads and any schedule in which functions join only
      executors they created, no join closes a cycle of waiting, and some thread can step until all
      the work is finished. */
  lemma NoDeadlock(workers: nat, outside: nat, es: seq<Event>, s: State)
    requires workers > 0 && Possible(Init(workers, outside), es) && OwnJoins(Init(workers, outside), es)
    requires s == After(Init(workers, outside), es)
    ensures !HasClosingJoin(Init(workers, outside), es) && (Idle(s) || Moves(s))
  {
    InitInv(workers, outside);
    RunInv(Init(workers, outside), es);
    OrderedMeansNoTrap(s);
    DeadlocksExactlyWhen(workers, outside, es, s);
    FinishesExactlyWhen(workers, outside, es, s);
  }

  // ---------- Joining an executor that another function created ----------

  /** One worker and one outside thread: a function is submitted to an executor, and joins it. */
  ghost function Foreign(k: nat): State
    requires k <= 6
  {
    var root, child := Task(None, On(1, 0), 1, 0), Task(Some(0), On(0, 1), 1, 1);
    if k == 0 then State(Pool(1, [], 1, [], {}), [[Loop], [Run(0)]], [root], [], false, 1)
    else if k == 1 then State(Pool(1, [], 1, [0], {}), [[Loop], [Run(0)]], [root], [0], false, 1)
    else if k == 2 then State(Pool(1, [1], 2, [1], {}), [[Loop], [Run(0)]], [root, Task(Some(0), Queued, 0, 0)],
        [0], false, 1)
    else if k == 3 then State(Pool(1, [], 2, [1], {}), [[Loop, Run(1)], [Run(0)]], [root, child], [0], false, 2)
    else if k == 4 then State(Pool(1, [], 2, [1], {}), [[Loop, Run(1), Join(0)], [Run(0)]], [root, child], [0],
        false, 2)
    else if k == 5 then State(Pool(1, [], 2, [1], {0}), [[Loop, Run(1), Join(0)], [Run(0)]], [root, child], [0],
        false, 2)
    else State(Pool(1, [], 2, [1], {0}), [[Loop, Run(1), Join(0)], []], [root.(place := Done), child], [0], false, 2)
  }

  ghost function ForeignEvent(k: nat): Event {
    if k == 0 then NewExecutor(1) else if k == 1 then Submit(1, 0, 0) else if k == 2 then Check(0)
    else if k == 3 then BeginJoin(0, 0) else if k == 4 then Check(0) else Return(1)
  }

  ghost predicate ForeignGoes(k: nat)
    requires k < 6
  {
    Enabled(Foreign(k), ForeignEvent(k)) && Step(Foreign(k), ForeignEvent(k)) == Foreign(k + 1)
  }

  lemma ForeignStarts()
    ensures ForeignGoes(2)
  {
    assert Step(Foreign(2), Check(0)).stacks[0] == [Loop, Run(1)];
    assert Step(Foreign(2), Check(0)).stacks == Foreign(3).stacks;
  }

  lemma ForeignJoins()
    ensures ForeignGoes(3)
  {
    assert Step(Foreign(3), BeginJoin(0, 0)).stacks[0] == [Loop, Run(1), Join(0)];
    assert Step(Foreign(3), BeginJoin(0, 0)).stacks == Foreign(4).stacks;
  }

  lemma ForeignSleeps()
    ensures ForeignGoes(4)
  {
  }

  lemma ForeignReturns()
    ensures ForeignGoes(5)
  {
  }

  lemma ForeignStep(k: nat)
    requires k < 6
    ensures ForeignGoes(k)
  {
    if k == 2 { ForeignStarts(); } else if k == 3 { ForeignJoins(); }
    if k == 4 { ForeignSleeps(); } else if k == 5 { ForeignReturns(); }
  }

  lemma ForeignLonger(k: nat, rest: seq<Event>) returns (es: seq<Event>)
    requires k < 6 && ForeignGoes(k) && Possible(Foreign(k + 1), rest) && After(Foreign(k + 1), rest) == Foreign(6)
    ensures Possible(Foreign(k), es) && After(Foreign(k), es) == Foreign(6)
  {
    es := [ForeignEvent(k)] + rest;
    assert es[1..] == rest;
  }

  lemma {:induction false} ForeignRun(k: nat) returns (es: seq<Event>)
    requires k <= 6
    ensures Possible(Foreign(k), es) && After(Foreign(k), es) == Foreign(6)
    decreases 6 - k
  {
    es := [];
    if k < 6 {
      ForeignStep(k);
      var rest := ForeignRun(k + 1);
      es := ForeignLonger(k, rest);
    }
  }

  /** The restriction to own executors is needed: a function that joins the executor it was
      submitted to sleeps for ever, and so does the pool. */
  lemma ForeignJoinDeadlocks()
    ensures exists es: seq<Event> ::
              && Possible(Init(1, 1), es)
              && Stuck(After(Init(1, 1), es)) && !Idle(After(Init(1, 1), es))
  {
    assert Init(1, 1) == Foreign(0);
    var es := ForeignRun(0);
    assert !Foreign(6).tasks[1].place.Done?;
  }
}
