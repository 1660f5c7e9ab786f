/** fork_join.cpp: every run of fork_join_sort ends, its threads' waiting included. */
module SortEnds {
  import opened Common
  import opened ForkJoinPool
  import opened ForkJoinSystem
  import opened ForkJoinProgress
  import Sorting = ForkJoinSort
  import opened Sums

  // ---------- What the threads still have to look at ----------

  /** The loops and joins on a stack. */
  ghost function Waits(stack: seq<Frame>): int {
    if stack == [] then 0 else Waits(stack[..|stack| - 1]) + if stack[|stack| - 1].Run? then 0 else 1
  }

  ghost function PerStack(stacks: seq<seq<Frame>>): seq<int> {
    seq(|stacks|, i requires 0 <= i < |stacks| => Waits(stacks[i]))
  }

  /** Functions to take from the queue, loops to leave, and threads that may go to sleep. */
  ghost function Looks(s: State): int {
    |s.pool.queue| + Sum(PerStack(s.stacks)) - |s.pool.sleepers|
  }

  lemma StackChanged(s: State, i: nat, stack: seq<Frame>)
    requires i < |s.stacks|
    ensures Sum(PerStack(s.stacks[i := stack])) == Sum(PerStack(s.stacks)) - Waits(s.stacks[i]) + Waits(stack)
  {
    SumUpdate(PerStack(s.stacks), i, Waits(stack));
    assert PerStack(s.stacks[i := stack]) == PerStack(s.stacks)[i := Waits(stack)];
  }

  lemma Pushed(s: State, i: nat, f: Frame)
    requires i < |s.stacks|
    ensures Sum(PerStack(Push(s, i, f).stacks)) == Sum(PerStack(s.stacks)) + if f.Run? then 0 else 1
  {
    var stack := s.stacks[i] + [f];
    assert stack[..|stack| - 1] == s.stacks[i];
    StackChanged(s, i, stack);
  }

  lemma Popped(s: State, i: nat)
    requires Live(s, i)
    ensures Sum(PerStack(Pop(s, i).stacks)) == Sum(PerStack(s.stacks)) - if Top(s, i).Run? then 0 else 1
  {
    StackChanged(s, i, s.stacks[i][..|s.stacks[i]| - 1]);
  }

  lemma HelpLooks(s: State, i: nat)
    requires i < |s.stacks| && i !in s.pool.sleepers && (s.pool.queue != [] ==> s.pool.queue[0] < |s.tasks|)
    ensures Looks(Help(s, i)) == Looks(s) - 1
  {
    if s.pool.queue != [] { Pushed(s.(pool := Taken(s.pool)), i, Run(s.pool.queue[0])); }
  }

  /** Every look at a loop condition uses one up: it takes a function, leaves the loop or sleeps. */
  lemma CheckLooks(s: State, i: nat)
    requires Enabled(s, Check(i))
    ensures Looks(Step(s, Check(i))) == Looks(s) - 1
  {
    HelpLooks(s, i);
    Popped(s, i);
  }

  lemma WakeLooks(s: State, i: nat)
    requires Enabled(s, Wake(i))
    ensures Looks(Step(s, Wake(i))) == Looks(s) + 1
  {
  }

  lemma SleepersFit(s: State)
    requires Sleepers(s)
    ensures |s.pool.sleepers| <= |s.stacks|
  {
    var all := Below(|s.stacks|);
    assert s.pool.sleepers <= all by { assert forall i | i in s.pool.sleepers :: SleeperOk(s, i); }
    SubsetSize(s.pool.sleepers, all);
  }

  function Below(n: nat): (all: set<nat>)
    ensures |all| == n && forall i: nat :: i in all <==> i < n
  {
    if n == 0 then {} else Below(n - 1) + {n - 1}
  }

  /** A statement of a function gives the threads at most |stacks| + 2 new things to look at. */
  lemma BodyLooks(s: State, e: Event)
    requires Sleepers(s) && Enabled(s, e) && (e.NewExecutor? || e.Submit? || e.BeginJoin? || e.Return?)
    ensures Looks(Step(s, e)) <= Looks(s) + |s.stacks| + 2
  {
    SleepersFit(s);
    match e
    case NewExecutor(i) =>
    case Submit(i, g, w) => Pushed(NewTask(s, g, w), i, Run(|s.tasks|));
    case BeginJoin(i, g) => Pushed(s, i, Join(g));
    case Return(i) => Popped(s, i);
  }

  lemma SameThreadCount(s: State, e: Event)
    requires Enabled(s, e)
    ensures |Step(s, e).stacks| == |s.stacks|
  {
  }

  // ---------- Runs of the sort ----------

  /** Statements left, each with all it can make the threads look at, and looks left. */
  ghost function Work(z: Sorting.Sys): int {
    (|z.s.stacks| + 3) * Sorting.TotalLeft(z.jobs) + Looks(z.s)
  }

  ghost function Spurious(ms: seq<Sorting.Move>): nat {
    if ms == [] then 0 else (if ms[0].Schedule? && ms[0].e.Wake? then 1 else 0) + Spurious(ms[1..])
  }

  lemma BodyWork(z: Sorting.Sys, input: seq<real>, i: nat, w: nat, b: seq<real>)
    requires Sorting.SortInv(z, input) && Sorting.Can(z, Sorting.Body(i, w, b))
    ensures Work(Sorting.Do(z, Sorting.Body(i, w, b))) < Work(z)
  {
    var z', e := Sorting.Do(z, Sorting.Body(i, w, b)), Sorting.PoolEvent(z.jobs[Sorting.TopJob(z, i)], i, w);
    var n, left := |z.s.stacks| + 3, Sorting.TotalLeft(z.jobs);
    Sorting.BodyCosts(z, input, i, w, b);
    if e.Some? {
      BodyLooks(z.s, e.value);
      SameThreadCount(z.s, e.value);
    }
    assert n * (left - 1) == n * left - n;
  }

  lemma MoveWorks(z: Sorting.Sys, input: seq<real>, m: Sorting.Move)
    requires Sorting.SortInv(z, input) && Sorting.Can(z, m)
    ensures Work(Sorting.Do(z, m)) < Work(z) + if m.Schedule? && m.e.Wake? then 2 else 0
    ensures |Sorting.Do(z, m).s.stacks| == |z.s.stacks|
  {
    match m
    case Body(i, w, b) =>
      BodyWork(z, input, i, w, b);
      var e := Sorting.PoolEvent(z.jobs[Sorting.TopJob(z, i)], i, w);
      if e.Some? { SameThreadCount(z.s, e.value); }
    case Schedule(e) =>
      SameThreadCount(z.s, e);
      if e.Check? { CheckLooks(z.s, e.i); } else { WakeLooks(z.s, e.i); }
  }

  lemma WorkLeft(z: Sorting.Sys, input: seq<real>)
    requires Sorting.SortInv(z, input)
    ensures Work(z) >= 0 - |z.s.stacks|
  {
    SleepersFit(z.s);
    forall i | 0 <= i < |z.s.stacks| ensures Waits(z.s.stacks[i]) >= 0 { WaitsNotNegative(z.s.stacks[i]); }
    SumPositive(PerStack(z.s.stacks));
    assert (|z.s.stacks| + 3) * Sorting.TotalLeft(z.jobs) >= 0;
  }

  lemma {:induction false} WaitsNotNegative(stack: seq<Frame>)
    ensures Waits(stack) >= 0
  {
    if stack != [] { WaitsNotNegative(stack[..|stack| - 1]); }
  }

  lemma {:induction false} RunWorks(z: Sorting.Sys, input: seq<real>, ms: seq<Sorting.Move>)
    requires Sorting.SortInv(z, input) && Sorting.Possible(z, ms)
    ensures |ms| <= Work(z) + |z.s.stacks| + 2 * Spurious(ms)
    decreases |ms|
  {
    if ms == [] {
      WorkLeft(z, input);
    } else {
      Sorting.StepSortInv(z, input, ms[0]);
      MoveWorks(z, input, ms[0]);
      RunWorks(Sorting.Do(z, ms[0]), input, ms[1..]);
    }
  }

  lemma InitWork(workers: nat, input: seq<real>)
    ensures var z := Sorting.Init(workers, input);
            Work(z) == (workers + 4) * Sorting.Cost(|input|) + workers && |z.s.stacks| == workers + 1
  {
    var z := Sorting.Init(workers, input);
    Sorting.InitCost(workers, input);
    InitStacks(z.s.stacks, workers);
  }

  lemma InitStacks(stacks: seq<seq<Frame>>, workers: nat)
    requires |stacks| == workers + 1 && (forall i | 0 <= i < workers :: stacks[i] == [Loop]) &&
        stacks[workers] == [Run(0)]
    ensures Sum(PerStack(stacks)) == workers
  {
    assert [Loop][..0] == [] && [Run(0)][..0] == [];
    assert Waits([Loop]) == 1 && Waits([Run(0)]) == 0;
    SumLast(PerStack(stacks));
    SumConstant(PerStack(stacks)[..workers], 1);
  }

  /** Spurious wake-ups aside, every run of the sort is bounded by the length of its input and the
      number of workers: statements, looks at the queue and sleeps all told. */
  lemma EverySortEnds(workers: nat, input: seq<real>, ms: seq<Sorting.Move>)
    requires workers > 0 && Sorting.Possible(Sorting.Init(workers, input), ms)
    ensures |ms| <= (workers + 4) * Sorting.Cost(|input|) + 2 * workers + 1 + 2 * Spurious(ms)
  {
    Sorting.InitSortInv(workers, input);
    InitWork(workers, input);
    RunWorks(Sorting.Init(workers, input), input, ms);
  }
}
