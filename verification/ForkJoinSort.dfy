/** fork_join_sort run by the pool of ForkJoinSystem, under every schedule (fork_join.cpp). */
module ForkJoinSort {
  import opened Common
  import opened ForkJoinPool
  import opened ForkJoinSystem
  import opened ForkJoinProgress
  import opened ForkJoinDeadlock

  const CUTOFF := 32768

  /** The next statement of a call of fork_join_sort. */
  datatype Pc = Begin | ForkLeft | ForkRight | Joining | Merging | Finished | Returned

  /** One call on [lo, hi). `used` is set when the caller has merged the result. */
  datatype Job = Job(lo: nat, hi: nat, pc: Pc, group: nat, left: nat, right: nat, parent: nat, used: bool)

  /** `jobs[t]` is the call that function t of the pool makes; call 0 is made by main. */
  datatype Sys = Sys(s: State, a: seq<real>, jobs: seq<Job>)

  function Mid(j: Job): nat
    requires j.lo <= j.hi
  {
    j.lo + (j.hi - j.lo) / 2
  }

  function Fresh(lo: nat, hi: nat, parent: nat): Job {
    Job(lo, hi, Begin, 0, 0, 0, parent, false)
  }

  // ---------- Ranges ----------

  ghost predicate Sorted(a: seq<real>, lo: nat, hi: nat) {
    hi <= |a| && forall p, q | lo <= p <= q < hi :: a[p] <= a[q]
  }

  /** Only [lo, hi) has been touched, and it holds the same elements. */
  ghost predicate Rearranged(a: seq<real>, b: seq<real>, lo: nat, hi: nat) {
    && lo <= hi <= |a| == |b|
    && b[..lo] == a[..lo] && b[hi..] == a[hi..]
    && multiset(b[lo..hi]) == multiset(a[lo..hi])
  }

  lemma RearrangedKeepsElements(a: seq<real>, b: seq<real>, lo: nat, hi: nat)
    requires Rearranged(a, b, lo, hi)
    ensures multiset(b) == multiset(a)
  {
    assert a == a[..lo] + a[lo..hi] + a[hi..];
    assert b == b[..lo] + b[lo..hi] + b[hi..];
  }

  // ---------- Steps ----------

  ghost function Init(workers: nat, input: seq<real>): Sys {
    Sys(ForkJoinSystem.Init(workers, 1), input, [Fresh(0, |input|, 0)])
  }

  /** `Body(i, w, b)`: the function on top of thread i executes its next statement; b is the
      array afterwards, and w the thread that a notify_one wakes.
      `Schedule(e)`: a thread in the pool's own loops moves. */
  datatype Move = Body(i: nat, w: nat, b: seq<real>) | Schedule(e: Event)

  ghost function TopJob(z: Sys, i: nat): nat
    requires Running(z.s, i)
  {
    Top(z.s, i).task
  }

  /** What the statement at `pc` asks of the pool; None for the two that only touch the array. */
  ghost function PoolEvent(j: Job, i: nat, w: nat): Option<Event> {
    match j.pc
    case Begin => if j.hi - j.lo > CUTOFF then Some(NewExecutor(i)) else None
    case ForkLeft => Some(Submit(i, j.group, w))
    case ForkRight => Some(Submit(i, j.group, w))
    case Joining => Some(BeginJoin(i, j.group))
    case Merging => None
    case Finished => Some(Return(i))
    case Returned => None
  }

  /** std::sort sorts its range; std::inplace_merge does if both halves are sorted. */
  ghost predicate ArrayStep(a: seq<real>, j: Job, b: seq<real>)
    requires j.lo <= j.hi
  {
    if j.pc.Begin? && j.hi - j.lo <= CUTOFF then
      Rearranged(a, b, j.lo, j.hi) && Sorted(b, j.lo, j.hi)
    else if j.pc.Merging? then
      && Rearranged(a, b, j.lo, j.hi)
      && (Sorted(a, j.lo, Mid(j)) && Sorted(a, Mid(j), j.hi) ==> Sorted(b, j.lo, j.hi))
    else
      b == a
  }

  ghost predicate Can(z: Sys, m: Move) {
    match m
    case Body(i, w, b) =>
      && Running(z.s, i) && TopJob(z, i) < |z.jobs|
      && var j := z.jobs[TopJob(z, i)];
      && j.lo <= j.hi && !j.pc.Returned?
      && ArrayStep(z.a, j, b)
      && (j.pc.Merging? ==> j.left < |z.jobs| && j.right < |z.jobs|)
      && (PoolEvent(j, i, w).Some? ==> Enabled(z.s, PoolEvent(j, i, w).value))
    case Schedule(e) => (e.Check? || e.Wake?) && Enabled(z.s, e)
  }

  /** The calls after the statement of call t. */
  ghost function Jobs(z: Sys, t: nat): seq<Job>
    requires t < |z.jobs| && z.jobs[t].lo <= z.jobs[t].hi
    requires z.jobs[t].pc.Merging? ==> z.jobs[t].left < |z.jobs| && z.jobs[t].right < |z.jobs|
  {
    var j := z.jobs[t];
    match j.pc
    case Begin =>
      z.jobs[t := if j.hi - j.lo > CUTOFF then j.(pc := ForkLeft, group := |z.s.owner|) else j.(pc := Finished)]
    case ForkLeft => z.jobs[t := j.(pc := ForkRight, left := |z.jobs|)] + [Fresh(j.lo, Mid(j), t)]
    case ForkRight => z.jobs[t := j.(pc := Joining, right := |z.jobs|)] + [Fresh(Mid(j), j.hi, t)]
    case Joining => z.jobs[t := j.(pc := Merging)]
    case Merging =>
      var js := z.jobs[j.left := z.jobs[j.left].(used := true)][j.right := z.jobs[j.right].(used := true)];
      js[t := j.(pc := Finished)]
    case Finished => z.jobs[t := j.(pc := Returned)]
    case Returned => z.jobs
  }

  ghost function Do(z: Sys, m: Move): Sys
    requires Can(z, m)
  {
    match m
    case Body(i, w, b) =>
      var t := TopJob(z, i);
      var e := PoolEvent(z.jobs[t], i, w);
      Sys(if e.Some? then Step(z.s, e.value) else z.s, b, Jobs(z, t))
    case Schedule(e) => z.(s := Step(z.s, e))
  }

  ghost predicate Possible(z: Sys, ms: seq<Move>)
    decreases |ms|
  {
    ms == [] || (Can(z, ms[0]) && Possible(Do(z, ms[0]), ms[1..]))
  }

  ghost function After(z: Sys, ms: seq<Move>): Sys
    requires Possible(z, ms)
    decreases |ms|
  {
    if ms == [] then z else After(Do(z, ms[0]), ms[1..])
  }

  // ---------- Invariant ----------

  /** The part of the array that only this call may touch now. */
  ghost predicate InRegion(j: Job, p: nat)
    requires j.lo <= j.hi
  {
    match j.pc
    case Begin => j.lo <= p < j.hi
    case ForkLeft => j.lo <= p < j.hi
    case ForkRight => Mid(j) <= p < j.hi
    case Joining => false
    case Merging => false
    case Finished => !j.used && j.lo <= p < j.hi
    case Returned => !j.used && j.lo <= p < j.hi
  }

  ghost predicate Child(z: Sys, t: nat, c: nat, lo: nat, hi: nat)
    requires t < |z.jobs|
  {
    && t < c < |z.jobs| && c < |z.s.tasks|
    && z.s.tasks[c].group == Some(z.jobs[t].group)
    && z.jobs[c].parent == t && z.jobs[c].lo == lo && z.jobs[c].hi == hi
  }

  ghost predicate Forked(pc: Pc) {
    pc.ForkLeft? || pc.ForkRight? || pc.Joining? || pc.Merging?
  }

  ghost predicate JobOk(z: Sys, t: nat)
    requires t < |z.jobs| && t < |z.s.tasks|
  {
    var j, task := z.jobs[t], z.s.tasks[t];
    && j.lo <= j.hi <= |z.a|
    && (task.place.Queued? ==> j.pc.Begin?)
    && (task.place.Done? <==> j.pc.Returned?)
    && (j.used ==>
          && j.pc.Returned? && t > 0 && j.parent < t
          && (z.jobs[j.parent].pc.Finished? || z.jobs[j.parent].pc.Returned?))
    && (Forked(j.pc) ==> j.group < |z.s.owner| && z.s.owner[j.group] == t && j.hi - j.lo > CUTOFF)
    && (j.pc.ForkRight? || j.pc.Joining? || j.pc.Merging? ==> Child(z, t, j.left, j.lo, Mid(j)))
    && (j.pc.Joining? || j.pc.Merging? ==> Child(z, t, j.right, Mid(j), j.hi) && j.left != j.right)
    && ((j.pc.Finished? || j.pc.Returned?) && !j.used ==> Sorted(z.a, j.lo, j.hi))
  }

  /** Function t has the join above it on the stack, or the group has finished. */
  ghost predicate JoinHolds(s: State, t: nat, g: nat)
    requires t < |s.tasks|
  {
    s.tasks[t].place.On? ==>
      var i, k := s.tasks[t].place.thread, s.tasks[t].place.depth;
      && i < |s.stacks| && k < |s.stacks[i]|
      && if k + 1 < |s.stacks[i]| then s.stacks[i][k + 1] == Join(g) else GroupFinished(s, g)
  }

  ghost predicate JoinOk(z: Sys, t: nat)
    requires t < |z.jobs| && t < |z.s.tasks|
  {
    z.jobs[t].pc.Merging? ==> JoinHolds(z.s, t, z.jobs[t].group)
  }

  ghost predicate Apart(j: Job, k: Job) {
    j.lo <= j.hi && k.lo <= k.hi ==> forall p: nat :: !(InRegion(j, p) && InRegion(k, p))
  }

  ghost predicate JobsOk(z: Sys) {
    && |z.jobs| == |z.s.tasks| > 0
    && z.jobs[0].lo == 0 && z.jobs[0].hi == |z.a|
    && (forall t | 0 <= t < |z.jobs| :: JobOk(z, t))
    && (forall t | 0 <= t < |z.jobs| :: JoinOk(z, t))
    && (forall t, u | 0 <= t < u < |z.jobs| :: Apart(z.jobs[t], z.jobs[u]))
  }

  ghost predicate SortInv(z: Sys, input: seq<real>) {
    && Inv(z.s) && z.s.pool.threadCount > 0 && !z.s.stopped
    && JobsOk(z) && multiset(z.a) == multiset(input)
  }

  lemma InitSortInv(workers: nat, input: seq<real>)
    requires workers > 0
    ensures SortInv(Init(workers, input), input)
  {
    InitInv(workers, 1);
  }

  // ---------- The pool moves ----------

  /** Functions keep their group, and a finished one stays finished. */
  ghost predicate TasksGoOn(s: State, s': State) {
    && |s.tasks| <= |s'.tasks|
    && forall t | 0 <= t < |s.tasks| ::
         && s'.tasks[t].group == s.tasks[t].group
         && (s.tasks[t].place.Done? ==> s'.tasks[t] == s.tasks[t])
  }

  lemma StepGoesOn(s: State, e: Event)
    requires Placed(s) && Accounting(s) && Enabled(s, e)
    ensures TasksGoOn(s, Step(s, e))
  {
    StepEvolves(s, e);
    forall t | 0 <= t < |s.tasks|
      ensures Step(s, e).tasks[t].group == s.tasks[t].group
      ensures s.tasks[t].place.Done? ==> Step(s, e).tasks[t] == s.tasks[t]
    {
      assert TaskEvolves(s, Step(s, e), t);
    }
  }

  lemma CheckKeepsJoin(s: State, i: nat, t: nat, g: nat)
    requires Placed(s) && Accounting(s) && Enabled(s, Check(i))
    requires t < |s.tasks| && s.tasks[t].place.On? && JoinHolds(s, t, g)
    ensures |Step(s, Check(i)).tasks| == |s.tasks| && JoinHolds(Step(s, Check(i)), t, g)
  {
    var s', j, k := Step(s, Check(i)), s.tasks[t].place.thread, s.tasks[t].place.depth;
    StepGoesOn(s, Check(i));
    if s.pool.queue != [] { QueueFront(s); }
    assert PlaceOk(s, t) && FrameOk(s, j, k);
    assert s'.tasks[t] == s.tasks[t];
    if k + 1 == |s.stacks[j]| {
      assert s'.stacks[j] == s.stacks[j];
    } else if j == i && k + 2 == |s.stacks[j]| && |s'.stacks[i]| < |s.stacks[i]| {
      JoinReturnsWhenGroupFinished(s, i);
    }
  }

  lemma ScheduleTasks(s: State, e: Event)
    requires Placed(s) && Enabled(s, e) && (e.Check? || e.Wake?)
    ensures |Step(s, e).tasks| == |s.tasks| && Step(s, e).owner == s.owner
    ensures forall t | 0 <= t < |s.tasks| ::
              || Step(s, e).tasks[t] == s.tasks[t]
              || (s.tasks[t].place.Queued? && Step(s, e).tasks[t].place.On? &&
                   Step(s, e).tasks[t].group == s.tasks[t].group)
  {
    if s.pool.queue != [] { QueueFront(s); }
  }

  lemma ScheduleKeepsJobs(z: Sys, e: Event)
    requires Placed(z.s) && Accounting(z.s) && JobsOk(z) && Can(z, Schedule(e))
    ensures JobsOk(Do(z, Schedule(e)))
  {
    var z' := Do(z, Schedule(e));
    ScheduleTasks(z.s, e);
    forall t | 0 <= t < |z'.jobs| ensures JobOk(z', t) {
      assert JobOk(z, t);
    }
    forall t | 0 <= t < |z'.jobs| ensures JoinOk(z', t) {
      ScheduleKeepsJoin(z, e, t);
    }
  }

  lemma ScheduleKeepsJoin(z: Sys, e: Event, t: nat)
    requires Placed(z.s) && Accounting(z.s) && JobsOk(z) && Can(z, Schedule(e)) && t < |z.jobs|
    ensures t < |Step(z.s, e).tasks| && JoinOk(Do(z, Schedule(e)), t)
  {
    ScheduleTasks(z.s, e);
    assert JobOk(z, t) && JoinOk(z, t);
    if z.jobs[t].pc.Merging? && z.s.tasks[t].place.On? && e.Check? { CheckKeepsJoin(z.s, e.i, t, z.jobs[t].group); }
  }

  // ---------- A function moves ----------

  lemma BodyKeepsJoin(s: State, e: Event, u: nat, g: nat)
    requires Placed(s) && Accounting(s) && Enabled(s, e) && Running(s, e.i)
    requires e.NewExecutor? || e.Submit? || e.BeginJoin? || e.Return?
    requires e.Submit? ==> e.g != g
    requires u < |s.tasks| && u != Top(s, e.i).task && JoinHolds(s, u, g)
    ensures TasksGoOn(s, Step(s, e)) && JoinHolds(Step(s, e), u, g)
  {
    var s' := Step(s, e);
    StepGoesOn(s, e);
    TopTask(s, e.i);
    if s.tasks[u].place.On? {
      var j, k := s.tasks[u].place.thread, s.tasks[u].place.depth;
      assert PlaceOk(s, u);
      assert s'.tasks[u] == s.tasks[u];
    }
  }

  /** What a statement that calls the pool does to the functions and the stacks. */
  lemma BodyTasks(s: State, e: Event)
    requires Placed(s) && Accounting(s) && Enabled(s, e) && Running(s, e.i)
    requires e.NewExecutor? || e.Submit? || e.BeginJoin? || e.Return?
    ensures var s', t := Step(s, e), Top(s, e.i).task;
            && TasksGoOn(s, s')
            && |s'.tasks| == |s.tasks| + (if e.Submit? then 1 else 0)
            && (e.Submit? ==> s'.tasks[|s.tasks|].group == Some(e.g) && !s'.tasks[|s.tasks|].place.Done?)
            && (forall u | 0 <= u < |s.tasks| && (u != t || !e.Return?) :: s'.tasks[u] == s.tasks[u])
            && (e.Return? ==> s'.tasks[t].place.Done?)
            && (forall g | 0 <= g < |s.owner| :: s'.owner[g] == s.owner[g])
            && |s'.owner| == |s.owner| + (if e.NewExecutor? then 1 else 0)
            && (e.NewExecutor? ==> s'.owner[|s.owner|] == t)
            && s'.stopped == s.stopped && s'.pool.threadCount == s.pool.threadCount
  {
    StepGoesOn(s, e);
    TopTask(s, e.i);
  }

  ghost predicate PoolMove(z: Sys, i: nat, w: nat) {
    && Placed(z.s) && Accounting(z.s) && JobsOk(z) && Can(z, Body(i, w, z.a))
    && PoolEvent(z.jobs[TopJob(z, i)], i, w).Some?
  }

  /** Calls keep their range and caller, and a finished one stays finished. */
  ghost predicate JobGoesOn(j: Job, j': Job) {
    && j'.lo == j.lo && j'.hi == j.hi && j'.parent == j.parent
    && (j.pc.Finished? || j.pc.Returned? ==> j'.pc.Finished? || j'.pc.Returned?)
  }

  ghost predicate JobsGoOn(js: seq<Job>, js': seq<Job>) {
    |js| <= |js'| && forall c | 0 <= c < |js| :: JobGoesOn(js[c], js'[c])
  }

  lemma JobCarries(z: Sys, z': Sys, u: nat)
    requires u < |z.jobs| == |z.s.tasks| && u < |z'.jobs| && u < |z'.s.tasks| && JobOk(z, u)
    requires z'.jobs[u] == z.jobs[u] && z'.s.tasks[u] == z.s.tasks[u] && |z'.a| == |z.a|
    requires (z.jobs[u].pc.Finished? || z.jobs[u].pc.Returned?) && !z.jobs[u].used ==>
        Sorted(z'.a, z.jobs[u].lo, z.jobs[u].hi)
    requires JobsGoOn(z.jobs, z'.jobs) && TasksGoOn(z.s, z'.s)
    requires |z.s.owner| <= |z'.s.owner| && forall g | 0 <= g < |z.s.owner| :: z'.s.owner[g] == z.s.owner[g]
    ensures JobOk(z', u)
  {
    var j := z.jobs[u];
    if j.used { assert JobGoesOn(z.jobs[j.parent], z'.jobs[j.parent]); }
    if j.pc.ForkRight? || j.pc.Joining? || j.pc.Merging? { assert JobGoesOn(z.jobs[j.left], z'.jobs[j.left]); }
    if j.pc.Joining? || j.pc.Merging? { assert JobGoesOn(z.jobs[j.right], z'.jobs[j.right]); }
  }

  lemma BodyJobsGoOn(z: Sys, i: nat, w: nat)
    requires PoolMove(z, i, w)
    ensures JobsGoOn(z.jobs, Jobs(z, TopJob(z, i)))
    ensures forall u | 0 <= u < |z.jobs| && u != TopJob(z, i) :: Jobs(z, TopJob(z, i))[u] == z.jobs[u]
    ensures |Jobs(z, TopJob(z, i))| == |Do(z, Body(i, w, z.a)).s.tasks|
  {
    BodyTasks(z.s, PoolEvent(z.jobs[TopJob(z, i)], i, w).value);
  }

  lemma BodyKeepsOtherJob(z: Sys, i: nat, w: nat, u: nat)
    requires PoolMove(z, i, w) && u < |z.jobs| && u != TopJob(z, i)
    ensures var z' := Do(z, Body(i, w, z.a)); |z'.jobs| == |z'.s.tasks| && u < |z'.jobs| && JobOk(z', u)
  {
    BodyTasks(z.s, PoolEvent(z.jobs[TopJob(z, i)], i, w).value);
    BodyJobsGoOn(z, i, w);
    assert JobOk(z, u);
    JobCarries(z, Do(z, Body(i, w, z.a)), u);
  }

  lemma BodyKeepsOwnJob(z: Sys, i: nat, w: nat)
    requires PoolMove(z, i, w)
    ensures var z' := Do(z, Body(i, w, z.a));
            |z'.jobs| == |z'.s.tasks| && TopJob(z, i) < |z'.jobs| && JobOk(z', TopJob(z, i))
  {
    var z', t := Do(z, Body(i, w, z.a)), TopJob(z, i);
    BodyTasks(z.s, PoolEvent(z.jobs[t], i, w).value);
    TopTask(z.s, i);
    assert JobOk(z, t);
    if z.jobs[t].pc.ForkRight? { assert z'.jobs[z.jobs[t].left] == z.jobs[z.jobs[t].left]; }
    if z.jobs[t].pc.Joining? {
      assert z'.jobs[z.jobs[t].left] == z.jobs[z.jobs[t].left];
      assert z'.jobs[z.jobs[t].right] == z.jobs[z.jobs[t].right];
    }
  }

  lemma BodyKeepsJobOk(z: Sys, i: nat, w: nat, u: nat)
    requires PoolMove(z, i, w) && u < |Jobs(z, TopJob(z, i))|
    ensures var z' := Do(z, Body(i, w, z.a)); |z'.jobs| == |z'.s.tasks| && JobOk(z', u)
  {
    var t := TopJob(z, i);
    if u == t {
      BodyKeepsOwnJob(z, i, w);
    } else if u < |z.jobs| {
      BodyKeepsOtherJob(z, i, w, u);
    } else {
      BodyTasks(z.s, PoolEvent(z.jobs[t], i, w).value);
      assert JobOk(z, t);
    }
  }

  lemma BodyKeepsJoinOk(z: Sys, i: nat, w: nat, u: nat)
    requires PoolMove(z, i, w) && u < |Jobs(z, TopJob(z, i))|
    ensures var z' := Do(z, Body(i, w, z.a)); |z'.jobs| == |z'.s.tasks| && JoinOk(z', u)
  {
    var t := TopJob(z, i);
    BodyJobsGoOn(z, i, w);
    if u == t {
      TopTask(z.s, i);
    } else if u < |z.jobs| && z.jobs[u].pc.Merging? {
      assert JobOk(z, t) && JobOk(z, u) && JoinOk(z, u);
      BodyKeepsJoin(z.s, PoolEvent(z.jobs[t], i, w).value, u, z.jobs[u].group);
    }
  }

  lemma BodyKeepsApart(z: Sys, i: nat, w: nat, u: nat, v: nat)
    requires PoolMove(z, i, w) && u < v < |Jobs(z, TopJob(z, i))|
    ensures Apart(Jobs(z, TopJob(z, i))[u], Jobs(z, TopJob(z, i))[v])
  {
    var t := TopJob(z, i);
    assert JobOk(z, t);
    if v < |z.jobs| {
      assert Apart(z.jobs[u], z.jobs[v]);
    } else if u < t {
      assert Apart(z.jobs[u], z.jobs[t]);
    } else if u > t {
      assert Apart(z.jobs[t], z.jobs[u]);
    }
  }

  lemma BodyKeepsJobs(z: Sys, i: nat, w: nat)
    requires PoolMove(z, i, w)
    ensures JobsOk(Do(z, Body(i, w, z.a)))
  {
    var z' := Do(z, Body(i, w, z.a));
    BodyKeepsJobOk(z, i, w, 0);
    forall u | 0 <= u < |z'.jobs| ensures JobOk(z', u) && JoinOk(z', u) {
      BodyKeepsJobOk(z, i, w, u);
      BodyKeepsJoinOk(z, i, w, u);
    }
    forall u, v | 0 <= u < v < |z'.jobs| ensures Apart(z'.jobs[u], z'.jobs[v]) {
      BodyKeepsApart(z, i, w, u, v);
    }
  }

  // ---------- A call writes the array ----------

  lemma SortedElsewhere(a: seq<real>, b: seq<real>, lo: nat, hi: nat, j: Job)
    requires Rearranged(a, b, lo, hi) && j.lo <= j.hi <= |a|
    requires (j.pc.Finished? || j.pc.Returned?) && !j.used && Sorted(a, j.lo, j.hi)
    requires forall p: nat :: InRegion(j, p) ==> !(lo <= p < hi)
    ensures Sorted(b, j.lo, j.hi)
  {
    forall p, q | j.lo <= p <= q < j.hi ensures b[p] <= b[q] {
      assert InRegion(j, p) && InRegion(j, q);
    }
  }

  lemma LeafKeepsJobs(z: Sys, i: nat, w: nat, b: seq<real>)
    requires Placed(z.s) && JobsOk(z) && Can(z, Body(i, w, b))
    requires z.jobs[TopJob(z, i)].pc.Begin? && z.jobs[TopJob(z, i)].hi - z.jobs[TopJob(z, i)].lo <= CUTOFF
    ensures JobsOk(Do(z, Body(i, w, b)))
  {
    var z', t := Do(z, Body(i, w, b)), TopJob(z, i);
    var j := z.jobs[t];
    TopTask(z.s, i);
    assert JobOk(z, t);
    forall u | 0 <= u < |z.jobs| ensures JobOk(z', u) && JoinOk(z', u) {
      assert JobOk(z, u) && JoinOk(z, u);
      if u != t {
        assert if u < t then Apart(z.jobs[u], j) else Apart(j, z.jobs[u]);
        assert forall p: nat :: InRegion(z.jobs[u], p) ==> !InRegion(j, p);
        if (z.jobs[u].pc.Finished? || z.jobs[u].pc.Returned?) && !z.jobs[u].used {
          SortedElsewhere(z.a, b, j.lo, j.hi, z.jobs[u]);
        }
        JobCarries(z, z', u);
      }
    }
    forall u, v | 0 <= u < v < |z.jobs| ensures Apart(z'.jobs[u], z'.jobs[v]) {
      assert Apart(z.jobs[u], z.jobs[v]);
    }
  }

  /** When a call merges, its two halves are finished, sorted and still its own. */
  lemma HalvesReady(z: Sys, i: nat)
    requires Placed(z.s) && JobsOk(z) && Running(z.s, i) && TopJob(z, i) < |z.jobs| && z.jobs[TopJob(z, i)].pc.Merging?
    ensures var t := TopJob(z, i);
            var j := z.jobs[t];
            && j.lo <= j.hi && JobOk(z, t)
            && z.jobs[j.left].pc.Returned? && !z.jobs[j.left].used && Sorted(z.a, j.lo, Mid(j))
            && z.jobs[j.right].pc.Returned? && !z.jobs[j.right].used && Sorted(z.a, Mid(j), j.hi)
  {
    var t := TopJob(z, i);
    var j := z.jobs[t];
    TopTask(z.s, i);
    assert JobOk(z, t) && JoinOk(z, t) && PlaceOk(z.s, t);
    assert GroupFinished(z.s, j.group);
    assert z.s.tasks[j.left].place.Done? && z.s.tasks[j.right].place.Done?;
    assert JobOk(z, j.left) && JobOk(z, j.right);
  }

  lemma MergeKeepsJob(z: Sys, i: nat, w: nat, b: seq<real>, u: nat)
    requires Placed(z.s) && JobsOk(z) && Can(z, Body(i, w, b)) && z.jobs[TopJob(z, i)].pc.Merging? && u < |z.jobs|
    ensures var z' := Do(z, Body(i, w, b)); |z'.jobs| == |z'.s.tasks| && JobOk(z', u) && JoinOk(z', u)
  {
    var z', t := Do(z, Body(i, w, b)), TopJob(z, i);
    var j := z.jobs[t];
    TopTask(z.s, i);
    HalvesReady(z, i);
    assert JobOk(z, u) && JoinOk(z, u);
    if u != t && u != j.left && u != j.right {
      MergedElsewhere(z, i, u);
      if (z.jobs[u].pc.Finished? || z.jobs[u].pc.Returned?) && !z.jobs[u].used {
        SortedElsewhere(z.a, b, j.lo, j.hi, z.jobs[u]);
      }
      JobCarries(z, z', u);
    }
  }

  lemma MergeKeepsJobs(z: Sys, i: nat, w: nat, b: seq<real>)
    requires Placed(z.s) && JobsOk(z) && Can(z, Body(i, w, b)) && z.jobs[TopJob(z, i)].pc.Merging?
    ensures JobsOk(Do(z, Body(i, w, b)))
  {
    var z', t := Do(z, Body(i, w, b)), TopJob(z, i);
    var j := z.jobs[t];
    HalvesReady(z, i);
    forall u | 0 <= u < |z.jobs| ensures JobOk(z', u) && JoinOk(z', u) {
      MergeKeepsJob(z, i, w, b, u);
    }
    forall u, v | 0 <= u < v < |z.jobs| ensures Apart(z'.jobs[u], z'.jobs[v]) {
      assert Apart(z.jobs[u], z.jobs[v]);
      if u == t && v != j.left && v != j.right { MergedElsewhere(z, i, v); }
      if v == t && u != j.left && u != j.right { MergedElsewhere(z, i, u); }
    }
  }

  lemma MergedElsewhere(z: Sys, i: nat, u: nat)
    requires Placed(z.s) && JobsOk(z) && Running(z.s, i) && TopJob(z, i) < |z.jobs| && z.jobs[TopJob(z, i)].pc.Merging?
    requires u < |z.jobs| && u != z.jobs[TopJob(z, i)].left && u != z.jobs[TopJob(z, i)].right
    ensures z.jobs[u].lo <= z.jobs[u].hi
    ensures forall p: nat :: InRegion(z.jobs[u], p) ==> !(z.jobs[TopJob(z, i)].lo <= p < z.jobs[TopJob(z, i)].hi)
  {
    var j := z.jobs[TopJob(z, i)];
    HalvesReady(z, i);
    assert JobOk(z, u) && JobOk(z, j.left) && JobOk(z, j.right);
    assert if u < j.left then Apart(z.jobs[u], z.jobs[j.left]) else Apart(z.jobs[j.left], z.jobs[u]);
    assert if u < j.right then Apart(z.jobs[u], z.jobs[j.right]) else Apart(z.jobs[j.right], z.jobs[u]);
    forall p: nat | InRegion(z.jobs[u], p) ensures !(j.lo <= p < j.hi) {
      assert !InRegion(z.jobs[j.left], p) && !InRegion(z.jobs[j.right], p);
    }
  }

  // ---------- Every run ----------

  lemma StepSortInv(z: Sys, input: seq<real>, m: Move)
    requires SortInv(z, input) && Can(z, m)
    ensures SortInv(Do(z, m), input)
  {
    match m
    case Schedule(e) =>
      StepInv(z.s, e);
      ScheduleKeepsJobs(z, e);
    case Body(i, w, b) =>
      var t := TopJob(z, i);
      var j := z.jobs[t];
      assert JobOk(z, t);
      if PoolEvent(j, i, w).Some? {
        StepInv(z.s, PoolEvent(j, i, w).value);
        BodyTasks(z.s, PoolEvent(j, i, w).value);
        BodyKeepsJobs(z, i, w);
      } else {
        RearrangedKeepsElements(z.a, b, j.lo, j.hi);
        if j.pc.Begin? { LeafKeepsJobs(z, i, w, b); } else { MergeKeepsJobs(z, i, w, b); }
      }
  }

  lemma {:induction false} RunSortInv(z: Sys, input: seq<real>, ms: seq<Move>)
    requires SortInv(z, input) && Possible(z, ms)
    ensures SortInv(After(z, ms), input)
    decreases |ms|
  {
    if ms != [] {
      StepSortInv(z, input, ms[0]);
      RunSortInv(Do(z, ms[0]), input, ms[1..]);
    }
  }

  ghost predicate Done(z: Sys) {
    |z.jobs| > 0 && (z.jobs[0].pc.Finished? || z.jobs[0].pc.Returned?)
  }

  /** Under every schedule, when main's call is over the array is sorted and holds the elements
      it held at the start. */
  lemma SortsUnderEverySchedule(workers: nat, input: seq<real>, ms: seq<Move>)
    requires workers > 0 && Possible(Init(workers, input), ms)
    ensures var z := After(Init(workers, input), ms);
            multiset(z.a) == multiset(input) && |z.a| == |input| && (Done(z) ==> Sorted(z.a, 0, |z.a|))
  {
    var z := After(Init(workers, input), ms);
    InitSortInv(workers, input);
    RunSortInv(Init(workers, input), input, ms);
    assert JobOk(z, 0);
    assert |multiset(z.a)| == |z.a| && |multiset(input)| == |input|;
  }

  // ---------- No two calls write the same place ----------

  /** Thread i is about to sort or merge [lo, hi). */
  ghost predicate AboutToWrite(z: Sys, i: nat) {
    && Running(z.s, i) && TopJob(z, i) < |z.jobs|
    && var j := z.jobs[TopJob(z, i)];
    j.pc.Merging? || (j.pc.Begin? && j.hi - j.lo <= CUTOFF)
  }

  lemma WritesApart(z: Sys, input: seq<real>, i: nat, k: nat, p: nat)
    requires SortInv(z, input) && AboutToWrite(z, i) && AboutToWrite(z, k) && i != k
    ensures !(z.jobs[TopJob(z, i)].lo <= p < z.jobs[TopJob(z, i)].hi &&
        z.jobs[TopJob(z, k)].lo <= p < z.jobs[TopJob(z, k)].hi)
  {
    var t, u := TopJob(z, i), TopJob(z, k);
    TopTask(z.s, i);
    TopTask(z.s, k);
    assert JobOk(z, t) && JobOk(z, u);
    if z.jobs[t].pc.Merging? {
      HalvesReady(z, i);
      if z.jobs[u].pc.Merging? {
        HalvesReady(z, k);
        MergedElsewhere(z, i, z.jobs[u].left);
        MergedElsewhere(z, i, z.jobs[u].right);
        assert z.jobs[z.jobs[u].left].parent == u && z.jobs[z.jobs[u].right].parent == u;
        assert InRegion(z.jobs[z.jobs[u].left], p) || InRegion(z.jobs[z.jobs[u].right], p) ||
            !(z.jobs[u].lo <= p < z.jobs[u].hi);
      } else {
        MergedElsewhere(z, i, u);
        assert InRegion(z.jobs[u], p) || !(z.jobs[u].lo <= p < z.jobs[u].hi);
      }
    } else if z.jobs[u].pc.Merging? {
      HalvesReady(z, k);
      MergedElsewhere(z, k, t);
      assert InRegion(z.jobs[t], p) || !(z.jobs[t].lo <= p < z.jobs[t].hi);
    } else {
      assert if t < u then Apart(z.jobs[t], z.jobs[u]) else Apart(z.jobs[u], z.jobs[t]);
      assert InRegion(z.jobs[t], p) || !(z.jobs[t].lo <= p < z.jobs[t].hi);
    }
  }

  /** Under every schedule, two threads about to sort or merge touch disjoint ranges. */
  lemma NoDataRace(workers: nat, input: seq<real>, ms: seq<Move>, i: nat, k: nat, p: nat)
    requires workers > 0 && Possible(Init(workers, input), ms)
    requires var z := After(Init(workers, input), ms);
             AboutToWrite(z, i) && AboutToWrite(z, k) && i != k
    ensures var z := After(Init(workers, input), ms);
            var j, l := z.jobs[TopJob(z, i)], z.jobs[TopJob(z, k)];
            !(j.lo <= p < j.hi && l.lo <= p < l.hi)
  {
    var z := After(Init(workers, input), ms);
    InitSortInv(workers, input);
    RunSortInv(Init(workers, input), input, ms);
    WritesApart(z, input, i, k, p);
  }

  // ---------- The recursion ends ----------

  /** How many statements a call on n elements executes, with all the calls it forks. */
  ghost function Cost(n: nat): nat {
    if n <= CUTOFF then 2 else 6 + Cost(n / 2) + Cost(n - n / 2)
  }

  ghost function Left(j: Job): nat {
    if j.lo > j.hi then 0 else
    var n := j.hi - j.lo;
    match j.pc
    case Begin => Cost(n)
    case ForkLeft => if n <= CUTOFF then 0 else Cost(n) - 1
    case ForkRight => 4 + Cost(n - n / 2)
    case Joining => 3
    case Merging => 2
    case Finished => 1
    case Returned => 0
  }

  ghost function TotalLeft(js: seq<Job>): nat {
    if js == [] then 0 else TotalLeft(js[..|js| - 1]) + Left(js[|js| - 1])
  }

  lemma {:induction false} TotalUpdate(js: seq<Job>, t: nat, j: Job)
    requires t < |js|
    ensures TotalLeft(js[t := j]) == TotalLeft(js) - Left(js[t]) + Left(j)
  {
    var n := |js| - 1;
    if t == n {
      assert js[t := j][..n] == js[..n];
    } else {
      assert js[t := j][..n] == js[..n][t := j];
      TotalUpdate(js[..n], t, j);
    }
  }

  lemma ForkCosts(js: seq<Job>, t: nat, j: Job, c: Job)
    requires t < |js| && Left(js[t]) == Left(j) + Left(c) + 1
    ensures TotalLeft(js[t := j] + [c]) == TotalLeft(js) - 1
  {
    TotalUpdate(js, t, j);
  }

  lemma MergeCosts(js: seq<Job>, t: nat, l: nat, r: nat)
    requires l < |js| && r < |js| && t < |js| && t != l && t != r
    requires js[l].pc.Returned? && js[r].pc.Returned? && js[t].pc.Merging? && js[t].lo <= js[t].hi
    ensures TotalLeft(js[l := js[l].(used := true)][r := js[r].(used := true)][t := js[t].(pc := Finished)]) ==
        TotalLeft(js) - 1
  {
    var js1 := js[l := js[l].(used := true)];
    TotalUpdate(js, l, js[l].(used := true));
    TotalUpdate(js1, r, js[r].(used := true));
    TotalUpdate(js1[r := js[r].(used := true)], t, js[t].(pc := Finished));
  }

  lemma JobCosts(z: Sys, t: nat)
    requires t < |z.jobs|
    requires var j := z.jobs[t];
             && j.lo <= j.hi && !j.pc.Returned? && (Forked(j.pc) ==> j.hi - j.lo > CUTOFF)
             && (j.pc.Merging? ==>
                   && j.left < |z.jobs| && j.right < |z.jobs| && t != j.left && t != j.right
                   && z.jobs[j.left].pc.Returned? && z.jobs[j.right].pc.Returned?)
    ensures TotalLeft(Jobs(z, t)) == TotalLeft(z.jobs) - 1
  {
    var j := z.jobs[t];
    if j.pc.ForkLeft? {
      ForkCosts(z.jobs, t, j.(pc := ForkRight, left := |z.jobs|), Fresh(j.lo, Mid(j), t));
    } else if j.pc.ForkRight? {
      ForkCosts(z.jobs, t, j.(pc := Joining, right := |z.jobs|), Fresh(Mid(j), j.hi, t));
    } else if j.pc.Merging? {
      MergeCosts(z.jobs, t, j.left, j.right);
    } else {
      OwnCosts(z, t);
    }
  }

  lemma OwnCosts(z: Sys, t: nat)
    requires t < |z.jobs|
    requires var j := z.jobs[t];
             j.lo <= j.hi && (j.pc.Begin? || j.pc.Joining? || j.pc.Finished?)
    ensures TotalLeft(Jobs(z, t)) == TotalLeft(z.jobs) - 1
  {
    TotalUpdate(z.jobs, t, Jobs(z, t)[t]);
    assert z.jobs[t := Jobs(z, t)[t]] == Jobs(z, t);
  }

  lemma BodyCosts(z: Sys, input: seq<real>, i: nat, w: nat, b: seq<real>)
    requires SortInv(z, input) && Can(z, Body(i, w, b))
    ensures TotalLeft(Do(z, Body(i, w, b)).jobs) == TotalLeft(z.jobs) - 1
  {
    assert JobOk(z, TopJob(z, i));
    if z.jobs[TopJob(z, i)].pc.Merging? { HalvesReady(z, i); }
    JobCosts(z, TopJob(z, i));
  }

  ghost function Statements(ms: seq<Move>): nat {
    if ms == [] then 0 else (if ms[0].Body? then 1 else 0) + Statements(ms[1..])
  }

  lemma {:induction false} RunCosts(z: Sys, input: seq<real>, ms: seq<Move>)
    requires SortInv(z, input) && Possible(z, ms)
    ensures Statements(ms) + TotalLeft(After(z, ms).jobs) == TotalLeft(z.jobs)
    decreases |ms|
  {
    if ms != [] {
      StepSortInv(z, input, ms[0]);
      if ms[0].Body? { BodyCosts(z, input, ms[0].i, ms[0].w, ms[0].b); }
      RunCosts(Do(z, ms[0]), input, ms[1..]);
    }
  }

  lemma InitCost(workers: nat, input: seq<real>)
    ensures TotalLeft(Init(workers, input).jobs) == Cost(|input|)
  {
    var first := Fresh(0, |input|, 0);
    assert [first][..0] == [];
  }

  /** The calls execute at most Cost(|input|) statements, whatever the schedule. */
  lemma RecursionEnds(workers: nat, input: seq<real>, ms: seq<Move>)
    requires workers > 0 && Possible(Init(workers, input), ms)
    ensures Statements(ms) <= Cost(|input|)
  {
    InitSortInv(workers, input);
    RunCosts(Init(workers, input), input, ms);
    InitCost(workers, input);
  }

  // ---------- Some thread can move until the array is sorted ----------

  ghost function Insert(x: real, a: seq<real>): seq<real> {
    if a == [] || x <= a[0] then [x] + a else [a[0]] + Insert(x, a[1..])
  }

  ghost function InsertionSort(a: seq<real>): seq<real> {
    if a == [] then [] else Insert(a[0], InsertionSort(a[1..]))
  }

  lemma {:induction false} InsertSorts(x: real, a: seq<real>)
    requires Sorted(a, 0, |a|)
    ensures Sorted(Insert(x, a), 0, |a| + 1) && |Insert(x, a)| == |a| + 1
    ensures multiset(Insert(x, a)) == multiset{x} + multiset(a)
  {
    if a != [] && !(x <= a[0]) {
      InsertSorts(x, a[1..]);
      var r := Insert(x, a[1..]);
      assert a == [a[0]] + a[1..];
      forall p | 0 <= p < |r| ensures a[0] <= r[p] {
        assert r[p] in multiset(r);
        assert r[p] == x || r[p] in a[1..];
      }
    }
  }

  lemma {:induction false} InsertionSortSorts(a: seq<real>)
    ensures Sorted(InsertionSort(a), 0, |a|) && |InsertionSort(a)| == |a|
    ensures multiset(InsertionSort(a)) == multiset(a)
  {
    if a != [] {
      InsertionSortSorts(a[1..]);
      InsertSorts(a[0], InsertionSort(a[1..]));
      assert a == [a[0]] + a[1..];
    }
  }

  lemma RangeCanBeSorted(a: seq<real>, lo: nat, hi: nat) returns (b: seq<real>)
    requires lo <= hi <= |a|
    ensures Rearranged(a, b, lo, hi) && Sorted(b, lo, hi)
  {
    var r := InsertionSort(a[lo..hi]);
    InsertionSortSorts(a[lo..hi]);
    b := a[..lo] + r + a[hi..];
    assert b[lo..hi] == r;
    forall p, q | lo <= p <= q < hi ensures b[p] <= b[q] {
      assert b[p] == r[p - lo] && b[q] == r[q - lo];
    }
  }

  lemma SomeMove(z: Sys, input: seq<real>, i: nat) returns (m: Move)
    requires SortInv(z, input) && CanStep(z.s, i)
    ensures Can(z, m) && !(m.Schedule? && m.e.Wake?)
  {
    CanStepIsEnabled(z.s, i);
    if Top(z.s, i).Run? {
      var t := TopJob(z, i);
      TopTask(z.s, i);
      assert JobOk(z, t) && PlaceOk(z.s, t);
      var j := z.jobs[t];
      var b := z.a;
      if j.pc.Merging? || (j.pc.Begin? && j.hi - j.lo <= CUTOFF) { b := RangeCanBeSorted(z.a, j.lo, j.hi); }
      var w := 0;
      if z.s.pool.sleepers != {} { w :| w in z.s.pool.sleepers; }
      m := Body(i, w, b);
    } else {
      m := Schedule(Check(i));
    }
  }

  /** Until main's call has returned, with the array sorted, some thread can move. */
  lemma SortNeverStalls(workers: nat, input: seq<real>, ms: seq<Move>)
    requires workers > 0 && Possible(Init(workers, input), ms)
    ensures var z := After(Init(workers, input), ms);
            || (exists m: Move :: Can(z, m) && !(m.Schedule? && m.e.Wake?))
            || (Done(z) && Sorted(z.a, 0, |z.a|))
  {
    var z := After(Init(workers, input), ms);
    InitSortInv(workers, input);
    RunSortInv(Init(workers, input), input, ms);
    if Stuck(z.s) {
      OrderedMeansNoTrap(z.s);
      StuckMeansIdle(z.s);
      assert JobOk(z, 0);
    } else {
      var i :| 0 <= i < |z.s.stacks| && CanStep(z.s, i);
      var m := SomeMove(z, input, i);
    }
  }
}
