/** Every interleaving of the pool's workers, of the threads that borrow themselves to it by
    joining, and of the functions they run (fork_join.cpp). */
module ForkJoinSystem {
  import opened Common
  import opened ForkJoinPool

  /** What a thread is inside of: the worker's loop, a function body, fork_executor::join, or
      the destructor's wait for the workers. */
  datatype Frame = Loop | Run(task: nat) | Join(group: nat) | Await

  datatype Place = Queued | On(thread: nat, depth: nat) | Done

  /** A function. Those without a group are the bodies of threads outside the pool. */
  datatype Task = Task(group: Option<nat>, place: Place, runs: nat, started: nat)

  /** Threads below `pool.threadCount` are the workers. `owner[g]` is the function that created
      executor group g; `clock` stamps the start of each function. */
  datatype State = State(pool: Pool, stacks: seq<seq<Frame>>, tasks: seq<Task>,
                         owner: seq<nat>, stopped: bool, clock: nat)

  datatype Event =
    | NewExecutor(i: nat)
    | Submit(i: nat, g: nat, w: nat)
    | BeginJoin(i: nat, g: nat)
    | Return(i: nat)
    | Check(i: nat)
    | Wake(i: nat)
    | Stop(i: nat)

  // ---------- Steps ----------

  ghost function Init(workers: nat, outside: nat): State {
    State(Pool(workers, [], 1, [], {}),
          seq(workers + outside, i requires 0 <= i < workers + outside =>
                if i < workers then [Loop] else [Run(i - workers)]),
          seq(outside, k requires 0 <= k < outside => Task(None, On(workers + k, 0), 1, k)),
          [], false, outside)
  }

  ghost predicate Live(s: State, i: nat) {
    i < |s.stacks| && s.stacks[i] != []
  }

  ghost function Top(s: State, i: nat): Frame
    requires Live(s, i)
  {
    s.stacks[i][|s.stacks[i]| - 1]
  }

  ghost predicate Running(s: State, i: nat) {
    Live(s, i) && Top(s, i).Run? && Top(s, i).task < |s.tasks|
  }

  ghost predicate WorkersGone(s: State) {
    forall j | 0 <= j < |s.stacks| && j < s.pool.threadCount :: s.stacks[j] == []
  }

  /** After stop_threads only functions that run in the pool submit more work. */
  ghost predicate Enabled(s: State, e: Event) {
    && |s.owner| == |s.pool.workCount|
    && match e
       case NewExecutor(i) => Running(s, i)
       case Submit(i, g, w) =>
         && Running(s, i) && g < |s.pool.workCount| && MayWake(s.pool, w)
         && (s.stopped ==> s.tasks[Top(s, i).task].group.Some?)
       case BeginJoin(i, g) => Running(s, i) && g < |s.pool.workCount|
       case Return(i) => Running(s, i) && GroupKnown(s, Top(s, i).task)
       case Check(i) =>
         && Live(s, i) && !Top(s, i).Run? && i !in s.pool.sleepers
         && (Top(s, i).Join? ==> Top(s, i).group < |s.pool.workCount|)
         && (Top(s, i).Await? ==> WorkersGone(s))
         && (s.pool.queue != [] ==> s.pool.queue[0] < |s.tasks|)
       case Wake(i) => i in s.pool.sleepers
       case Stop(i) => Running(s, i) && s.tasks[Top(s, i).task].group.None? && !s.stopped
  }

  ghost predicate GroupKnown(s: State, t: nat) {
    t < |s.tasks| && (s.tasks[t].group.Some? ==> s.tasks[t].group.value < |s.pool.workCount|)
  }

  ghost function Push(s: State, i: nat, f: Frame): State
    requires i < |s.stacks|
  {
    s.(stacks := s.stacks[i := s.stacks[i] + [f]])
  }

  ghost function Pop(s: State, i: nat): State
    requires Live(s, i)
  {
    s.(stacks := s.stacks[i := s.stacks[i][..|s.stacks[i]| - 1]])
  }

  ghost function Start(s: State, i: nat, t: nat): State
    requires i < |s.stacks| && t < |s.tasks|
  {
    var task := s.tasks[t].(place := On(i, |s.stacks[i]|), runs := s.tasks[t].runs + 1, started := s.clock);
    Push(s, i, Run(t)).(tasks := s.tasks[t := task], clock := s.clock + 1)
  }

  /** The body of a function is over: its group is told, under the mutex. */
  ghost function Finish(s: State, i: nat): State
    requires Running(s, i) && GroupKnown(s, Top(s, i).task)
  {
    var t := Top(s, i).task;
    var q := if s.tasks[t].group.Some? then WorkFinished(s.pool, s.tasks[t].group.value) else s.pool;
    Pop(s, i).(tasks := s.tasks[t := s.tasks[t].(place := Done)], pool := q)
  }

  /** `if (!execute_next(lock)) condition_.wait(lock)`. */
  ghost function Help(s: State, i: nat): State
    requires i < |s.stacks| && (s.pool.queue != [] ==> s.pool.queue[0] < |s.tasks|)
  {
    if s.pool.queue == [] then s.(pool := s.pool.(sleepers := s.pool.sleepers + {i}))
    else Start(s.(pool := Taken(s.pool)), i, s.pool.queue[0])
  }

  ghost function NewTask(s: State, g: nat, w: nat): State
    requires g < |s.pool.workCount|
  {
    s.(pool := Submitted(s.pool, |s.tasks|, g, w), tasks := s.tasks + [Task(Some(g), Queued, 0, 0)])
  }

  ghost function Step(s: State, e: Event): State
    requires Enabled(s, e)
  {
    match e
    case NewExecutor(i) => s.(pool := AddGroup(s.pool), owner := s.owner + [Top(s, i).task])
    case Submit(i, g, w) =>
      var s1 := NewTask(s, g, w);
      if Overloaded(s.pool) then Start(s1, i, |s.tasks|) else s1
    case BeginJoin(i, g) => Push(s, i, Join(g))
    case Return(i) => Finish(s, i)
    case Check(i) => (
      match Top(s, i)
      case Loop => if s.pool.useCount > 0 then Help(s, i) else Pop(s, i)
      case Join(g) => if s.pool.workCount[g] > 0 then Help(s, i) else Pop(s, i)
      case Await => Pop(s, i))
    case Wake(i) => s.(pool := s.pool.(sleepers := s.pool.sleepers - {i}))
    case Stop(i) => Push(s.(pool := ThreadsStopped(s.pool), stopped := true), i, Await)
  }

  ghost predicate Possible(s: State, es: seq<Event>)
    decreases |es|
  {
    es == [] || (Enabled(s, es[0]) && Possible(Step(s, es[0]), es[1..]))
  }

  ghost function After(s: State, es: seq<Event>): State
    requires Possible(s, es)
    decreases |es|
  {
    if es == [] then s else After(Step(s, es[0]), es[1..])
  }

  // ---------- Where every function is ----------

  ghost predicate FrameOk(s: State, i: nat, k: nat)
    requires i < |s.stacks| && k < |s.stacks[i]|
  {
    match s.stacks[i][k]
    case Loop => k == 0 && i < s.pool.threadCount
    case Run(t) =>
      && t < |s.tasks| && s.tasks[t].place == On(i, k)
      && (s.tasks[t].group.None? <==> k == 0)
      && (k == 0 ==> i >= s.pool.threadCount)
    case Join(g) => k > 0 && s.stacks[i][k - 1].Run? && g < |s.pool.workCount|
    case Await => k == 1 && |s.stacks[i]| == 2 && s.stacks[i][0].Run? && s.stopped
  }

  ghost predicate Frames(s: State) {
    forall i, k | 0 <= i < |s.stacks| && 0 <= k < |s.stacks[i]| :: FrameOk(s, i, k)
  }

  ghost predicate PlaceOk(s: State, t: nat)
    requires t < |s.tasks|
  {
    && GroupKnown(s, t)
    && match s.tasks[t].place
       case Queued => t in s.pool.queue && s.tasks[t].group.Some? && s.tasks[t].runs == 0
       case On(i, k) => t !in s.pool.queue && i < |s.stacks| && k < |s.stacks[i]| && s.stacks[i][k] == Run(t) &&
           s.tasks[t].runs == 1
       case Done => t !in s.pool.queue && s.tasks[t].runs == 1
  }

  ghost predicate Places(s: State) {
    forall t | 0 <= t < |s.tasks| :: PlaceOk(s, t)
  }

  /** FIFO: functions are numbered in the order of submission. */
  ghost predicate QueueOk(s: State) {
    && (forall a | 0 <= a < |s.pool.queue| :: s.pool.queue[a] < |s.tasks|)
    && (forall a, b | 0 <= a < b < |s.pool.queue| :: s.pool.queue[a] < s.pool.queue[b])
    && |s.pool.queue| <= s.pool.threadCount * 16 + 1
  }

  // ---------- Accounting ----------

  /** Functions of group g that are queued or executing. */
  ghost function Pending(s: State, g: nat): set<nat> {
    set t: nat | t < |s.tasks| && s.tasks[t].group == Some(g) && !s.tasks[t].place.Done?
  }

  ghost function Busy(p: Pool): set<nat> {
    set g: nat | g < |p.workCount| && p.workCount[g] != 0
  }

  ghost predicate Accounting(s: State) {
    && |s.owner| == |s.pool.workCount|
    && (forall g | 0 <= g < |s.pool.workCount| :: s.pool.workCount[g] == |Pending(s, g)|)
    && s.pool.useCount == (if s.stopped then 0 else 1) + |Busy(s.pool)|
  }

  ghost predicate Placed(s: State) {
    Frames(s) && Places(s) && QueueOk(s)
  }

  // ---------- Initial state ----------

  lemma InitPlaced(workers: nat, outside: nat)
    ensures Placed(Init(workers, outside)) && Accounting(Init(workers, outside))
  {
    assert Busy(Init(workers, outside).pool) == {};
  }

  // ---------- Steps keep every function in its place ----------

  lemma PushPlaced(s: State, i: nat, f: Frame)
    requires Placed(s) && Running(s, i)
    requires (f.Join? && f.group < |s.pool.workCount|) || (f.Await? && s.stopped && |s.stacks[i]| == 1)
    ensures Placed(Push(s, i, f))
  {
    var s' := Push(s, i, f);
    forall j, k | 0 <= j < |s'.stacks| && 0 <= k < |s'.stacks[j]| ensures FrameOk(s', j, k) {
      if !(j == i && k == |s.stacks[i]|) { assert FrameOk(s, j, k); }
    }
    forall t | 0 <= t < |s'.tasks| ensures PlaceOk(s', t) { assert PlaceOk(s, t); }
  }

  lemma PopPlaced(s: State, i: nat)
    requires Placed(s) && Live(s, i) && !Top(s, i).Run?
    ensures Placed(Pop(s, i))
  {
    var s' := Pop(s, i);
    forall j, k | 0 <= j < |s'.stacks| && 0 <= k < |s'.stacks[j]| ensures FrameOk(s', j, k) {
      assert FrameOk(s, j, k);
    }
    forall t | 0 <= t < |s'.tasks| ensures PlaceOk(s', t) { assert PlaceOk(s, t); }
  }

  lemma StartPlaced(s: State, i: nat, t: nat)
    requires Frames(s) && QueueOk(s) && Live(s, i) && !Top(s, i).Await? && t < |s.tasks|
    requires forall u | 0 <= u < |s.tasks| && u != t :: PlaceOk(s, u)
    requires GroupKnown(s, t) && s.tasks[t].place.Queued? && s.tasks[t].group.Some? && s.tasks[t].runs == 0
    requires t !in s.pool.queue
    ensures Placed(Start(s, i, t))
  {
    var s' := Start(s, i, t);
    forall j, k | 0 <= j < |s'.stacks| && 0 <= k < |s'.stacks[j]| ensures FrameOk(s', j, k) {
      if !(j == i && k == |s.stacks[i]|) { assert FrameOk(s, j, k); }
    }
    forall u | 0 <= u < |s'.tasks| ensures PlaceOk(s', u) {
      if u != t { assert PlaceOk(s, u); }
    }
  }

  lemma FinishPlaced(s: State, i: nat)
    requires Placed(s) && Running(s, i) && GroupKnown(s, Top(s, i).task)
    ensures Placed(Finish(s, i))
  {
    var s' := Finish(s, i);
    var t, d := Top(s, i).task, |s.stacks[i]| - 1;
    assert FrameOk(s, i, d) && PlaceOk(s, t);
    forall j, k | 0 <= j < |s'.stacks| && 0 <= k < |s'.stacks[j]| ensures FrameOk(s', j, k) {
      assert FrameOk(s, j, k);
    }
    forall u | 0 <= u < |s'.tasks| ensures PlaceOk(s', u) { assert PlaceOk(s, u); }
  }

  lemma HelpPlaced(s: State, i: nat)
    requires Placed(s) && Live(s, i) && !Top(s, i).Await?
    ensures s.pool.queue != [] ==> s.pool.queue[0] < |s.tasks|
    ensures Placed(Help(s, i))
  {
    if s.pool.queue == [] {
      var s' := Help(s, i);
      forall j, k | 0 <= j < |s'.stacks| && 0 <= k < |s'.stacks[j]| ensures FrameOk(s', j, k) {
        assert FrameOk(s, j, k);
      }
      forall u | 0 <= u < |s'.tasks| ensures PlaceOk(s', u) { assert PlaceOk(s, u); }
    } else {
      var t, s1 := s.pool.queue[0], s.(pool := Taken(s.pool));
      assert PlaceOk(s, t);
      forall j, k | 0 <= j < |s1.stacks| && 0 <= k < |s1.stacks[j]| ensures FrameOk(s1, j, k) {
        assert FrameOk(s, j, k);
      }
      forall u | 0 <= u < |s.tasks| && u != t ensures PlaceOk(s1, u) {
        assert PlaceOk(s, u);
        assert u in s.pool.queue ==> u in s1.pool.queue;
      }
      StartPlaced(s1, i, t);
    }
  }

  lemma SubmitPlaced(s: State, i: nat, g: nat, w: nat)
    requires Placed(s) && Enabled(s, Submit(i, g, w))
    ensures Placed(Step(s, Submit(i, g, w)))
  {
    var t, s1 := |s.tasks|, NewTask(s, g, w);
    forall j, k | 0 <= j < |s1.stacks| && 0 <= k < |s1.stacks[j]| ensures FrameOk(s1, j, k) { assert FrameOk(s, j, k); }
    forall u | 0 <= u < |s.tasks| ensures PlaceOk(s1, u) { assert PlaceOk(s, u); }
    if Overloaded(s.pool) {
      StartPlaced(s1, i, t);
    } else {
      assert s1.pool.queue == s.pool.queue + [t];
      assert s1.pool.queue[|s.pool.queue|] == t;
    }
  }

  lemma StepPlaced(s: State, e: Event)
    requires Placed(s) && Enabled(s, e)
    ensures Placed(Step(s, e))
  {
    var s' := Step(s, e);
    match e
    case Submit(i, g, w) => SubmitPlaced(s, i, g, w);
    case BeginJoin(i, g) => PushPlaced(s, i, Join(g));
    case Return(i) => FinishPlaced(s, i);
    case Check(i) =>
      if !Top(s, i).Await? { HelpPlaced(s, i); }
      PopPlaced(s, i);
    case Stop(i) =>
      var s1 := s.(pool := ThreadsStopped(s.pool), stopped := true);
      forall j, k | 0 <= j < |s1.stacks| && 0 <= k < |s1.stacks[j]| ensures FrameOk(s1, j, k) {
        assert FrameOk(s, j, k);
      }
      forall u | 0 <= u < |s1.tasks| ensures PlaceOk(s1, u) { assert PlaceOk(s, u); }
      assert FrameOk(s, i, |s.stacks[i]| - 1);
      PushPlaced(s1, i, Await);
    case _ =>
      forall j, k | 0 <= j < |s'.stacks| && 0 <= k < |s'.stacks[j]| ensures FrameOk(s', j, k) {
        assert FrameOk(s, j, k);
      }
      forall u | 0 <= u < |s'.tasks| ensures PlaceOk(s', u) { assert PlaceOk(s, u); }
  }

  // ---------- Steps keep the books ----------

  lemma SamePending(s: State, s': State)
    requires Accounting(s) && s'.pool.workCount == s.pool.workCount && s'.owner == s.owner
    requires s'.pool.useCount == s.pool.useCount && s'.stopped == s.stopped
    requires |s'.tasks| == |s.tasks|
    requires forall t | 0 <= t < |s.tasks| ::
               s'.tasks[t].group == s.tasks[t].group && s'.tasks[t].place.Done? == s.tasks[t].place.Done?
    ensures Accounting(s')
  {
    assert Busy(s'.pool) == Busy(s.pool);
    forall g | 0 <= g < |s.pool.workCount| ensures Pending(s', g) == Pending(s, g) {}
  }

  lemma WorkStartedBusy(p: Pool, g: nat)
    requires g < |p.workCount| && p.workCount[g] >= 0
    ensures Busy(WorkStarted(p, g)) == Busy(p) + {g}
    ensures WorkStarted(p, g).useCount - p.useCount == |Busy(WorkStarted(p, g))| - |Busy(p)|
  {
    assert Busy(WorkStarted(p, g)) == Busy(p) + {g};
    assert g in Busy(p) <==> p.workCount[g] > 0;
    if g in Busy(p) { assert Busy(p) + {g} == Busy(p); }
  }

  lemma WorkFinishedBusy(p: Pool, g: nat)
    requires g < |p.workCount| && p.workCount[g] > 0
    ensures WorkFinished(p, g).useCount - p.useCount == |Busy(WorkFinished(p, g))| - |Busy(p)|
  {
    assert g in Busy(p);
    assert Busy(WorkFinished(p, g)) == if p.workCount[g] == 1 then Busy(p) - {g} else Busy(p);
  }

  lemma NewTaskPending(s: State, g: nat, w: nat, h: nat)
    requires g < |s.pool.workCount|
    ensures |Pending(NewTask(s, g, w), h)| == |Pending(s, h)| + if h == g then 1 else 0
  {
    assert Pending(NewTask(s, g, w), h) == Pending(s, h) + (if h == g then {|s.tasks|} else {});
  }

  lemma NewTaskAccounting(s: State, g: nat, w: nat)
    requires Accounting(s) && g < |s.pool.workCount|
    ensures Accounting(NewTask(s, g, w))
  {
    var s' := NewTask(s, g, w);
    var p := WorkStarted(s.pool, g);
    WorkStartedBusy(s.pool, g);
    assert s'.pool.workCount == p.workCount && s'.pool.useCount == p.useCount;
    assert Busy(s'.pool) == Busy(p);
    forall h | 0 <= h < |s.pool.workCount| ensures s'.pool.workCount[h] == |Pending(s', h)| {
      NewTaskPending(s, g, w, h);
    }
  }

  lemma FinishAccounting(s: State, i: nat)
    requires Placed(s) && Accounting(s) && Running(s, i) && GroupKnown(s, Top(s, i).task)
    ensures Accounting(Finish(s, i))
    ensures s.tasks[Top(s, i).task].group.Some? ==>
              s.pool.useCount > 0 && s.pool.workCount[s.tasks[Top(s, i).task].group.value] > 0
  {
    var s', t := Finish(s, i), Top(s, i).task;
    assert FrameOk(s, i, |s.stacks[i]| - 1);
    if s.tasks[t].group.Some? {
      assert t in Pending(s, s.tasks[t].group.value);
      WorkFinishedBusy(s.pool, s.tasks[t].group.value);
      assert s.tasks[t].group.value in Busy(s.pool);
    } else {
      assert Busy(s'.pool) == Busy(s.pool);
    }
    forall h | 0 <= h < |s.pool.workCount| ensures s'.pool.workCount[h] == |Pending(s', h)| {
      FinishPending(s, i, h);
    }
  }

  lemma FinishPending(s: State, i: nat, h: nat)
    requires Placed(s) && Running(s, i) && GroupKnown(s, Top(s, i).task)
    ensures |Pending(Finish(s, i), h)| == |Pending(s, h)| - if s.tasks[Top(s, i).task].group == Some(h) then 1 else 0
  {
    var t := Top(s, i).task;
    assert FrameOk(s, i, |s.stacks[i]| - 1);
    assert s.tasks[t].group == Some(h) ==> t in Pending(s, h);
    assert Pending(Finish(s, i), h) == Pending(s, h) - (if s.tasks[t].group == Some(h) then {t} else {});
  }

  lemma NewExecutorAccounting(s: State, i: nat)
    requires Placed(s) && Accounting(s) && Enabled(s, NewExecutor(i))
    ensures Accounting(Step(s, NewExecutor(i)))
  {
    var s' := Step(s, NewExecutor(i));
    assert Busy(s'.pool) == Busy(s.pool);
    forall g | 0 <= g < |s.pool.workCount| ensures Pending(s', g) == Pending(s, g) {}
    forall t | 0 <= t < |s.tasks| ensures t !in Pending(s', |s.owner|) { assert PlaceOk(s, t); }
    assert Pending(s', |s.owner|) == {};
  }

  lemma StepAccounting(s: State, e: Event)
    requires Placed(s) && Accounting(s) && Enabled(s, e)
    ensures Accounting(Step(s, e))
  {
    match e
    case NewExecutor(i) => NewExecutorAccounting(s, i);
    case Submit(i, g, w) =>
      NewTaskAccounting(s, g, w);
      var s1 := NewTask(s, g, w);
      if Overloaded(s.pool) { SamePending(s1, Start(s1, i, |s.tasks|)); }
    case Return(i) => FinishAccounting(s, i);
    case Stop(i) =>
      var s' := Step(s, e);
      assert Busy(s'.pool) == Busy(s.pool);
      forall g | 0 <= g < |s.pool.workCount| ensures Pending(s', g) == Pending(s, g) {}
    case BeginJoin(_, _) => SamePending(s, Step(s, e));
    case Wake(_) => SamePending(s, Step(s, e));
    case Check(i) =>
      if s.pool.queue != [] { assert PlaceOk(s, s.pool.queue[0]); }
      SamePending(s, Step(s, e));
  }

  // ---------- How one step changes the functions and the stacks ----------

  /** A function stays as it is, is started, or is finished. */
  ghost predicate TaskEvolves(s: State, s': State, t: nat)
    requires t < |s.tasks| && t < |s'.tasks|
  {
    var before, now := s.tasks[t], s'.tasks[t];
    || now == before
    || (before.place.Queued? && now.place.On? && now.group == before.group && now.started == s.clock < s'.clock)
    || (!before.place.Queued? && now == before.(place := Done))
  }

  ghost predicate IsNewTask(s: State, s': State, t: nat)
    requires t < |s'.tasks|
  {
    var now := s'.tasks[t];
    && now.group.Some? && now.group.value < |s.owner|
    && (now.place.Queued? || (now.place.On? && now.started == s.clock < s'.clock))
  }

  /** A stack stays as it is, or its top frame is pushed or popped. */
  ghost predicate StackEvolves(s: State, s': State, i: nat)
    requires i < |s.stacks| && i < |s'.stacks|
  {
    var before, now := s.stacks[i], s'.stacks[i];
    || now == before
    || (|now| == |before| + 1 && now[..|before|] == before
        && (now[|before|].Run? ==> now[|before|].task < |s'.tasks| && s'.tasks[now[|before|].task].started == s.clock))
    || (|now| == |before| - 1 && now == before[..|now|])
  }

  ghost predicate Evolves(s: State, s': State) {
    && |s.tasks| <= |s'.tasks| && s.clock <= s'.clock && |s'.stacks| == |s.stacks|
    && (forall t | 0 <= t < |s.tasks| :: TaskEvolves(s, s', t))
    && (forall t | |s.tasks| <= t < |s'.tasks| :: IsNewTask(s, s', t))
    && (forall i | 0 <= i < |s.stacks| :: StackEvolves(s, s', i))
    && |s.owner| <= |s'.owner| && s'.owner[..|s.owner|] == s.owner
  }

  lemma StepTasksEvolve(s: State, e: Event, t: nat)
    requires Placed(s) && Accounting(s) && Enabled(s, e) && t < |Step(s, e).tasks|
    ensures if t < |s.tasks| then TaskEvolves(s, Step(s, e), t) else IsNewTask(s, Step(s, e), t)
  {
    if s.pool.queue != [] { assert PlaceOk(s, s.pool.queue[0]); }
    if e.Return? { assert FrameOk(s, e.i, |s.stacks[e.i]| - 1); }
  }

  lemma StepEvolves(s: State, e: Event)
    requires Placed(s) && Accounting(s) && Enabled(s, e)
    ensures Evolves(s, Step(s, e))
  {
    var s' := Step(s, e);
    forall t | 0 <= t < |s'.tasks| ensures if t < |s.tasks| then TaskEvolves(s, s', t) else IsNewTask(s, s', t) {
      StepTasksEvolve(s, e, t);
    }
    forall i | 0 <= i < |s.stacks| ensures |s'.stacks| == |s.stacks| && StackEvolves(s, s', i) {
    }
  }

  // ---------- Every run ----------

  lemma {:induction false} RunKeepsBooks(s: State, es: seq<Event>)
    requires Placed(s) && Accounting(s) && Possible(s, es)
    ensures Placed(After(s, es)) && Accounting(After(s, es))
    decreases |es|
  {
    if es != [] {
      StepPlaced(s, es[0]);
      StepAccounting(s, es[0]);
      RunKeepsBooks(Step(s, es[0]), es[1..]);
    }
  }

  /** In every run: each work counter is the number of its functions that are queued or
      executing; the use count is one, until the pool is stopped, plus the number of busy
      groups; the queue is bounded; and a function has run at most once, and exactly once if it
      is finished. */
  lemma PoolAccounting(workers: nat, outside: nat, es: seq<Event>)
    requires Possible(Init(workers, outside), es)
    ensures var s := After(Init(workers, outside), es);
            && (forall g | 0 <= g < |s.pool.workCount| :: s.pool.workCount[g] == |Pending(s, g)|)
            && s.pool.useCount == (if s.stopped then 0 else 1) + |Busy(s.pool)|
            && |s.pool.queue| <= 16 * workers + 1
            && (forall t | 0 <= t < |s.tasks| ::
                  && s.tasks[t].runs == (if s.tasks[t].place.Queued? then 0 else 1)
                  && (s.tasks[t].place.Queued? <==> t in s.pool.queue)
                  && (s.tasks[t].place.On? <==>
                        exists i, k | 0 <= i < |s.stacks| && 0 <= k < |s.stacks[i]| :: s.stacks[i][k] == Run(t)))
  {
    var s := After(Init(workers, outside), es);
    InitPlaced(workers, outside);
    RunKeepsBooks(Init(workers, outside), es);
    SameThreads(Init(workers, outside), es);
    forall t | 0 <= t < |s.tasks|
      ensures s.tasks[t].runs == (if s.tasks[t].place.Queued? then 0 else 1)
      ensures s.tasks[t].place.Queued? <==> t in s.pool.queue
      ensures s.tasks[t].place.On? <==>
              exists i, k | 0 <= i < |s.stacks| && 0 <= k < |s.stacks[i]| :: s.stacks[i][k] == Run(t)
    {
      assert PlaceOk(s, t);
      if i, k :| 0 <= i < |s.stacks| && 0 <= k < |s.stacks[i]| && s.stacks[i][k] == Run(t) { assert FrameOk(s, i, k); }
    }
  }

  lemma {:induction false} SameThreads(s: State, es: seq<Event>)
    requires Possible(s, es)
    ensures After(s, es).pool.threadCount == s.pool.threadCount
    decreases |es|
  {
    if es != [] { SameThreads(Step(s, es[0]), es[1..]); }
  }

  // ---------- When a function is run inline, and which one is taken next ----------

  /** A function that is submitted is run by the submitting thread itself if and only if the queue
      holds 16 functions per thread and one more; otherwise it is queued last. */
  lemma InlineExactlyWhenFull(workers: nat, outside: nat, es: seq<Event>, s: State, i: nat, g: nat, w: nat)
    requires Possible(Init(workers, outside), es) && s == After(Init(workers, outside), es)
    requires Enabled(s, Submit(i, g, w))
    ensures var s', t := Step(s, Submit(i, g, w)), |s.tasks|;
            && |s'.tasks| == t + 1 && s'.tasks[t].group == Some(g)
            && if |s.pool.queue| == 16 * workers + 1
               then s'.tasks[t].place == On(i, |s.stacks[i]|) && s'.pool.queue == s.pool.queue
               else s'.tasks[t].place.Queued? && s'.pool.queue == s.pool.queue + [t]
  {
    InitPlaced(workers, outside);
    RunKeepsBooks(Init(workers, outside), es);
    SameThreads(Init(workers, outside), es);
  }

  /** First in, first out: what a thread takes from the queue was submitted before everything that
      stays in it. */
  lemma TakenInOrder(workers: nat, outside: nat, es: seq<Event>, s: State, i: nat, t: nat, u: nat)
    requires Possible(Init(workers, outside), es) && s == After(Init(workers, outside), es)
    requires Enabled(s, Check(i)) && t < |s.tasks| && u < |s.tasks|
    requires s.tasks[t].place.Queued? && Step(s, Check(i)).tasks[t].place.On?
    requires Step(s, Check(i)).tasks[u].place.Queued?
    ensures t < u
  {
    InitPlaced(workers, outside);
    RunKeepsBooks(Init(workers, outside), es);
    assert PlaceOk(s, t) && PlaceOk(s, u);
    if s.pool.queue != [] { assert PlaceOk(s, s.pool.queue[0]); }
  }

  // ---------- The bound on the queue is met ----------

  /** One thread outside the pool submits while the workers have not yet looked at the queue. */
  ghost predicate Loading(s: State, i: nat, k: nat) {
    && Running(s, i) && |s.owner| == |s.pool.workCount| == 1 && !s.stopped
    && s.pool.sleepers == {} && |s.pool.queue| == k
  }

  lemma LoadOne(s: State, i: nat, k: nat)
    requires Loading(s, i, k) && k <= 16 * s.pool.threadCount
    ensures Enabled(s, Submit(i, 0, 0))
    ensures var s' := Step(s, Submit(i, 0, 0)); Loading(s', i, k + 1) && s'.pool.threadCount == s.pool.threadCount
  {
  }

  lemma {:induction false} Load(s: State, i: nat, k: nat, more: nat) returns (es: seq<Event>)
    requires Loading(s, i, k) && k + more <= 16 * s.pool.threadCount + 1
    ensures Possible(s, es) && |After(s, es).pool.queue| == k + more
    decreases more
  {
    es := [];
    if more > 0 {
      LoadOne(s, i, k);
      var rest := Load(Step(s, Submit(i, 0, 0)), i, k + 1, more - 1);
      es := [Submit(i, 0, 0)] + rest;
      assert es[1..] == rest;
    }
  }

  /** The bound on the queue is met exactly, for every number of workers. */
  lemma QueueBoundAttained(workers: nat)
    ensures exists es :: Possible(Init(workers, 1), es) && |After(Init(workers, 1), es).pool.queue| == 16 * workers + 1
  {
    var s := Init(workers, 1);
    var e := NewExecutor(workers);
    assert Running(s, workers);
    var rest := Load(Step(s, e), workers, 0, 16 * workers + 1);
    var es := [e] + rest;
    assert es[1..] == rest;
    assert Possible(s, es);
  }
}
