/** pipeline.cpp: every run ends. */
module PipelineEnds {
  import opened StagePipeline
  import opened Sums

  /** Steps that a line in queue k still causes: a pop, and for each line made of it a push, at
      most one wake-up and whatever that line causes further on. */
  ghost function LineCost(fs: seq<string -> seq<string>>, k: nat, line: string): nat
    decreases |fs| - k, 1, 0
  {
    if k >= |fs| then 1 else 1 + PushCost(fs, k + 1, fs[k](line))
  }

  /** Steps that lines not yet pushed to queue k will cause. */
  ghost function PushCost(fs: seq<string -> seq<string>>, k: nat, lines: seq<string>): nat
    decreases |fs| - k, 2, |lines|
  {
    if lines == [] then 0 else 2 + LineCost(fs, k, lines[0]) + PushCost(fs, k, lines[1..])
  }

  ghost function QueueCost(fs: seq<string -> seq<string>>, k: nat, lines: seq<string>): nat
    decreases |lines|
  {
    if lines == [] then 0 else LineCost(fs, k, lines[0]) + QueueCost(fs, k, lines[1..])
  }

  ghost function StageCost(v: System, k: nat): nat
    requires Shaped(v) && k <= |v.fs|
  {
    match v.stages[k]
    case Popping => if v.queues[k].waiting then 3 else 4
    case Pushing(left) => 4 + PushCost(v.fs, k + 1, left)
    case Stopping => 2
    case Done => 0
  }

  ghost function CostAt(v: System, k: nat): int
    requires Shaped(v) && k <= |v.fs|
  {
    QueueCost(v.fs, k, v.queues[k].items) + StageCost(v, k)
  }

  ghost function Costs(v: System): seq<int>
    requires Shaped(v)
  {
    seq(|v.fs| + 1, k requires 0 <= k <= |v.fs| => CostAt(v, k))
  }

  ghost function Work(v: System): int
    requires Shaped(v)
  {
    PushCost(v.fs, 0, v.input) + (if v.readerDone then 0 else 2) + Sum(Costs(v))
  }

  lemma {:induction false} QueueCostPush(fs: seq<string -> seq<string>>, k: nat, lines: seq<string>, line: string)
    ensures QueueCost(fs, k, lines + [line]) == QueueCost(fs, k, lines) + LineCost(fs, k, line)
    decreases |lines|
  {
    if lines == [] {
      assert lines + [line] == [line] && [line][1..] == [];
    } else {
      assert (lines + [line])[1..] == lines[1..] + [line];
      QueueCostPush(fs, k, lines[1..], line);
    }
  }

  /** Only queue k and stage k have changed. */
  lemma ChangedAt(v: System, v': System, k: nat)
    requires Shaped(v) && Shaped(v') && v'.fs == v.fs && k <= |v.fs|
    requires forall j | 0 <= j <= |v.fs| && j != k :: v'.queues[j] == v.queues[j] && v'.stages[j] == v.stages[j]
    ensures Sum(Costs(v')) == Sum(Costs(v)) - CostAt(v, k) + CostAt(v', k)
  {
    SumUpdate(Costs(v), k, CostAt(v', k));
    assert Costs(v') == Costs(v)[k := CostAt(v', k)];
  }

  /** A push pays for the line pushed and wakes at most one thread. */
  lemma PushedTo(v: System, k: nat, line: string, v': System)
    requires Ok(v) && k <= |v.fs|
    requires v' == v.(queues := v.queues[k := Pushed(v.queues[k], line)])
    ensures Sum(Costs(v')) <= Sum(Costs(v)) + LineCost(v.fs, k, line) + 1
  {
    QueueCostPush(v.fs, k, v.queues[k].items, line);
    ChangedAt(v, v', k);
  }

  lemma StoppedAt(v: System, k: nat, v': System)
    requires Ok(v) && k <= |v.fs|
    requires v' == v.(queues := v.queues[k := Stopped(v.queues[k])])
    ensures Sum(Costs(v')) <= Sum(Costs(v)) + 1
  {
    ChangedAt(v, v', k);
  }

  lemma PopWorks(v: System, k: nat)
    requires Ok(v) && Can(v, Pop(k))
    ensures Work(Do(v, Pop(k))) < Work(v)
  {
    assert Good(v, k);
    ChangedAt(v, Do(v, Pop(k)), k);
  }

  lemma PushWorks(v: System, k: nat)
    requires Ok(v) && Can(v, Push(k))
    ensures Work(Do(v, Push(k))) < Work(v)
  {
    var left := v.stages[k].left;
    var v1, v' := v.(queues := v.queues[k + 1 := Pushed(v.queues[k + 1], left[0])]), Do(v, Push(k));
    assert Good(v, k);
    PushedTo(v, k + 1, left[0], v1);
    ChangedAt(v1, v', k);
  }

  lemma StopOutWorks(v: System, k: nat)
    requires Ok(v) && Can(v, StopOut(k))
    ensures Work(Do(v, StopOut(k))) < Work(v)
  {
    var v1 := v.(queues := v.queues[k + 1 := Stopped(v.queues[k + 1])]);
    StoppedAt(v, k + 1, v1);
    ChangedAt(v1, Do(v, StopOut(k)), k);
  }

  lemma ReaderWorks(v: System, e: Step)
    requires Ok(v) && Can(v, e) && (e.Read? || e.ReadEnd?)
    ensures Work(Do(v, e)) < Work(v)
  {
    if e.Read? {
      var v1 := v.(queues := v.queues[0 := Pushed(v.queues[0], v.input[0])]);
      PushedTo(v, 0, v.input[0], v1);
      assert Costs(Do(v, e)) == Costs(v1);
    } else {
      var v1 := v.(queues := v.queues[0 := Stopped(v.queues[0])]);
      StoppedAt(v, 0, v1);
      assert Costs(Do(v, e)) == Costs(v1);
    }
  }

  lemma StepWorks(v: System, e: Step)
    requires Ok(v) && Can(v, e)
    ensures Work(Do(v, e)) < Work(v) + if e.Spurious? then 2 else 0
  {
    match e
    case Read => ReaderWorks(v, e);
    case ReadEnd => ReaderWorks(v, e);
    case Pop(k) => PopWorks(v, k);
    case Push(k) => PushWorks(v, k);
    case StopOut(k) => StopOutWorks(v, k);
    case Spurious(k) => assert Good(v, k); ChangedAt(v, Do(v, e), k);
  }

  function Spuriouses(es: seq<Step>): nat {
    if es == [] then 0 else (if es[0].Spurious? then 1 else 0) + Spuriouses(es[1..])
  }

  lemma WorkIsPositive(v: System)
    requires Shaped(v)
    ensures Work(v) >= 0
  {
    SumPositive(Costs(v));
  }

  lemma {:induction false} WorkRunsOut(v: System, es: seq<Step>)
    requires Ok(v) && Possible(v, es)
    ensures |es| <= Work(v) + 2 * Spuriouses(es)
    decreases |es|
  {
    if es == [] {
      WorkIsPositive(v);
    } else {
      StepOk(v, es[0]);
      StepWorks(v, es[0]);
      WorkRunsOut(Do(v, es[0]), es[1..]);
    }
  }

  /** Spurious wake-ups aside, the length of a run is bounded by the input: no schedule goes on
      for ever without them. */
  lemma EveryRunEnds(source: seq<string>, fs: seq<string -> seq<string>>, es: seq<Step>)
    requires Possible(Start(source, fs), es)
    ensures |es| <= PushCost(fs, 0, source) + 2 + 4 * (|fs| + 1) + 2 * Spuriouses(es)
  {
    var v := Start(source, fs);
    StartOk(source, fs);
    WorkRunsOut(v, es);
    SumConstant(Costs(v), 4);
  }
}
