/** pipeline.cpp: stages on threads of their own, joined by queues that can be stopped. The
    results hold for any number of transforming stages, whatever they do to a line. */
module StagePipeline {

  // ---------- Queues ----------

  /** `waiting` while the thread at the back sleeps on the condition variable. */
  datatype Queue = Queue(items: seq<string>, stop: bool, waiting: bool)

  datatype Popped = Item(line: string) | Ended | Sleeps

  function Pushed(q: Queue, line: string): Queue {
    Queue(q.items + [line], q.stop, false)
  }

  function Stopped(q: Queue): Queue {
    Queue(q.items, true, false)
  }

  /** One pass of pop under the lock: an item, the end, or another wait. */
  function PopResult(q: Queue): Popped {
    if q.items != [] then Item(q.items[0]) else if q.stop then Ended else Sleeps
  }

  function AfterPop(q: Queue): Queue {
    if q.items != [] then Queue(q.items[1..], q.stop, false) else Queue([], q.stop, !q.stop)
  }

  class QueueImpl {
    var queue: seq<string>
    var stop: bool
    var waiting: bool

    function View(): Queue
      reads this
    {
      Queue(queue, stop, waiting)
    }

    constructor ()
      ensures View() == Queue([], false, false)
    {
      queue, stop, waiting := [], false, false;
    }

    method NotifyOne()
      modifies this`waiting
      ensures !waiting
    {
      waiting := false;
    }

    method Push(t: string)
      modifies this
      ensures View() == Pushed(old(View()), t)
      ensures queue == old(queue) + [t] && stop == old(stop) && !waiting
    {
      queue := queue + [t];
      NotifyOne();
    }

    method Stop()
      modifies this
      ensures View() == Stopped(old(View()))
      ensures queue == old(queue) && stop && !waiting
    {
      stop := true;
      NotifyOne();
    }

    /** What pop does from taking the lock to returning or to sleeping. */
    method Pop() returns (r: Popped)
      requires !waiting
      modifies this
      ensures r == PopResult(old(View())) && View() == AfterPop(old(View()))
      ensures if old(queue) != [] then r.Item? && [r.line] + queue == old(queue) && !waiting
              else queue == [] && (if old(stop) then r.Ended? && !waiting else r.Sleeps? && waiting)
      ensures stop == old(stop)
    {
      if queue == [] && !stop {
        waiting := true;
        return Sleeps;
      }
      if queue != [] {
        r := Item(queue[0]);
        queue := queue[1..];
      } else {
        r := Ended;
      }
    }
  }

  // ---------- The stages of main ----------

  function Filter(line: string): seq<string> {
    if |line| > 5 then [line] else []
  }

  function UpperChar(c: char): char {
    if 'a' <= c <= 'z' then 'A' + (c - 'a') else c
  }

  /** Exactly the letters a to z change, each to its capital. */
  ghost predicate IsUpper(line: string, up: string) {
    && |up| == |line|
    && forall i | 0 <= i < |line| :: up[i] as int == line[i] as int - if 97 <= line[i] as int <= 122 then 32 else 0
  }

  function UpperLine(line: string): string {
    if line == "" then "" else [UpperChar(line[0])] + UpperLine(line[1..])
  }

  lemma {:induction false} UpperLineIsUpper(line: string)
    ensures IsUpper(line, UpperLine(line))
  {
    if line != "" {
      UpperLineIsUpper(line[1..]);
      var rest := UpperLine(line[1..]);
      assert forall i | 0 < i < |line| :: line[i] == line[1..][i - 1] && UpperLine(line)[i] == rest[i - 1];
    }
  }

  function Upper(line: string): seq<string> {
    [UpperLine(line)]
  }

  /** The inner loop of upper. */
  method MakeUpper(line: string) returns (newLine: string)
    ensures newLine == UpperLine(line) && IsUpper(line, newLine)
  {
    newLine := "";
    for i := 0 to |line|
      invariant newLine + UpperLine(line[i..]) == UpperLine(line)
    {
      newLine := newLine + [UpperChar(line[i])];
    }
    UpperLineIsUpper(line);
  }

  function Decimal(n: nat): string {
    if n < 10 then ["0123456789"[n]] else Decimal(n / 10) + ["0123456789"[n % 10]]
  }

  /** The number that a string of digits stands for. */
  ghost function Value(digits: string): int {
    if digits == "" then 0
    else 10 * Value(digits[..|digits| - 1]) + digits[|digits| - 1] as int - 48
  }

  ghost predicate IsDecimal(text: string, n: nat) {
    && text != "" && (forall i | 0 <= i < |text| :: '0' <= text[i] <= '9')
    && (|text| > 1 ==> text[0] != '0') && Value(text) == n
  }

  /** The digits read back as the number, with no leading zero. */
  lemma {:induction false} DecimalReadsBack(n: nat)
    ensures IsDecimal(Decimal(n), n) && (n > 0 ==> Decimal(n)[0] != '0')
  {
    var digit := "0123456789"[n % 10];
    assert '0' <= digit <= '9' && digit as int == 48 + n % 10;
    if n >= 10 {
      DecimalReadsBack(n / 10);
      assert Decimal(n)[..|Decimal(n)| - 1] == Decimal(n / 10);
    } else {
      assert [digit][..0] == "";
    }
  }

  /** What writer prints for line number `count`. */
  function Printed(count: nat, line: string): string {
    Decimal(count) + ": " + line
  }

  // ---------- The system ----------

  /** A stage past the first: about to call pop or in it, pushing what it made of a line, about to
      stop its output queue, or finished. */
  datatype Stage = Popping | Pushing(left: seq<string>) | Stopping | Done

  /** Stage k takes from queue k; the last one is the writer, the others apply fs[k] and push to
      queue k + 1. `taken[k]` is all that stage k has popped. */
  datatype System = System(source: seq<string>, fs: seq<string -> seq<string>>, input: seq<string>, readerDone: bool,
                           queues: seq<Queue>, stages: seq<Stage>, taken: seq<seq<string>>, printed: seq<string>)

  /** Spurious(k) wakes a sleeping thread without a notification. */
  datatype Step = Read | ReadEnd | Pop(k: nat) | Push(k: nat) | StopOut(k: nat) | Spurious(k: nat)

  ghost function Start(source: seq<string>, fs: seq<string -> seq<string>>): System {
    var n := |fs| + 1;
    System(source, fs, source, false, seq(n, _ => Queue([], false, false)), seq(n, _ => Popping), seq(n, _ => []), [])
  }

  ghost predicate Shaped(v: System) {
    |v.queues| == |v.stages| == |v.taken| == |v.fs| + 1
  }

  ghost predicate Can(v: System, e: Step) {
    && Shaped(v)
    && match e
       case Read => v.input != []
       case ReadEnd => v.input == [] && !v.readerDone
       case Pop(k) => k < |v.stages| && v.stages[k].Popping? && !v.queues[k].waiting
       case Push(k) => k < |v.fs| && v.stages[k].Pushing? && v.stages[k].left != []
       case StopOut(k) => k < |v.fs| && v.stages[k].Stopping?
       case Spurious(k) => k < |v.queues| && v.queues[k].waiting
  }

  function Resume(left: seq<string>): Stage {
    if left == [] then Popping else Pushing(left)
  }

  /** After pop has returned or gone to sleep in stage k. */
  ghost function AfterPopAt(v: System, k: nat): System
    requires Can(v, Pop(k))
  {
    var q, r := v.queues[k], PopResult(v.queues[k]);
    var v1 := v.(queues := v.queues[k := AfterPop(q)]);
    match r
    case Sleeps => v1
    case Ended => v1.(stages := v.stages[k := if k == |v.fs| then Done else Stopping])
    case Item(line) =>
      var v2 := v1.(taken := v.taken[k := v.taken[k] + [line]]);
      if k == |v.fs| then v2.(printed := v.printed + [Printed(|v.printed|, line)])
      else v2.(stages := v.stages[k := Resume(v.fs[k](line))])
  }

  ghost function Do(v: System, e: Step): System
    requires Can(v, e)
  {
    match e
    case Read => v.(input := v.input[1..], queues := v.queues[0 := Pushed(v.queues[0], v.input[0])])
    case ReadEnd => v.(readerDone := true, queues := v.queues[0 := Stopped(v.queues[0])])
    case Pop(k) => AfterPopAt(v, k)
    case Push(k) =>
      v.(stages := v.stages[k := Resume(v.stages[k].left[1..])],
         queues := v.queues[k + 1 := Pushed(v.queues[k + 1], v.stages[k].left[0])])
    case StopOut(k) => v.(stages := v.stages[k := Done], queues := v.queues[k + 1 := Stopped(v.queues[k + 1])])
    case Spurious(k) => v.(queues := v.queues[k := v.queues[k].(waiting := false)])
  }

  ghost predicate Possible(v: System, es: seq<Step>)
    decreases |es|
  {
    es == [] || (Can(v, es[0]) && Possible(Do(v, es[0]), es[1..]))
  }

  ghost function After(v: System, es: seq<Step>): System
    requires Possible(v, es)
    decreases |es|
  {
    if es == [] then v else After(Do(v, es[0]), es[1..])
  }

  // ---------- What the pipeline computes ----------

  function FlatMap(f: string -> seq<string>, lines: seq<string>): seq<string> {
    if lines == [] then [] else f(lines[0]) + FlatMap(f, lines[1..])
  }

  /** All that stage k is ever given: the source put through the stages before it, one after the
      other. */
  function Total(source: seq<string>, fs: seq<string -> seq<string>>, k: nat): seq<string>
    requires k <= |fs|
  {
    if k == 0 then source else FlatMap(fs[k - 1], Total(source, fs, k - 1))
  }

  function Numbered(lines: seq<string>): seq<string> {
    seq(|lines|, i requires 0 <= i < |lines| => Printed(i, lines[i]))
  }

  // ---------- Invariant ----------

  function InHand(s: Stage): seq<string> {
    if s.Pushing? then s.left else []
  }

  ghost function Coming(v: System, k: nat): seq<string>
    requires Shaped(v) && k <= |v.fs|
  {
    if k == 0 then v.input else InHand(v.stages[k - 1])
  }

  ghost function Made(v: System, k: nat): seq<string>
    requires Shaped(v) && k <= |v.fs|
  {
    if k == 0 then v.source else FlatMap(v.fs[k - 1], v.taken[k - 1])
  }

  ghost predicate FrontDone(v: System, k: nat)
    requires Shaped(v) && k <= |v.fs|
  {
    if k == 0 then v.readerDone else v.stages[k - 1].Done?
  }

  ghost predicate Good(v: System, k: nat)
    requires Shaped(v) && k <= |v.fs|
  {
    var q, s := v.queues[k], v.stages[k];
    && v.taken[k] + q.items + Coming(v, k) == Made(v, k)
    && (q.stop <==> FrontDone(v, k))
    && (q.stop ==> Coming(v, k) == [])
    && (q.waiting ==> s.Popping? && q.items == [] && !q.stop)
    && (s.Stopping? || s.Done? ==> q.stop && q.items == [])
    && (s.Pushing? ==> s.left != [] && k < |v.fs|)
    && (s.Stopping? ==> k < |v.fs|)
  }

  ghost predicate Ok(v: System) {
    && Shaped(v)
    && v.printed == Numbered(v.taken[|v.fs|])
    && forall k | 0 <= k <= |v.fs| :: Good(v, k)
  }

  lemma StartOk(source: seq<string>, fs: seq<string -> seq<string>>)
    ensures Ok(Start(source, fs))
  {
    var v := Start(source, fs);
    forall k | 0 <= k <= |fs| ensures Good(v, k) {
    }
  }

  lemma {:induction false} FlatMapPush(f: string -> seq<string>, lines: seq<string>, line: string)
    ensures FlatMap(f, lines + [line]) == FlatMap(f, lines) + f(line)
  {
    if lines == [] {
      assert lines + [line] == [line] && [line][1..] == [];
    } else {
      assert (lines + [line])[1..] == lines[1..] + [line];
      FlatMapPush(f, lines[1..], line);
    }
  }

  lemma ReaderOk(v: System, e: Step)
    requires Ok(v) && Can(v, e) && (e.Read? || e.ReadEnd?)
    ensures Ok(Do(v, e))
  {
    var v' := Do(v, e);
    forall j | 0 <= j <= |v.fs| ensures Good(v', j) {
      assert Good(v, j);
      if j == 0 && e.Read? {
        assert v.taken[0] + (v.queues[0].items + [v.input[0]]) + v.input[1..] ==
            v.taken[0] + v.queues[0].items + v.input;
      }
    }
  }

  lemma PopItemAt(v: System, k: nat)
    requires Ok(v) && Can(v, Pop(k)) && v.queues[k].items != []
    ensures Good(Do(v, Pop(k)), k)
  {
    assert Good(v, k);
    var q := v.queues[k];
    assert v.taken[k] + [q.items[0]] + q.items[1..] == v.taken[k] + q.items;
    if k > 0 { assert Good(v, k - 1); }
  }

  lemma PopItemNext(v: System, k: nat)
    requires Ok(v) && Can(v, Pop(k)) && v.queues[k].items != [] && k < |v.fs|
    ensures Good(Do(v, Pop(k)), k + 1)
  {
    assert Good(v, k) && Good(v, k + 1);
    FlatMapPush(v.fs[k], v.taken[k], v.queues[k].items[0]);
  }

  lemma PopItemOk(v: System, k: nat)
    requires Ok(v) && Can(v, Pop(k)) && v.queues[k].items != []
    ensures Ok(Do(v, Pop(k)))
  {
    var v', next := Do(v, Pop(k)), k + 1;
    PopItemAt(v, k);
    if k < |v.fs| { PopItemNext(v, k); }
    forall j | 0 <= j <= |v.fs| ensures Good(v', j) {
      if j != k && j != next { assert Good(v, j); }
    }
  }

  lemma PopNothingOk(v: System, k: nat)
    requires Ok(v) && Can(v, Pop(k)) && v.queues[k].items == []
    ensures Ok(Do(v, Pop(k)))
  {
    var v' := Do(v, Pop(k));
    forall j | 0 <= j <= |v.fs| ensures Good(v', j) { assert Good(v, j); }
  }

  lemma PushOk(v: System, k: nat)
    requires Ok(v) && Can(v, Push(k))
    ensures Ok(Do(v, Push(k)))
  {
    var v', next, left := Do(v, Push(k)), k + 1, v.stages[k].left;
    assert Good(v, k) && Good(v, next);
    var q := v.queues[next];
    assert v.taken[next] + (q.items + [left[0]]) + left[1..] == v.taken[next] + q.items + left;
    forall j | 0 <= j <= |v.fs| ensures Good(v', j) { assert Good(v, j); }
  }

  lemma OtherOk(v: System, e: Step)
    requires Ok(v) && Can(v, e) && (e.StopOut? || e.Spurious?)
    ensures Ok(Do(v, e))
  {
    var v' := Do(v, e);
    forall j | 0 <= j <= |v.fs| ensures Good(v', j) { assert Good(v, j); }
  }

  lemma StepOk(v: System, e: Step)
    requires Ok(v) && Can(v, e)
    ensures Ok(Do(v, e)) && Do(v, e).source == v.source && Do(v, e).fs == v.fs
  {
    match e
    case Read => ReaderOk(v, e);
    case ReadEnd => ReaderOk(v, e);
    case Pop(k) => if v.queues[k].items != [] { PopItemOk(v, k); } else { PopNothingOk(v, k); }
    case Push(k) => PushOk(v, k);
    case StopOut(_) => OtherOk(v, e);
    case Spurious(_) => OtherOk(v, e);
  }

  lemma {:induction false} RunOk(v: System, es: seq<Step>)
    requires Ok(v) && Possible(v, es)
    ensures Ok(After(v, es)) && After(v, es).source == v.source && After(v, es).fs == v.fs
    decreases |es|
  {
    if es != [] {
      StepOk(v, es[0]);
      RunOk(Do(v, es[0]), es[1..]);
    }
  }

  // ---------- Determinism ----------

  lemma {:induction false} FlatMapPrefix(f: string -> seq<string>, a: seq<string>, b: seq<string>)
    requires a <= b
    ensures FlatMap(f, a) <= FlatMap(f, b)
  {
    if a != [] { FlatMapPrefix(f, a[1..], b[1..]); }
  }

  /** At every moment a stage has been given the beginning of what it will be given in all. */
  lemma {:induction false} GivenSoFar(v: System, k: nat)
    requires Ok(v) && k <= |v.fs|
    ensures v.taken[k] + v.queues[k].items <= Total(v.source, v.fs, k)
  {
    assert Good(v, k);
    if k > 0 {
      GivenSoFar(v, k - 1);
      FlatMapPrefix(v.fs[k - 1], v.taken[k - 1], Total(v.source, v.fs, k - 1));
    }
  }

  /** A queue that is stopped and empty has carried everything. */
  lemma {:induction false} AllCarried(v: System, k: nat)
    requires Ok(v) && k <= |v.fs| && v.queues[k].stop && v.queues[k].items == []
    ensures v.taken[k] == Total(v.source, v.fs, k)
  {
    assert Good(v, k);
    if k > 0 {
      assert Good(v, k - 1);
      AllCarried(v, k - 1);
    }
  }

  /** pop returns false only when the stage before has finished and all it pushed, which is all it
      ever could, has been taken. */
  lemma PopFalseMeansEnd(source: seq<string>, fs: seq<string -> seq<string>>, es: seq<Step>, v: System, k: nat)
    requires Possible(Start(source, fs), es) && v == After(Start(source, fs), es)
    requires Can(v, Pop(k)) && PopResult(v.queues[k]).Ended?
    ensures v.fs == fs && k <= |fs| && FrontDone(v, k) && v.taken[k] == Total(source, fs, k)
  {
    StartOk(source, fs);
    RunOk(Start(source, fs), es);
    assert Good(v, k);
    AllCarried(v, k);
  }

  /** Whatever the schedule, the writer has always printed the beginning of one output, which
      depends on the source and the stages alone. */
  lemma PrintsInOrder(source: seq<string>, fs: seq<string -> seq<string>>, es: seq<Step>)
    requires Possible(Start(source, fs), es)
    ensures After(Start(source, fs), es).printed <= Numbered(Total(source, fs, |fs|))
  {
    var v := After(Start(source, fs), es);
    StartOk(source, fs);
    RunOk(Start(source, fs), es);
    GivenSoFar(v, |fs|);
  }

  ghost predicate Stuck(v: System) {
    forall e :: Can(v, e) ==> e.Spurious?
  }

  lemma {:induction false} AllDone(v: System, k: nat)
    requires Ok(v) && Stuck(v) && k <= |v.fs|
    ensures FrontDone(v, k) && v.stages[k].Done?
  {
    assert Good(v, k);
    assert !Can(v, Pop(k)) && !Can(v, Push(k)) && !Can(v, StopOut(k));
    if k == 0 {
      assert !Can(v, Read) && !Can(v, ReadEnd);
    } else {
      AllDone(v, k - 1);
    }
  }

  /** No deadlock and no lost wake-up: when no thread can go on, all of them have finished, and
      the whole output has been printed. */
  lemma StuckMeansPrinted(source: seq<string>, fs: seq<string -> seq<string>>, es: seq<Step>, v: System)
    requires Possible(Start(source, fs), es) && v == After(Start(source, fs), es) && Stuck(v)
    ensures Shaped(v) && |v.stages| == |fs| + 1 && forall k | 0 <= k <= |fs| :: v.stages[k].Done?
    ensures v.readerDone && v.printed == Numbered(Total(source, fs, |fs|))
  {
    StartOk(source, fs);
    RunOk(Start(source, fs), es);
    forall k | 0 <= k <= |fs| ensures v.stages[k].Done? { AllDone(v, k); }
    AllDone(v, 0);
    assert Good(v, |fs|);
    AllCarried(v, |fs|);
  }

  /** What main is for: the lines of more than five characters, in upper case and in order. */
  function LongLinesUpper(source: seq<string>): seq<string> {
    if source == [] then []
    else (if |source[0]| > 5 then [UpperLine(source[0])] else []) + LongLinesUpper(source[1..])
  }

  lemma {:induction false} FilterThenUpper(source: seq<string>)
    ensures FlatMap(Upper, FlatMap(Filter, source)) == LongLinesUpper(source)
  {
    if source != [] {
      FilterThenUpper(source[1..]);
      var line, rest := source[0], FlatMap(Filter, source[1..]);
      assert FlatMap(Filter, source) == Filter(line) + rest;
      if |line| > 5 {
        assert ([line] + rest)[1..] == rest;
        assert FlatMap(Upper, [line] + rest) == Upper(line) + FlatMap(Upper, rest);
      } else {
        assert [] + rest == rest;
      }
    }
  }

  lemma {:induction false} LongLinesConcat(a: seq<string>, b: seq<string>)
    ensures LongLinesUpper(a + b) == LongLinesUpper(a) + LongLinesUpper(b)
  {
    if a == [] {
      assert a + b == b;
    } else {
      assert (a + b)[1..] == a[1..] + b;
      LongLinesConcat(a[1..], b);
    }
  }

  /** The lines at the positions `at`, in upper case, are all of more than five characters. */
  ghost predicate LongLinesAt(source: seq<string>, out: seq<string>, at: seq<nat>) {
    && |at| == |out|
    && (forall j | 0 <= j < |at| :: at[j] < |source| && |source[at[j]]| > 5 && IsUpper(source[at[j]], out[j]))
    && (forall i, j | 0 <= i < j < |at| :: at[i] < at[j])
    && (forall k | 0 <= k < |source| && |source[k]| > 5 :: k in at)
  }

  lemma {:induction false} LongLinesExactly(source: seq<string>) returns (at: seq<nat>)
    ensures LongLinesAt(source, LongLinesUpper(source), at)
    decreases |source|
  {
    at := [];
    if source != [] {
      var n := |source| - 1;
      var front, last := source[..n], source[n];
      at := LongLinesExactly(front);
      assert source == front + [last] && [last][1..] == [];
      LongLinesConcat(front, [last]);
      if |last| > 5 {
        at := at + [n];
        UpperLineIsUpper(last);
      }
    }
  }

  /** A number, a colon and a space, and the line in upper case. */
  ghost predicate PrintedLine(text: string, n: nat, line: string) {
    exists digits, up :: IsDecimal(digits, n) && IsUpper(line, up) && text == digits + ": " + up
  }

  /** The printed lines are the lines at the positions `at`, numbered from 0. */
  ghost predicate PrintedAt(source: seq<string>, printed: seq<string>, at: seq<nat>) {
    && |at| == |printed|
    && (forall j | 0 <= j < |at| :: at[j] < |source| && PrintedLine(printed[j], j, source[at[j]]))
    && (forall i, j | 0 <= i < j < |at| :: at[i] < at[j])
    && (forall k :: k in at <==> 0 <= k < |source| && |source[k]| > 5)
  }

  lemma NumberedExactly(source: seq<string>) returns (at: seq<nat>)
    ensures PrintedAt(source, Numbered(LongLinesUpper(source)), at)
  {
    at := LongLinesExactly(source);
    var lines := LongLinesUpper(source);
    forall j | 0 <= j < |at| ensures PrintedLine(Numbered(lines)[j], j, source[at[j]]) {
      DecimalReadsBack(j);
      assert Numbered(lines)[j] == Decimal(j) + ": " + lines[j];
    }
  }

  /** main prints exactly the lines of more than five characters, in order, in upper case and numbered
      from 0, whatever the interleaving of its four threads. */
  lemma MainPrints(source: seq<string>, es: seq<Step>, v: System) returns (at: seq<nat>)
    requires Possible(Start(source, [Filter, Upper]), es) && v == After(Start(source, [Filter, Upper]), es) && Stuck(v)
    ensures v.printed == Numbered(LongLinesUpper(source)) && PrintedAt(source, v.printed, at)
  {
    var fs := [Filter, Upper];
    StuckMeansPrinted(source, fs, es, v);
    FilterThenUpper(source);
    assert Total(source, fs, 1) == FlatMap(Filter, Total(source, fs, 0));
    assert Total(source, fs, 2) == FlatMap(Upper, Total(source, fs, 1));
    at := NumberedExactly(source);
  }
}
