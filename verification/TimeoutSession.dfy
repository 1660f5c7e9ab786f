/** timeouts/server.cpp: one tcp_session with its four actors, its timers and their deadlines.
    Time is in milliseconds. */
module TimeoutSession {
  import opened Text

  const DEADLINE := 30_000

  datatype Expiry = Min | At(t: nat) | Max

  /** The input actor's pending operations, its deadline, and history. `reading` counts the pending
      async_read_until operations; `waits` has an entry for each pending async_wait on the deadline,
      true when it has been cancelled, which is also what setting a timer's expiry does to its
      waits. History: all bytes read, the lines taken from them, and when the last read was started. */
  datatype Input = Input(reading: nat, buffer: string, deadline: Expiry, waits: seq<bool>,
                         received: string, handled: seq<string>, lastRead: nat)

  /** The output actor's pending operations, its timers, and history. `waits` are the pending waits on
      non_empty_output_queue_, `writes` the lines of the pending async_write operations, `checks` the
      pending waits on the deadline. History: the lines enqueued and written for the client, and
      when the last write was started, if one was. */
  datatype Output = Output(queue: seq<string>, nonEmpty: Expiry, waits: seq<bool>, writes: seq<string>,
                           deadline: Expiry, checks: seq<bool>,
                           enqueued: seq<string>, written: seq<string>, wrote: bool, lastWrite: nat)

  datatype Session = Session(now: nat, isOpen: bool, joined: bool, input: Input, output: Output)

  predicate Passed(x: Expiry, now: nat) {
    match x case Min => true case At(t) => t <= now case Max => false
  }

  function Cancelled(waits: seq<bool>): (r: seq<bool>)
    ensures |r| == |waits|
  {
    seq(|waits|, _ => true)
  }

  /** The pending operations without the k-th, whose handler runs. */
  function Completed<T>(pending: seq<T>, k: nat): (r: seq<T>)
    requires k < |pending|
    ensures |r| == |pending| - 1
  {
    pending[..k] + pending[k + 1..]
  }

  // ---------- The member functions ----------

  function Enqueued(o: Output, line: string): Output {
    o.(queue := o.queue + [line], nonEmpty := Min, waits := Cancelled(o.waits), enqueued := o.enqueued + [line])
  }

  function Delivered(s: Session, msg: string): Session {
    s.(output := Enqueued(s.output, msg + "\n"))
  }

  function LineRead(i: Input, now: nat): Input {
    i.(deadline := At(now + DEADLINE), waits := Cancelled(i.waits), reading := i.reading + 1, lastRead := now)
  }

  function OutputAwaited(o: Output): Output {
    o.(waits := o.waits + [false])
  }

  function LineWritten(o: Output, now: nat): Output
    requires o.queue != []
  {
    o.(deadline := At(now + DEADLINE), checks := Cancelled(o.checks), writes := o.writes + [o.queue[0]],
       wrote := true, lastWrite := now)
  }

  function Stopped(s: Session): Session {
    Session(s.now, false, false, s.input.(waits := Cancelled(s.input.waits)),
            s.output.(waits := Cancelled(s.output.waits), checks := Cancelled(s.output.checks)))
  }

  /** A session constructed at time `now` around an open socket. */
  function Constructed(now: nat): Session {
    Session(now, true, false, Input(0, "", Max, [], "", [], now), Output([], Max, [], [], Max, [], [], [], false, now))
  }

  function Started(now: nat): Session {
    var s := Constructed(now);
    var i := LineRead(s.input, now);
    Session(now, true, true, i.(waits := i.waits + [false]), OutputAwaited(s.output).(checks := [false]))
  }

  // ---------- The handlers ----------

  /** Where the first line ends. */
  function NewlineAt(s: string): (n: nat)
    requires '\n' in s
    ensures n < |s| && '\n' !in s[..n] && s[n] == '\n'
  {
    var n := Until(s, '\n', 0);
    assert s[0..n] == s[..n] && s[..|s|] == s;
    n
  }

  /** The answer to a line: deliver it to the channel, or send a heartbeat back. */
  function AfterLine(s: Session, msg: string): Session {
    if msg != "" then if s.joined then Delivered(s, msg) else s
    else if s.output.queue == [] then s.(output := Enqueued(s.output, "\n"))
    else s
  }

  function LineTaken(i: Input): Input
    requires '\n' in i.buffer
  {
    var n := NewlineAt(i.buffer);
    i.(buffer := i.buffer[n + 1..], handled := i.handled + [i.buffer[..n]])
  }

  /** The first line of the buffer has been taken from it. */
  ghost predicate Taken(before: Input, line: string, after: Input) {
    && '\n' !in line && line + "\n" <= before.buffer
    && after.buffer == before.buffer[|line| + 1..] && after.handled == before.handled + [line]
  }

  lemma TakenFront(buffer: string, n: nat)
    requires n < |buffer| && buffer[n] == '\n'
    ensures buffer[..n] + "\n" <= buffer
  {
    assert buffer[..n] + "\n" == buffer[..n + 1];
  }

  function AfterRead(s: Session): Session
    requires s.input.reading > 0 && '\n' in s.input.buffer
  {
    var i := s.input.(reading := s.input.reading - 1);
    if !s.isOpen then s.(input := i)
    else AfterLine(s.(input := LineRead(LineTaken(i), s.now)), i.buffer[..NewlineAt(i.buffer)])
  }

  function AfterReadError(s: Session): Session
    requires s.input.reading > 0
  {
    var s1 := s.(input := s.input.(reading := s.input.reading - 1));
    if !s.isOpen then s1 else Stopped(s1)
  }

  function AfterWait(s: Session, k: nat): Session
    requires k < |s.output.waits|
  {
    var o := s.output.(waits := Completed(s.output.waits, k));
    s.(output :=
         if !s.isOpen then o
         else if o.queue == [] then OutputAwaited(o.(nonEmpty := Max, waits := Cancelled(o.waits)))
         else LineWritten(o, s.now))
  }

  function AfterWrite(s: Session, k: nat, ok: bool): Session
    requires k < |s.output.writes|
  {
    var o := s.output.(writes := Completed(s.output.writes, k));
    if !s.isOpen then s.(output := o)
    else if !ok then Stopped(s.(output := o))
    else if o.queue == [] then s.(output := o)
    else s.(output := OutputAwaited(o.(queue := o.queue[1..], written := o.written + [s.output.writes[k]])))
  }

  function AfterInputCheck(s: Session, k: nat): Session
    requires k < |s.input.waits|
  {
    var i := s.input.(waits := Completed(s.input.waits, k));
    if !s.isOpen then s.(input := i)
    else if Passed(i.deadline, s.now) then Stopped(s.(input := i))
    else s.(input := i.(waits := i.waits + [false]))
  }

  function AfterOutputCheck(s: Session, k: nat): Session
    requires k < |s.output.checks|
  {
    var o := s.output.(checks := Completed(s.output.checks, k));
    if !s.isOpen then s.(output := o)
    else if Passed(o.deadline, s.now) then Stopped(s.(output := o))
    else s.(output := o.(checks := o.checks + [false]))
  }

  // ---------- The class ----------

  class TcpSession {
    var now: nat
    var isOpen: bool
    var joined: bool
    var input: Input
    var output: Output

    function View(): Session
      reads this
    {
      Session(now, isOpen, joined, input, output)
    }

    constructor (now: nat)
      ensures View() == Constructed(now)
    {
      this.now, isOpen, joined := now, true, false;
      input := Input(0, "", Max, [], "", [], now);
      output := Output([], Max, [], [], Max, [], [], [], false, now);
    }

    method Start()
      requires View() == Constructed(now)
      modifies this
      ensures View() == Started(old(now))
    {
      joined := true;
      ReadLine();
      input := input.(waits := input.waits + [false]);
      AwaitOutput();
      output := output.(checks := output.checks + [false]);
    }

    method Stop()
      modifies this
      ensures View() == Stopped(old(View()))
    {
      joined := false;
      isOpen := false;
      input := input.(waits := Cancelled(input.waits));
      output := output.(waits := Cancelled(output.waits));
      output := output.(checks := Cancelled(output.checks));
    }

    /** Pushes a line and sets non_empty_output_queue_ to the minimum. */
    method Enqueue(line: string)
      modifies this`output
      ensures output == Enqueued(old(output), line)
    {
      output := output.(queue := output.queue + [line], enqueued := output.enqueued + [line]);
      output := output.(nonEmpty := Min, waits := Cancelled(output.waits));
    }

    method Deliver(msg: string)
      modifies this`output
      ensures View() == Delivered(old(View()), msg)
    {
      Enqueue(msg + "\n");
    }

    method ReadLine()
      modifies this`input
      ensures input == LineRead(old(input), now)
    {
      input := input.(deadline := At(now + DEADLINE), waits := Cancelled(input.waits));
      input := input.(reading := input.reading + 1, lastRead := now);
    }

    method AwaitOutput()
      modifies this`output
      ensures output == OutputAwaited(old(output))
    {
      output := output.(waits := output.waits + [false]);
    }

    method WriteLine()
      requires output.queue != []
      modifies this`output
      ensures output == LineWritten(old(output), now)
    {
      output := output.(deadline := At(now + DEADLINE), checks := Cancelled(output.checks));
      output := output.(writes := output.writes + [output.queue[0]], wrote := true, lastWrite := now);
    }

    /** The lambda in read_line. */
    method OnRead(error: bool)
      requires input.reading > 0 && (!error ==> '\n' in input.buffer)
      modifies this
      ensures View() == if error then AfterReadError(old(View())) else AfterRead(old(View()))
      ensures old(isOpen) && !error ==>
                exists line :: Taken(old(input), line, input) &&
                  output.enqueued == old(output.enqueued) +
                    if line == "" then if old(output.queue) == [] then ["\n"] else []
                    else if old(joined) then [line + "\n"] else []
    {
      input := input.(reading := input.reading - 1);
      if !isOpen {
        return;
      }
      if error {
        Stop();
        return;
      }
      var n := NewlineAt(input.buffer);
      var msg := input.buffer[..n];
      input := input.(buffer := input.buffer[n + 1..], handled := input.handled + [msg]);
      if msg != "" {
        if joined { Deliver(msg); }
      } else if output.queue == [] {
        Enqueue("\n");
      }
      ReadLine();
      TakenFront(old(input.buffer), n);
      assert Taken(old(input), msg, input);
    }

    /** The lambda in await_output. */
    method OnWait(k: nat)
      requires k < |output.waits|
      modifies this`output
      ensures View() == AfterWait(old(View()), k)
    {
      output := output.(waits := Completed(output.waits, k));
      if !isOpen {
        return;
      }
      if output.queue == [] {
        output := output.(nonEmpty := Max, waits := Cancelled(output.waits));
        AwaitOutput();
      } else {
        WriteLine();
      }
    }

    /** The lambda in write_line. */
    method OnWrite(k: nat, ok: bool)
      requires k < |output.writes| && (isOpen ==> output.queue != [])
      modifies this
      ensures View() == AfterWrite(old(View()), k, ok)
      ensures isOpen ==> output.written == old(output.written) + [old(output.writes[k])] &&
                         output.queue == old(output.queue[1..])
    {
      var line := output.writes[k];
      output := output.(writes := Completed(output.writes, k));
      if !isOpen {
        return;
      }
      if ok {
        output := output.(written := output.written + [line], queue := output.queue[1..]);
        AwaitOutput();
      } else {
        Stop();
      }
    }

    /** The lambda in check_deadline, for the input deadline. */
    method OnInputDeadline(k: nat)
      requires k < |input.waits|
      modifies this
      ensures View() == AfterInputCheck(old(View()), k)
    {
      input := input.(waits := Completed(input.waits, k));
      if !isOpen {
        return;
      }
      if Passed(input.deadline, now) {
        Stop();
      } else {
        input := input.(waits := input.waits + [false]);
      }
    }

    /** The lambda in check_deadline, for the output deadline. */
    method OnOutputDeadline(k: nat)
      requires k < |output.checks|
      modifies this
      ensures View() == AfterOutputCheck(old(View()), k)
    {
      output := output.(checks := Completed(output.checks, k));
      if !isOpen {
        return;
      }
      if Passed(output.deadline, now) {
        Stop();
      } else {
        output := output.(checks := output.checks + [false]);
      }
    }
  }

  // ---------- Runs ----------

  /** Deliver is a message that another session gives to the channel. The numbers say which of the
      pending operations of a kind completes. */
  datatype Event =
    | Tick(d: nat) | Receive(bytes: string) | Deliver(msg: string) | ReadDone | ReadFails
    | WaitDone(k: nat) | WriteDone(k: nat, ok: bool) | InputCheck(k: nat) | OutputCheck(k: nat)

  predicate Ready(waits: seq<bool>, k: nat, x: Expiry, now: nat) {
    k < |waits| && (waits[k] || Passed(x, now))
  }

  predicate Enabled(s: Session, e: Event) {
    match e
    case Tick(_) => true
    case Receive(_) => s.isOpen && s.input.reading > 0 && '\n' !in s.input.buffer
    case Deliver(_) => s.joined
    case ReadDone => s.input.reading > 0 && '\n' in s.input.buffer
    case ReadFails => s.input.reading > 0
    case WaitDone(k) => Ready(s.output.waits, k, s.output.nonEmpty, s.now)
    case WriteDone(k, _) => k < |s.output.writes|
    case InputCheck(k) => Ready(s.input.waits, k, s.input.deadline, s.now)
    case OutputCheck(k) => Ready(s.output.checks, k, s.output.deadline, s.now)
  }

  function Do(s: Session, e: Event): Session
    requires Enabled(s, e)
  {
    match e
    case Tick(d) => s.(now := s.now + d)
    case Receive(bytes) => s.(input := s.input.(buffer := s.input.buffer + bytes, received := s.input.received + bytes))
    case Deliver(msg) => Delivered(s, msg)
    case ReadDone => AfterRead(s)
    case ReadFails => AfterReadError(s)
    case WaitDone(k) => AfterWait(s, k)
    case WriteDone(k, ok) => AfterWrite(s, k, ok)
    case InputCheck(k) => AfterInputCheck(s, k)
    case OutputCheck(k) => AfterOutputCheck(s, k)
  }

  ghost predicate Possible(s: Session, es: seq<Event>)
    decreases |es|
  {
    es == [] || (Enabled(s, es[0]) && Possible(Do(s, es[0]), es[1..]))
  }

  ghost function After(s: Session, es: seq<Event>): Session
    requires Possible(s, es)
    decreases |es|
  {
    if es == [] then s else After(Do(s, es[0]), es[1..])
  }

  // ---------- Invariant ----------

  /** The lines, each with its newline. */
  function Unlines(lines: seq<string>): string {
    if lines == [] then "" else lines[0] + "\n" + Unlines(lines[1..])
  }

  predicate AllCancelled(waits: seq<bool>) {
    forall k | 0 <= k < |waits| :: waits[k]
  }

  predicate InputOk(s: Session) {
    var i := s.input;
    && Unlines(i.handled) + i.buffer == i.received
    && (s.isOpen ==> s.joined && i.reading == 1 && |i.waits| == 1)
    && (s.isOpen ==> i.lastRead <= s.now && i.deadline == At(i.lastRead + DEADLINE))
    && (!s.isOpen ==> !s.joined && i.reading <= 1 && |i.waits| <= 1 && AllCancelled(i.waits))
  }

  predicate OutputOk(s: Session) {
    var o := s.output;
    && o.written + o.queue == o.enqueued
    && (s.isOpen ==> |o.waits| + |o.writes| == 1 && |o.checks| == 1)
    && (s.isOpen ==> o.nonEmpty == Min || (o.nonEmpty == Max && o.queue == []))
    && (s.isOpen && o.writes != [] ==> o.queue != [] && o.writes[0] == o.queue[0])
    && (s.isOpen ==> o.lastWrite <= s.now && o.deadline == if o.wrote then At(o.lastWrite + DEADLINE) else Max)
    && (!s.isOpen ==> |o.waits| + |o.writes| <= 1 && |o.checks| <= 1 && AllCancelled(o.waits) && AllCancelled(o.checks))
  }

  lemma {:induction false} UnlinesPush(lines: seq<string>, line: string)
    ensures Unlines(lines + [line]) == Unlines(lines) + line + "\n"
  {
    if lines == [] {
      assert lines + [line] == [line] && [line][1..] == [];
      assert line + "\n" + "" == line + "\n" == "" + line + "\n";
    } else {
      assert (lines + [line])[1..] == lines[1..] + [line];
      UnlinesPush(lines[1..], line);
      assert lines[0] + "\n" + (Unlines(lines[1..]) + line + "\n") ==
          (lines[0] + "\n" + Unlines(lines[1..])) + line + "\n";
    }
  }

  lemma StartOk(now: nat)
    ensures InputOk(Started(now)) && OutputOk(Started(now))
  {
  }

  lemma LineSplits(before: string, buffer: string, n: nat)
    requires n < |buffer| && buffer[n] == '\n'
    ensures before + buffer == before + buffer[..n] + "\n" + buffer[n + 1..]
  {
    assert buffer == buffer[..n] + [buffer[n]] + buffer[n + 1..];
  }

  lemma ReadInputOk(s: Session)
    requires Enabled(s, ReadDone) && InputOk(s) && s.isOpen
    ensures InputOk(AfterRead(s))
  {
    var i := s.input;
    var n := NewlineAt(i.buffer);
    UnlinesPush(i.handled, i.buffer[..n]);
    LineSplits(Unlines(i.handled), i.buffer, n);
  }

  lemma StepInputOk(s: Session, e: Event)
    requires Enabled(s, e) && InputOk(s)
    ensures InputOk(Do(s, e))
  {
    if e.ReadDone? && s.isOpen {
      ReadInputOk(s);
    } else if e.Receive? {
      assert Unlines(s.input.handled) + (s.input.buffer + e.bytes) == s.input.received + e.bytes;
    }
  }

  lemma EnqueuedOk(s: Session, line: string)
    requires OutputOk(s) && s.isOpen
    ensures OutputOk(s.(output := Enqueued(s.output, line)))
  {
    var o := s.output;
    assert o.written + (o.queue + [line]) == o.written + o.queue + [line];
  }

  lemma ReadOutputOk(s: Session)
    requires Enabled(s, ReadDone) && OutputOk(s) && s.isOpen
    ensures OutputOk(AfterRead(s))
  {
    var msg, s1 := s.input.buffer[..NewlineAt(s.input.buffer)],
        s.(input := LineRead(LineTaken(s.input.(reading := s.input.reading - 1)), s.now));
    EnqueuedOk(s1, msg + "\n");
    EnqueuedOk(s1, "\n");
  }

  lemma WriteOutputOk(s: Session, k: nat, ok: bool)
    requires Enabled(s, WriteDone(k, ok)) && OutputOk(s)
    ensures OutputOk(AfterWrite(s, k, ok))
  {
    var o := s.output;
    if s.isOpen && ok { assert o.written + [o.queue[0]] + o.queue[1..] == o.written + o.queue; }
  }

  lemma StepOutputOk(s: Session, e: Event)
    requires Enabled(s, e) && InputOk(s) && OutputOk(s)
    ensures OutputOk(Do(s, e))
  {
    if e.Deliver? {
      EnqueuedOk(s, e.msg + "\n");
    } else if e.ReadDone? && s.isOpen {
      ReadOutputOk(s);
    } else if e.WriteDone? {
      WriteOutputOk(s, e.k, e.ok);
    }
  }

  lemma {:induction false} RunOk(s: Session, es: seq<Event>)
    requires Possible(s, es) && InputOk(s) && OutputOk(s)
    ensures InputOk(After(s, es)) && OutputOk(After(s, es))
    decreases |es|
  {
    if es != [] {
      StepInputOk(s, es[0]);
      StepOutputOk(s, es[0]);
      RunOk(Do(s, es[0]), es[1..]);
    }
  }

  ghost predicate Reached(s: Session) {
    exists now: nat, es :: Possible(Started(now), es) && After(Started(now), es) == s
  }

  lemma ReachedOk(s: Session)
    requires Reached(s)
    ensures InputOk(s) && OutputOk(s)
  {
    var now: nat, es :| Possible(Started(now), es) && After(Started(now), es) == s;
    StartOk(now);
    RunOk(Started(now), es);
  }

  // ---------- The timer as a condition variable ----------

  /** A running session has exactly one output operation pending, a wait or a write, and one read
      and one wait on each deadline; its timer is asleep for good only while there is nothing to
      send; what it writes is the front of the queue; and lines leave in the order in which they
      were enqueued, each once. */
  lemma OneOutputOperation(s: Session)
    requires Reached(s) && s.isOpen
    ensures |s.output.waits| + |s.output.writes| == 1
    ensures s.input.reading == 1 && |s.input.waits| == 1 && |s.output.checks| == 1
    ensures s.output.nonEmpty == Max ==> s.output.queue == []
    ensures s.output.writes != [] ==> s.output.queue != [] && s.output.writes == [s.output.queue[0]]
    ensures s.output.written + s.output.queue == s.output.enqueued
  {
    ReachedOk(s);
  }

  /** No lost wake-up: with something to send, either it is being written or the wait is over and
      its handler writes the front of the queue. */
  lemma NoLostWakeUp(s: Session)
    requires Reached(s) && s.isOpen && s.output.queue != []
    ensures || s.output.writes == [s.output.queue[0]]
            || (Enabled(s, WaitDone(0)) && Do(s, WaitDone(0)).output.writes == [s.output.queue[0]])
  {
    ReachedOk(s);
  }

  /** Whether the output actor, waiting, can run. */
  predicate Awake(s: Session) {
    s.output.waits != [] && (s.output.waits[0] || s.output.nonEmpty == Min)
  }

  lemma ReadEnqueues(s: Session)
    requires s.isOpen && s.joined && s.output.queue == [] && Enabled(s, ReadDone)
    ensures |Do(s, ReadDone).output.enqueued| > |s.output.enqueued|
  {
  }

  lemma NothingUndone(s: Session, e: Event)
    requires Enabled(s, e)
    ensures |s.output.enqueued| <= |Do(s, e).output.enqueued| && (Do(s, e).isOpen ==> s.isOpen)
  {
  }

  lemma {:induction false} NothingUndoneLater(s: Session, es: seq<Event>)
    requires Possible(s, es)
    ensures |s.output.enqueued| <= |After(s, es).output.enqueued| && (After(s, es).isOpen ==> s.isOpen)
    decreases |es|
  {
    if es != [] {
      NothingUndone(s, es[0]);
      NothingUndoneLater(Do(s, es[0]), es[1..]);
    }
  }

  function WaitsDone(es: seq<Event>): nat {
    if es == [] then 0 else (if es[0].WaitDone? then 1 else 0) + WaitsDone(es[1..])
  }

  /** With nothing to send a step either puts the output actor to sleep or leaves it as it was. */
  lemma SleepStep(s: Session, e: Event)
    requires InputOk(s) && OutputOk(s) && s.isOpen && s.output.queue == [] && Enabled(s, e)
    requires Do(s, e).isOpen && |Do(s, e).output.enqueued| == |s.output.enqueued|
    ensures Do(s, e).output.queue == []
    ensures if e.WaitDone? then Awake(s) && !Awake(Do(s, e)) else Awake(Do(s, e)) == Awake(s)
  {
    assert s.output.writes == [];
    if e.WaitDone? { assert Do(s, e).output.waits == [false] && Do(s, e).output.nonEmpty == Max; }
    if e.ReadDone? { ReadEnqueues(s); }
  }

  lemma {:induction false} SleepRun(s: Session, es: seq<Event>)
    requires InputOk(s) && OutputOk(s) && s.isOpen && s.output.queue == [] && Possible(s, es)
    requires After(s, es).isOpen && |After(s, es).output.enqueued| == |s.output.enqueued|
    ensures WaitsDone(es) + (if Awake(After(s, es)) then 1 else 0) == if Awake(s) then 1 else 0
    decreases |es|
  {
    if es != [] {
      NothingUndone(s, es[0]);
      NothingUndoneLater(Do(s, es[0]), es[1..]);
      SleepStep(s, es[0]);
      StepInputOk(s, es[0]);
      StepOutputOk(s, es[0]);
      SleepRun(Do(s, es[0]), es[1..]);
    }
  }

  /** With nothing to send the output actor runs at most once before the next line is enqueued,
      whatever else happens, and if it has run it is asleep. */
  lemma SleepsWhenEmpty(s: Session, es: seq<Event>, s': Session)
    requires Reached(s) && s.isOpen && s.output.queue == []
    requires Possible(s, es) && s' == After(s, es) && s'.isOpen && s'.output.enqueued == s.output.enqueued
    ensures WaitsDone(es) <= 1
    ensures WaitsDone(es) == 1 ==> forall k :: !Enabled(s', WaitDone(k))
  {
    ReachedOk(s);
    SleepRun(s, es);
    RunOk(s, es);
  }

  /** The lines handled are exactly the complete lines received, in order. */
  lemma LinesHandled(s: Session)
    requires Reached(s)
    ensures Unlines(s.input.handled) + s.input.buffer == s.input.received
  {
    ReachedOk(s);
  }

  /** A read takes the first line l of the buffer. If l has text, l and a newline are queued for the
      client; if it is a heartbeat, a newline is, unless something is queued already. */
  lemma ReadAnswers(s: Session) returns (line: string)
    requires Reached(s) && s.isOpen && Enabled(s, ReadDone)
    ensures '\n' !in line && line + "\n" <= s.input.buffer
    ensures var s' := Do(s, ReadDone);
            && s'.input.handled == s.input.handled + [line]
            && s'.input.buffer == s.input.buffer[|line| + 1..]
            && s'.output.queue == s.output.queue +
                 (if line != "" then [line + "\n"] else if s.output.queue == [] then ["\n"] else [])
            && s'.output.enqueued == s.output.enqueued +
                 (if line != "" then [line + "\n"] else if s.output.queue == [] then ["\n"] else [])
  {
    ReachedOk(s);
    line := s.input.buffer[..NewlineAt(s.input.buffer)];
    TakenFront(s.input.buffer, |line|);
  }

  /** What the events of a run queue for the client, in order: a delivered message with its newline;
      for a line taken, as the last of those handled, the line with its newline; for an empty line a
      newline, if nothing was queued. */
  ghost function Entries(s: Session, es: seq<Event>): seq<string>
    requires Possible(s, es)
    decreases |es|
  {
    if es == [] then [] else
    var s' := Do(s, es[0]);
    (match es[0]
     case Deliver(msg) => [msg + "\n"]
     case ReadDone =>
       if !s.isOpen then [] else
       var line := s'.input.handled[|s'.input.handled| - 1];
       if line != "" then [line + "\n"] else if s.output.queue == [] then ["\n"] else []
     case _ => []) + Entries(s', es[1..])
  }

  lemma Regroup(a: seq<string>, b: seq<string>, c: seq<string>)
    ensures (a + b) + c == a + (b + c)
  {
  }

  lemma {:induction false} RunEnqueues(s: Session, es: seq<Event>)
    requires Reached(s) && Possible(s, es)
    ensures After(s, es).output.enqueued == s.output.enqueued + Entries(s, es)
    decreases |es|
  {
    if es != [] {
      var s' := Do(s, es[0]);
      Reaches(s, es[0]);
      RunEnqueues(s', es[1..]);
      StepEnqueues(s, es[0]);
      var entry := Entries(s, [es[0]]);
      Regroup(s.output.enqueued, entry, Entries(s', es[1..]));
    }
  }

  lemma StepEnqueues(s: Session, e: Event)
    requires Reached(s) && Enabled(s, e)
    ensures Possible(s, [e]) && Do(s, e).output.enqueued == s.output.enqueued + Entries(s, [e])
  {
    assert [e][1..] == [];
    if e.ReadDone? && s.isOpen { var line := ReadAnswers(s); }
  }

  /** Over every run: what is queued for the client, from the construction of the session on, is one
      entry for each message delivered and for each line handled, in order. */
  lemma EnqueuedExactly(now: nat, es: seq<Event>)
    requires Possible(Started(now), es)
    ensures After(Started(now), es).output.enqueued == Entries(Started(now), es)
  {
    assert Possible(Started(now), []) && After(Started(now), []) == Started(now);
    RunEnqueues(Started(now), es);
  }

  // ---------- Stopping ----------

  /** Exactly what stops a session: an error, or a check that finds 30 seconds gone since the last
      read was started or since the last write was started. Whether that write has ended makes no
      difference. */
  lemma StopsExactlyWhen(s: Session, e: Event)
    requires Reached(s) && s.isOpen && Enabled(s, e)
    ensures !Do(s, e).isOpen <==>
            || e.ReadFails? || (e.WriteDone? && !e.ok)
            || (e.InputCheck? && s.now >= s.input.lastRead + 30_000)
            || (e.OutputCheck? && s.output.wrote && s.now >= s.output.lastWrite + 30_000)
  {
    ReachedOk(s);
  }

  /** No deadline is missed: from the moment it has passed the check can run. */
  lemma DeadlinesAreChecked(s: Session)
    requires Reached(s) && s.isOpen
    ensures s.now >= s.input.lastRead + DEADLINE ==> Enabled(s, InputCheck(0))
    ensures s.output.wrote && s.now >= s.output.lastWrite + DEADLINE ==> Enabled(s, OutputCheck(0))
  {
    ReachedOk(s);
  }

  function Handlers(s: Session): nat {
    s.input.reading + |s.input.waits| + |s.output.waits| + |s.output.writes| + |s.output.checks|
  }

  /** In a stopped session a handler that runs is gone and starts nothing, and nothing is sent. */
  lemma StoppedStep(s: Session, e: Event)
    requires InputOk(s) && OutputOk(s) && !s.isOpen && Enabled(s, e)
    ensures !Do(s, e).isOpen && Handlers(Do(s, e)) == Handlers(s) - if e.Tick? then 0 else 1
    ensures Do(s, e).output.written == s.output.written && Do(s, e).input.handled == s.input.handled
  {
  }

  function NotTicks(es: seq<Event>): nat {
    if es == [] then 0 else (if es[0].Tick? then 0 else 1) + NotTicks(es[1..])
  }

  lemma {:induction false} StoppedRun(s: Session, es: seq<Event>)
    requires InputOk(s) && OutputOk(s) && !s.isOpen && Possible(s, es)
    ensures !After(s, es).isOpen && NotTicks(es) == Handlers(s) - Handlers(After(s, es))
    ensures After(s, es).output.written == s.output.written && After(s, es).input.handled == s.input.handled
    decreases |es|
  {
    if es != [] {
      StoppedStep(s, es[0]);
      StepInputOk(s, es[0]);
      StepOutputOk(s, es[0]);
      StoppedRun(Do(s, es[0]), es[1..]);
    }
  }

  /** After stop the handlers pending then, at most four, run once each: every one of them can
      run, and none starts anything. */
  lemma EndsAfterStop(s: Session, es: seq<Event>)
    requires Reached(s) && !s.isOpen && Possible(s, es)
    ensures NotTicks(es) <= Handlers(s) <= 4
    ensures NotTicks(es) == Handlers(s) - Handlers(After(s, es))
    ensures After(s, es).output.written == s.output.written && After(s, es).input.handled == s.input.handled
    ensures s.input.reading > 0 ==> Enabled(s, ReadFails)
    ensures forall k | 0 <= k < |s.input.waits| :: Enabled(s, InputCheck(k))
    ensures forall k | 0 <= k < |s.output.waits| :: Enabled(s, WaitDone(k))
    ensures forall k | 0 <= k < |s.output.writes| :: Enabled(s, WriteDone(k, true))
    ensures forall k | 0 <= k < |s.output.checks| :: Enabled(s, OutputCheck(k))
  {
    ReachedOk(s);
    StoppedRun(s, es);
  }

  // ---------- A session stopped with nothing to send ----------

  lemma Reaches(s: Session, e: Event)
    requires Reached(s) && Enabled(s, e)
    ensures Reached(Do(s, e))
  {
    var now: nat, es :| Possible(Started(now), es) && After(Started(now), es) == s;
    Extended(Started(now), es, e);
    assert Possible(Started(now), es + [e]) && After(Started(now), es + [e]) == Do(s, e);
  }

  lemma {:induction false} Extended(s: Session, es: seq<Event>, e: Event)
    requires Possible(s, es) && Enabled(After(s, es), e)
    ensures Possible(s, es + [e]) && After(s, es + [e]) == Do(After(s, es), e)
    decreases |es|
  {
    if es == [] {
      assert es + [e] == [e] && [e][1..] == [];
    } else {
      assert (es + [e])[1..] == es[1..] + [e];
      Extended(Do(s, es[0]), es[1..], e);
    }
  }

  /** The input actor with nothing buffered, its last read started at `lastRead`. */
  function Listening(received: string, handled: seq<string>, lastRead: nat): Input {
    Input(1, "", At(lastRead + DEADLINE), [lastRead > 0], received, handled, lastRead)
  }

  /** The first line is being written since time 0. */
  function Sending(line: string): Output {
    Output([line], Min, [], [line], At(DEADLINE), [true], [line], [], true, 0)
  }

  lemma SendingReached(msg: string)
    ensures Reached(Session(0, true, true, Listening("", [], 0), Sending(msg + "\n")))
  {
    var s0 := Started(0);
    assert Possible(s0, []) && After(s0, []) == s0;
    var s1 := Do(s0, Deliver(msg));
    assert s1.output.queue == [msg + "\n"] && s1.output.enqueued == [msg + "\n"] && s1.output.waits == [true];
    Reaches(s0, Deliver(msg));
    Reaches(s1, WaitDone(0));
    assert Cancelled([false]) == [true] && Do(s1, WaitDone(0)).output == Sending(msg + "\n");
    assert s0.input == Listening("", [], 0);
  }

  /** A heartbeat is not answered while something is queued. */
  lemma HeartbeatIgnored(s: Session)
    requires Reached(s) && s.isOpen && s.input.reading == 1 && s.input.buffer == "" && s.output.queue != []
    ensures Reached(s.(input := s.input.(deadline := At(s.now + DEADLINE), waits := Cancelled(s.input.waits),
                                         lastRead := s.now, received := s.input.received + "\n",
                                         handled := s.input.handled + [""])))
  {
    var nl := ['\n'];
    assert s.input.buffer + nl == nl;
    Reaches(s, Receive(nl));
    HeartbeatRead(s.(input := s.input.(buffer := nl, received := s.input.received + nl)), nl);
  }

  lemma HeartbeatRead(s: Session, nl: string)
    requires Reached(s) && s.isOpen && s.input.reading == 1 && s.input.buffer == nl == ['\n'] && s.output.queue != []
    ensures Reached(s.(input := s.input.(deadline := At(s.now + DEADLINE), waits := Cancelled(s.input.waits),
                                         lastRead := s.now, buffer := "", handled := s.input.handled + [""])))
  {
    assert nl[..0] == "" && nl[1..] == "" && NewlineAt(nl) == 0;
    Reaches(s, ReadDone);
  }

  lemma HeartbeatWhileSending(line: string)
    requires Reached(Session(0, true, true, Listening("", [], 0), Sending(line)))
    ensures Reached(Session(29_000, true, true, Listening("\n", [""], 20_001), Sending(line)))
  {
    var s0 := Session(0, true, true, Listening("", [], 0), Sending(line));
    Reaches(s0, Tick(20_001));
    var s1 := s0.(now := 20_001);
    HeartbeatIgnored(s1);
    assert "" + "\n" == "\n" && [] + [""] == [""] && Cancelled([false]) == [true];
    Reaches(Session(20_001, true, true, Listening("\n", [""], 20_001), Sending(line)), Tick(8_999));
  }

  /** The write of the only line ends, the output actor goes to sleep, and a second passes. */
  lemma WriteEnds(s: Session)
    requires Reached(s) && s.isOpen && |s.output.queue| == 1 && s.output.writes != []
    ensures Reached(s.(now := s.now + 1_000,
                       output := s.output.(queue := [], written := s.output.written + [s.output.queue[0]],
                                           writes := [], waits := [false], nonEmpty := Max)))
  {
    ReachedOk(s);
    var o := s.output.(queue := [], written := s.output.written + [s.output.queue[0]], writes := [], waits := [false]);
    Reaches(s, WriteDone(0, true));
    assert Do(s, WriteDone(0, true)) == s.(output := o);
    Reaches(s.(output := o), WaitDone(0));
    assert Do(s.(output := o), WaitDone(0)) == s.(output := o.(nonEmpty := Max));
    Reaches(s.(output := o.(nonEmpty := Max)), Tick(1_000));
  }

  /** One message goes out in 29 seconds, within its deadline; the client sends a heartbeat in the
      meantime, which is not answered because the queue is not empty. One second later the output
      check closes the session: the write is over, nothing is queued, and the input deadline has
      more than 19 seconds to go. */
  lemma LiveSessionStopped(msg: string)
    ensures exists s :: Reached(s) && s.isOpen && s.output.queue == [] && s.output.writes == []
              && s.output.written == [msg + "\n"] && s.now + 19_000 < s.input.lastRead + DEADLINE
              && Enabled(s, OutputCheck(0)) && !Do(s, OutputCheck(0)).isOpen
  {
    var line := msg + "\n";
    SendingReached(msg);
    HeartbeatWhileSending(line);
    WriteEnds(Session(29_000, true, true, Listening("\n", [""], 20_001), Sending(line)));
    assert [] + [line] == [line];
  }
}
