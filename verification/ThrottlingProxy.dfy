/** throttling_proxy.cpp: one direction of the proxy, a token bucket made of two coroutines and a
    bounded channel. Time is in nanoseconds. */
module ThrottlingProxy {

  const NUMBER_OF_TOKENS := 100
  const BYTES_PER_TOKEN := 20 * 1024
  const TOKEN_INTERVAL := 100_000_000
  const DATA_SIZE := 4096
  const SIZE_T := 0x1_0000_0000_0000_0000

  /** Where produce_tokens stands: about to send, held up by a full channel, sent, or asleep. */
  datatype Producer = Sending | Blocked | Sent | Sleeping(expiry: nat)

  /** Where transfer stands: in the inner loop with some credit (none: about to receive), waiting
      for a token, or writing what it has read. */
  datatype Transfer = Holding(available: int) | Waiting | Writing(available: int, n: nat)

  /** `forwarded` counts the bytes handed to async_write, `issued` the calls of async_send. */
  datatype State = State(now: nat, producer: Producer, buffered: nat, transfer: Transfer, forwarded: nat, issued: nat)

  datatype Event = Tick(d: nat) | Send | SetTimer | TimerFires | Receive | Read(n: nat) | Written

  const START := State(0, Sending, 0, Holding(0), 0, 0)

  predicate Enabled(s: State, e: Event) {
    match e
    case Tick(_) => true
    case Send => s.producer.Sending?
    case SetTimer => s.producer.Sent?
    case TimerFires => s.producer.Sleeping? && s.producer.expiry <= s.now
    case Receive => s.transfer == Holding(0)
    case Read(n) => s.transfer.Holding? && 0 < s.transfer.available && n <= DATA_SIZE && n <= s.transfer.available
    case Written => s.transfer.Writing?
  }

  /** A waiting receiver gets the token, else the buffer, and a sender waits for room in it. */
  function AfterSend(s: State): State {
    var s' := s.(issued := s.issued + 1);
    if s.transfer.Waiting? then s'.(transfer := Holding(BYTES_PER_TOKEN), producer := Sent)
    else if s.buffered < NUMBER_OF_TOKENS then s'.(buffered := s.buffered + 1, producer := Sent)
    else s'.(producer := Blocked)
  }

  /** A token taken from the buffer makes room for that of a waiting sender. */
  function AfterReceive(s: State): State {
    if s.producer.Blocked? then s.(producer := Sent, transfer := Holding(BYTES_PER_TOKEN))
    else if s.buffered > 0 then s.(buffered := s.buffered - 1, transfer := Holding(BYTES_PER_TOKEN))
    else s.(transfer := Waiting)
  }

  /** Subtraction of std::size_t. */
  function Subtract(a: int, b: int): int {
    if b <= a then a - b else a - b + SIZE_T
  }

  function Do(s: State, e: Event): State
    requires Enabled(s, e)
  {
    match e
    case Tick(d) => s.(now := s.now + d)
    case Send => AfterSend(s)
    case SetTimer => s.(producer := Sleeping(s.now + TOKEN_INTERVAL))
    case TimerFires => s.(producer := Sending)
    case Receive => AfterReceive(s)
    case Read(n) => s.(transfer := Writing(s.transfer.available, n), forwarded := s.forwarded + n)
    case Written => s.(transfer := Holding(Subtract(s.transfer.available, s.transfer.n)))
  }

  /** Credit in hand that has not been forwarded. */
  function Credit(t: Transfer): int {
    match t
    case Holding(available) => available
    case Waiting => 0
    case Writing(available, n) => available - n
  }

  /** The channel has one side waiting only when it must, credit never exceeds one token, and
      every token issued is in the channel, in hand or forwarded. */
  predicate Valid(s: State) {
    && s.buffered <= NUMBER_OF_TOKENS
    && (s.producer.Blocked? ==> s.buffered == NUMBER_OF_TOKENS)
    && (s.transfer.Waiting? ==> s.buffered == 0)
    && 0 <= Credit(s.transfer) <= BYTES_PER_TOKEN
    && (s.transfer.Writing? ==> s.transfer.n <= DATA_SIZE)
    && s.forwarded + Credit(s.transfer) + BYTES_PER_TOKEN * Held(s) == BYTES_PER_TOKEN * s.issued
  }

  function Held(s: State): nat {
    s.buffered + if s.producer.Blocked? then 1 else 0
  }

  lemma StepValid(s: State, e: Event)
    requires Valid(s) && Enabled(s, e)
    ensures Valid(Do(s, e)) && s.now <= Do(s, e).now
  {
  }

  ghost predicate Possible(s: State, es: seq<Event>)
    decreases |es|
  {
    es == [] || (Enabled(s, es[0]) && Possible(Do(s, es[0]), es[1..]))
  }

  ghost function After(s: State, es: seq<Event>): State
    requires Possible(s, es)
    decreases |es|
  {
    if es == [] then s else After(Do(s, es[0]), es[1..])
  }

  lemma {:induction false} RunValid(s: State, es: seq<Event>)
    requires Valid(s) && Possible(s, es)
    ensures Valid(After(s, es)) && s.now <= After(s, es).now
    decreases |es|
  {
    if es != [] {
      StepValid(s, es[0]);
      RunValid(Do(s, es[0]), es[1..]);
    }
  }

  // ---------- The rate bound ----------

  /** The most tokens that can still be issued, or leave the producer, by time t. */
  function Coming(s: State, t: nat): nat
    requires s.now <= t
  {
    match s.producer
    case Sending => 1 + (t - s.now) / TOKEN_INTERVAL
    case Blocked => 1 + (t - s.now) / TOKEN_INTERVAL
    case Sent => (t - s.now) / TOKEN_INTERVAL
    case Sleeping(expiry) =>
      if expiry > t then 0 else 1 + (t - if expiry > s.now then expiry else s.now) / TOKEN_INTERVAL
  }

  /** Bytes that can have been forwarded by time t. */
  function Reach(s: State, t: nat): int
    requires s.now <= t
  {
    s.forwarded + Credit(s.transfer) + BYTES_PER_TOKEN * (s.buffered + Coming(s, t))
  }

  /** No step adds to what can be reached by time t. */
  lemma ReachNeverGrows(s: State, e: Event, t: nat)
    requires Valid(s) && Enabled(s, e) && Do(s, e).now <= t
    ensures Reach(Do(s, e), t) <= Reach(s, t)
  {
  }

  lemma {:induction false} TimeGoesOn(s: State, es: seq<Event>)
    requires Possible(s, es)
    ensures s.now <= After(s, es).now
    decreases |es|
  {
    if es != [] { TimeGoesOn(Do(s, es[0]), es[1..]); }
  }

  lemma {:induction false} ForwardedWithinReach(s: State, es: seq<Event>, t: nat)
    requires Valid(s) && Possible(s, es) && After(s, es).now <= t
    ensures s.now <= t && Reach(After(s, es), t) <= Reach(s, t)
    decreases |es|
  {
    RunValid(s, es);
    if es != [] {
      var s' := Do(s, es[0]);
      StepValid(s, es[0]);
      ForwardedWithinReach(s', es[1..], t);
      ReachNeverGrows(s, es[0], t);
    }
  }

  lemma ReachRange(s: State, t: nat)
    requires Valid(s) && s.now <= t
    ensures s.forwarded <= Reach(s, t) <= s.forwarded + BYTES_PER_TOKEN * (NUMBER_OF_TOKENS + 1 + Coming(s, t))
  {
  }

  lemma WindowFrom(s: State, es: seq<Event>, s': State)
    requires Valid(s) && Possible(s, es) && s' == After(s, es)
    ensures s.now <= s'.now
    ensures s'.forwarded - s.forwarded <= BYTES_PER_TOKEN * (NUMBER_OF_TOKENS + 1 + Coming(s, s'.now))
  {
    RunValid(s, es);
    ForwardedWithinReach(s, es, s'.now);
    ReachRange(s, s'.now);
    ReachRange(s', s'.now);
  }

  /** In any window of a run no more than 102 tokens' worth of bytes is forwarded, plus one
      token's for every whole interval in it. */
  lemma WindowBound(before: seq<Event>, during: seq<Event>, s: State, s': State)
    requires Possible(START, before) && s == After(START, before)
    requires Possible(s, during) && s' == After(s, during)
    ensures s.now <= s'.now
    ensures s'.forwarded - s.forwarded <= 20480 * (102 + (s'.now - s.now) / 100_000_000)
  {
    RunValid(START, before);
    WindowFrom(s, during, s');
    ComingBound(s, s'.now);
  }

  lemma ComingBound(s: State, t: nat)
    requires s.now <= t
    ensures Coming(s, t) <= 1 + (t - s.now) / TOKEN_INTERVAL
  {
  }

  /** By time t at most one token's worth, plus one for every whole interval. */
  lemma StartBound(es: seq<Event>)
    requires Possible(START, es)
    ensures After(START, es).forwarded <= 20480 * (1 + After(START, es).now / 100_000_000)
  {
    RunValid(START, es);
    ForwardedWithinReach(START, es, After(START, es).now);
  }

  /** The remaining-credit subtraction never goes below zero. */
  lemma NoUnderflow(es: seq<Event>)
    requires Possible(START, es) && After(START, es).transfer.Writing?
    ensures After(START, es).transfer.n <= After(START, es).transfer.available && After(START, es).transfer.n <= 4096
    ensures Do(After(START, es), Written).transfer ==
        Holding(After(START, es).transfer.available - After(START, es).transfer.n)
  {
    RunValid(START, es);
  }

  // ---------- The bounds are attained ----------

  /** s' is reached from s after some run that takes `d` nanoseconds. */
  ghost predicate Reaches(s: State, s': State, d: nat) {
    s'.now == s.now + d && exists es :: Possible(s, es) && After(s, es) == s'
  }

  lemma Here(s: State)
    ensures Reaches(s, s, 0)
  {
    assert Possible(s, []) && After(s, []) == s;
  }

  lemma First(s: State, e: Event, s': State, d: nat)
    requires Enabled(s, e) && Do(s, e).now <= s.now + d
    requires Reaches(Do(s, e), s', s.now + d - Do(s, e).now)
    ensures Reaches(s, s', d)
  {
    var es :| Possible(Do(s, e), es) && After(Do(s, e), es) == s';
    var run := [e] + es;
    assert run[1..] == es;
    assert Possible(s, run) && After(s, run) == s';
  }

  /** Credit in hand can be forwarded at once. */
  lemma {:induction false} Spend(s: State)
    requires Valid(s) && s.transfer.Holding?
    ensures Reaches(s, s.(transfer := Holding(0), forwarded := s.forwarded + s.transfer.available), 0)
    decreases Credit(s.transfer)
  {
    var a := s.transfer.available;
    if a == 0 {
      Here(s);
    } else {
      var n, end := if a < DATA_SIZE then a else DATA_SIZE, s.(transfer := Holding(0), forwarded := s.forwarded + a);
      var s1 := Do(s, Read(n));
      var s2 := Do(s1, Written);
      assert s2 == s.(transfer := Holding(a - n), forwarded := s.forwarded + n);
      Spend(s2);
      First(s1, Written, end, 0);
      First(s, Read(n), end, 0);
    }
  }

  /** A buffer of tokens can be forwarded at once. */
  lemma {:induction false} Drain(s: State)
    requires Valid(s) && s.transfer.Holding? && !s.producer.Blocked?
    ensures Reaches(s, s.(transfer := Holding(0), buffered := 0,
                          forwarded := s.forwarded + s.transfer.available + BYTES_PER_TOKEN * s.buffered), 0)
    decreases s.buffered
  {
    var s1 := s.(transfer := Holding(0), forwarded := s.forwarded + s.transfer.available);
    Spend(s);
    if s.buffered > 0 {
      var s2, end := Do(s1, Receive), s1.(buffered := 0, forwarded := s1.forwarded + BYTES_PER_TOKEN * s.buffered);
      assert s2 == s1.(buffered := s.buffered - 1, transfer := Holding(BYTES_PER_TOKEN));
      Drain(s2);
      First(s1, Receive, end, 0);
      Then(s, s1, end, 0, 0);
    }
  }

  lemma {:induction false} Then(s: State, s1: State, s2: State, d1: nat, d2: nat)
    requires Reaches(s, s1, d1) && Reaches(s1, s2, d2)
    ensures Reaches(s, s2, d1 + d2)
  {
    var es :| Possible(s, es) && After(s, es) == s1;
    ThenFrom(s, es, s2, d1, d2);
  }

  lemma {:induction false} ThenFrom(s: State, es: seq<Event>, s2: State, d1: nat, d2: nat)
    requires Possible(s, es) && After(s, es).now == s.now + d1 && Reaches(After(s, es), s2, d2)
    ensures Reaches(s, s2, d1 + d2)
    decreases |es|
  {
    if es != [] {
      var s1 := Do(s, es[0]);
      TimeGoesOn(s1, es[1..]);
      ThenFrom(s1, es[1..], s2, s.now + d1 - s1.now, d2);
      First(s, es[0], s2, d1 + d2);
    }
  }

  /** One interval later there is one more token in the buffer. */
  lemma NextToken(s: State)
    requires Valid(s) && s.producer.Sending? && s.transfer.Holding? && s.buffered < NUMBER_OF_TOKENS
    ensures Reaches(s, s.(buffered := s.buffered + 1, issued := s.issued + 1, now := s.now + TOKEN_INTERVAL),
        TOKEN_INTERVAL)
  {
    var s1 := Do(s, Send);
    var s2 := Do(s1, SetTimer);
    var s3 := Do(s2, Tick(TOKEN_INTERVAL));
    var s4 := Do(s3, TimerFires);
    Here(s4);
    First(s3, TimerFires, s4, 0);
    First(s2, Tick(TOKEN_INTERVAL), s4, TOKEN_INTERVAL);
    First(s1, SetTimer, s4, TOKEN_INTERVAL);
    First(s, Send, s4, TOKEN_INTERVAL);
  }

  lemma {:induction false} Fill(s: State, k: nat)
    requires Valid(s) && s.producer.Sending? && s.transfer.Holding? && s.buffered + k <= NUMBER_OF_TOKENS
    ensures Reaches(s, s.(buffered := s.buffered + k, issued := s.issued + k,
        now := s.now + k * TOKEN_INTERVAL), k * TOKEN_INTERVAL)
    decreases k
  {
    if k == 0 {
      Here(s);
    } else {
      var s1 := s.(buffered := s.buffered + 1, issued := s.issued + 1, now := s.now + TOKEN_INTERVAL);
      NextToken(s);
      Fill(s1, k - 1);
      Then(s, s1, s.(buffered := s.buffered + k, issued := s.issued + k, now := s.now + k * TOKEN_INTERVAL),
           TOKEN_INTERVAL, (k - 1) * TOKEN_INTERVAL);
    }
  }

  /** From a spent channel one more token is forwarded in every interval. */
  lemma {:induction false} Steady(s: State, k: nat)
    requires Valid(s) && s.producer.Sent? && s.buffered == 0 && s.transfer == Holding(0)
    ensures Reaches(s, s.(now := s.now + k * TOKEN_INTERVAL, issued := s.issued + k,
                          forwarded := s.forwarded + k * BYTES_PER_TOKEN), k * TOKEN_INTERVAL)
    decreases k
  {
    if k == 0 {
      Here(s);
    } else {
      var s1 := s.(now := s.now + TOKEN_INTERVAL, producer := Sending);
      var s2 := s.(now := s.now + TOKEN_INTERVAL, issued := s.issued + 1, forwarded := s.forwarded + BYTES_PER_TOKEN);
      var s' := s.(now := s.now + k * TOKEN_INTERVAL, issued := s.issued + k,
          forwarded := s.forwarded + k * BYTES_PER_TOKEN);
      Sleep(s);
      SendAndSpend(s1);
      Then(s, s1, s2, TOKEN_INTERVAL, 0);
      Steady(s2, k - 1);
      Then(s, s2, s', TOKEN_INTERVAL, (k - 1) * TOKEN_INTERVAL);
    }
  }

  lemma Sleep(s: State)
    requires s.producer.Sent?
    ensures Reaches(s, s.(now := s.now + TOKEN_INTERVAL, producer := Sending), TOKEN_INTERVAL)
  {
    var s1 := Do(s, SetTimer);
    var s2 := Do(s1, Tick(TOKEN_INTERVAL));
    var s3 := Do(s2, TimerFires);
    Here(s3);
    First(s2, TimerFires, s3, 0);
    First(s1, Tick(TOKEN_INTERVAL), s3, TOKEN_INTERVAL);
    First(s, SetTimer, s3, TOKEN_INTERVAL);
  }

  lemma SendAndSpend(s: State)
    requires Valid(s) && s.producer.Sending? && s.buffered == 0 && s.transfer == Holding(0)
    ensures Reaches(s, s.(producer := Sent, issued := s.issued + 1, forwarded := s.forwarded + BYTES_PER_TOKEN), 0)
  {
    var s1 := Do(s, Send);
    StepValid(s, Send);
    Drain(s1);
    First(s, Send, s1.(buffered := 0, forwarded := s.forwarded + BYTES_PER_TOKEN), 0);
  }

  /** StartBound is met exactly at the end of every k-th interval. */
  lemma StartBoundAttained(k: nat)
    ensures exists s: State :: Reaches(START, s, k * 100_000_000) && s.forwarded == 20480 * (1 + k)
  {
    var s1 := START.(producer := Sent, issued := 1, forwarded := BYTES_PER_TOKEN);
    SendAndSpend(START);
    Steady(s1, k);
    var s2 := s1.(now := k * TOKEN_INTERVAL, issued := 1 + k, forwarded := BYTES_PER_TOKEN + k * BYTES_PER_TOKEN);
    Then(START, s1, s2, 0, k * TOKEN_INTERVAL);
  }

  /** So is WindowBound: a full channel, a sender held up by it and a token in hand make the 102
      tokens that can go at once, and each interval after them brings one more. */
  lemma WindowBoundAttained(k: nat)
    ensures exists s: State, s': State :: Reaches(START, s, s.now) && Reaches(s, s', k * 100_000_000)
              && s'.forwarded - s.forwarded == 20480 * (102 + k)
  {
    var s := ReachHeld();
    Burst(s, k);
  }

  lemma ReachHeld() returns (held: State)
    ensures Valid(held) && held.producer.Blocked? && held.transfer == Holding(BYTES_PER_TOKEN)
    ensures Reaches(START, held, held.now)
  {
    var one := State(TOKEN_INTERVAL, Sending, 0, Holding(BYTES_PER_TOKEN), 0, 1);
    var full := one.(buffered := NUMBER_OF_TOKENS, issued := 101, now := 101 * TOKEN_INTERVAL);
    held := Do(full, Send);
    NextToken(START);
    Here(one);
    First(one.(buffered := 1, transfer := Holding(0)), Receive, one, 0);
    Then(START, one.(buffered := 1, transfer := Holding(0)), one, TOKEN_INTERVAL, 0);
    Fill(one, NUMBER_OF_TOKENS);
    Here(held);
    First(full, Send, held, 0);
    Then(one, full, held, NUMBER_OF_TOKENS * TOKEN_INTERVAL, 0);
    Then(START, one, held, TOKEN_INTERVAL, NUMBER_OF_TOKENS * TOKEN_INTERVAL);
  }

  lemma Burst(held: State, k: nat)
    requires Valid(held) && held.producer.Blocked? && held.transfer == Holding(BYTES_PER_TOKEN)
    ensures exists s': State :: Reaches(held, s', k * TOKEN_INTERVAL)
              && s'.forwarded - held.forwarded == BYTES_PER_TOKEN * (NUMBER_OF_TOKENS + 2 + k)
  {
    var spent := held.(transfer := Holding(0), forwarded := held.forwarded + BYTES_PER_TOKEN);
    var room := Do(spent, Receive);
    var end := room.(transfer := Holding(0), buffered := 0,
        forwarded := held.forwarded + BYTES_PER_TOKEN * (NUMBER_OF_TOKENS + 2));
    Spend(held);
    Drain(room);
    First(spent, Receive, end, 0);
    Then(held, spent, end, 0, 0);
    Steady(end, k);
    var s' := end.(now := end.now + k * TOKEN_INTERVAL, issued := end.issued + k,
        forwarded := end.forwarded + k * BYTES_PER_TOKEN);
    Then(held, end, s', 0, k * TOKEN_INTERVAL);
  }

  // ---------- The two coroutines ----------

  class Direction {
    var now: nat
    var producer: Producer
    var buffered: nat
    var transfer: Transfer
    var forwarded: nat
    var issued: nat

    function View(): State
      reads this
    {
      State(now, producer, buffered, transfer, forwarded, issued)
    }

    constructor ()
      ensures View() == START
    {
      now, producer, buffered, transfer, forwarded, issued := 0, Sending, 0, Holding(0), 0, 0;
    }

    /** tokens.async_send of produce_tokens. */
    method AsyncSend()
      requires Enabled(View(), Send)
      modifies this
      ensures View() == Do(old(View()), Send)
    {
      issued := issued + 1;
      if transfer.Waiting? {
        transfer := Holding(BYTES_PER_TOKEN);
        producer := Sent;
      } else if buffered < NUMBER_OF_TOKENS {
        buffered := buffered + 1;
        producer := Sent;
      } else {
        producer := Blocked;
      }
    }

    /** tokens.async_receive of transfer. */
    method AsyncReceive()
      requires Enabled(View(), Receive)
      modifies this
      ensures View() == Do(old(View()), Receive)
    {
      if producer.Blocked? {
        producer := Sent;
        transfer := Holding(BYTES_PER_TOKEN);
      } else if buffered > 0 {
        buffered := buffered - 1;
        transfer := Holding(BYTES_PER_TOKEN);
      } else {
        transfer := Waiting;
      }
    }

    method ExpiresAfter()
      requires Enabled(View(), SetTimer)
      modifies this
      ensures View() == Do(old(View()), SetTimer)
    {
      producer := Sleeping(now + TOKEN_INTERVAL);
    }

    /** The inner loop of transfer, for reads that bring the given numbers of bytes: it uses up
        the token, never more. */
    method SpendToken(arrivals: seq<nat>) returns (used: nat)
      requires Valid(View()) && transfer == Holding(BYTES_PER_TOKEN)
      modifies this`transfer, this`forwarded
      ensures Valid(View()) && transfer.Holding? && used <= |arrivals|
      ensures forwarded == old(forwarded) + BYTES_PER_TOKEN - transfer.available
      ensures transfer.available > 0 ==> used == |arrivals|
    {
      used := 0;
      while used < |arrivals| && transfer.available > 0
        invariant Valid(View()) && transfer.Holding? && used <= |arrivals|
        invariant forwarded == old(forwarded) + BYTES_PER_TOKEN - transfer.available
      {
        var available := transfer.available;
        var size := if available < DATA_SIZE then available else DATA_SIZE;
        var n := if arrivals[used] < size then arrivals[used] else size;
        forwarded := forwarded + n;
        transfer := Holding(Subtract(available, n));
        used := used + 1;
      }
    }
  }
}
