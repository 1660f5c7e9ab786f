/** Every run of the token ring of actor.cpp: nothing is lost, it ends, and it ends complete. */
module TokenRingRuns {
  import opened Actors
  import opened Sums
  import opened TokenRing

  // ---------- Conservation and the distance to the end ----------

  function TokensIn(box: seq<Message>): nat {
    if box == [] then 0 else (if box[0].Token? then 1 else 0) + TokensIn(box[1..])
  }

  lemma {:induction false} TokensInPush(box: seq<Message>, msg: Message)
    ensures TokensIn(box + [msg]) == TokensIn(box) + if msg.Token? then 1 else 0
  {
    if box != [] {
      assert (box + [msg])[1..] == box[1..] + [msg];
      TokensInPush(box[1..], msg);
    }
  }

  ghost function PerBox(boxes: seq<seq<Message>>): seq<int> {
    seq(|boxes|, j requires 0 <= j < |boxes| => TokensIn(boxes[j]))
  }

  ghost function InFlight(r: Ring): int {
    Sum(PerBox(r.boxes))
  }

  ghost function Launched(r: Ring): int {
    if r.sent > r.n then r.sent - r.n else 0
  }

  /** Tokens are neither lost nor made: each one sent is in a box or has been reported. */
  ghost predicate Conserved(r: Ring) {
    InFlight(r) + |r.rbox| + |r.received| + |r.got| == Launched(r)
  }

  ghost function PerMember(members: seq<MemberState>): seq<int> {
    seq(|members|, j requires 0 <= j < |members| => if members[j].handlers == [InitHandler] then 1 else 0)
  }

  ghost function PerToken(moves: seq<nat>, top: nat): seq<int> {
    seq(|moves|, o requires 0 <= o < |moves| => top + 1 - moves[o])
  }

  /** Sends, init calls, token calls, reports and waits still to come. */
  ghost function Remaining(r: Ring): int {
    (2 * r.n - r.sent) + Sum(PerMember(r.members)) + Sum(PerToken(r.moves, r.top))
    + (r.n - |r.received| - |r.got|) + (r.n - |r.got|)
  }

  /** Calls at member j for a token first sent to o that has made c calls. */
  ghost function VisitCount(o: nat, c: nat, n: nat, j: nat): nat
    requires n > 0
  {
    if c == 0 then 0 else VisitCount(o, c - 1, n, j) + At(o, c - 1, n, j)
  }

  ghost function At(o: nat, c: nat, n: nat, j: nat): nat
    requires n > 0
  {
    if (o + c) % n == j then 1 else 0
  }

  ghost function PerVisit(moves: seq<nat>, n: nat, j: nat): seq<int>
    requires n > 0
  {
    seq(|moves|, o requires 0 <= o < |moves| => VisitCount(o, moves[o], n, j))
  }

  ghost predicate HandledOk(r: Ring, j: nat)
    requires Shaped(r) && j < r.n
  {
    r.handled[j] == Sum(PerVisit(r.moves, r.n, j))
  }

  ghost predicate Books(r: Ring)
    requires Shaped(r)
  {
    Conserved(r) && forall j | 0 <= j < r.n :: HandledOk(r, j)
  }

  lemma StartBooks(n: nat, top: nat)
    requires n > 0
    ensures Ok(Start(n, top)) && Books(Start(n, top))
    ensures Remaining(Start(n, top)) == n * (top + 6)
  {
    var r := Start(n, top);
    StartOk(n, top);
    SumConstant(PerBox(r.boxes), 0);
    SumConstant(PerMember(r.members), 1);
    SumConstant(PerToken(r.moves, top), top + 1);
    assert n * (top + 1) + 5 * n == n * (top + 6);
    forall j | 0 <= j < n ensures HandledOk(r, j) { SumConstant(PerVisit(r.moves, n, j), 0); }
  }

  // ---------- One step ----------

  lemma BoxChanged(boxes: seq<seq<Message>>, j: nat, box: seq<Message>)
    requires j < |boxes|
    ensures Sum(PerBox(boxes[j := box])) == Sum(PerBox(boxes)) - TokensIn(boxes[j]) + TokensIn(box)
  {
    SumUpdate(PerBox(boxes), j, TokensIn(box));
    assert PerBox(boxes[j := box]) == PerBox(boxes)[j := TokensIn(box)];
  }

  lemma Posted(r: Ring, to: nat, msg: Message)
    requires to < |r.boxes|
    ensures InFlight(Post(r, Send(msg, Member(to)))) == InFlight(r) + if msg.Token? then 1 else 0
  {
    BoxChanged(r.boxes, to, r.boxes[to] + [msg]);
    TokensInPush(r.boxes[to], msg);
  }

  lemma VisitCounted(moves: seq<nat>, o: nat, n: nat, i: nat)
    requires o < |moves| && n > 0
    ensures Sum(PerVisit(moves[o := moves[o] + 1], n, i)) == Sum(PerVisit(moves, n, i)) + At(o, moves[o], n, i)
  {
    var v := VisitCount(o, moves[o] + 1, n, i);
    SumUpdate(PerVisit(moves, n, i), o, v);
    assert PerVisit(moves[o := moves[o] + 1], n, i) == PerVisit(moves, n, i)[o := v];
  }

  lemma MoveCounted(moves: seq<nat>, o: nat, top: nat)
    requires o < |moves|
    ensures Sum(PerToken(moves[o := moves[o] + 1], top)) == Sum(PerToken(moves, top)) - 1
  {
    SumUpdate(PerToken(moves, top), o, top - moves[o]);
    assert PerToken(moves[o := moves[o] + 1], top) == PerToken(moves, top)[o := top - moves[o]];
  }

  lemma HandledCounted(r: Ring, r': Ring, j: nat, o: nat, i: nat)
    requires Shaped(r) && Shaped(r') && j < r.n && o < r.n && i < r.n && HandledOk(r, i)
    requires r'.n == r.n && r'.handled == r.handled[j := r.handled[j] + 1] && r'.moves == r.moves[o := r.moves[o] + 1]
    requires (o + r.moves[o]) % r.n == j
    ensures HandledOk(r', i)
  {
    VisitCounted(r.moves, o, r.n, i);
  }

  /** A call for token o at member j, its (moves[o] + 1)st. */
  lemma CallCounted(r: Ring, j: nat)
    requires Ok(r) && Books(r) && Can(r, MemberRuns(j)) && r.boxes[j][0].Token? && TokenOk(r, j, 0)
    ensures var r' := Counted(r, j);
            && Sum(PerToken(r'.moves, r.top)) == Sum(PerToken(r.moves, r.top)) - 1
            && InFlight(r') == InFlight(r) - 1
            && forall i | 0 <= i < r.n :: HandledOk(r', i)
  {
    var o, r' := r.boxes[j][0].origin, Counted(r, j);
    BoxChanged(r.boxes, j, r.boxes[j][1..]);
    MoveCounted(r.moves, o, r.top);
    forall i | 0 <= i < r.n ensures HandledOk(r', i) {
      assert HandledOk(r, i);
      HandledCounted(r, r', j, o, i);
    }
  }

  lemma SameHandled(r: Ring, r': Ring)
    requires Shaped(r) && Shaped(r') && Books(r) && r'.n == r.n && r'.moves == r.moves && r'.handled == r.handled
    ensures forall j | 0 <= j < r.n :: HandledOk(r', j)
  {
    forall j | 0 <= j < r.n ensures HandledOk(r', j) { assert HandledOk(r, j); }
  }

  lemma InitBooks(r: Ring, j: nat)
    requires Ok(r) && Books(r) && Can(r, MemberRuns(j)) && r.boxes[j][0].Init?
    ensures Ok(Do(r, MemberRuns(j))) && Books(Do(r, MemberRuns(j)))
    ensures Remaining(Do(r, MemberRuns(j))) == Remaining(r) - 1
  {
    var r' := Do(r, MemberRuns(j));
    StepOk(r, MemberRuns(j));
    RunsInit(r, j);
    BoxChanged(r.boxes, j, r.boxes[j][1..]);
    SumUpdate(PerMember(r.members), j, 0);
    assert PerMember(r'.members) == PerMember(r.members)[j := 0];
    SameHandled(r, r');
  }

  lemma TokenBooks(r: Ring, j: nat)
    requires Ok(r) && Books(r) && Can(r, MemberRuns(j)) && r.boxes[j][0].Token?
    ensures Ok(Do(r, MemberRuns(j))) && Books(Do(r, MemberRuns(j)))
    ensures Remaining(Do(r, MemberRuns(j))) == Remaining(r) - 1
  {
    StepOk(r, MemberRuns(j));
    RunsToken(r, j);
    var r', r1, msg := Do(r, MemberRuns(j)), Counted(r, j), r.boxes[j][0];
    CallCounted(r, j);
    if msg.value > 0 { Posted(r1, (j + 1) % r.n, Token(msg.value - 1, Member(j), msg.origin)); }
    forall i | 0 <= i < r.n ensures HandledOk(r', i) { assert HandledOk(r1, i); }
  }

  lemma SendBooks(r: Ring)
    requires Ok(r) && Books(r) && Can(r, MainSends)
    ensures Ok(Do(r, MainSends)) && Books(Do(r, MainSends))
    ensures Remaining(Do(r, MainSends)) == Remaining(r) - 1
  {
    StepOk(r, MainSends);
    var s := MainMessage(r, r.sent);
    Posted(r, s.to.i, s.msg);
    SameHandled(r, Do(r, MainSends));
  }

  /** Every step keeps the books and brings the end one step nearer. */
  lemma StepBooks(r: Ring, e: Step)
    requires Ok(r) && Books(r) && Can(r, e)
    ensures Ok(Do(r, e)) && Books(Do(r, e))
    ensures Remaining(Do(r, e)) == Remaining(r) - 1
  {
    match e
    case MainSends => SendBooks(r);
    case MemberRuns(j) => if r.boxes[j][0].Init? { InitBooks(r, j); } else { TokenBooks(r, j); }
    case ReceiverRuns => StepOk(r, e); SameHandled(r, Do(r, e));
    case MainWaits => StepOk(r, e); SameHandled(r, Do(r, e));
  }

  // ---------- Whole runs ----------

  lemma {:induction false} RunBooks(r: Ring, es: seq<Step>)
    requires Ok(r) && Books(r) && Possible(r, es)
    ensures Ok(After(r, es)) && Books(After(r, es))
    ensures After(r, es).n == r.n && After(r, es).top == r.top
    ensures Remaining(After(r, es)) + |es| == Remaining(r)
    decreases |es|
  {
    if es != [] {
      StepBooks(r, es[0]);
      SameSize(r, es[0]);
      RunBooks(Do(r, es[0]), es[1..]);
    }
  }

  lemma SameSize(r: Ring, e: Step)
    requires Ok(r) && Can(r, e)
    ensures Do(r, e).n == r.n && Do(r, e).top == r.top
  {
    if e.MemberRuns? { if r.boxes[e.j][0].Init? { RunsInit(r, e.j); } else { RunsToken(r, e.j); } }
  }

  /** After any run of N actors from T: a member that still waits for its init message has no
      token before it, a token from o with value v is at (o + T - v) mod N, no token is in two
      places, and the tokens in boxes and the zeros reported together are the tokens sent. */
  lemma EveryRun(n: nat, top: nat, es: seq<Step>, r: Ring)
    requires n > 0 && Possible(Start(n, top), es) && r == After(Start(n, top), es)
    ensures Shaped(r) && r.n == n && r.top == top && Conserved(r)
    ensures forall j, k | 0 <= j < n && 0 <= k < |r.boxes[j]| && r.boxes[j][k].Token? ::
              && 0 <= r.boxes[j][k].value <= top
              && (r.boxes[j][k].origin + (top - r.boxes[j][k].value)) % n == j
              && (Waiting(r, j) ==> k > 0 && r.boxes[j][0].Init?)
    ensures Zeros(r.rbox) && Zeros(r.received) && Zeros(r.got)
    ensures forall j, k, l | 0 <= j < n && 0 <= k < l < |r.boxes[j]| :: Apart(r, j, k, l)
  {
    StartBooks(n, top);
    RunBooks(Start(n, top), es);
    forall j, k | 0 <= j < n && 0 <= k < |r.boxes[j]| && r.boxes[j][k].Token?
      ensures 0 <= r.boxes[j][k].value <= top
      ensures (r.boxes[j][k].origin + (top - r.boxes[j][k].value)) % n == j
      ensures Waiting(r, j) ==> k > 0 && r.boxes[j][0].Init?
    {
      assert TokenOk(r, j, k) && InitFirst(r, j);
    }
  }

  /** No run is longer than N * (T + 6) steps: 2N sends, N init calls, N * (T + 1) token calls,
      N reports and N waits. */
  lemma RunsAreShort(n: nat, top: nat, es: seq<Step>)
    requires n > 0 && Possible(Start(n, top), es)
    ensures |es| <= n * (top + 6)
    ensures |es| == n * (top + 6) <==> Finished(After(Start(n, top), es))
  {
    StartBooks(n, top);
    RunBooks(Start(n, top), es);
    Nonnegative(After(Start(n, top), es));
  }

  /** Everything sent, received and taken, every token handled T + 1 times. */
  ghost predicate Finished(r: Ring) {
    && Shaped(r) && r.sent == 2 * r.n && |r.got| == r.n && r.received == [] && r.rbox == []
    && (forall j | 0 <= j < r.n :: r.boxes[j] == [] && !Waiting(r, j))
    && forall o | 0 <= o < r.n :: r.moves[o] == r.top + 1
  }

  lemma TokenAtHead(r: Ring, j: nat)
    requires Ok(r) && j < r.n && !Waiting(r, j) && r.boxes[j] != []
    ensures TokensIn(r.boxes[j]) > 0
  {
    assert TokenOk(r, j, 0);
  }

  lemma Nonnegative(r: Ring)
    requires Ok(r) && Books(r)
    ensures Remaining(r) >= 0
    ensures Remaining(r) == 0 <==> Finished(r)
  {
    SumPositive(PerMember(r.members));
    SumPositive(PerToken(r.moves, r.top));
    SumPositive(PerBox(r.boxes));
    if Remaining(r) == 0 {
      forall j | 0 <= j < r.n ensures r.boxes[j] == [] && !Waiting(r, j) {
        assert PerMember(r.members)[j] == 0 && PerBox(r.boxes)[j] == 0;
        assert InitFirst(r, j);
        if r.boxes[j] != [] { TokenAtHead(r, j); }
      }
      forall o | 0 <= o < r.n ensures r.moves[o] == r.top + 1 { assert PerToken(r.moves, r.top)[o] == 0; }
    }
    if Finished(r) {
      forall j | 0 <= j < r.n ensures PerMember(r.members)[j] == 0 { assert !Waiting(r, j); }
      SumConstant(PerMember(r.members), 0);
      SumConstant(PerToken(r.moves, r.top), 0);
    }
  }

  /** The ring never stalls: if no step is possible, everything is done. */
  lemma StuckMeansFinished(r: Ring)
    requires Ok(r) && Books(r)
    requires forall e :: !Can(r, e)
    ensures Finished(r)
  {
    assert !Can(r, MainSends) && !Can(r, ReceiverRuns) && !Can(r, MainWaits);
    forall j | 0 <= j < r.n ensures r.boxes[j] == [] && !Waiting(r, j) {
      assert !Can(r, MemberRuns(j)) && InitFirst(r, j);
    }
    forall o | 0 <= o < r.n ensures r.moves[o] == r.top + 1 {
      assert Present(r, o) && r.moves[o] <= r.top + 1;
      assert !InBox(r.boxes[(o + r.moves[o]) % r.n], o);
    }
    SumConstant(PerBox(r.boxes), 0);
  }

  lemma {:induction false} OneVisitor(n: nat, c: nat, j: nat, at: seq<int>)
    requires 0 < n && j < n && |at| <= n
    requires forall o | 0 <= o < |at| :: at[o] == At(o, c, n, j)
    ensures Sum(at) == if (j - c) % n < |at| then 1 else 0
    decreases |at|
  {
    if at != [] {
      var m := |at| - 1;
      OneVisitor(n, c, j, at[..m]);
      SumLast(at);
      Visitor(n, c, j, m);
    }
  }

  lemma Visitor(n: nat, c: nat, j: nat, o: nat)
    requires j < n && o < n
    ensures (o + c) % n == j <==> (j - c) % n == o
  {
    var p, q := (o + c) / n, (j - c) / n;
    if (o + c) % n == j {
      assert o + c == p * n + j && -p * n == -(p * n);
      ModIs(j - c, n, -p, o);
    }
    if (j - c) % n == o {
      assert j - c == q * n + o && -q * n == -(q * n);
      ModIs(o + c, n, -q, j);
    }
  }

  /** When every token has made c calls, so has every member. */
  lemma {:induction false} EvenShare(n: nat, c: nat, j: nat)
    requires 0 < n && j < n
    ensures Sum(PerVisit(seq(n, _ => c), n, j)) == c
  {
    if c == 0 {
      SumConstant(PerVisit(seq(n, _ => c), n, j), 0);
    } else {
      EvenShare(n, c - 1, j);
      var at := seq(n, o requires 0 <= o < n => At(o, c - 1, n, j));
      OneVisitor(n, c - 1, j, at);
      SumAdds(PerVisit(seq(n, _ => c - 1), n, j), at, PerVisit(seq(n, _ => c), n, j));
    }
  }

  lemma EvenlyHandled(r: Ring)
    requires Finished(r) && Books(r)
    ensures forall j | 0 <= j < r.n :: r.handled[j] == r.top + 1
  {
    var n, c := r.n, r.top + 1;
    assert r.moves == seq(n, _ => c);
    forall j | 0 <= j < n ensures r.handled[j] == c {
      assert HandledOk(r, j);
      EvenShare(n, c, j);
    }
  }

  /** A run that cannot go on has made exactly T + 1 token calls at each member, N * (T + 1) in
      all, and has given main exactly N zeros. */
  lemma CompleteRun(n: nat, top: nat, es: seq<Step>, r: Ring)
    requires n > 0 && Possible(Start(n, top), es) && r == After(Start(n, top), es)
    requires forall e :: !Can(r, e)
    ensures |es| == n * (top + 6)
    ensures |r.handled| == n && (forall j | 0 <= j < n :: r.handled[j] == top + 1) && Sum(r.handled) == n * (top + 1)
    ensures r.got == seq(n, _ => 0)
  {
    StartBooks(n, top);
    RunBooks(Start(n, top), es);
    StuckMeansFinished(r);
    Nonnegative(r);
    EvenlyHandled(r);
    SumConstant(r.handled, top + 1);
  }
}
