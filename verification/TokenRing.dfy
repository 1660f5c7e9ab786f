/** Every run of the token ring that main of actor.cpp sets up, with N members and first value T. */
module TokenRing {
  import opened Actors

  /** `boxes[j]` is the strand of member j, `rbox` that of the receiver, `received` its
      message queue, `got` what main's waits returned. `sent` counts main's sends, `moves[o]` the
      token handler calls made for the token first sent to member o, `handled[j]` those made by
      member j. */
  datatype Ring = Ring(n: nat, top: nat, members: seq<MemberState>, boxes: seq<seq<Message>>, rbox: seq<int>,
                       received: seq<int>, sent: nat, got: seq<int>, moves: seq<nat>, handled: seq<nat>)

  datatype Step = MainSends | MemberRuns(j: nat) | ReceiverRuns | MainWaits

  ghost function Start(n: nat, top: nat): Ring {
    Ring(n, top, seq(n, _ => MemberState([InitHandler], Receiver, Receiver)), seq(n, _ => []), [], [], 0, [],
         seq(n, _ => 0), seq(n, _ => 0))
  }

  ghost predicate Shaped(r: Ring) {
    && |r.members| == |r.boxes| == |r.moves| == |r.handled| == r.n > 0
    && r.sent <= 2 * r.n && |r.got| <= r.n
  }

  /** The s-th send of main: first every member's successor, from the last member down, then the
      tokens. */
  ghost function MainMessage(r: Ring, s: nat): Send
    requires r.n > 0 && s < 2 * r.n
  {
    if s < r.n then Send(Init(Member((r.n - s) % r.n), Receiver), Member(r.n - 1 - s))
    else Send(Token(r.top, Receiver, s - r.n), Member(s - r.n))
  }

  ghost function Post(r: Ring, s: Send): Ring {
    match s.to
    case Member(i) => if i < |r.boxes| then r.(boxes := r.boxes[i := r.boxes[i] + [s.msg]]) else r
    case Receiver => if s.msg.Token? then r.(rbox := r.rbox + [s.msg.value]) else r
  }

  ghost function PostAll(r: Ring, ss: seq<Send>): Ring
    decreases |ss|
  {
    if ss == [] then r else PostAll(Post(r, ss[0]), ss[1..])
  }

  ghost predicate Can(r: Ring, e: Step) {
    && Shaped(r)
    && match e
       case MainSends => r.sent < 2 * r.n
       case MemberRuns(j) => j < r.n && r.boxes[j] != []
       case ReceiverRuns => r.rbox != []
       case MainWaits => r.sent == 2 * r.n && |r.got| < r.n && r.received != []
  }

  /** A token handler call is made for each registered token handler. */
  ghost function TokenCalls(m: MemberState, msg: Message, self: nat): nat {
    |Sends(m, m.handlers, msg, self)|
  }

  ghost function Do(r: Ring, e: Step): Ring
    requires Can(r, e)
  {
    match e
    case MainSends => Post(r, MainMessage(r, r.sent)).(sent := r.sent + 1)
    case MemberRuns(j) =>
      var msg, m := r.boxes[j][0], r.members[j];
      var calls := TokenCalls(m, msg, j);
      var r1 := r.(boxes := r.boxes[j := r.boxes[j][1..]], members := r.members[j := Called(m, m.handlers, msg)],
                   handled := r.handled[j := r.handled[j] + calls],
                   moves := if msg.Token? && msg.origin < r.n
                       then r.moves[msg.origin := r.moves[msg.origin] + calls] else r.moves);
      PostAll(r1, Sends(m, m.handlers, msg, j))
    case ReceiverRuns => r.(rbox := r.rbox[1..], received := r.received + [r.rbox[0]])
    case MainWaits => r.(received := r.received[1..], got := r.got + [r.received[0]])
  }

  ghost predicate Possible(r: Ring, es: seq<Step>)
    decreases |es|
  {
    es == [] || (Can(r, es[0]) && Possible(Do(r, es[0]), es[1..]))
  }

  ghost function After(r: Ring, es: seq<Step>): Ring
    requires Possible(r, es)
    decreases |es|
  {
    if es == [] then r else After(Do(r, es[0]), es[1..])
  }

  // ---------- Invariant ----------

  ghost predicate InitSent(r: Ring, j: nat) {
    r.sent + j >= r.n
  }

  ghost predicate Waiting(r: Ring, j: nat)
    requires Shaped(r) && j < r.n
  {
    r.members[j].handlers == [InitHandler]
  }

  /** The init message comes first: before it a member has had no message at all, and it is at
      the head of the box until it is handled. */
  ghost predicate InitFirst(r: Ring, j: nat)
    requires Shaped(r) && j < r.n
  {
    && (Waiting(r, j) || r.members[j] == MemberState([TokenHandler], Member((j + 1) % r.n), Receiver))
    && (Waiting(r, j) ==>
          if InitSent(r, j) then r.boxes[j] != [] && r.boxes[j][0] == Init(Member((j + 1) % r.n), Receiver)
          else r.boxes[j] == [])
    && (!Waiting(r, j) ==> InitSent(r, j))
  }

  /** A token is where its value says: token o with value v is at member (o + T - v) mod N. */
  ghost predicate TokenOk(r: Ring, j: nat, k: nat)
    requires Shaped(r) && j < r.n && k < |r.boxes[j]|
  {
    var msg := r.boxes[j][k];
    if msg.Init? then k == 0 && Waiting(r, j)
    else
      && msg.origin < r.n && r.n + msg.origin < r.sent
      && 0 <= msg.value <= r.top && r.moves[msg.origin] == r.top - msg.value
      && (msg.origin + (r.top - msg.value)) % r.n == j
  }

  ghost predicate Apart(r: Ring, j: nat, k: nat, l: nat)
    requires Shaped(r) && j < r.n && k < l < |r.boxes[j]|
  {
    var a, b := r.boxes[j][k], r.boxes[j][l];
    a.Token? && b.Token? ==> a.origin != b.origin
  }

  ghost predicate InBox(box: seq<Message>, o: nat) {
    exists k :: 0 <= k < |box| && box[k].Token? && box[k].origin == o
  }

  /** No token is lost: it is in a box until it has been reported. */
  ghost predicate Present(r: Ring, o: nat)
    requires Shaped(r) && o < r.n
  {
    if r.n + o < r.sent then r.moves[o] <= r.top ==> InBox(r.boxes[(o + r.moves[o]) % r.n], o)
    else r.moves[o] == 0
  }

  ghost predicate Boxes(r: Ring)
    requires Shaped(r)
  {
    && (forall j | 0 <= j < r.n :: InitFirst(r, j))
    && (forall j, k | 0 <= j < r.n && 0 <= k < |r.boxes[j]| :: TokenOk(r, j, k))
    && (forall j, k, l | 0 <= j < r.n && 0 <= k < l < |r.boxes[j]| :: Apart(r, j, k, l))
  }

  ghost predicate Tokens(r: Ring)
    requires Shaped(r)
  {
    forall o | 0 <= o < r.n :: r.moves[o] <= r.top + 1 && Present(r, o)
  }

  ghost predicate Zeros(values: seq<int>) {
    forall k | 0 <= k < |values| :: values[k] == 0
  }

  ghost predicate Ok(r: Ring) {
    Shaped(r) && Boxes(r) && Tokens(r) && Zeros(r.rbox) && Zeros(r.received) && Zeros(r.got)
  }

  lemma StartOk(n: nat, top: nat)
    requires n > 0
    ensures Ok(Start(n, top))
  {
  }

  // ---------- What one member step amounts to ----------

  ghost function Taken(r: Ring, j: nat): Ring
    requires j < |r.boxes| && r.boxes[j] != []
  {
    r.(boxes := r.boxes[j := r.boxes[j][1..]])
  }

  lemma RunsInit(r: Ring, j: nat)
    requires Ok(r) && Can(r, MemberRuns(j)) && r.boxes[j][0].Init?
    ensures Waiting(r, j) && InitSent(r, j)
    ensures Do(r, MemberRuns(j)) ==
            Taken(r, j).(members := r.members[j := MemberState([TokenHandler], Member((j + 1) % r.n), Receiver)])
  {
    assert InitFirst(r, j) && TokenOk(r, j, 0);
    var m, msg := r.members[j], r.boxes[j][0];
    assert Deregister([InitHandler] + [TokenHandler], InitHandler) == [TokenHandler];
    assert m.handlers == [InitHandler] && m.handlers[1..] == [];
    assert Called(m, m.handlers, msg) == AfterInit(m, msg);
    assert Sends(m, m.handlers, msg, j) == [];
    assert r.handled[j := r.handled[j]] == r.handled;
  }

  /** The ring after member j has counted a token and before the next message is posted. */
  ghost function Counted(r: Ring, j: nat): Ring
    requires Shaped(r) && j < r.n && r.boxes[j] != [] && r.boxes[j][0].Token? && r.boxes[j][0].origin < r.n
  {
    var o := r.boxes[j][0].origin;
    Taken(r, j).(handled := r.handled[j := r.handled[j] + 1], moves := r.moves[o := r.moves[o] + 1])
  }

  lemma RunsToken(r: Ring, j: nat)
    requires Ok(r) && Can(r, MemberRuns(j)) && r.boxes[j][0].Token?
    ensures !Waiting(r, j) && TokenOk(r, j, 0)
    ensures var msg := r.boxes[j][0];
            Do(r, MemberRuns(j)) ==
            Post(Counted(r, j), Send(Token(if msg.value > 0 then msg.value - 1 else 0, Member(j), msg.origin),
                                     if msg.value > 0 then Member((j + 1) % r.n) else Receiver))
  {
    assert InitFirst(r, j) && TokenOk(r, j, 0);
    var m, msg := r.members[j], r.boxes[j][0];
    assert m.handlers == [TokenHandler] && m.handlers[1..] == [];
    assert Called(m, m.handlers, msg) == m && r.members[j := m] == r.members;
    assert Sends(m, m.handlers, msg, j) == [Forward(m, msg, j)];
    var out := Forward(m, msg, j);
    assert PostAll(Counted(r, j), [out]) == Post(Counted(r, j), out) by { assert [out][1..] == []; }
  }

  // ---------- Steps keep the invariant ----------

  lemma NextPlace(a: nat, n: nat)
    requires n > 0
    ensures (a + 1) % n == (a % n + 1) % n
  {
    var q, m := a / n, a % n;
    assert a == q * n + m;
    if m + 1 == n {
      assert a + 1 == (q + 1) * n;
      ModIs(a + 1, n, q + 1, 0);
      ModIs(n, n, 1, 0);
    } else {
      ModIs(a + 1, n, q, m + 1);
      ModIs(m + 1, n, 0, m + 1);
    }
  }

  lemma ModIs(a: int, n: nat, q: int, m: nat)
    requires n > 0 && m < n && a == q * n + m
    ensures a % n == m
  {
    SameRemainder(a / n, a % n, q, m, n);
  }

  lemma SameRemainder(p: int, l: nat, q: int, m: nat, n: nat)
    requires p * n + l == q * n + m && l < n && m < n
    ensures p == q && l == m
  {
    assert (p - q) * n == m - l && (q - p) * n == l - m;
    if p > q { Multiple(p - q, n); } else if p < q { Multiple(q - p, n); }
  }

  lemma Multiple(d: int, n: nat)
    requires d >= 1
    ensures d * n >= n
  {
    assert (d - 1) * n >= 0;
  }

  lemma SendInitOk(r: Ring)
    requires Ok(r) && r.sent < r.n
    ensures Ok(Do(r, MainSends))
  {
    var r', i := Do(r, MainSends), r.n - 1 - r.sent;
    assert InitFirst(r, i);
    forall j | 0 <= j < r.n ensures InitFirst(r', j) { assert InitFirst(r, j); }
    forall j, k | 0 <= j < r.n && 0 <= k < |r'.boxes[j]| ensures TokenOk(r', j, k) {
      if j != i { assert TokenOk(r, j, k); }
    }
    forall j, k, l | 0 <= j < r.n && 0 <= k < l < |r'.boxes[j]| ensures Apart(r', j, k, l) {
      if j != i { assert Apart(r, j, k, l); }
    }
    forall o | 0 <= o < r.n ensures Present(r', o) { assert Present(r, o); }
  }

  lemma SendTokenOk(r: Ring)
    requires Ok(r) && r.n <= r.sent < 2 * r.n
    ensures Ok(Do(r, MainSends))
  {
    var r', i := Do(r, MainSends), r.sent - r.n;
    assert InitFirst(r, i) && Present(r, i);
    var msg := r'.boxes[i][|r.boxes[i]|];
    assert msg == Token(r.top, Receiver, i);
    ModIs(i, r.n, 0, i);
    forall j | 0 <= j < r.n ensures InitFirst(r', j) { assert InitFirst(r, j); }
    forall j, k | 0 <= j < r.n && 0 <= k < |r'.boxes[j]| ensures TokenOk(r', j, k) {
      if j != i || k < |r.boxes[i]| { assert TokenOk(r, j, k); }
    }
    forall j, k, l | 0 <= j < r.n && 0 <= k < l < |r'.boxes[j]| ensures Apart(r', j, k, l) {
      assert TokenOk(r, j, k);
      if j != i || l < |r.boxes[i]| { assert Apart(r, j, k, l); }
    }
    forall o | 0 <= o < r.n ensures Present(r', o) {
      assert Present(r, o);
      if o == i {
        assert InBox(r'.boxes[i], i);
      } else if r.n + o < r.sent && r.moves[o] <= r.top {
        BoxGrows(r.boxes[(o + r.moves[o]) % r.n], msg, o);
      }
    }
  }

  lemma BoxGrows(box: seq<Message>, msg: Message, o: nat)
    requires InBox(box, o)
    ensures InBox(box + [msg], o)
  {
    var k :| 0 <= k < |box| && box[k].Token? && box[k].origin == o;
    assert (box + [msg])[k] == box[k];
  }

  lemma MemberInitOk(r: Ring, j: nat)
    requires Ok(r) && Can(r, MemberRuns(j)) && r.boxes[j][0].Init?
    ensures Ok(Do(r, MemberRuns(j)))
  {
    var r' := Do(r, MemberRuns(j));
    RunsInit(r, j);
    forall i | 0 <= i < r.n ensures InitFirst(r', i) { assert InitFirst(r, i); }
    forall i, k | 0 <= i < r.n && 0 <= k < |r'.boxes[i]| ensures TokenOk(r', i, k) {
      assert TokenOk(r, i, if i == j then k + 1 else k);
    }
    forall i, k, l | 0 <= i < r.n && 0 <= k < l < |r'.boxes[i]| ensures Apart(r', i, k, l) {
      if i == j { assert Apart(r, j, k + 1, l + 1); } else { assert Apart(r, i, k, l); }
    }
    forall o | 0 <= o < r.n ensures Present(r', o) {
      assert Present(r, o);
    }
  }

  /** Taking a token out of box j leaves the others where they are. */
  ghost predicate TakenOk(r: Ring, j: nat, r': Ring) {
    && Ok(r) && Can(r, MemberRuns(j)) && r.boxes[j][0].Token? && TokenOk(r, j, 0)
    && r' == Counted(r, j)
  }

  lemma OthersStay(r: Ring, j: nat, r': Ring)
    requires TakenOk(r, j, r')
    ensures Shaped(r') && Boxes(r')
    ensures forall o | 0 <= o < r.n && o != r.boxes[j][0].origin :: Present(r', o)
    ensures forall i | 0 <= i < r.n :: !InBox(r'.boxes[i], r.boxes[j][0].origin)
  {
    var msg := r.boxes[j][0];
    forall i, k | 0 <= i < r.n && 0 <= k < |r'.boxes[i]|
      ensures r'.boxes[i][k] == r.boxes[i][if i == j then k + 1 else k]
      ensures r'.boxes[i][k].Token? ==> r'.boxes[i][k].origin != msg.origin
      ensures TokenOk(r', i, k)
    {
      var l := if i == j then k + 1 else k;
      assert TokenOk(r, i, l);
      if i == j { assert Apart(r, j, 0, l); }
    }
    forall i | 0 <= i < r.n ensures InitFirst(r', i) { assert InitFirst(r, i); }
    forall i, k, l | 0 <= i < r.n && 0 <= k < l < |r'.boxes[i]| ensures Apart(r', i, k, l) {
      if i == j { assert Apart(r, j, k + 1, l + 1); } else { assert Apart(r, i, k, l); }
    }
    forall o | 0 <= o < r.n && o != msg.origin ensures Present(r', o) {
      assert Present(r, o);
    }
  }

  lemma ForwardOk(r: Ring, j: nat)
    requires Ok(r) && Can(r, MemberRuns(j)) && r.boxes[j][0].Token? && r.boxes[j][0].value > 0
    ensures Ok(Do(r, MemberRuns(j)))
  {
    RunsToken(r, j);
    var msg, r1, at := r.boxes[j][0], Counted(r, j), (j + 1) % r.n;
    OthersStay(r, j, r1);
    assert Present(r, msg.origin) && InitFirst(r, j);
    NextPlace(msg.origin + r.moves[msg.origin], r.n);
    AllInitsSent(r, msg.origin);
    PassedOn(r1, Do(r, MemberRuns(j)), at, Token(msg.value - 1, Member(j), msg.origin));
  }

  lemma AllInitsSent(r: Ring, o: nat)
    requires Shaped(r) && r.n + o < r.sent
    ensures forall i | 0 <= i < r.n :: InitSent(r, i)
  {
  }

  lemma ReportOk(r: Ring, j: nat)
    requires Ok(r) && Can(r, MemberRuns(j)) && r.boxes[j][0].Token? && r.boxes[j][0].value <= 0
    ensures Ok(Do(r, MemberRuns(j)))
  {
    RunsToken(r, j);
    var r1 := Counted(r, j);
    OthersStay(r, j, r1);
    assert Present(r, r.boxes[j][0].origin);
    assert Tokens(r1);
    assert Do(r, MemberRuns(j)) == r1.(rbox := r.rbox + [0]);
    SameBoxes(r1, Do(r, MemberRuns(j)));
  }

  lemma PassedOn(r1: Ring, r': Ring, at: nat, next: Message)
    requires Shaped(r1) && at < r1.n && next.Token? && next.origin < r1.n
    requires Boxes(r1) && InitSent(r1, at) && r1.n + next.origin < r1.sent
    requires forall o | 0 <= o < r1.n && o != next.origin :: Present(r1, o)
    requires forall o | 0 <= o < r1.n :: r1.moves[o] <= r1.top + 1
    requires !InBox(r1.boxes[at], next.origin)
    requires 0 <= next.value <= r1.top && r1.moves[next.origin] == r1.top - next.value
    requires (next.origin + r1.moves[next.origin]) % r1.n == at
    requires r' == r1.(boxes := r1.boxes[at := r1.boxes[at] + [next]])
    ensures Shaped(r') && Boxes(r') && Tokens(r')
  {
    forall i | 0 <= i < r1.n ensures InitFirst(r', i) { assert InitFirst(r1, i); }
    forall i, k | 0 <= i < r1.n && 0 <= k < |r'.boxes[i]| ensures TokenOk(r', i, k) {
      if k < |r1.boxes[i]| { assert TokenOk(r1, i, k); }
    }
    forall i, k, l | 0 <= i < r1.n && 0 <= k < l < |r'.boxes[i]| ensures Apart(r', i, k, l) {
      if l < |r1.boxes[i]| { assert Apart(r1, i, k, l); }
    }
    StillPresent(r1, r', at, next);
  }

  lemma StillPresent(r1: Ring, r': Ring, at: nat, next: Message)
    requires Shaped(r1) && at < r1.n && next.Token? && next.origin < r1.n && r1.n + next.origin < r1.sent
    requires forall o | 0 <= o < r1.n && o != next.origin :: Present(r1, o)
    requires (next.origin + r1.moves[next.origin]) % r1.n == at
    requires r' == r1.(boxes := r1.boxes[at := r1.boxes[at] + [next]])
    ensures forall o | 0 <= o < r1.n :: Present(r', o)
  {
    forall o | 0 <= o < r1.n ensures Present(r', o) {
      if o == next.origin {
        assert r'.boxes[at][|r1.boxes[at]|] == next;
      } else {
        assert Present(r1, o);
        if r1.n + o < r1.sent && r1.moves[o] <= r1.top && (o + r1.moves[o]) % r1.n == at {
          BoxGrows(r1.boxes[at], next, o);
        }
      }
    }
  }

  lemma SameBoxes(r: Ring, r': Ring)
    requires Shaped(r) && Shaped(r') && Boxes(r) && Tokens(r)
    requires r' == r.(rbox := r'.rbox, received := r'.received, got := r'.got)
    ensures Boxes(r') && Tokens(r')
  {
    forall j | 0 <= j < r.n ensures InitFirst(r', j) { assert InitFirst(r, j); }
    forall j, k | 0 <= j < r.n && 0 <= k < |r'.boxes[j]| ensures TokenOk(r', j, k) { assert TokenOk(r, j, k); }
    forall j, k, l | 0 <= j < r.n && 0 <= k < l < |r'.boxes[j]| ensures Apart(r', j, k, l) { assert Apart(r, j, k, l); }
    forall o | 0 <= o < r.n ensures Present(r', o) { assert Present(r, o); }
  }

  lemma StepOk(r: Ring, e: Step)
    requires Ok(r) && Can(r, e)
    ensures Ok(Do(r, e))
  {
    match e
    case MainSends => if r.sent < r.n { SendInitOk(r); } else { SendTokenOk(r); }
    case MemberRuns(j) => if r.boxes[j][0].Init? { MemberInitOk(r, j); }
        else if r.boxes[j][0].value > 0 { ForwardOk(r, j); } else { ReportOk(r, j); }
    case ReceiverRuns => SameBoxes(r, Do(r, e));
    case MainWaits => SameBoxes(r, Do(r, e));
  }
}
