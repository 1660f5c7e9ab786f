/** chat_server.cpp: the room, its sessions, and every run of the server's callbacks. */
module ChatServer {
  import opened Bytes
  import opened ChatFraming

  /** Header and body of one message. */
  type Message = seq<Byte>

  const MAX_RECENT_MSGS := 100

  /** `writes` are the messages whose write is in flight, `written` those that have been written to
      the socket, `failed` says whether a write has failed. */
  datatype Session = Session(queue: seq<Message>, writes: seq<Message>, written: seq<Message>, failed: bool)

  const NEW_SESSION := Session([], [], [], false)

  /** do_write: the front of the queue is handed to the socket. */
  function WriteStarted(s: Session): Session
    requires s.queue != []
  {
    s.(writes := s.writes + [s.queue[0]])
  }

  /** chat_session::deliver: only the first message of a queue starts a write. */
  function Delivered(s: Session, msg: Message): Session {
    var s1 := s.(queue := s.queue + [msg]);
    if s.queue == [] then WriteStarted(s1) else s1
  }

  function DeliveredAll(s: Session, msgs: seq<Message>): Session
    decreases |msgs|
  {
    if msgs == [] then s else DeliveredAll(Delivered(s, msgs[0]), msgs[1..])
  }

  /** The write handler: the next message, or the end of writing. */
  function WriteDone(s: Session, ok: bool): Session
    requires s.writes != [] && s.queue != []
  {
    var s1 := s.(writes := s.writes[1..]);
    if ok then
      var s2 := s1.(queue := s.queue[1..], written := s.written + [s.writes[0]]);
      if s2.queue != [] then WriteStarted(s2) else s2
    else s1.(failed := true)
  }

  function Last(msgs: seq<Message>, count: nat): seq<Message> {
    if |msgs| <= count then msgs else msgs[|msgs| - count..]
  }

  /** `recent` is the end of `all`, of 100 messages or of all there are. */
  ghost predicate IsRecent(recent: seq<Message>, all: seq<Message>) {
    && |recent| == (if |all| < 100 then |all| else 100)
    && recent == all[|all| - |recent|..]
  }

  lemma LastIsRecent(all: seq<Message>)
    ensures IsRecent(Last(all, MAX_RECENT_MSGS), all)
  {
  }

  datatype Reader = ReadingHeader | ReadingBody | NotReading

  // ---------- The classes ----------

  class ChatSession {
    var reader: Reader
    var writeMsgs: seq<Message>
    var pendingWrites: seq<Message>
    var socket: seq<Message>
    var failed: bool

    function View(): Session
      reads this
    {
      Session(writeMsgs, pendingWrites, socket, failed)
    }

    constructor ()
      ensures View() == NEW_SESSION && reader == NotReading
    {
      writeMsgs, pendingWrites, socket, failed, reader := [], [], [], false, NotReading;
    }

    method Start(room: ChatRoom)
      modifies this, room`participants
      ensures room.participants == old(room.participants) + {this} && reader == ReadingHeader
      ensures View() == DeliveredAll(old(View()), room.recentMsgs)
      ensures writeMsgs == old(writeMsgs) + room.recentMsgs
    {
      room.Join(this);
      reader := ReadingHeader;
    }

    /** The lambda that do_read_header passes to async_read; `ok` when there was no error and
        decode_header accepted the header. */
    method OnReadHeader(room: ChatRoom, ok: bool)
      requires reader == ReadingHeader
      modifies this`reader, room`participants
      ensures reader == if ok then ReadingBody else NotReading
      ensures room.participants == if ok then old(room.participants) else old(room.participants) - {this}
    {
      if ok {
        reader := ReadingBody;
      } else {
        reader := NotReading;
        room.Leave(this);
      }
    }

    /** The lambda that do_read_body passes to async_read. */
    method OnReadBody(room: ChatRoom, ok: bool, msg: Message)
      requires reader == ReadingBody
      modifies this`reader, room, room.participants`writeMsgs, room.participants`pendingWrites
      ensures reader == if ok then ReadingHeader else NotReading
      ensures room.participants == if ok then old(room.participants) else old(room.participants) - {this}
      ensures room.recentMsgs == if ok then Last(old(room.recentMsgs) + [msg], MAX_RECENT_MSGS)
          else old(room.recentMsgs)
      ensures ok ==> IsRecent(room.recentMsgs, old(room.recentMsgs) + [msg])
      ensures forall p | p in old(room.participants) ::
          p.View() == if ok then Delivered(old(p.View()), msg) else old(p.View())
    {
      if ok {
        room.Deliver(msg);
        reader := ReadingHeader;
      } else {
        reader := NotReading;
        room.Leave(this);
      }
    }

    method Deliver(msg: Message)
      modifies this`writeMsgs, this`pendingWrites
      ensures View() == Delivered(old(View()), msg)
      ensures writeMsgs == old(writeMsgs) + [msg]
      ensures pendingWrites == old(pendingWrites) + if old(writeMsgs) == [] then [msg] else []
    {
      var writeInProgress := writeMsgs != [];
      writeMsgs := writeMsgs + [msg];
      if !writeInProgress {
        DoWrite();
      }
    }

    /** Starts to write the front of the queue. */
    method DoWrite()
      requires writeMsgs != []
      modifies this`pendingWrites
      ensures View() == WriteStarted(old(View()))
    {
      pendingWrites := pendingWrites + [writeMsgs[0]];
    }

    /** The lambda that do_write passes to async_write. */
    method OnWrite(room: ChatRoom, ok: bool)
      requires pendingWrites != [] && writeMsgs != []
      modifies this, room
      ensures View() == WriteDone(old(View()), ok)
      ensures socket == old(socket) + if ok then [old(pendingWrites[0])] else []
      ensures writeMsgs == if ok then old(writeMsgs[1..]) else old(writeMsgs)
      ensures room.recentMsgs == old(room.recentMsgs)
      ensures room.participants == if ok then old(room.participants) else old(room.participants) - {this}
    {
      var msg := pendingWrites[0];
      pendingWrites := pendingWrites[1..];
      if ok {
        socket := socket + [msg];
        writeMsgs := writeMsgs[1..];
        if writeMsgs != [] {
          DoWrite();
        }
      } else {
        failed := true;
        room.Leave(this);
      }
    }
  }

  class ChatRoom {
    var participants: set<ChatSession>
    var recentMsgs: seq<Message>

    constructor ()
      ensures participants == {} && recentMsgs == []
    {
      participants, recentMsgs := {}, [];
    }

    method Join(participant: ChatSession)
      modifies this`participants, participant`writeMsgs, participant`pendingWrites
      ensures participants == old(participants) + {participant}
      ensures participant.View() == DeliveredAll(old(participant.View()), recentMsgs)
      ensures participant.writeMsgs == old(participant.writeMsgs) + recentMsgs
    {
      participants := participants + {participant};
      for i := 0 to |recentMsgs|
        invariant participants == old(participants) + {participant} && recentMsgs == old(recentMsgs)
        invariant DeliveredAll(participant.View(), recentMsgs[i..]) == DeliveredAll(old(participant.View()), recentMsgs)
      {
        assert recentMsgs[i..][1..] == recentMsgs[i + 1..];
        participant.Deliver(recentMsgs[i]);
      }
      DeliveredAllQueues(old(participant.View()), recentMsgs);
    }

    method Leave(participant: ChatSession)
      modifies this`participants
      ensures participants == old(participants) - {participant}
    {
      participants := participants - {participant};
    }

    method Remember(msg: Message)
      modifies this`recentMsgs
      ensures recentMsgs == Last(old(recentMsgs) + [msg], MAX_RECENT_MSGS)
      ensures IsRecent(recentMsgs, old(recentMsgs) + [msg])
    {
      recentMsgs := recentMsgs + [msg];
      ghost var all := recentMsgs;
      while |recentMsgs| > MAX_RECENT_MSGS
        invariant Last(recentMsgs, MAX_RECENT_MSGS) == Last(all, MAX_RECENT_MSGS)
      {
        recentMsgs := recentMsgs[1..];
      }
      LastIsRecent(all);
    }

    /** In whatever order the set is walked, every participant gets the message once. */
    method Deliver(msg: Message)
      modifies this`recentMsgs, participants`writeMsgs, participants`pendingWrites
      ensures recentMsgs == Last(old(recentMsgs) + [msg], MAX_RECENT_MSGS)
      ensures IsRecent(recentMsgs, old(recentMsgs) + [msg]) && recentMsgs[|recentMsgs| - 1] == msg
      ensures forall p | p in participants :: p.View() == Delivered(old(p.View()), msg)
      ensures forall p | p in participants :: p.writeMsgs == old(p.writeMsgs) + [msg]
    {
      Remember(msg);
      var left := participants;
      while left != {}
        invariant left <= participants
        invariant recentMsgs == Last(old(recentMsgs) + [msg], MAX_RECENT_MSGS)
        invariant forall p | p in participants ::
            p.View() == if p in left then old(p.View()) else Delivered(old(p.View()), msg)
        decreases left
      {
        var p :| p in left;
        p.Deliver(msg);
        left := left - {p};
      }
      LastIsRecent(old(recentMsgs) + [msg]);
      forall p | p in participants ensures p.writeMsgs == old(p.writeMsgs) + [msg] {
        assert p.View() == Delivered(old(p.View()), msg);
      }
    }
  }

  // ---------- Every run ----------

  /** What a client has sent and what of it has not been read yet; `hold` is the header in
      read_msg_ whose body is being read, or with which reading has ended. */
  datatype Client = Client(reader: Reader, sent: seq<Byte>, left: seq<Byte>, hold: seq<Byte>)

  /** Sessions are numbered as they are accepted. `log` holds every message the room has
      delivered and `authors` whose it was; `joined[i]` is how many there were when session i
      joined, `upTo[i]` how many when it left, if it has left. */
  datatype Server = Server(sessions: seq<Session>, clients: seq<Client>, participants: set<nat>, recent: seq<Message>,
                           log: seq<Message>, authors: seq<nat>, joined: seq<nat>, upTo: seq<nat>)

  /** Arrive: bytes from a client. Header, Body and Written end in success or in an error. */
  datatype Event =
    | Accept | Arrive(i: nat, bytes: seq<Byte>) | Header(i: nat, ok: bool) | Body(i: nat, ok: bool)
    | Written(i: nat, ok: bool)

  const START := Server([], [], {}, [], [], [], [], [])

  predicate Shaped(v: Server) {
    |v.clients| == |v.sessions| == |v.joined| == |v.upTo|
  }

  /** A read completes without an error when all its bytes have arrived. */
  predicate Enabled(v: Server, e: Event) {
    && Shaped(v)
    && match e
       case Accept => true
       case Arrive(i, _) => i < |v.clients|
       case Header(i, ok) =>
         i < |v.clients| && v.clients[i].reader.ReadingHeader? && (ok ==> HEADER_LENGTH <= |v.clients[i].left|)
       case Body(i, ok) =>
         && i < |v.clients| && v.clients[i].reader.ReadingBody? && Accepts(v.clients[i].hold)
         && (ok ==> LengthField(v.clients[i].hold) <= |v.clients[i].left|)
       case Written(i, _) => i < |v.sessions| && v.sessions[i].writes != [] && v.sessions[i].queue != []
  }

  ghost function Leave(v: Server, i: nat): Server
    requires i < |v.upTo|
  {
    v.(participants := v.participants - {i}, upTo := if i in v.participants then v.upTo[i := |v.log|] else v.upTo)
  }

  ghost function Deliver(v: Server, msg: Message, author: nat): Server {
    v.(recent := Last(v.recent + [msg], MAX_RECENT_MSGS), log := v.log + [msg], authors := v.authors + [author],
       sessions := seq(|v.sessions|, i requires 0 <= i < |v.sessions| =>
                         if i in v.participants then Delivered(v.sessions[i], msg) else v.sessions[i]))
  }

  function Arrived(c: Client, bytes: seq<Byte>): Client {
    c.(sent := c.sent + bytes, left := c.left + bytes)
  }

  /** The header has been read: on to the body if it is accepted, the end of reading if not. */
  function HeaderRead(c: Client): Client
    requires HEADER_LENGTH <= |c.left|
  {
    var header := c.left[..HEADER_LENGTH];
    c.(hold := header, left := c.left[HEADER_LENGTH..], reader := if Accepts(header) then ReadingBody else NotReading)
  }

  function MessageRead(c: Client): Message
    requires Accepts(c.hold) && LengthField(c.hold) <= |c.left|
  {
    c.hold + c.left[..LengthField(c.hold)]
  }

  function BodyRead(c: Client): Client
    requires Accepts(c.hold) && LengthField(c.hold) <= |c.left|
  {
    c.(hold := [], left := c.left[LengthField(c.hold)..], reader := ReadingHeader)
  }

  ghost function WithClient(v: Server, i: nat, c: Client): Server
    requires i < |v.clients|
  {
    v.(clients := v.clients[i := c])
  }

  ghost function Do(v: Server, e: Event): Server
    requires Enabled(v, e)
  {
    match e
    case Accept =>
      Server(v.sessions + [DeliveredAll(NEW_SESSION, v.recent)], v.clients + [Client(ReadingHeader, [], [], [])],
             v.participants + {|v.sessions|}, v.recent, v.log, v.authors, v.joined + [|v.log|], v.upTo + [0])
    case Arrive(i, bytes) => WithClient(v, i, Arrived(v.clients[i], bytes))
    case Header(i, ok) =>
      if !ok then Leave(WithClient(v, i, v.clients[i].(reader := NotReading)), i)
      else
        var v' := WithClient(v, i, HeaderRead(v.clients[i]));
        if Accepts(v'.clients[i].hold) then v' else Leave(v', i)
    case Body(i, ok) =>
      if ok then WithClient(Deliver(v, MessageRead(v.clients[i]), i), i, BodyRead(v.clients[i]))
      else Leave(WithClient(v, i, v.clients[i].(reader := NotReading)), i)
    case Written(i, ok) =>
      var v' := v.(sessions := v.sessions[i := WriteDone(v.sessions[i], ok)]);
      if ok then v' else Leave(v', i)
  }

  ghost predicate Possible(v: Server, es: seq<Event>)
    decreases |es|
  {
    es == [] || (Enabled(v, es[0]) && Possible(Do(v, es[0]), es[1..]))
  }

  ghost function After(v: Server, es: seq<Event>): Server
    requires Possible(v, es)
    decreases |es|
  {
    if es == [] then v else After(Do(v, es[0]), es[1..])
  }

  /** The log from at most 100 messages before position `joined`. */
  function From(log: seq<Message>, joined: nat, upTo: nat): seq<Message>
    requires joined <= upTo <= |log|
  {
    log[(if joined > MAX_RECENT_MSGS then joined - MAX_RECENT_MSGS else 0)..upTo]
  }

  ghost function End(v: Server, i: nat): nat
    requires Shaped(v) && i < |v.sessions|
  {
    if i in v.participants then |v.log| else v.upTo[i]
  }

  /** What session i has had written and will have written is its part of the log. */
  ghost predicate Exact(v: Server, i: nat)
    requires Shaped(v) && i < |v.sessions|
  {
    && v.joined[i] <= End(v, i) <= |v.log|
    && v.sessions[i].written + v.sessions[i].queue == From(v.log, v.joined[i], End(v, i))
  }

  /** Until a write fails, the front of the queue is in flight when there is one, and nothing else. */
  ghost predicate OneWrite(v: Server, i: nat)
    requires Shaped(v) && i < |v.sessions|
  {
    var s := v.sessions[i];
    if s.failed then s.writes == [] && s.queue != []
    else s.writes == if s.queue != [] then [s.queue[0]] else []
  }

  ghost predicate Ok(v: Server) {
    && Shaped(v)
    && (forall i | i in v.participants :: i < |v.sessions|)
    && v.recent == Last(v.log, MAX_RECENT_MSGS)
    && forall i | 0 <= i < |v.sessions| :: Exact(v, i) && OneWrite(v, i)
  }

  lemma {:induction false} DeliveredAllQueues(s: Session, msgs: seq<Message>)
    ensures DeliveredAll(s, msgs) ==
            s.(queue := s.queue + msgs, writes := s.writes + if s.queue == [] && msgs != [] then [msgs[0]] else [])
    decreases |msgs|
  {
    if msgs == [] {
      assert s.queue + msgs == s.queue;
    } else {
      DeliveredAllQueues(Delivered(s, msgs[0]), msgs[1..]);
      assert s.queue + [msgs[0]] + msgs[1..] == s.queue + msgs;
    }
  }

  lemma AcceptOk(v: Server)
    requires Ok(v)
    ensures Ok(Do(v, Accept))
  {
    var v', n := Do(v, Accept), |v.sessions|;
    DeliveredAllQueues(NEW_SESSION, v.recent);
    forall i | 0 <= i < |v'.sessions| ensures Exact(v', i) && OneWrite(v', i) {
      if i < n { assert Exact(v, i) && OneWrite(v, i); }
    }
  }

  lemma LeaveOk(v: Server, i: nat)
    requires Ok(v) && i < |v.sessions|
    ensures Ok(Leave(v, i))
  {
    forall j | 0 <= j < |v.sessions| ensures Exact(Leave(v, i), j) && OneWrite(Leave(v, i), j) {
      assert Exact(v, j) && OneWrite(v, j);
    }
  }

  lemma DeliverOk(v: Server, msg: Message, author: nat)
    requires Ok(v)
    ensures Ok(Deliver(v, msg, author))
  {
    var v' := Deliver(v, msg, author);
    forall i | 0 <= i < |v.sessions| ensures Exact(v', i) && OneWrite(v', i) {
      assert Exact(v, i) && OneWrite(v, i);
      var s := v.sessions[i];
      if i in v.participants {
        assert s.written + (s.queue + [msg]) == (s.written + s.queue) + [msg];
        assert From(v'.log, v.joined[i], |v'.log|) == From(v.log, v.joined[i], |v.log|) + [msg];
      } else {
        assert From(v'.log, v.joined[i], v.upTo[i]) == From(v.log, v.joined[i], v.upTo[i]);
      }
    }
  }

  lemma WrittenOk(v: Server, i: nat)
    requires Ok(v) && Enabled(v, Written(i, true))
    ensures Ok(Do(v, Written(i, true)))
  {
    var v' := Do(v, Written(i, true));
    forall j | 0 <= j < |v.sessions| ensures Exact(v', j) && OneWrite(v', j) {
      assert Exact(v, j) && OneWrite(v, j);
      var s := v.sessions[i];
      assert s.written + [s.queue[0]] + s.queue[1..] == s.written + s.queue;
    }
  }

  lemma WriteFailedOk(v: Server, i: nat)
    requires Ok(v) && Enabled(v, Written(i, false))
    ensures Ok(Do(v, Written(i, false)))
  {
    LeaveOk(v, i);
    var left, v' := Leave(v, i), Do(v, Written(i, false));
    forall j | 0 <= j < |v.sessions| ensures Exact(v', j) && OneWrite(v', j) {
      assert Exact(left, j) && OneWrite(left, j);
    }
  }

  lemma ClientsIrrelevant(v: Server, i: nat, c: Client)
    requires Ok(v) && i < |v.clients|
    ensures Ok(WithClient(v, i, c))
  {
    var v' := WithClient(v, i, c);
    forall j | 0 <= j < |v.sessions| ensures Exact(v', j) && OneWrite(v', j) { assert Exact(v, j) && OneWrite(v, j); }
  }

  lemma HeaderOk(v: Server, i: nat, ok: bool)
    requires Ok(v) && Enabled(v, Header(i, ok))
    ensures Ok(Do(v, Header(i, ok)))
  {
    var c := if ok then HeaderRead(v.clients[i]) else v.clients[i].(reader := NotReading);
    ClientsIrrelevant(v, i, c);
    LeaveOk(WithClient(v, i, c), i);
  }

  lemma BodyOk(v: Server, i: nat, ok: bool)
    requires Ok(v) && Enabled(v, Body(i, ok))
    ensures Ok(Do(v, Body(i, ok)))
  {
    var c := v.clients[i];
    if ok {
      DeliverOk(v, MessageRead(c), i);
      ClientsIrrelevant(Deliver(v, MessageRead(c), i), i, BodyRead(c));
    } else {
      ClientsIrrelevant(v, i, c.(reader := NotReading));
      LeaveOk(WithClient(v, i, c.(reader := NotReading)), i);
    }
  }

  lemma StepOk(v: Server, e: Event)
    requires Ok(v) && Enabled(v, e)
    ensures Ok(Do(v, e))
  {
    match e
    case Accept => AcceptOk(v);
    case Arrive(i, bytes) => ClientsIrrelevant(v, i, Arrived(v.clients[i], bytes));
    case Header(i, ok) => HeaderOk(v, i, ok);
    case Body(i, ok) => BodyOk(v, i, ok);
    case Written(i, ok) => if ok { WrittenOk(v, i); } else { WriteFailedOk(v, i); }
  }

  lemma {:induction false} RunOk(v: Server, es: seq<Event>)
    requires Ok(v) && Possible(v, es)
    ensures Ok(After(v, es))
    decreases |es|
  {
    if es != [] {
      StepOk(v, es[0]);
      RunOk(Do(v, es[0]), es[1..]);
    }
  }

  // ---------- Who is in the room ----------

  /** A session is in the room until its reading has ended or a write has failed. */
  ghost predicate Member(v: Server, i: nat)
    requires Shaped(v) && i < |v.sessions|
  {
    i in v.participants <==> !v.clients[i].reader.NotReading? && !v.sessions[i].failed
  }

  ghost predicate Members(v: Server) {
    Shaped(v) && forall i | 0 <= i < |v.sessions| :: Member(v, i)
  }

  lemma StepMembers(v: Server, e: Event)
    requires Ok(v) && Members(v) && Enabled(v, e)
    ensures Members(Do(v, e))
  {
    var v' := Do(v, e);
    DeliveredAllQueues(NEW_SESSION, v.recent);
    forall i | 0 <= i < |v'.sessions| ensures Member(v', i) {
      if i < |v.sessions| { assert Member(v, i) && Exact(v, i) && OneWrite(v, i); }
    }
  }

  lemma {:induction false} RunMembers(v: Server, es: seq<Event>)
    requires Ok(v) && Members(v) && Possible(v, es)
    ensures Members(After(v, es))
    decreases |es|
  {
    if es != [] {
      StepOk(v, es[0]);
      StepMembers(v, es[0]);
      RunMembers(Do(v, es[0]), es[1..]);
    }
  }

  /** After any run a session is in the room exactly until its reading has ended or a write has failed;
      and it leaves exactly when one of its operations fails or its next header is refused. */
  lemma InRoomExactly(es: seq<Event>, v: Server, i: nat)
    requires Possible(START, es) && v == After(START, es) && Shaped(v) && i < |v.sessions|
    ensures i in v.participants <==> !v.clients[i].reader.NotReading? && !v.sessions[i].failed
    ensures i in v.participants ==> forall e | Enabled(v, e) ::
              i !in Do(v, e).participants <==>
              || e == Header(i, false) || e == Body(i, false) || e == Written(i, false)
              || (e == Header(i, true) && !Accepts(v.clients[i].left[..4]))
  {
    RunMembers(START, es);
    assert Member(v, i);
  }

  /** After any run: the room remembers the end of the log, 100 messages of it or all; what a session
      has had written and still has queued is the log from 100 messages before it joined, or from the
      start, until it left, or up to now; and until a write fails the front of the queue is in flight
      when there is one, and nothing else. */
  lemma StreamsAreExact(es: seq<Event>, v: Server, i: nat)
    requires Possible(START, es) && v == After(START, es) && Shaped(v) && i < |v.sessions|
    ensures |v.recent| == if |v.log| < 100 then |v.log| else 100
    ensures v.recent == v.log[|v.log| - |v.recent|..]
    ensures v.joined[i] <= v.upTo[i] <= |v.log| || i in v.participants
    ensures v.joined[i] <= |v.log|
    ensures v.sessions[i].written + v.sessions[i].queue ==
            v.log[if v.joined[i] > 100 then v.joined[i] - 100 else 0..
                  if i in v.participants then |v.log| else v.upTo[i]]
    ensures !v.sessions[i].failed ==>
              v.sessions[i].writes == if v.sessions[i].queue != [] then [v.sessions[i].queue[0]] else []
    ensures v.sessions[i].failed ==> v.sessions[i].writes == []
  {
    RunOk(START, es);
    assert Exact(v, i) && OneWrite(v, i);
    LastIsRecent(v.log);
  }

  /** When no write is in flight and none has failed, everything has been written. */
  lemma QuietMeansWritten(es: seq<Event>, v: Server, i: nat)
    requires Possible(START, es) && v == After(START, es) && Shaped(v) && i < |v.sessions|
    requires v.sessions[i].writes == [] && !v.sessions[i].failed
    ensures v.joined[i] <= |v.log| && (i in v.participants || v.joined[i] <= v.upTo[i] <= |v.log|)
    ensures v.sessions[i].written ==
            v.log[if v.joined[i] > 100 then v.joined[i] - 100 else 0..
                  if i in v.participants then |v.log| else v.upTo[i]]
  {
    StreamsAreExact(es, v, i);
  }

  function Writes(i: nat, k: nat): seq<Event> {
    if k == 0 then [] else [Written(i, true)] + Writes(i, k - 1)
  }

  /** Nothing queued is stuck: as many successful writes as there are messages queued are
      possible, one after the other, and write them all. */
  lemma {:induction false} QueueFlushes(v: Server, i: nat)
    requires Ok(v) && i < |v.sessions| && !v.sessions[i].failed
    ensures Possible(v, Writes(i, |v.sessions[i].queue|))
    ensures var v' := After(v, Writes(i, |v.sessions[i].queue|));
            && Shaped(v') && i < |v'.sessions|
            && v'.sessions[i] == Session([], [], v.sessions[i].written + v.sessions[i].queue, false)
    decreases |v.sessions[i].queue|
  {
    assert Exact(v, i) && OneWrite(v, i);
    var s, e := v.sessions[i], Written(i, true);
    if s.queue != [] {
      var v1 := Do(v, e);
      StepOk(v, e);
      QueueFlushes(v1, i);
      assert Writes(i, |s.queue|)[1..] == Writes(i, |s.queue| - 1);
      assert s.written + [s.queue[0]] + s.queue[1..] == s.written + s.queue;
    }
  }

  // ---------- From the clients' bytes to the log ----------

  /** The messages of the log that are author i's. */
  ghost function By(log: seq<Message>, authors: seq<nat>, i: nat): seq<Message>
    requires |log| == |authors|
  {
    if log == [] then [] else
    var n := |log| - 1;
    By(log[..n], authors[..n], i) + if authors[n] == i then [log[n]] else []
  }

  lemma ByMore(log: seq<Message>, authors: seq<nat>, i: nat, msg: Message, author: nat)
    requires |log| == |authors|
    ensures By(log + [msg], authors + [author], i) ==
            if author == i then By(log, authors, i) + [msg] else By(log, authors, i)
  {
    assert (log + [msg])[..|log|] == log && (authors + [author])[..|log|] == authors;
  }

  lemma {:induction false} JoinMore(wires: seq<seq<Byte>>, wire: seq<Byte>)
    ensures Join(wires + [wire]) == Join(wires) + wire
  {
    if wires == [] {
      assert wires + [wire] == [wire] && [wire][1..] == [];
    } else {
      assert (wires + [wire])[1..] == wires[1..] + [wire];
      JoinMore(wires[1..], wire);
      assert wires[0] + (Join(wires[1..]) + wire) == (wires[0] + Join(wires[1..])) + wire;
    }
  }

  ghost predicate WholeWires(wires: seq<seq<Byte>>) {
    forall k | 0 <= k < |wires| :: Whole(wires[k]) && FrontLength(wires[k]) == |wires[k]|
  }

  /** A client's messages in the log, the header in hand and the unread bytes are what it sent. */
  ghost predicate Heard(c: Client, mine: seq<Message>) {
    && Join(mine) + c.hold + c.left == c.sent
    && WholeWires(mine)
    && (c.reader.ReadingHeader? ==> c.hold == [])
    && (c.reader.ReadingBody? ==> |c.hold| == HEADER_LENGTH && Accepts(c.hold))
  }

  ghost predicate AllHeard(v: Server) {
    && Shaped(v) && |v.log| == |v.authors|
    && (forall k | 0 <= k < |v.authors| :: v.authors[k] < |v.clients|)
    && forall i | 0 <= i < |v.clients| :: Heard(v.clients[i], By(v.log, v.authors, i))
  }

  lemma ArrivedHeard(c: Client, mine: seq<Message>, bytes: seq<Byte>)
    requires Heard(c, mine)
    ensures Heard(Arrived(c, bytes), mine)
  {
    assert Join(mine) + c.hold + (c.left + bytes) == c.sent + bytes;
  }

  lemma HeaderHeard(c: Client, mine: seq<Message>)
    requires Heard(c, mine) && c.reader.ReadingHeader? && HEADER_LENGTH <= |c.left|
    ensures Heard(HeaderRead(c), mine)
  {
    assert c.left == c.left[..HEADER_LENGTH] + c.left[HEADER_LENGTH..];
  }

  lemma BodyHeard(c: Client, mine: seq<Message>)
    requires Heard(c, mine) && c.reader.ReadingBody? && LengthField(c.hold) <= |c.left|
    ensures Heard(BodyRead(c), mine + [MessageRead(c)])
  {
    var n, wire := LengthField(c.hold), MessageRead(c);
    assert wire[..HEADER_LENGTH] == c.hold;
    JoinMore(mine, wire);
    BodyTaken(Join(mine), c.hold, c.left, n);
  }

  lemma BodyTaken(before: seq<Byte>, hold: seq<Byte>, left: seq<Byte>, n: nat)
    requires n <= |left|
    ensures before + hold + left == (before + (hold + left[..n])) + [] + left[n..]
  {
  }

  lemma {:induction false} ByNobody(log: seq<Message>, authors: seq<nat>, i: nat)
    requires |log| == |authors| && i !in authors
    ensures By(log, authors, i) == []
  {
    if log != [] {
      var n := |log| - 1;
      assert authors[n] in authors;
      ByNobody(log[..n], authors[..n], i);
    }
  }

  lemma AcceptHeard(v: Server)
    requires AllHeard(v)
    ensures AllHeard(Do(v, Accept))
  {
    ByNobody(v.log, v.authors, |v.clients|);
    assert Join([]) + [] + [] == [];
  }

  lemma BodyStepHeard(v: Server, i: nat)
    requires AllHeard(v) && Enabled(v, Body(i, true))
    ensures AllHeard(Do(v, Body(i, true)))
  {
    var v', msg := Do(v, Body(i, true)), MessageRead(v.clients[i]);
    forall j | 0 <= j < |v.clients| ensures Heard(v'.clients[j], By(v'.log, v'.authors, j)) {
      ByMore(v.log, v.authors, j, msg, i);
      if j == i { BodyHeard(v.clients[i], By(v.log, v.authors, i)); }
    }
  }

  lemma StepHeard(v: Server, e: Event)
    requires AllHeard(v) && Enabled(v, e)
    ensures AllHeard(Do(v, e))
  {
    match e
    case Accept => AcceptHeard(v);
    case Arrive(i, bytes) => ArrivedHeard(v.clients[i], By(v.log, v.authors, i), bytes);
    case Header(i, ok) => if ok { HeaderHeard(v.clients[i], By(v.log, v.authors, i)); }
    case Body(i, ok) => if ok { BodyStepHeard(v, i); }
    case Written(_, _) =>
  }

  lemma {:induction false} RunHeard(v: Server, es: seq<Event>)
    requires AllHeard(v) && Possible(v, es)
    ensures AllHeard(After(v, es))
    decreases |es|
  {
    if es != [] {
      StepHeard(v, es[0]);
      RunHeard(Do(v, es[0]), es[1..]);
    }
  }

  lemma HeardFrames(c: Client, mine: seq<Message>)
    requires Heard(c, mine)
    ensures Frames(c.sent) == mine + Frames(c.hold + c.left)
    ensures |c.hold| == HEADER_LENGTH && !Accepts(c.hold) ==> Frames(c.hold + c.left) == []
  {
    assert c.sent == Join(mine) + (c.hold + c.left);
    WholeFramesAgain(mine, c.hold + c.left);
    if |c.hold| == HEADER_LENGTH { assert (c.hold + c.left)[..HEADER_LENGTH] == c.hold; }
  }

  /** End to end: after any run a client's messages in the log are a beginning of what its bytes
      decode to, verbatim and in order. While it is being read, the rest is in the bytes not read
      yet; and when reading has ended at a refused header, nothing is missing. */
  lemma LogIsWhatClientsSent(es: seq<Event>, v: Server, i: nat)
    requires Possible(START, es) && v == After(START, es) && Shaped(v) && i < |v.clients|
    ensures |v.log| == |v.authors| && By(v.log, v.authors, i) <= Frames(v.clients[i].sent)
    ensures var c := v.clients[i];
            && Frames(c.sent) == By(v.log, v.authors, i) + Frames(c.hold + c.left)
            && (c.reader.NotReading? && |c.hold| == HEADER_LENGTH && !Accepts(c.hold) ==>
                  By(v.log, v.authors, i) == Frames(c.sent))
  {
    RunHeard(START, es);
    HeardFrames(v.clients[i], By(v.log, v.authors, i));
  }
}
