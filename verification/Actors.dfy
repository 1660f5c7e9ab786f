/** actor.cpp: handler registration and dispatch, the ring member and the receiver. */
module Actors {

  datatype Address = Receiver | Member(i: nat)

  /** `origin` names the token for the statements about runs; no handler looks at it. */
  datatype Message = Init(next: Address, from: Address) | Token(value: int, from: Address, origin: nat)

  datatype Handler = InitHandler | TokenHandler

  datatype Send = Send(msg: Message, to: Address)

  datatype MemberState = MemberState(handlers: seq<Handler>, next: Address, caller: Address)

  predicate Handles(h: Handler, msg: Message) {
    match h case InitHandler => msg.Init? case TokenHandler => msg.Token?
  }

  /** deregister_handler removes only the first match. */
  function Deregister(hs: seq<Handler>, h: Handler): seq<Handler> {
    if hs == [] then [] else if hs[0] == h then hs[1..] else [hs[0]] + Deregister(hs[1..], h)
  }

  /** The first occurrence of h is the one at i, and it is gone. */
  ghost predicate FirstRemoved(hs: seq<Handler>, h: Handler, i: nat, left: seq<Handler>) {
    i < |hs| && hs[i] == h && h !in hs[..i] && left == hs[..i] + hs[i + 1..]
  }

  function AfterInit(m: MemberState, msg: Message): MemberState
    requires msg.Init?
  {
    MemberState(Deregister(m.handlers + [TokenHandler], InitHandler), msg.next, msg.from)
  }

  /** token_handler: count down to the next member, report a zero to the caller. */
  function Forward(m: MemberState, msg: Message, self: nat): Send
    requires msg.Token?
  {
    if msg.value > 0 then Send(Token(msg.value - 1, Member(self), msg.origin), m.next)
    else Send(Token(msg.value, Member(self), msg.origin), m.caller)
  }

  /** call_handler over the handlers `hs` that were registered when the message arrived. */
  ghost function Called(m: MemberState, hs: seq<Handler>, msg: Message): MemberState
    decreases |hs|
  {
    if hs == [] then m
    else Called(if Handles(hs[0], msg) && msg.Init? then AfterInit(m, msg) else m, hs[1..], msg)
  }

  ghost function Sends(m: MemberState, hs: seq<Handler>, msg: Message, self: nat): seq<Send>
    decreases |hs|
  {
    if hs == [] then []
    else
      (if Handles(hs[0], msg) && msg.Token? then [Forward(m, msg, self)] else [])
      + Sends(if Handles(hs[0], msg) && msg.Init? then AfterInit(m, msg) else m, hs[1..], msg, self)
  }

  class RingMember {
    const self: nat
    var handlers: seq<Handler>
    var next: Address
    var caller: Address

    ghost function View(): MemberState
      reads this
    {
      MemberState(handlers, next, caller)
    }

    constructor (self: nat)
      ensures this.self == self && handlers == [InitHandler]
    {
      this.self := self;
      handlers, next, caller := [InitHandler], Receiver, Receiver;
    }

    method RegisterHandler(h: Handler)
      modifies this`handlers
      ensures handlers == old(handlers) + [h]
    {
      handlers := handlers + [h];
    }

    method DeregisterHandler(h: Handler)
      modifies this`handlers
      ensures handlers == Deregister(old(handlers), h)
      ensures h !in old(handlers) ==> handlers == old(handlers)
      ensures h in old(handlers) ==> exists i :: FirstRemoved(old(handlers), h, i, handlers)
    {
      var iter := 0;
      while iter < |handlers|
        invariant iter <= |handlers| && handlers == old(handlers) && h !in handlers[..iter]
        invariant handlers[..iter] + Deregister(handlers[iter..], h) == Deregister(handlers, h)
      {
        if handlers[iter] == h {
          handlers := handlers[..iter] + handlers[iter + 1..];
          assert FirstRemoved(old(handlers), h, iter, handlers);
          return;
        }
        iter := iter + 1;
      }
      assert handlers[..iter] == handlers;
    }

    method HandleInit(msg: Message)
      requires msg.Init?
      modifies this
      ensures View() == AfterInit(old(View()), msg)
      ensures next == msg.next && caller == msg.from
      ensures old(handlers) == [InitHandler] ==> handlers == [TokenHandler]
    {
      next := msg.next;
      caller := msg.from;
      RegisterHandler(TokenHandler);
      DeregisterHandler(InitHandler);
    }

    method HandleToken(msg: Message) returns (out: Send)
      requires msg.Token?
      ensures out == Forward(View(), msg, self)
      ensures out.to == (if msg.value > 0 then next else caller) && out.msg.Token? && out.msg.from == Member(self)
      ensures out.msg.value == msg.value - (if msg.value > 0 then 1 else 0) && out.msg.origin == msg.origin
    {
      var value, to := msg.value, caller;
      if msg.value > 0 {
        value := msg.value - 1;
        to := next;
      }
      out := Send(Token(value, Member(self), msg.origin), to);
    }

    /** Calls the matching handlers among those registered at the start. */
    method CallHandler(msg: Message) returns (out: seq<Send>)
      modifies this
      ensures View() == Called(old(View()), old(handlers), msg)
      ensures out == Sends(old(View()), old(handlers), msg, self)
    {
      out := [];
      var snapshot := handlers;
      var i := 0;
      while i < |snapshot|
        invariant i <= |snapshot|
        invariant Called(View(), snapshot[i..], msg) == Called(old(View()), snapshot, msg)
        invariant out + Sends(View(), snapshot[i..], msg, self) == Sends(old(View()), snapshot, msg, self)
      {
        var h := snapshot[i];
        assert snapshot[i..][1..] == snapshot[i + 1..];
        if Handles(h, msg) {
          if msg.Init? {
            HandleInit(msg);
          } else {
            var sent := HandleToken(msg);
            out := out + [sent];
          }
        }
        i := i + 1;
      }
    }
  }

  /** The actor that main waits on: a queue filled by the message handler and emptied by wait. */
  class IntReceiver {
    var messageQueue: seq<int>

    constructor ()
      ensures messageQueue == []
    {
      messageQueue := [];
    }

    method MessageHandler(value: int)
      modifies this
      ensures messageQueue == old(messageQueue) + [value]
    {
      messageQueue := messageQueue + [value];
    }

    /** wait() blocks until the queue is not empty. */
    method Wait() returns (value: int)
      requires messageQueue != []
      modifies this
      ensures [value] + messageQueue == old(messageQueue)
    {
      value := messageQueue[0];
      messageQueue := messageQueue[1..];
    }
  }
}
