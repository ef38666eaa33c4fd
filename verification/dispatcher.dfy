/**
 * The two Python-side loops of scripting-cpython.py: `engine`, which serves
 * one script engine's request queue, and `engine_requester`, which serves the
 * shared request queue and starts engines. Each consumes the messages it takes,
 * in order, and puts its replies on a response queue.
 */
module Dispatcher {
  import opened Values
  import opened Evaluator

  /** What one `take()` of a loop yields: a message, or an exception (an
      interrupted thread), which the loop logs before taking again. */
  datatype Incoming = Take(m: Message) | Interrupted

  /** The messages taken, in order. */
  function Taken(xs: seq<Incoming>): seq<Message> {
    if xs == [] then []
    else Taken(xs[..|xs| - 1]) + (if xs[|xs| - 1].Take? then [xs[|xs| - 1].m] else [])
  }

  /** The EXCEPTION both loops reply to a command they do not serve. */
  function UnknownCommand(c: Command): Message {
    Message(Exception, [JRuntimeException("Unknown command: " + CommandName(c))])
  }

  // ---------------------------------------------------------------------------
  // engine

  predicate ClosesEngine(x: Incoming) {
    x.Take? && x.m.command == CloseEngine
  }

  /** The reply the engine puts for a request that does not close it. */
  function Reply(host: Host, m: Message): Message {
    match m.command
    case Execute => DoExecute(host, m.payload)
    case Evaluate => DoEvaluate(host, m.payload)
    case _ => UnknownCommand(m.command)
  }

  /** The replies to a run of requests, none of which closes the engine. */
  function Replies(host: Host, xs: seq<Incoming>): seq<Message> {
    if xs == [] then []
    else Replies(host, xs[..|xs| - 1]) + (if xs[|xs| - 1].Take? then [Reply(host, xs[|xs| - 1].m)] else [])
  }

  /** `engine`: takes requests until CLOSE_ENGINE, which gets no reply; every
      other request gets exactly one reply, put before the next take. An
      exception (an interrupted take) does not end the loop. `served` counts
      the inputs handled before the close, if any. */
  method EngineLoop(host: Host, incoming: seq<Incoming>, responses: Queue) returns (served: nat, closed: bool)
    modifies responses
    ensures served <= |incoming|
    ensures forall i :: 0 <= i < served ==> !ClosesEngine(incoming[i])
    ensures closed ==> served < |incoming| && ClosesEngine(incoming[served])
    ensures !closed ==> served == |incoming|
    ensures responses.items == old(responses.items) + Replies(host, incoming[..served])
  {
    served := 0;
    while served < |incoming|
      invariant served <= |incoming|
      invariant forall i :: 0 <= i < served ==> !ClosesEngine(incoming[i])
      invariant responses.items == old(responses.items) + Replies(host, incoming[..served])
    {
      assert incoming[..served + 1][..served] == incoming[..served];
      var x := incoming[served];
      if x.Interrupted? {
        served := served + 1;
        continue;
      }
      var msg := x.m;
      var response;
      if msg.command == Execute {
        response := DoExecute(host, msg.payload);
      } else if msg.command == Evaluate {
        response := DoEvaluate(host, msg.payload);
      } else if msg.command == CloseEngine {
        return served, true;
      } else {
        response := UnknownCommand(msg.command);
      }
      assert response == Reply(host, msg);
      assert Replies(host, incoming[..served + 1]) == Replies(host, incoming[..served]) + [response];
      responses.Put(response);
      served := served + 1;
    }
    closed := false;
  }

  /** One reply per request taken, in the order taken. */
  lemma {:induction false} RepliesOnePerRequest(host: Host, xs: seq<Incoming>)
    ensures |Replies(host, xs)| == |Taken(xs)|
    ensures forall i :: 0 <= i < |Taken(xs)| ==> Replies(host, xs)[i] == Reply(host, Taken(xs)[i])
  {
    if xs != [] {
      RepliesOnePerRequest(host, xs[..|xs| - 1]);
    }
  }

  /** What kind of reply each request gets: EXECUTE an EXECUTION or an
      EXCEPTION, EVALUATE an EVALUATE_RESULT or an EXCEPTION, anything else an
      EXCEPTION naming the command. Each reply carries at most one object. */
  lemma ReplyKinds(host: Host, m: Message)
    ensures m.command == Execute ==> Reply(host, m).command in {Execution, Exception}
    ensures m.command == Evaluate ==> Reply(host, m).command in {EvaluateResult, Exception}
    ensures m.command !in {Execute, Evaluate} ==> Reply(host, m) == UnknownCommand(m.command)
    ensures |Reply(host, m).payload| <= 1
  {
    if m.command == Execute {
      ExecuteReplyShape(host, m.payload);
    } else if m.command == Evaluate {
      EvaluateReplyShape(host, m.payload);
    }
  }

  // ---------------------------------------------------------------------------
  // engine_requester and do_new_engine

  predicate ClosesService(x: Incoming) {
    x.Take? && x.m.command == CloseService
  }

  /** The arguments an engine thread is started with: `payload[:2]`, the
      request queue and the response queue. */
  function EngineArgs(payload: seq<JObj>): (args: seq<JObj>)
    ensures |args| == if |payload| < 2 then |payload| else 2
    ensures args <= payload
  {
    if |payload| < 2 then payload else payload[..2]
  }

  /** The reply the service puts for a request that does not close it. */
  function ServiceReply(m: Message): Message {
    if m.command == NewEngine then Message(NewEngineResult, []) else UnknownCommand(m.command)
  }

  function ServiceReplies(xs: seq<Incoming>): seq<Message> {
    if xs == [] then []
    else ServiceReplies(xs[..|xs| - 1]) + (if xs[|xs| - 1].Take? then [ServiceReply(xs[|xs| - 1].m)] else [])
  }

  /** The engines started for a run of requests, in order. */
  function Engines(xs: seq<Incoming>): seq<seq<JObj>> {
    if xs == [] then []
    else
      var x := xs[|xs| - 1];
      Engines(xs[..|xs| - 1]) + (if x.Take? && x.m.command == NewEngine then [EngineArgs(x.m.payload)] else [])
  }

  /** `engine_requester` as intended: takes requests until CLOSE_SERVICE;
      NEW_ENGINE starts an engine on the first two payload items and replies
      NEW_ENGINE_RESULT with an empty payload; any other command is answered
      with an EXCEPTION. An exception does not end the loop. */
  method ServiceLoop(incoming: seq<Incoming>, responses: Queue) returns (served: nat, closed: bool, engines: seq<seq<JObj>>)
    modifies responses
    ensures served <= |incoming|
    ensures forall i :: 0 <= i < served ==> !ClosesService(incoming[i])
    ensures closed ==> served < |incoming| && ClosesService(incoming[served])
    ensures !closed ==> served == |incoming|
    ensures engines == Engines(incoming[..served])
    ensures responses.items == old(responses.items) + ServiceReplies(incoming[..served])
  {
    served := 0;
    engines := [];
    while served < |incoming|
      invariant served <= |incoming|
      invariant forall i :: 0 <= i < served ==> !ClosesService(incoming[i])
      invariant engines == Engines(incoming[..served])
      invariant responses.items == old(responses.items) + ServiceReplies(incoming[..served])
    {
      assert incoming[..served + 1][..served] == incoming[..served];
      var x := incoming[served];
      if x.Interrupted? {
        served := served + 1;
        continue;
      }
      var msg := x.m;
      if msg.command == NewEngine {
        engines := engines + [EngineArgs(msg.payload)];
        responses.Put(Message(NewEngineResult, []));
      } else if msg.command == CloseService {
        return served, true, engines;
      } else {
        responses.Put(UnknownCommand(msg.command));
      }
      served := served + 1;
    }
    closed := false;
  }

  /** One reply per request taken, in order; one engine per NEW_ENGINE. */
  lemma {:induction false} ServiceRepliesOnePerRequest(xs: seq<Incoming>)
    ensures |ServiceReplies(xs)| == |Taken(xs)|
    ensures forall i :: 0 <= i < |Taken(xs)| ==> ServiceReplies(xs)[i] == ServiceReply(Taken(xs)[i])
    ensures |Engines(xs)| == |NewEngineRequests(Taken(xs))|
  {
    if xs != [] {
      var init, x := xs[..|xs| - 1], xs[|xs| - 1];
      ServiceRepliesOnePerRequest(init);
      if x.Take? {
        assert Taken(xs) == Taken(init) + [x.m];
        NewEngineRequestsAppend(Taken(init), x.m);
      } else {
        assert Taken(xs) == Taken(init);
      }
    }
  }

  /** The replies of the service loop as written. The script that would
      answer an unknown command reads `msg`, which it is not given, so it
      raises before its `put`; the bare `except` swallows that. Only
      NEW_ENGINE is answered. */
  function ServiceRepliesAsWritten(xs: seq<Incoming>): seq<Message> {
    if xs == [] then []
    else
      var x := xs[|xs| - 1];
      ServiceRepliesAsWritten(xs[..|xs| - 1]) + (if x.Take? && x.m.command == NewEngine then [Message(NewEngineResult, [])] else [])
  }

  /** `engine_requester` as written: like ServiceLoop, but any command other
      than NEW_ENGINE and CLOSE_SERVICE ends its iteration in the `except`
      without a reply. */
  method ServiceLoopAsWritten(incoming: seq<Incoming>, responses: Queue) returns (served: nat, closed: bool, engines: seq<seq<JObj>>)
    modifies responses
    ensures served <= |incoming|
    ensures forall i :: 0 <= i < served ==> !ClosesService(incoming[i])
    ensures closed ==> served < |incoming| && ClosesService(incoming[served])
    ensures !closed ==> served == |incoming|
    ensures engines == Engines(incoming[..served])
    ensures responses.items == old(responses.items) + ServiceRepliesAsWritten(incoming[..served])
  {
    served := 0;
    engines := [];
    while served < |incoming|
      invariant served <= |incoming|
      invariant forall i :: 0 <= i < served ==> !ClosesService(incoming[i])
      invariant engines == Engines(incoming[..served])
      invariant responses.items == old(responses.items) + ServiceRepliesAsWritten(incoming[..served])
    {
      assert incoming[..served + 1][..served] == incoming[..served];
      var x := incoming[served];
      if x.Interrupted? {
        served := served + 1;
        continue;
      }
      var msg := x.m;
      if msg.command == NewEngine {
        engines := engines + [EngineArgs(msg.payload)];
        responses.Put(Message(NewEngineResult, []));
      } else if msg.command == CloseService {
        return served, true, engines;
      }
      served := served + 1;
    }
    closed := false;
  }

  /** As written, the service puts exactly one NEW_ENGINE_RESULT per
      NEW_ENGINE it takes and nothing else, one per engine started. */
  lemma {:induction false} ServiceRepliesAsWrittenPerNewEngine(xs: seq<Incoming>)
    ensures |ServiceRepliesAsWritten(xs)| == |NewEngineRequests(Taken(xs))| == |Engines(xs)|
    ensures forall i :: 0 <= i < |ServiceRepliesAsWritten(xs)| ==> ServiceRepliesAsWritten(xs)[i] == Message(NewEngineResult, [])
  {
    if xs != [] {
      var init, x := xs[..|xs| - 1], xs[|xs| - 1];
      ServiceRepliesAsWrittenPerNewEngine(init);
      if x.Take? {
        assert Taken(xs) == Taken(init) + [x.m];
        NewEngineRequestsAppend(Taken(init), x.m);
      } else {
        assert Taken(xs) == Taken(init);
      }
    }
  }

  /** A request the service does not know, e.g. an EXECUTE sent to the
      service's queue, gets no reply as written, where the intended loop
      answers it with "Unknown command". */
  lemma UnknownServiceCommandUnanswered(m: Message)
    requires m.command != NewEngine && m.command != CloseService
    ensures ServiceRepliesAsWritten([Take(m)]) == []
    ensures ServiceReplies([Take(m)]) == [UnknownCommand(m.command)]
  {
    assert [Take(m)][..0] == [];
  }

  /** The NEW_ENGINE messages among `ms`. */
  function NewEngineRequests(ms: seq<Message>): seq<Message> {
    if ms == [] then []
    else NewEngineRequests(ms[..|ms| - 1]) + (if ms[|ms| - 1].command == NewEngine then [ms[|ms| - 1]] else [])
  }

  lemma NewEngineRequestsAppend(ms: seq<Message>, m: Message)
    ensures NewEngineRequests(ms + [m]) == NewEngineRequests(ms) + (if m.command == NewEngine then [m] else [])
  {
    assert (ms + [m])[..|ms|] == ms;
  }

  /** The message an engine's constructor sends starts an engine on exactly
      its two queues and is answered with NEW_ENGINE_RESULT. */
  lemma NewEngineRequestServed(request: Queue, response: Queue)
    ensures var m := Message(NewEngine, [JQueue(request), JQueue(response)]);
            && Engines([Take(m)]) == [[JQueue(request), JQueue(response)]]
            && ServiceReplies([Take(m)]) == [Message(NewEngineResult, [])]
            && ServiceRepliesAsWritten([Take(m)]) == [Message(NewEngineResult, [])]
  {
    var m := Message(NewEngine, [JQueue(request), JQueue(response)]);
    assert [Take(m)][..0] == [];
    assert EngineArgs(m.payload) == m.payload;
  }
}
