/**
 * The Java side, CPythonScriptEngine: the service's two shared queues, each
 * engine's own pair of queues, the messages the engine sends, and how `eval`
 * turns the reply into a value or a ScriptException.
 */
module JavaEngine {
  import opened Values
  import opened Evaluator
  import opened Dispatcher

  /** The static engineRequestQueue and engineResponseQueue. */
  class Service {
    const engineRequestQueue: Queue
    const engineResponseQueue: Queue

    constructor ()
      ensures fresh(engineRequestQueue) && fresh(engineResponseQueue)
      ensures engineRequestQueue != engineResponseQueue
      ensures engineRequestQueue.items == [] && engineResponseQueue.items == []
    {
      engineRequestQueue := new Queue();
      engineResponseQueue := new Queue();
    }

    /** closeService: asks the service loop to exit. */
    method CloseService()
      modifies engineRequestQueue
      ensures engineRequestQueue.items == old(engineRequestQueue.items) + [Message(Command.CloseService, [])]
    {
      engineRequestQueue.Put(Message(Command.CloseService, []));
    }
  }

  /** What `eval` ends with: a returned object, a ScriptException with its
      message, or the IndexOutOfBoundsException of `payload.get(0)` on an
      empty payload. */
  datatype Outcome = Returned(value: JObj) | ScriptError(message: string) | IndexOutOfBounds

  const UnknownFormat: string := "Exception thrown but unknown format"

  /** The response decoding of eval(Message). */
  function Decode(m: Message): (r: Outcome)
    ensures m.command == Exception <==> r.ScriptError?
    ensures r.Returned? ==> m.payload != [] && r.value == m.payload[0]
    ensures m.command != Exception && m.payload != [] ==> r == Returned(m.payload[0])
    ensures m.command != Exception && m.payload == [] ==> r == IndexOutOfBounds
  {
    if m.command == Exception then
      if |m.payload| == 1 && InstanceOf(m.payload[0], "java/lang/String") then ScriptError(JavaToString(m.payload[0]))
      else ScriptError(UnknownFormat)
    else if m.payload == [] then IndexOutOfBounds
    else Returned(m.payload[0])
  }

  /** The request eval(String) sends: the script and a fresh, empty context map. */
  function EvalRequest(script: string): Message {
    Message(Evaluate, [JavaString(script), JMap(map[])])
  }

  /** CPythonScriptEngine: one engine, served by one `engine` loop on the
      Python side through its own two queues. */
  class ScriptEngine {
    const service: Service
    const requestQueue: Queue
    const responseQueue: Queue

    ghost predicate Valid()
      reads this
    {
      requestQueue != responseQueue
    }

    /** Asks the service for an engine on this engine's two queues, then takes
        one reply from the shared response queue without looking at it. The
        take returns only once a reply is there. */
    constructor (service: Service)
      requires service.engineRequestQueue != service.engineResponseQueue
      requires service.engineResponseQueue.items != []
      modifies service.engineRequestQueue, service.engineResponseQueue
      ensures Valid() && this.service == service
      ensures fresh(requestQueue) && fresh(responseQueue)
      ensures requestQueue.items == [] && responseQueue.items == []
      ensures service.engineRequestQueue.items ==
              old(service.engineRequestQueue.items) + [Message(NewEngine, [JQueue(requestQueue), JQueue(responseQueue)])]
      ensures service.engineResponseQueue.items == old(service.engineResponseQueue.items)[1..]
    {
      this.service := service;
      requestQueue := new Queue();
      responseQueue := new Queue();
      new;
      service.engineRequestQueue.Put(Message(NewEngine, [JQueue(requestQueue), JQueue(responseQueue)]));
      var _ := service.engineResponseQueue.Take();
    }

    /** eval(Message): puts the request, takes exactly one response and decodes it. */
    method EvalMessage(request: Message) returns (r: Outcome)
      requires Valid() && responseQueue.items != []
      modifies requestQueue, responseQueue
      ensures requestQueue.items == old(requestQueue.items) + [request]
      ensures responseQueue.items == old(responseQueue.items)[1..]
      ensures r == Decode(old(responseQueue.items)[0])
    {
      requestQueue.Put(request);
      var result := responseQueue.Take();
      r := Decode(result);
    }

    /** eval(String) */
    method Eval(script: string) returns (r: Outcome)
      requires Valid() && responseQueue.items != []
      modifies requestQueue, responseQueue
      ensures requestQueue.items == old(requestQueue.items) + [EvalRequest(script)]
      ensures responseQueue.items == old(responseQueue.items)[1..]
      ensures r == Decode(old(responseQueue.items)[0])
    {
      r := EvalMessage(EvalRequest(script));
    }

    /** finalize: asks this engine's loop to exit; no reply is taken. */
    method Finalize()
      modifies requestQueue
      ensures requestQueue.items == old(requestQueue.items) + [Message(CloseEngine, [])]
    {
      requestQueue.Put(Message(CloseEngine, []));
    }
  }

  /** An EXCEPTION whose payload is exactly one String carries that string. */
  lemma DecodeStringException(s: string)
    ensures Decode(Message(Exception, [JavaString(s)])) == ScriptError(s)
  {
  }

  /** Any other EXCEPTION payload gives the fixed message. */
  lemma DecodeUnknownFormat(m: Message)
    requires m.command == Exception
    requires |m.payload| != 1 || !InstanceOf(m.payload[0], "java/lang/String")
    ensures Decode(m) == ScriptError(UnknownFormat)
  {
  }

  /** No exception object the Python side builds is a String. */
  lemma PythonExceptionsAreNotStrings(host: Host, m: Message)
    ensures var r := Reply(host, m);
            r.command == Exception ==> |r.payload| == 1 && !InstanceOf(r.payload[0], "java/lang/String")
  {
    ReplyKinds(host, m);
  }

  /** Hence every failure the Python engine reports reaches the Java caller
      as "Exception thrown but unknown format", whatever was raised. */
  lemma PythonFailuresDecodeToUnknownFormat(host: Host, m: Message)
    requires Reply(host, m).command == Exception
    ensures Decode(Reply(host, m)) == ScriptError(UnknownFormat)
  {
    PythonExceptionsAreNotStrings(host, m);
  }

  /** The round trip of eval(String) through the engine loop: the value the
      script evaluates to, or the unknown-format ScriptException; never the
      IndexOutOfBoundsException. */
  lemma EvalRoundTrip(host: Host, script: string)
    ensures var p := EvalRequest(script).payload;
            Decode(Reply(host, EvalRequest(script))) ==
            (if Evaluated(host, p).Success? then Returned(Evaluated(host, p).value) else ScriptError(UnknownFormat))
  {
    PythonExceptionsAreNotStrings(host, EvalRequest(script));
  }

  /** An engine whose requests are one eval(String) followed by finalize
      receives exactly one reply, to the evaluation, and its loop then exits. */
  lemma EvalThenFinalize(host: Host, script: string)
    ensures var incoming := [Take(EvalRequest(script)), Take(Message(CloseEngine, []))];
            && !ClosesEngine(incoming[0]) && ClosesEngine(incoming[1])
            && Replies(host, incoming[..1]) == [DoEvaluate(host, EvalRequest(script).payload)]
  {
    var incoming := [Take(EvalRequest(script)), Take(Message(CloseEngine, []))];
    assert incoming[..1][..0] == [];
  }
}
