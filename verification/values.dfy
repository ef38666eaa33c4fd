/**
 * The values that cross the bridge: Java objects as the Python side sees them,
 * Python values, the engine commands and the messages the two sides exchange
 * over their queues (CPythonScriptEngine.EngineCommands and .Message).
 */
module Values {

  /** A Java object. */
  datatype JObj =
    | JNull
      /** Any Java object: the internal (slash-separated) names of every class and
          interface it is an instance of, and what its toString() returns. */
    | JObject(id: nat, types: set<string>, text: string)
      /** A java.util.HashMap<String, Object>; a null value is JNull. */
    | JMap(entries: map<string, JObj>)
      /** A java.util.concurrent.SynchronousQueue<Message>. */
    | JQueue(q: Queue)
      /** new java.lang.RuntimeException(message) */
    | JRuntimeException(message: string)
      /** new javax.script.ScriptException(message, fileName, lineNumber) */
    | JScriptException(message: string, fileName: PyValue, line: int)
      /** The Java object javabridge makes of a Python value handed to a script. */
    | JFromPython(v: PyValue)

  /** A Python value, classified the way the bridge classifies it. */
  datatype PyValue =
    | PyNone
      /** a javabridge JB_Object: a reference to a Java object */
    | PyJava(handle: JObj)
      /** a Python object with an attribute `o`, as every JWrapper proxy is */
    | PyWrapper(o: PyValue)
      /** a sequence numpy does not count as a scalar (list, tuple, array) */
    | PySeq(items: seq<PyValue>)
      /** anything numpy counts as a scalar; Python strings included */
    | PyScalar(s: Scalar)
      /** any other Python object (a function, a class): not a scalar, no attribute
          `o`, no len(); named for reference */
    | PyObject(name: string)

  datatype Scalar =
    | PyStr(s: string)
    | PyInt(i: int)
    | PyBool(b: bool)
      /** the number a call of the unboxing method `methodName` with JNI signature
          `signature` on the boxed Java object `o` returns */
    | PyUnboxed(o: JObj, methodName: string, signature: string)

  /** The Python exceptions the model raises. */
  datatype PyError =
    | TypeError(message: string)
    | AttributeError(message: string)
    | NameError(message: string)
    | IndexError(message: string)
      /** a failed `assert` */
    | AssertionFailed
      /** javabridge's JavaException, raised when a Java call throws */
    | JavaException(message: string)
      /** an exception the Python runtime raises, by its repr() */
    | Raised(repr: string)

  /** repr() of an exception raised with one message, or with none, in Python 2's form. */
  function Repr(e: PyError): string {
    match e
    case TypeError(m) => ReprOf("TypeError", m)
    case AttributeError(m) => ReprOf("AttributeError", m)
    case NameError(m) => ReprOf("NameError", m)
    case IndexError(m) => ReprOf("IndexError", m)
    case AssertionFailed => ReprOf("AssertionError", "")
    case JavaException(m) => ReprOf("JavaException", m)
    case Raised(r) => r
  }

  function ReprOf(kind: string, message: string): string {
    if message == "" then kind + "()" else kind + "('" + message + "',)"
  }

  /** The JNI names of the classes and interfaces a Java object is an instance of. */
  function ClassesOf(o: JObj): set<string> {
    match o
    case JNull => {}
    case JObject(_, types, _) => types
    case JMap(_) => {"java/util/HashMap", "java/util/Map", "java/lang/Object"}
    case JQueue(_) => {"java/util/concurrent/SynchronousQueue", "java/lang/Object"}
    case JRuntimeException(_) =>
      {"java/lang/RuntimeException", "java/lang/Exception", "java/lang/Throwable", "java/lang/Object"}
    case JScriptException(_, _, _) =>
      {"javax/script/ScriptException", "java/lang/Exception", "java/lang/Throwable", "java/lang/Object"}
    case JFromPython(_) => {"java/lang/Object"}
  }

  /** `o instanceof C` for the class whose JNI name is `className` (javabridge's is_instance_of). */
  predicate InstanceOf(o: JObj, className: string) {
    className in ClassesOf(o)
  }

  const StringTypes: set<string> :=
    {"java/lang/String", "java/lang/CharSequence", "java/lang/Comparable", "java/io/Serializable", "java/lang/Object"}

  /** The java.lang.String whose characters are `s`. */
  function JavaString(s: string): (o: JObj)
    ensures InstanceOf(o, "java/lang/String")
  {
    JObject(0, StringTypes, s)
  }

  /** What javabridge's to_string gives for a Java object: its toString(); None
      (a null) is rendered by Python as "None". The model does not render the
      JDK's toString of maps, queues and exceptions and names their class instead. */
  function JavaToString(o: JObj): string {
    match o
    case JNull => "None"
    case JObject(_, _, text) => text
    case JMap(_) => "java.util.HashMap"
    case JQueue(_) => "java.util.concurrent.SynchronousQueue"
    case JRuntimeException(_) => "java.lang.RuntimeException"
    case JScriptException(_, _, _) => "javax.script.ScriptException"
    case JFromPython(_) => "java.lang.Object"
  }

  /** CPythonScriptEngine.EngineCommands */
  datatype Command =
    | NewEngine
    | Execute
    | Evaluate
    | NewEngineResult
    | Execution
    | EvaluateResult
    | Exception
    | CloseEngine
    | CloseService

  /** Enum.toString() of a command: its declared name. */
  function CommandName(c: Command): string {
    match c
    case NewEngine => "NEW_ENGINE"
    case Execute => "EXECUTE"
    case Evaluate => "EVALUATE"
    case NewEngineResult => "NEW_ENGINE_RESULT"
    case Execution => "EXECUTION"
    case EvaluateResult => "EVALUATE_RESULT"
    case Exception => "EXCEPTION"
    case CloseEngine => "CLOSE_ENGINE"
    case CloseService => "CLOSE_SERVICE"
  }

  /** CPythonScriptEngine.Message: an immutable command and payload list. */
  datatype Message = Message(command: Command, payload: seq<JObj>)

  /** A SynchronousQueue<Message>, seen as the messages put and not yet taken, oldest first. */
  class Queue {
    var items: seq<Message>

    constructor ()
      ensures items == []
    {
      items := [];
    }

    method Put(m: Message)
      modifies this
      ensures items == old(items) + [m]
    {
      items := items + [m];
    }

    /** A take returns only once a message is there to take. */
    method Take() returns (m: Message)
      requires items != []
      modifies this
      ensures m == old(items)[0] && items == old(items)[1..]
    {
      m := items[0];
      items := items[1..];
    }
  }
}
