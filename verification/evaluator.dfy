/**
 * do_execute and do_evaluate in scripting-cpython.py: one EXECUTE or EVALUATE
 * request's payload in, one reply message out. The Python runtime (ast.parse,
 * compile, exec, eval) is a parameter: a Host.
 */
module Evaluator {
  import opened Wrappers
  import opened Values
  import opened Marshal

  /** A top-level statement of a parsed script: whether it is an expression
      statement (ast.Expr), and its source text. */
  datatype Stmt = Stmt(isExpr: bool, code: string)

  /** The Python runtime the handlers use: parsing a script into its top-level
      statements, compiling statements (a SyntaxError such as a `return`
      outside a function is raised here, after parsing), executing statements
      in a namespace (which they may change), and evaluating an expression
      statement in a namespace. Each may raise. */
  datatype Host = Host(
    parse: string -> Result<seq<Stmt>, PyError>,
    compile: seq<Stmt> -> Result<(), PyError>,
    exec: (seq<Stmt>, Namespace) -> Result<Namespace, PyError>,
    eval: (Stmt, Namespace) -> Result<PyValue, PyError>)

  const DefaultFileName: PyValue := PyScalar(PyStr("scripting-cpython"))
  const FileNameKey: string := "javax.scripting.filename"

  /** payload[i] past the end of the list. */
  const OutOfRange: PyError := IndexError("list index out of range")
  /** Line 158 calls `parse` on the parsed module, which has no such attribute. */
  const NoParseAttribute: PyError := AttributeError("'Module' object has no attribute 'parse'")
  /** compile() refuses a file name that is not a string. */
  const BadFileName: PyError := TypeError("compile() argument 2 must be string")

  /** How javabridge hands a Python value to a script on the Java side: None is
      null, a handle is its object, a string a java.lang.String; anything else
      is converted by javabridge in a way the model leaves opaque. */
  function ToJava(v: PyValue): JObj {
    match v
    case PyNone => JNull
    case PyJava(h) => h
    case PyScalar(PyStr(s)) => JavaString(s)
    case _ => JFromPython(v)
  }

  /** `context.get("javax.scripting.filename", "scripting-cpython")` */
  function FileName(ns: Namespace): PyValue {
    if FileNameKey in ns then ns[FileNameKey] else DefaultFileName
  }

  predicate IsPyString(v: PyValue) {
    v.PyScalar? && v.s.PyStr?
  }

  /** Lines 153-158: a body whose last statement is an expression splits into
      the statements before it and that expression; any other body does not. */
  function SplitTrailing(body: seq<Stmt>): (r: Option<(seq<Stmt>, Stmt)>)
    ensures r.Some? <==> body != [] && body[|body| - 1].isExpr
    ensures r.Some? ==> r.value.0 + [r.value.1] == body && r.value.1.isExpr
  {
    if body != [] && body[|body| - 1].isExpr then Some((body[..|body| - 1], body[|body| - 1])) else None
  }

  /** An exception that reached the `except` of do_evaluate: what was raised,
      the value `filename` held, and the line of do_evaluate it came from (the
      traceback's first frame is do_evaluate itself). */
  datatype Raise = Raise(error: PyError, fileName: PyValue, line: int)

  /** The try block of do_evaluate: the value to return, or what was raised. */
  function Evaluated(host: Host, payload: seq<JObj>): Result<JObj, Raise> {
    if |payload| == 0 then Failure(Raise(OutOfRange, DefaultFileName, 140))
    else
      var command := JavaToString(payload[0]);
      if |payload| == 1 then Failure(Raise(OutOfRange, DefaultFileName, 141))
      else
        match Locals(payload[1])
        case Failure(e) => Failure(Raise(e, DefaultFileName, 141))
        case Success(ns) =>
          match host.parse(command)
          case Failure(e) => Failure(Raise(e, DefaultFileName, 153))
          case Success(body) =>
            if body == [] then Failure(Raise(OutOfRange, DefaultFileName, 154))
            else
              match SplitTrailing(body)
              case None => Failure(Raise(NoParseAttribute, DefaultFileName, 158))
              case Some((init, last)) =>
                var fileName := FileName(ns);
                if !IsPyString(fileName) then Failure(Raise(BadFileName, fileName, 162))
                else if host.compile(init).Failure? then Failure(Raise(host.compile(init).error, fileName, 162))
                else
                  match host.exec(init, ns)
                  case Failure(e) => Failure(Raise(e, fileName, 163))
                  case Success(ns') =>
                    if host.compile([last]).Failure? then Failure(Raise(host.compile([last]).error, fileName, 164))
                    else
                      match host.eval(last, ns')
                      case Failure(e) => Failure(Raise(e, fileName, 165))
                      case Success(v) => Success(ToJava(v))
  }

  /** do_evaluate: EVALUATE_RESULT with the value, or EXCEPTION with a
      ScriptException built from the repr of what was raised. */
  function DoEvaluate(host: Host, payload: seq<JObj>): Message {
    match Evaluated(host, payload)
    case Success(v) => Message(EvaluateResult, [v])
    case Failure(f) =>
      Message(Exception, [JScriptException("Python exception: " + Repr(f.error), f.fileName, f.line)])
  }

  /** The try block of do_execute: the whole script is executed in the
      namespace of the context (exec of a string parses and compiles it). */
  function Executed(host: Host, payload: seq<JObj>): Result<Namespace, PyError> {
    if |payload| < 2 then Failure(OutOfRange)
    else
      var ns :- Locals(payload[1]);
      var body :- host.parse(JavaToString(payload[0]));
      var _ :- host.compile(body);
      host.exec(body, ns)
  }

  /** The EXCEPTION reply of do_execute for what was raised. */
  function ExecuteFailed(e: PyError): Message {
    Message(Exception, [JRuntimeException("Python exception: " + Repr(e))])
  }

  /** do_execute: EXECUTION with an empty payload, or EXCEPTION with a
      RuntimeException built from the repr of what was raised. */
  function DoExecute(host: Host, payload: seq<JObj>): Message {
    match Executed(host, payload)
    case Success(_) => Message(Execution, [])
    case Failure(e) => ExecuteFailed(e)
  }

  /** Every EVALUATE is answered with exactly one value or exactly one
      ScriptException, never anything else. */
  lemma EvaluateReplyShape(host: Host, payload: seq<JObj>)
    ensures var r := DoEvaluate(host, payload);
            || (r.command == EvaluateResult && |r.payload| == 1)
            || (&& r.command == Exception && |r.payload| == 1 && r.payload[0].JScriptException?
                && r.payload[0].message[..18] == "Python exception: ")
  {
  }

  /** Every EXECUTE is answered with an empty EXECUTION or exactly one
      RuntimeException. */
  lemma ExecuteReplyShape(host: Host, payload: seq<JObj>)
    ensures var r := DoExecute(host, payload);
            || (r.command == Execution && r.payload == [])
            || (&& r.command == Exception && |r.payload| == 1 && r.payload[0].JRuntimeException?
                && r.payload[0].message[..18] == "Python exception: ")
  {
  }

  /** An EXECUTE succeeds exactly when the context converts and the script
      parses, compiles and runs; otherwise the reply carries the first of those
      steps to raise. */
  lemma ExecuteOutcome(host: Host, script: string, context: JObj)
    ensures var r := DoExecute(host, [JavaString(script), context]);
            && (r.command == Execution <==>
                  && Locals(context).Success?
                  && host.parse(script).Success?
                  && host.compile(host.parse(script).value).Success?
                  && host.exec(host.parse(script).value, Locals(context).value).Success?)
            && (Locals(context).Failure? ==> r == ExecuteFailed(Locals(context).error))
            && (Locals(context).Success? && host.parse(script).Failure? ==> r == ExecuteFailed(host.parse(script).error))
            && (Locals(context).Success? && host.parse(script).Success? && host.compile(host.parse(script).value).Failure? ==>
                  r == ExecuteFailed(host.compile(host.parse(script).value).error))
            && (Locals(context).Success? && host.parse(script).Success? && host.compile(host.parse(script).value).Success? &&
                host.exec(host.parse(script).value, Locals(context).value).Failure? ==>
                  r == ExecuteFailed(host.exec(host.parse(script).value, Locals(context).value).error))
  {
  }

  /** A context holding a Long is refused before the script is looked at: the
      unboxing call fails at line 545. */
  lemma ExecuteLongContextFails(host: Host, script: string, context: map<string, JObj>, key: string)
    requires key in context && context[key] != JNull && InstanceOf(context[key], "java/lang/Long")
    requires !InstanceOf(context[key], "java/lang/String") && !InstanceOf(context[key], "java/lang/Boolean")
    requires !InstanceOf(context[key], "java/lang/Byte") && !InstanceOf(context[key], "java/lang/Integer")
    ensures DoExecute(host, [JavaString(script), JMap(context)]) == ExecuteFailed(NoSuchMethod("longValue"))
  {
    LongContextAsWrittenFails(context, key);
  }

  /** The same context makes an EVALUATE fail at line 141, with the default
      file name. */
  lemma EvaluateLongContextFails(host: Host, script: string, context: map<string, JObj>, key: string)
    requires key in context && context[key] != JNull && InstanceOf(context[key], "java/lang/Long")
    requires !InstanceOf(context[key], "java/lang/String") && !InstanceOf(context[key], "java/lang/Boolean")
    requires !InstanceOf(context[key], "java/lang/Byte") && !InstanceOf(context[key], "java/lang/Integer")
    ensures DoEvaluate(host, [JavaString(script), JMap(context)]) ==
            Message(Exception, [JScriptException("Python exception: " + Repr(NoSuchMethod("longValue")), DefaultFileName, 141)])
  {
    LongContextAsWrittenFails(context, key);
  }

  /** A script whose last statement is an expression, in a context that
      converts (one without a Long does, by Marshal.LocalsWithoutLong) and
      whose file name, if any, is a String: the statements before the
      expression run in the context's namespace, the expression is evaluated
      in the namespace they leave, and its value is the reply; if the
      evaluation raises, the reply names line 165 and the context's file name. */
  lemma EvaluateRunsPrefixThenTail(host: Host, script: string, context: map<string, JObj>, ns: Namespace,
                                   init: seq<Stmt>, last: Stmt)
    requires Locals(JMap(context)) == Success(ns)
    requires FileNameKey in context ==> InstanceOf(context[FileNameKey], "java/lang/String")
    requires host.parse(script) == Success(init + [last]) && last.isExpr
    requires host.compile(init).Success? && host.compile([last]).Success?
    requires host.exec(init, ns).Success?
    ensures FileName(ns) ==
            (if FileNameKey in context then PyScalar(PyStr(JavaToString(context[FileNameKey]))) else DefaultFileName)
    ensures DoEvaluate(host, [JavaString(script), JMap(context)]) ==
            match host.eval(last, host.exec(init, ns).value)
            case Success(v) => Message(EvaluateResult, [ToJava(v)])
            case Failure(e) => Message(Exception, [JScriptException("Python exception: " + Repr(e), FileName(ns), 165)])
  {
    ContextFileName(context, ns);
    assert (init + [last])[..|init|] == init;
    assert SplitTrailing(init + [last]) == Some((init, last));
  }

  /** The file name of a context whose entry for it, if any, is a String. */
  lemma ContextFileName(context: map<string, JObj>, ns: Namespace)
    requires Locals(JMap(context)) == Success(ns)
    requires FileNameKey in context ==> InstanceOf(context[FileNameKey], "java/lang/String")
    ensures FileName(ns) ==
            (if FileNameKey in context then PyScalar(PyStr(JavaToString(context[FileNameKey]))) else DefaultFileName)
    ensures IsPyString(FileName(ns))
  {
    LocalsContents(context);
  }

  /** A script that is empty or ends in a statement that is not an expression
      is answered with an exception, and none of it runs: the reply does not
      depend on what compiling, executing or evaluating would do. */
  lemma EvaluateNeedsTrailingExpression(h1: Host, h2: Host, payload: seq<JObj>, body: seq<Stmt>)
    requires |payload| >= 2 && Locals(payload[1]).Success?
    requires h1.parse(JavaToString(payload[0])) == Success(body) == h2.parse(JavaToString(payload[0]))
    requires SplitTrailing(body).None?
    ensures DoEvaluate(h1, payload) == DoEvaluate(h2, payload)
    ensures DoEvaluate(h1, payload).command == Exception
    ensures DoEvaluate(h1, payload).payload[0].line == (if body == [] then 154 else 158)
  {
  }

  /** The exception reports the file name "scripting-cpython" unless the
      context names one and the failure comes at or after compile (line 162). */
  lemma EvaluateFileName(host: Host, payload: seq<JObj>)
    requires Evaluated(host, payload).Failure?
    ensures var f := Evaluated(host, payload).error;
            && (f.line < 162 ==> f.fileName == DefaultFileName)
            && (f.line >= 162 ==> f.fileName == FileName(Locals(payload[1]).value))
  {
    if |payload| >= 2 && Locals(payload[1]).Success? {
      var ns := Locals(payload[1]).value;
      match host.parse(JavaToString(payload[0]))
      case Failure(_) =>
      case Success(body) =>
        if SplitTrailing(body).Some? {
          assert Evaluated(host, payload).error.fileName == FileName(ns);
        }
    }
  }

  /** A failure in the statements before the trailing expression, or in the
      expression, is reported with its own line; a parse failure with 153. */
  lemma EvaluateFailureLines(host: Host, payload: seq<JObj>)
    requires Evaluated(host, payload).Failure?
    ensures Evaluated(host, payload).error.line in {140, 141, 153, 154, 158, 162, 163, 164, 165}
    ensures |payload| >= 2 && Locals(payload[1]).Success? && host.parse(JavaToString(payload[0])).Failure? ==>
              Evaluated(host, payload).error == Raise(host.parse(JavaToString(payload[0])).error, DefaultFileName, 153)
  {
  }

  /** In a context that converts, for a script ending in an expression: the
      step that raises first gives the line, its own error and the context's
      file name. A file name that is not a string fails compile's argument
      check before the prefix is compiled. */
  lemma EvaluateStepLines(host: Host, payload: seq<JObj>, ns: Namespace, init: seq<Stmt>, last: Stmt)
    requires |payload| >= 2 && Locals(payload[1]) == Success(ns)
    requires host.parse(JavaToString(payload[0])) == Success(init + [last]) && last.isExpr
    ensures var r := Evaluated(host, payload);
            var f := FileName(ns);
            && (!IsPyString(f) ==> r == Failure(Raise(BadFileName, f, 162)))
            && (IsPyString(f) && host.compile(init).Failure? ==>
                  r == Failure(Raise(host.compile(init).error, f, 162)))
            && (IsPyString(f) && host.compile(init).Success? && host.exec(init, ns).Failure? ==>
                  r == Failure(Raise(host.exec(init, ns).error, f, 163)))
            && (IsPyString(f) && host.compile(init).Success? && host.exec(init, ns).Success? &&
                host.compile([last]).Failure? ==>
                  r == Failure(Raise(host.compile([last]).error, f, 164)))
            && (IsPyString(f) && host.compile(init).Success? && host.exec(init, ns).Success? &&
                host.compile([last]).Success? && host.eval(last, host.exec(init, ns).value).Failure? ==>
                  r == Failure(Raise(host.eval(last, host.exec(init, ns).value).error, f, 165)))
  {
    assert (init + [last])[..|init|] == init;
    assert SplitTrailing(init + [last]) == Some((init, last));
  }
}
