# scripting-cpython in Dafny

This project models the bridge that lets a Java scripting host run CPython
scripts. The bridge has two halves:

- `CPythonScriptEngine` on the Java side sends command messages over
  SynchronousQueues.
- `scripting-cpython.py` on the Python side serves those messages. It runs one
  service loop that starts engines, and one loop per engine. Each engine loop
  executes or evaluates scripts. It turns the Java context map into Python
  locals and reports results or exceptions back.

Scripts reach Java through two proxies:

- `JWrapper` wraps a Java object.
- `JClassWrapper` wraps a Java class.

Both resolve Java overloads by casting the Python arguments against each
candidate's parameter types. They build JNI type signatures for the calls.

The model is organised by module:

- `Signatures` holds the JNI signature codec `sig`. It comes with a decoder and
  a round-trip proof.
- `Coercion` holds the `cast` cascade.
- `Overloads` holds:
  - the per-name method tables;
  - the arity filter and the variable-arity repack;
  - first-match resolution. The method `Resolve` is proved against the
    specification function `FirstMatch`.
- `Proxies` holds:
  - the two proxies as classes. `JWrapper`'s constructor builds its method
    table in a loop. `JClassWrapper` is built by `ClassProxy.New`, whose loop
    also stores each method name through `__setattr__`;
  - their call, field-read and field-write rules;
  - the name `importClass` binds.
- `Marshal` holds `context_to_locals`, as a loop over the context map.
- `Evaluator` holds `do_execute` and `do_evaluate`. The Python runtime
  (parsing, `compile`, `exec`, `eval`) is a parameter, `Host`.
- `Dispatcher` holds the `engine` and `engine_requester` loops. They consume
  the messages they take and put their replies on a `Queue` object.
- `JavaEngine` holds the Java engine and the service's shared queues. It also
  holds the messages the engine sends and how `eval` decodes the reply. Several
  lemmas cross into the Python side.

Java objects are values (`JObj`). Each one carries the internal names of the
classes it is an instance of, and the text its `toString()` returns. Every
javabridge call that a proxy would make becomes a `ForeignOp` value. The model
computes exactly which Java operation is requested, and with which signature
and converted arguments.

## Model

| member | source | states |
|---|---|---|
| Values.Queue.constructor | src/main/java/org/scijava/plugins/scripting/cpython/CPythonScriptEngine.java:58-62 | A new queue holds no messages. |
| Values.Queue.Put | src/main/java/org/scijava/plugins/scripting/cpython/CPythonScriptEngine.java:153 | A put appends the message at the end, FIFO. |
| Values.Queue.Take | src/main/java/org/scijava/plugins/scripting/cpython/CPythonScriptEngine.java:154 | A take returns the oldest message and removes only it. It returns only once a message is queued. |
| Signatures.Sig | src/main/resources/scripting-cpython.py:472-496 | The signature of a class. Its meaning is stated by SigOfPrimitive, SigOfClass, SigOfArray, SigHasNoDot, DecodeSigRoundTrip and SigInjective below. |
| Signatures.Replace | src/main/resources/scripting-cpython.py:496 | The string keeps its length. Every `from` character becomes `to`, and every other character stays. |
| Signatures.SigOfPrimitive | src/main/resources/scripting-cpython.py:472-495 | The nine primitive names void, int, byte, boolean, long, float, double, char and short map to V, I, B, Z, J, F, D, C and S. |
| Signatures.SigOfClass | src/main/resources/scripting-cpython.py:474-477 | A class that is neither primitive nor an array becomes "L" + its name with '/' for '.' + ";". So it never matches a primitive letter. |
| Signatures.SigOfArray | src/main/resources/scripting-cpython.py:474-496 | An array class keeps its name, with '/' for '.'. |
| Signatures.SigHasNoDot | src/main/resources/scripting-cpython.py:496 | No signature contains a '.'. |
| Signatures.DecodeSigRoundTrip | src/main/resources/scripting-cpython.py:472-496 | Decoding the signature of any well-formed class gives back its name, primitive flag and array flag. |
| Signatures.SigInjective | src/main/resources/scripting-cpython.py:472-496 | Two well-formed classes with the same signature have the same name and flags. |
| Signatures.SigListHasNoDot | src/main/resources/scripting-cpython.py:314 | The concatenated parameter signatures contain no '.'. |
| Signatures.MethodSigShape | src/main/resources/scripting-cpython.py:314-316 | A method signature is "(" + the parameter signatures + ")" + the return signature, with no '.'. |
| Signatures.ConstructorSigIsVoidMethod | src/main/resources/scripting-cpython.py:451-452 | The constructor signature "(...)V" is the method signature with a void return. |
| Coercion.Cast | src/main/resources/scripting-cpython.py:498-533 | The cast cascade. What it returns for each kind of value is stated by CastOutcome and the Cast* lemmas below. |
| Coercion.CastSeesThroughWrappers | src/main/resources/scripting-cpython.py:521-522 | Casting any stack of `.o` wrappers gives the result of casting the innermost value. |
| Coercion.CastOutcome | src/main/resources/scripting-cpython.py:506-532 | Each success kind, in both directions where it is an iff. Null comes only from None and only for a non-primitive target. A handle comes back unchanged exactly when the target accepts it. get_nice_arg is reached only for a sequence with an array target, or for a scalar with a primitive, String or Object target. |
| Coercion.CastNone | src/main/resources/scripting-cpython.py:508-512 | None gives null for a reference type and raises TypeError for a primitive. |
| Coercion.CastHandle | src/main/resources/scripting-cpython.py:514-520 | A Java handle passes, unchanged, exactly when `isInstance` accepts it. This holds even for array targets, because the handle test comes first. |
| Coercion.CastUnwrapsProxy | src/main/resources/scripting-cpython.py:521-522 | A proxy casts as the handle it wraps. |
| Coercion.CastSequenceNeedsArray | src/main/resources/scripting-cpython.py:523-526 | A sequence fails without a component type. An empty sequence passes for any array target. |
| Coercion.CastSequenceHeadOnly | src/main/resources/scripting-cpython.py:527-530 | Only element 0 is cast. Sequences with the same first element succeed or fail together, with the same error. |
| Coercion.CastSequenceFirstElementFails | src/main/resources/scripting-cpython.py:527-529 | A failing first element makes the whole sequence fail with its error. |
| Coercion.CastScalar | src/main/resources/scripting-cpython.py:531-533 | A scalar passes exactly for a primitive, Ljava/lang/String; or Ljava/lang/Object; target. |
| Overloads.Table | src/main/resources/scripting-cpython.py:240-255 | The per-name method table. TableGroupsByName and SelectKeepsOnlyMatches state its keys and entries. |
| Overloads.TableGroupsByName | src/main/resources/scripting-cpython.py:240-255 | The table has an entry exactly for each name that a kept method carries. Each entry holds the kept methods of that name, in discovery order. |
| Overloads.SelectKeepsOnlyMatches | src/main/resources/scripting-cpython.py:241-255 | An entry holds only methods of that name with the wanted static flag. |
| Overloads.ArityFits | src/main/resources/scripting-cpython.py:299-302 | The two arity `continue`s. FixedArityRejectsExtraArguments and RepackShape state what passes. |
| Overloads.Repack | src/main/resources/scripting-cpython.py:303-307 | The argument list handed to the casts. RepackShape states its shape. |
| Overloads.Attempt | src/main/resources/scripting-cpython.py:299-313 | One candidate tried: the arity filter, the repack and the casts. AttemptConvertsEachParameter and CastAllPairwise state when it accepts and what it yields. |
| Overloads.FirstMatch | src/main/resources/scripting-cpython.py:296-321 | The first accepting candidate. FirstMatchIsFirst states that it is first and accepting, and when there is none. |
| Overloads.RepackShape | src/main/resources/scripting-cpython.py:299-307 | A candidate that passes the arity filter gets exactly one argument per parameter. With variable arity, the last argument is the sequence of the trailing arguments. |
| Overloads.CastAllPairwise | src/main/resources/scripting-cpython.py:309 | The argument list converts exactly when every zipped pair casts, and then holds those casts in order. |
| Overloads.AttemptConvertsEachParameter | src/main/resources/scripting-cpython.py:299-313 | An accepted candidate converts every argument against its own parameter. |
| Overloads.FixedArityRejectsExtraArguments | src/main/resources/scripting-cpython.py:301-302 | A fixed-arity candidate is skipped when there are more arguments than parameters. |
| Overloads.FirstMatchIsFirst | src/main/resources/scripting-cpython.py:296-321 | The chosen candidate accepts the arguments, and every earlier candidate rejects them. Resolution fails exactly when every candidate rejects them. |
| Overloads.Resolve | src/main/resources/scripting-cpython.py:296-321 | The loop, with its `continue`s and its early return, returns the first accepting candidate and its converted arguments. |
| Overloads.ResolveAsWritten | src/main/resources/scripting-cpython.py:296-321 | Resolution with the repack as written. ResolveAsWrittenAgreesWithoutVarArgs and VarArgsCallAsWrittenFails state how it differs from FirstMatch. |
| Overloads.ResolveAsWrittenAgreesWithoutVarArgs | src/main/resources/scripting-cpython.py:303-307 | As written, resolution agrees with the intended one while no variable-arity candidate fits the argument count. It raises TypeError once the first fitting candidate has variable arity. |
| Overloads.VarArgsCallAsWrittenFails | src/main/resources/scripting-cpython.py:305 | Take (String, Object...) called with ("%d", 1). It is chosen under the intended repack, and raises TypeError as written. |
| Proxies.FieldLookup | src/main/resources/scripting-cpython.py:365-377 | A field passes exactly when it exists and has the static flag the proxy serves. It then yields its type's signature. It is missing exactly when the class has no such field. |
| Proxies.ObjectProxy.constructor | src/main/resources/scripting-cpython.py:230-255 | The proxy keeps the object and its class. Its table is the instance methods grouped by name. Every method name gets one dispatcher attribute. |
| Proxies.ObjectProxy.Call | src/main/resources/scripting-cpython.py:287-321 | The call uses the first overload, in table order, that accepts the arguments. It goes to the wrapped object with that overload's "(params)ret" signature. With no accepting overload it raises TypeError "No matching method found for <name>". |
| Proxies.ObjectProxy.GetAttr | src/main/resources/scripting-cpython.py:259-263 | As written, only the proxy's own attributes can be read. Every other name raises AttributeError, instance fields included. |
| Proxies.ObjectProxy.GetAttrIntended | src/main/resources/scripting-cpython.py:259-272 | Reading through the object's class reads a public instance field with its type's signature, and refuses static and missing fields. |
| Proxies.ObjectProxy.SetAttr | src/main/resources/scripting-cpython.py:274-279 | As written, every write stores a plain attribute on the proxy. |
| Proxies.InstanceFieldReadAsWrittenFails | src/main/resources/scripting-cpython.py:261 | An unshadowed instance field raises AttributeError as written, and is read under the intended rule. |
| Proxies.NewClassProxyAsWritten | src/main/resources/scripting-cpython.py:347 | As written, constructing a class proxy always raises NameError. |
| Proxies.ClassProxy.New | src/main/resources/scripting-cpython.py:338-363 | The proxy keeps the class name with '/' for '.'. Its table is the static methods grouped by name. Each new name is stored through `__setattr__`. A name with no public field becomes a dispatcher attribute. A name that is a static field causes a write of that field, and the set of writes is exactly those. Construction fails with AttributeError exactly when some static-method name is a non-static field. |
| Proxies.Install | src/main/resources/scripting-cpython.py:380-390 | Storing one method name through `__setattr__`. It fails exactly for a non-static field. Otherwise it adds a dispatcher when the name has no field, or a static-field write when the name is a static field. |
| Proxies.ClassProxy.CallStatic | src/main/resources/scripting-cpython.py:392-426 | The first accepting static overload is called on the class with its signature. Otherwise it raises TypeError "No matching method found for <name>". |
| Proxies.ClassProxy.Construct | src/main/resources/scripting-cpython.py:428-456 | The first accepting constructor is made with signature "(params)V". Otherwise it raises TypeError "No matching constructor found". |
| Proxies.ClassProxy.GetAttr | src/main/resources/scripting-cpython.py:365-378 | A static field is read with its type's signature. A missing field raises "Could not find field <name>". A non-static field raises "Field <name> is not static". |
| Proxies.ClassProxy.SetAttr | src/main/resources/scripting-cpython.py:380-390 | A name with no field becomes a plain attribute. A non-static field raises AttributeError. A static field is written, value uncast, and the proxy's attributes are unchanged. |
| Proxies.ImportName | src/main/resources/scripting-cpython.py:464-468 | The name `importClass` binds. ImportNameIsLastSegment and ImportNameOfQualified state what it is. |
| Proxies.ImportNameIsLastSegment | src/main/resources/scripting-cpython.py:464-468 | Without an explicit name, the bound name has no '.', ends the class name, and is preceded by a '.' unless it is the whole name. |
| Proxies.ImportNameOfQualified | src/main/resources/scripting-cpython.py:465-466 | "pkg.Simple" is bound as "Simple". |
| Marshal.Unboxed | src/main/resources/scripting-cpython.py:203-214 | The for/else over the unboxing table. UnboxedFirstMatch, UnboxedFailure and MarshalBoxFirstMatch state which row applies and when it raises. |
| Marshal.MarshalValue | src/main/resources/scripting-cpython.py:196-216 | The value one entry is bound to. MarshalStringRoundTrip, MarshalBoxFirstMatch, MarshalWrapsOthers, MarshalNeverFails and AsWrittenFailsOnlyOnLong state it by case. |
| Marshal.MarshalEntry | src/main/resources/scripting-cpython.py:198-216 | The loop over the unboxing table converts one entry as MarshalValue says. |
| Marshal.ContextToLocals | src/main/resources/scripting-cpython.py:191-218 | A context that is not a map fails the assertion. A map succeeds exactly when every entry converts, giving the seeds overwritten by the converted entries. Otherwise it raises the error of some failing entry. |
| Marshal.UnboxRulesDeclared | src/main/resources/scripting-cpython.py:203-209 | Each row of the intended table names the signature "()"+sig(primitive) of its method. |
| Marshal.MarshalNeverFails | src/main/resources/scripting-cpython.py:196-216 | With the intended table, no context entry fails to convert. |
| Marshal.MarshalStringRoundTrip | src/main/resources/scripting-cpython.py:200-202 | A Java String becomes the Python string of its characters. |
| Marshal.MarshalBoxFirstMatch | src/main/resources/scripting-cpython.py:203-212 | A boxed value is unboxed by the first matching row, in the order Boolean, Byte, Integer, Long, Float, Double. |
| Marshal.MarshalWrapsOthers | src/main/resources/scripting-cpython.py:213-214 | Any other object becomes a proxy, and the proxy casts as the object. |
| Marshal.Locals | src/main/resources/scripting-cpython.py:191-218 | The namespace of a request's context, with the table as written. It exists exactly for a map context whose every entry converts. A map that fails fails with the longValue lookup. |
| Marshal.ContextToLocalsIsLocals | src/main/resources/scripting-cpython.py:191-218 | The loop, run with the table as written, computes Locals, error included. |
| Marshal.LocalsContents | src/main/resources/scripting-cpython.py:193-218 | The namespace holds exactly the seeds and the context keys. A context key overrides a seed. Each key holds its value as converted by the table as written. |
| Marshal.UnboxedFailure | src/main/resources/scripting-cpython.py:203-212 | A failed unboxing comes from a matching row whose signature its class does not declare, and raises that row's method lookup. |
| Marshal.AsWrittenAgreesWithoutLong | src/main/resources/scripting-cpython.py:203-209 | Any object that is not a Long converts alike under the table as written and the intended one. |
| Marshal.AsWrittenFailsOnlyOnLong | src/main/resources/scripting-cpython.py:196-216 | As written, an entry fails to convert only when it is a Long, and then with the longValue lookup. |
| Marshal.MarshalAllSucceed | src/main/resources/scripting-cpython.py:196-216 | With the intended table, every entry of every map converts. |
| Marshal.NoLongAgrees | src/main/resources/scripting-cpython.py:191-218 | A context without a Long converts under both tables, to the same namespace. |
| Marshal.LocalsWithoutLong | src/main/resources/scripting-cpython.py:191-218 | A map context without a Long always converts, to the namespace the intended table gives. |
| Marshal.LongAsWrittenFails | src/main/resources/scripting-cpython.py:207 | As written, a Long raises, because "()L" is not longValue's signature. With "()J" it is unboxed. |
| Marshal.LongContextAsWrittenFails | src/main/resources/scripting-cpython.py:207 | As written, any context holding a Long does not convert. Locals fails with the longValue lookup. |
| Evaluator.Evaluated | src/main/resources/scripting-cpython.py:138-165 | The try block of do_evaluate. EvaluateRunsPrefixThenTail, EvaluateNeedsTrailingExpression, EvaluateFileName, EvaluateFailureLines and EvaluateLongContextFails state its outcomes. |
| Evaluator.DoEvaluate | src/main/resources/scripting-cpython.py:132-189 | The reply to EVALUATE. EvaluateReplyShape states its form, and the lemmas above state its content. |
| Evaluator.Executed | src/main/resources/scripting-cpython.py:543-547 | The try block of do_execute. ExecuteOutcome states when it succeeds and which error it raises. |
| Evaluator.DoExecute | src/main/resources/scripting-cpython.py:537-565 | The reply to EXECUTE. ExecuteReplyShape states its form and ExecuteOutcome its content. |
| Evaluator.SplitTrailing | src/main/resources/scripting-cpython.py:153-158 | A body splits exactly when it ends in an expression statement. The statements before it plus that expression give back the body. |
| Evaluator.EvaluateReplyShape | src/main/resources/scripting-cpython.py:167-189 | EVALUATE is answered with one value, or with exactly one ScriptException whose message starts "Python exception: ". |
| Evaluator.ExecuteReplyShape | src/main/resources/scripting-cpython.py:549-565 | EXECUTE is answered with an empty EXECUTION, or with exactly one RuntimeException "Python exception: ...". |
| Evaluator.ExecuteOutcome | src/main/resources/scripting-cpython.py:537-565 | EXECUTE replies EXECUTION exactly when the context converts and the script parses, compiles and runs. Otherwise the RuntimeException carries "Python exception: " and the repr of the first of those steps to raise. |
| Evaluator.ExecuteLongContextFails | src/main/resources/scripting-cpython.py:545 | EXECUTE with a context holding a Long replies with the longValue lookup error, whatever the script. |
| Evaluator.EvaluateLongContextFails | src/main/resources/scripting-cpython.py:141 | EVALUATE with a context holding a Long replies with a ScriptException from line 141 that names "scripting-cpython". |
| Evaluator.EvaluateRunsPrefixThenTail | src/main/resources/scripting-cpython.py:153-173 | Take a context that converts (any context without a Long does) and whose file-name entry, if any, is a String. The statements before a trailing expression run in its namespace, and the expression is evaluated in the namespace they leave. Its value is the reply. If the evaluation raises, the reply is a ScriptException from line 165 naming the context's file name. |
| Evaluator.ContextFileName | src/main/resources/scripting-cpython.py:160-162 | A String file-name entry becomes the file name passed to compile. Without one the name is "scripting-cpython". |
| Evaluator.EvaluateNeedsTrailingExpression | src/main/resources/scripting-cpython.py:153-158 | In a context that converts, an empty script, or one ending in a non-expression, is answered with an exception from line 154 or 158. Nothing is compiled, executed or evaluated. |
| Evaluator.EvaluateFileName | src/main/resources/scripting-cpython.py:138-162 | The exception names "scripting-cpython", unless the context names a file and the failure comes at or after compile. |
| Evaluator.EvaluateFailureLines | src/main/resources/scripting-cpython.py:140-165 | Every failure carries one of the lines 140, 141, 153, 154, 158, 162, 163, 164 and 165 of do_evaluate. In a context that converts, a parse failure carries 153 and its own error. |
| Evaluator.EvaluateStepLines | src/main/resources/scripting-cpython.py:160-165 | In a context that converts, take a script ending in an expression. The first step to raise gives the line, its own error and the context's file name. A non-string file name and a failed compile of the prefix give 162, exec 163, a failed compile of the expression 164, and eval 165. |
| Dispatcher.Reply | src/main/resources/scripting-cpython.py:76-104 | The response to one request. ReplyKinds and PythonExceptionsAreNotStrings state its kinds. |
| Dispatcher.EngineLoop | src/main/resources/scripting-cpython.py:63-112 | The loop serves requests in order until CLOSE_ENGINE, which gets no reply. It puts exactly the replies Replies gives. An interrupted take does not end it. |
| Dispatcher.RepliesOnePerRequest | src/main/resources/scripting-cpython.py:76-107 | There is one reply per request taken, and the i-th reply answers the i-th request. |
| Dispatcher.ReplyKinds | src/main/resources/scripting-cpython.py:76-104 | EXECUTE gets EXECUTION or EXCEPTION. EVALUATE gets EVALUATE_RESULT or EXCEPTION. Anything else gets "Unknown command: <name>". No reply carries more than one object. |
| Dispatcher.EngineArgs | src/main/resources/scripting-cpython.py:120 | An engine is started on at most the first two payload items, taken as a prefix of the payload. |
| Dispatcher.ServiceLoop | src/main/resources/scripting-cpython.py:22-61 | The loop as intended serves requests in order until CLOSE_SERVICE. NEW_ENGINE starts an engine and gets NEW_ENGINE_RESULT with an empty payload. Any other command gets an "Unknown command" EXCEPTION. Interruptions do not end it. |
| Dispatcher.ServiceRepliesOnePerRequest | src/main/resources/scripting-cpython.py:34-56 | As intended, there is one reply per request, in order, and one engine per NEW_ENGINE. |
| Dispatcher.ServiceLoopAsWritten | src/main/resources/scripting-cpython.py:22-61 | The loop as written serves requests in order until CLOSE_SERVICE. It starts the same engines, and puts a NEW_ENGINE_RESULT for each NEW_ENGINE and nothing for any other command. |
| Dispatcher.ServiceRepliesAsWrittenPerNewEngine | src/main/resources/scripting-cpython.py:34-56 | As written, there is exactly one reply per NEW_ENGINE taken, one per engine started, and every reply is an empty NEW_ENGINE_RESULT. |
| Dispatcher.UnknownServiceCommandUnanswered | src/main/resources/scripting-cpython.py:46-56 | A command the service does not serve, e.g. EXECUTE, gets no reply as written. The intended loop answers it with "Unknown command". |
| Dispatcher.NewEngineRequestServed | src/main/resources/scripting-cpython.py:114-130 | The engine's NEW_ENGINE message starts an engine on exactly its two queues, and is answered with NEW_ENGINE_RESULT. |
| JavaEngine.Service.constructor | src/main/java/org/scijava/plugins/scripting/cpython/CPythonScriptEngine.java:58-59 | The two shared queues are distinct and empty. |
| JavaEngine.Service.CloseService | src/main/java/org/scijava/plugins/scripting/cpython/CPythonScriptEngine.java:136-138 | closeService puts CLOSE_SERVICE with an empty payload. |
| JavaEngine.EvalRequest | src/main/java/org/scijava/plugins/scripting/cpython/CPythonScriptEngine.java:141-143 | The request eval(String) sends. ScriptEngine.Eval and EvalRoundTrip state it and its answer. |
| JavaEngine.Decode | src/main/java/org/scijava/plugins/scripting/cpython/CPythonScriptEngine.java:155-165 | A reply gives a ScriptException exactly when it is an EXCEPTION. Any other reply with a non-empty payload returns payload element 0, unchanged. With an empty payload, `payload.get(0)` throws IndexOutOfBoundsException. |
| JavaEngine.ScriptEngine.constructor | src/main/java/org/scijava/plugins/scripting/cpython/CPythonScriptEngine.java:128-131 | It puts one NEW_ENGINE message with payload exactly [its request queue, its response queue]. It then consumes exactly one reply from the shared response queue. |
| JavaEngine.ScriptEngine.EvalMessage | src/main/java/org/scijava/plugins/scripting/cpython/CPythonScriptEngine.java:151-169 | It puts exactly the request, takes exactly one response, and returns that response's decoding. |
| JavaEngine.ScriptEngine.Eval | src/main/java/org/scijava/plugins/scripting/cpython/CPythonScriptEngine.java:140-145 | The request is EVALUATE with payload [script, empty map]. |
| JavaEngine.ScriptEngine.Finalize | src/main/java/org/scijava/plugins/scripting/cpython/CPythonScriptEngine.java:191-194 | finalize puts CLOSE_ENGINE with an empty payload on its own request queue, and takes nothing. |
| JavaEngine.DecodeStringException | src/main/java/org/scijava/plugins/scripting/cpython/CPythonScriptEngine.java:156-160 | An EXCEPTION whose payload is exactly one String yields a ScriptException with that string. |
| JavaEngine.DecodeUnknownFormat | src/main/java/org/scijava/plugins/scripting/cpython/CPythonScriptEngine.java:155-162 | Any other EXCEPTION yields "Exception thrown but unknown format". |
| JavaEngine.PythonExceptionsAreNotStrings | src/main/resources/scripting-cpython.py:76-104 | Every EXCEPTION the engine loop puts carries exactly one exception object, never a String. |
| JavaEngine.PythonFailuresDecodeToUnknownFormat | src/main/java/org/scijava/plugins/scripting/cpython/CPythonScriptEngine.java:155-162 | Every failure the Python engine reports decodes to "Exception thrown but unknown format". |
| JavaEngine.EvalRoundTrip | src/main/java/org/scijava/plugins/scripting/cpython/CPythonScriptEngine.java:140-165 | eval(String), answered by the engine loop, returns the evaluated value or the unknown-format ScriptException, never an IndexOutOfBoundsException. |
| JavaEngine.EvalThenFinalize | src/main/java/org/scijava/plugins/scripting/cpython/CPythonScriptEngine.java:191-194 | An eval followed by finalize gets exactly one reply, to the evaluation, before the engine loop exits. |

## Left out

- The Java runtime behind javabridge is not modelled. Calls, field access, instance creation, `get_nice_arg` and the conversion of Python values handed to Java are foreign. A proxy returns the `ForeignOp` it would perform. Results of Java calls, and their wrapping in a new JWrapper, are not modelled.
- Python's `ast.parse`, `compile`, `exec` and `eval` are the `Host` parameter's `parse`, `compile`, `exec` and `eval`. EXECUTE's `exec` of the script text is a parse, a compile and an exec of the whole body.
- The `__builtins__.__dict__` globals that scripts run with are not modelled. A script that binds a global there leaves it for later requests of every engine. The model's requests share nothing but what the `Host` does.
- Threads and daemon flags are left out, and so is the blocking of SynchronousQueue. A queue is a FIFO sequence.
  - On the Java side, a blocking take is a precondition that a message is queued.
  - On the Python side, each loop consumes a finite sequence of takes.
  - An engine start is recorded as the arguments the thread receives.
- The interrupted path of `eval(Message)`, the ScriptException "Operation interrupted", is left out. Interruption is a concurrency event.
- The text of exceptions raised by the Python and Java runtimes is approximated: IndexError on a short payload, compile's TypeError, JavaException, AssertionError. The Java side only ever sees them as an exception object.
- The model names the class of a map, queue or exception instead of rendering its `toString()`.
- JWrapper's own bookkeeping attributes, docstring accumulation, `__repr__`, `__str__` and logging are left out.
- `importClass` binding the proxy into its caller's frame is left out. It manipulates interpreter frames. Only the name it binds is modelled.
- Proxies.ObjectProxy.SetAttr: only the behaviour as written is modelled. The intended write of an instance field through `set_field` is not.
- `eval(Reader)` is left out. It is I/O on a character stream.
- CPythonScriptLanguage.java is not part of this model. It holds plugin registration, resource reading and a lazy-start flag.
- examples/scdemo.py is not part of this model. It is demo code.
- Overloads.Repack: for a variable-arity member with no parameters, which Java never reports, the arguments are left as they are.
- Evaluator.EvaluateNeedsTrailingExpression: a script that does not end in an expression gets no value. Line 158 raises AttributeError, and the reply is EXCEPTION.
- Marshal.ContextToLocals: each request builds its locals fresh from its own context. State outlives a request only through the `__builtins__` globals, which are left out above.
- Marshal.ContextToLocals: the context is the map value `JMap`. `get_map_wrapper` accepts any object implementing java.util.Map, and the model does not distinguish Map classes.
- Proxies.ClassProxy.New: the bookkeeping attributes `cname`, `klass`, `static_methods` and `methods` are stored as plain attributes. As written they also pass through `__setattr__`, and would collide with a public field of the same name.
- Proxies.ClassProxy.New: the static-field writes are stated as a set. Their order is that of the method table.

## Findings

| source | as written | input that shows it | evidently intended | confidence | as-written member | corrected member |
|---|---|---|---|---|---|---|
| src/main/resources/scripting-cpython.py:305 | `args[:pm1] + [args[pm1:]]` adds a list to the tuple `*args`, which CPython refuses with TypeError outside the `try`. Lines 410 and 443 repeat it. | A call whose first candidate that fits the arity has variable arity, e.g. (String, Object...) with ("%d", 1) | The fixed prefix followed by one sequence holding the remaining arguments | not executed | Overloads.VarArgsCallAsWrittenFails | Overloads.Resolve |
| src/main/resources/scripting-cpython.py:347 | `JClassWrapper.__init__` reads `env`, which is bound nowhere in its scope or in the module | `JClassWrapper("java.lang.Integer")`, or `importClass("java.lang.Integer")` | `env = J.get_env()` as in JWrapper.__init__ at line 238 | not executed | Proxies.NewClassProxyAsWritten | Proxies.ClassProxy.New |
| src/main/resources/scripting-cpython.py:261 | `JWrapper.__getattr__` and `__setattr__` (line 276) look fields up on `self.klass`, which a JWrapper never sets | Reading a public instance field through a JWrapper | `self.class_wrapper`, set at line 237 | not executed | Proxies.InstanceFieldReadAsWrittenFails | Proxies.ObjectProxy.GetAttrIntended |
| src/main/resources/scripting-cpython.py:207 | A Long is unboxed with signature "()L", which is no JNI signature; `sig` maps long to "J" (lines 486-487) | A context holding a java.lang.Long | "()J" | not executed | Marshal.LongAsWrittenFails | Marshal.MarshalNeverFails |
| src/main/resources/scripting-cpython.py:47-56 | The script that answers an unknown command reads `msg.command`, but `run_script` is not given `msg`, unlike every other script of both loops. The script raises before its `put`, and the bare `except` at line 57 swallows that. | Any command other than NEW_ENGINE or CLOSE_SERVICE on the service queue, e.g. EXECUTE | An EXCEPTION reply "Unknown command: <command>", as the engine loop gives at lines 93-102 | not executed | Dispatcher.UnknownServiceCommandUnanswered | Dispatcher.ServiceLoop |
