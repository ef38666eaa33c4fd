/**
 * context_to_locals in scripting-cpython.py: the Java map a request carries
 * becomes the dictionary of local names a script runs with.
 */
module Marshal {
  import opened Wrappers
  import opened Values
  import opened Signatures
  import opened Coercion

  /** A script's local names. */
  type Namespace = map<string, PyValue>

  /** The two names every namespace starts with. */
  const Seeds: Namespace := map["JWrapper" := PyObject("JWrapper"), "importClass" := PyObject("importClass")]

  /** One row of the unboxing table: a boxed class, the method that unboxes
      it, the JNI signature the call names, and the primitive that method
      actually returns. */
  datatype Unbox = Unbox(className: string, methodName: string, signature: string, primitive: string)

  /** The descriptor the boxed class really declares for the unboxing method. */
  function Declared(u: Unbox): string {
    "()" + Sig(Klass(u.primitive, true, false, None))
  }

  /** The unboxing table, tried in this order, with the Long row's signature
      as evidently intended: "()J", the signature of long. */
  const UnboxRules: seq<Unbox> := [
    Unbox("java/lang/Boolean", "booleanValue", "()Z", "boolean"),
    Unbox("java/lang/Byte", "byteValue", "()B", "byte"),
    Unbox("java/lang/Integer", "intValue", "()I", "int"),
    Unbox("java/lang/Long", "longValue", "()J", "long"),
    Unbox("java/lang/Float", "floatValue", "()F", "float"),
    Unbox("java/lang/Double", "doubleValue", "()D", "double")
  ]

  /** The table as written: the Long row names the signature "()L", which is
      not the JNI signature of any type. */
  const UnboxRulesAsWritten: seq<Unbox> := [
    Unbox("java/lang/Boolean", "booleanValue", "()Z", "boolean"),
    Unbox("java/lang/Byte", "byteValue", "()B", "byte"),
    Unbox("java/lang/Integer", "intValue", "()I", "int"),
    Unbox("java/lang/Long", "longValue", "()L", "long"),
    Unbox("java/lang/Float", "floatValue", "()F", "float"),
    Unbox("java/lang/Double", "doubleValue", "()D", "double")
  ]

  /** J.call(o, methodName, signature): the method is looked up by name and
      signature, so a signature the class does not declare raises. */
  function UnboxCall(o: JObj, u: Unbox): Result<PyValue, PyError> {
    if u.signature == Declared(u) then Success(PyScalar(PyUnboxed(o, u.methodName, u.signature)))
    else Failure(NoSuchMethod(u.methodName))
  }

  /** What javabridge raises when no method has the name and signature asked for. */
  function NoSuchMethod(methodName: string): PyError {
    JavaException("java.lang.NoSuchMethodError: " + methodName)
  }

  /** The for/else over the unboxing table: the first row whose class the
      object is an instance of is called; with none, the object is wrapped in
      a JWrapper proxy. */
  function Unboxed(o: JObj, rules: seq<Unbox>): Result<PyValue, PyError>
    decreases |rules|
  {
    if rules == [] then Success(PyWrapper(PyJava(o)))
    else if InstanceOf(o, rules[0].className) then UnboxCall(o, rules[0])
    else Unboxed(o, rules[1..])
  }

  /** The value one context entry is bound to: a null is None, a String its
      text, a box its unboxed number, any other object a proxy. */
  function MarshalValue(o: JObj, rules: seq<Unbox>): Result<PyValue, PyError> {
    if o == JNull then Success(PyNone)
    else if InstanceOf(o, "java/lang/String") then Success(PyScalar(PyStr(JavaToString(o))))
    else Unboxed(o, rules)
  }

  /** The body of the loop over one entry. */
  method MarshalEntry(o: JObj, rules: seq<Unbox>) returns (r: Result<PyValue, PyError>)
    ensures r == MarshalValue(o, rules)
  {
    if o == JNull {
      return Success(PyNone);
    }
    if InstanceOf(o, "java/lang/String") {
      return Success(PyScalar(PyStr(JavaToString(o))));
    }
    for i := 0 to |rules|
      invariant Unboxed(o, rules) == Unboxed(o, rules[i..])
    {
      assert rules[i..][1..] == rules[i + 1..];
      if InstanceOf(o, rules[i].className) {
        return UnboxCall(o, rules[i]);
      }
    }
    return Success(PyWrapper(PyJava(o)));
  }

  predicate AllMarshal(entries: map<string, JObj>, rules: seq<Unbox>) {
    forall k :: k in entries ==> MarshalValue(entries[k], rules).Success?
  }

  /** The namespace built from a context whose every entry converts: the seeds,
      overwritten by the context's keys. */
  function LocalsOf(entries: map<string, JObj>, rules: seq<Unbox>): Namespace
    requires AllMarshal(entries, rules)
  {
    Seeds + Converted(entries, entries.Keys, rules)
  }

  /** The converted values of the entries under `keys`. */
  function Converted(entries: map<string, JObj>, keys: set<string>, rules: seq<Unbox>): Namespace
    requires forall k :: k in keys ==> k in entries && MarshalValue(entries[k], rules).Success?
  {
    map k | k in keys :: MarshalValue(entries[k], rules).value
  }

  /** Converting one more entry is one more binding. */
  lemma ConvertedStep(entries: map<string, JObj>, keys: set<string>, k: string, rules: seq<Unbox>)
    requires forall j :: j in keys ==> j in entries && MarshalValue(entries[j], rules).Success?
    requires k in entries && MarshalValue(entries[k], rules).Success?
    ensures Seeds + Converted(entries, keys + {k}, rules) ==
            (Seeds + Converted(entries, keys, rules))[k := MarshalValue(entries[k], rules).value]
  {
  }

  /** context_to_locals: J.get_map_wrapper asserts that the context is a Map;
      each entry is converted in the map's iteration order, and the first
      conversion that raises ends the call with its exception. */
  method ContextToLocals(context: JObj, rules: seq<Unbox>) returns (r: Result<Namespace, PyError>)
    ensures !context.JMap? ==> r == Failure(AssertionFailed)
    ensures context.JMap? ==> (r.Success? <==> AllMarshal(context.entries, rules))
    ensures r.Success? ==> context.JMap? && AllMarshal(context.entries, rules) && r.value == LocalsOf(context.entries, rules)
    ensures context.JMap? && r.Failure? ==>
              exists k :: k in context.entries && MarshalValue(context.entries[k], rules) == Failure(r.error)
  {
    if !context.JMap? {
      return Failure(AssertionFailed);
    }
    var entries := context.entries;
    var d := Seeds;
    var done: set<string> := {};
    var remaining := entries.Keys;
    while remaining != {}
      invariant done <= entries.Keys && remaining == entries.Keys - done
      invariant forall k :: k in done ==> MarshalValue(entries[k], rules).Success?
      invariant d == Seeds + Converted(entries, done, rules)
      decreases remaining
    {
      var k :| k in remaining;
      var v := MarshalEntry(entries[k], rules);
      if v.Failure? {
        return Failure(v.error);
      }
      ConvertedStep(entries, done, k, rules);
      d := d[k := v.value];
      done := done + {k};
      remaining := remaining - {k};
    }
    assert done == entries.Keys;
    return Success(d);
  }

  /** Every row of the intended table names the signature its method has. */
  lemma UnboxRulesDeclared()
    ensures forall i :: 0 <= i < |UnboxRules| ==> UnboxRules[i].signature == Declared(UnboxRules[i])
  {
    assert Declared(UnboxRules[0]) == "()Z";
    assert Declared(UnboxRules[1]) == "()B";
    assert Declared(UnboxRules[2]) == "()I";
    assert Declared(UnboxRules[3]) == "()J";
    assert Declared(UnboxRules[4]) == "()F";
    assert Declared(UnboxRules[5]) == "()D";
  }

  lemma {:induction false} UnboxedNeverFails(o: JObj, rules: seq<Unbox>)
    requires forall i :: 0 <= i < |rules| ==> rules[i].signature == Declared(rules[i])
    ensures Unboxed(o, rules).Success?
    decreases |rules|
  {
    if rules != [] && !InstanceOf(o, rules[0].className) {
      UnboxedNeverFails(o, rules[1..]);
    }
  }

  /** With the intended table no context entry fails to convert. */
  lemma MarshalNeverFails(o: JObj)
    ensures MarshalValue(o, UnboxRules).Success?
  {
    UnboxRulesDeclared();
    UnboxedNeverFails(o, UnboxRules);
  }

  /** A Java String becomes the Python string of its characters. */
  lemma MarshalStringRoundTrip(s: string, rules: seq<Unbox>)
    ensures MarshalValue(JavaString(s), rules) == Success(PyScalar(PyStr(s)))
  {
  }

  lemma {:induction false} UnboxedFirstMatch(o: JObj, rules: seq<Unbox>, i: nat)
    requires i < |rules| && InstanceOf(o, rules[i].className)
    requires forall j :: 0 <= j < i ==> !InstanceOf(o, rules[j].className)
    ensures Unboxed(o, rules) == UnboxCall(o, rules[i])
    decreases i
  {
    if i > 0 {
      assert !InstanceOf(o, rules[0].className);
      UnboxedFirstMatch(o, rules[1..], i - 1);
    }
  }

  lemma {:induction false} UnboxedNoMatch(o: JObj, rules: seq<Unbox>)
    requires forall j :: 0 <= j < |rules| ==> !InstanceOf(o, rules[j].className)
    ensures Unboxed(o, rules) == Success(PyWrapper(PyJava(o)))
    decreases |rules|
  {
    if rules != [] {
      UnboxedNoMatch(o, rules[1..]);
    }
  }

  /** A non-string object of a boxed class is unboxed by the first row it
      matches, in the order Boolean, Byte, Integer, Long, Float, Double. */
  lemma MarshalBoxFirstMatch(o: JObj, i: nat)
    requires o != JNull && !InstanceOf(o, "java/lang/String")
    requires i < |UnboxRules| && InstanceOf(o, UnboxRules[i].className)
    requires forall j :: 0 <= j < i ==> !InstanceOf(o, UnboxRules[j].className)
    ensures MarshalValue(o, UnboxRules) ==
            Success(PyScalar(PyUnboxed(o, UnboxRules[i].methodName, UnboxRules[i].signature)))
  {
    UnboxRulesDeclared();
    UnboxedFirstMatch(o, UnboxRules, i);
  }

  /** Any other object becomes a proxy, and casting the proxy is casting the
      object itself. */
  lemma MarshalWrapsOthers(o: JObj, k: Klass)
    requires o != JNull && !InstanceOf(o, "java/lang/String")
    requires forall j :: 0 <= j < |UnboxRules| ==> !InstanceOf(o, UnboxRules[j].className)
    ensures MarshalValue(o, UnboxRules) == Success(PyWrapper(PyJava(o)))
    ensures Cast(MarshalValue(o, UnboxRules).value, k) == Cast(PyJava(o), k)
  {
    UnboxedNoMatch(o, UnboxRules);
  }

  /** No entry of the context is a java.lang.Long. */
  predicate NoLong(entries: map<string, JObj>) {
    forall k :: k in entries ==> !InstanceOf(entries[k], "java/lang/Long")
  }

  /** The namespace of a request's context, as context_to_locals builds it with
      the table as written: anything that is not a map fails the assertion of
      get_map_wrapper, and a map holding a Long fails with the longValue lookup.
      Without a Long the table as written and the intended one agree. */
  function Locals(context: JObj): (r: Result<Namespace, PyError>)
    ensures r.Success? <==> context.JMap? && AllMarshal(context.entries, UnboxRulesAsWritten)
    ensures context.JMap? && r.Failure? ==> r.error == NoSuchMethod("longValue")
  {
    if !context.JMap? then Failure(AssertionFailed)
    else if AllMarshal(context.entries, UnboxRulesAsWritten) then Success(LocalsOf(context.entries, UnboxRulesAsWritten))
    else Failure(NoSuchMethod("longValue"))
  }

  /** A context without a Long converts, and to what the intended table gives. */
  lemma LocalsWithoutLong(entries: map<string, JObj>)
    requires NoLong(entries)
    ensures AllMarshal(entries, UnboxRules) && Locals(JMap(entries)) == Success(LocalsOf(entries, UnboxRules))
  {
    NoLongAgrees(entries);
  }

  /** With the intended table every entry of every map converts. */
  lemma MarshalAllSucceed(entries: map<string, JObj>)
    ensures AllMarshal(entries, UnboxRules)
  {
    forall k | k in entries
      ensures MarshalValue(entries[k], UnboxRules).Success?
    {
      MarshalNeverFails(entries[k]);
    }
  }

  lemma {:induction false} UnboxedAgree(o: JObj, r1: seq<Unbox>, r2: seq<Unbox>)
    requires |r1| == |r2|
    requires forall i :: 0 <= i < |r1| && r1[i] != r2[i] ==> !InstanceOf(o, r1[i].className) && !InstanceOf(o, r2[i].className)
    ensures Unboxed(o, r1) == Unboxed(o, r2)
    decreases |r1|
  {
    if r1 != [] {
      assert forall i :: 0 <= i < |r1| - 1 ==> r1[1..][i] == r1[i + 1] && r2[1..][i] == r2[i + 1];
      UnboxedAgree(o, r1[1..], r2[1..]);
    }
  }

  /** The two tables differ only in the Long row. */
  lemma TablesDifferInLongRow()
    ensures |UnboxRulesAsWritten| == |UnboxRules|
    ensures forall i :: 0 <= i < |UnboxRules| && UnboxRulesAsWritten[i] != UnboxRules[i] ==>
              i == 3 && UnboxRulesAsWritten[i].className == UnboxRules[i].className == "java/lang/Long"
  {
  }

  /** ... so they convert every object that is not a Long alike. */
  lemma AsWrittenAgreesWithoutLong(o: JObj)
    requires !InstanceOf(o, "java/lang/Long")
    ensures MarshalValue(o, UnboxRulesAsWritten) == MarshalValue(o, UnboxRules)
  {
    TablesDifferInLongRow();
    UnboxedAgree(o, UnboxRulesAsWritten, UnboxRules);
  }

  /** A failed unboxing comes from the first row that matches, and that row
      names a signature its class does not declare. */
  lemma {:induction false} UnboxedFailure(o: JObj, rules: seq<Unbox>)
    requires Unboxed(o, rules).Failure?
    ensures exists i :: && 0 <= i < |rules| && InstanceOf(o, rules[i].className)
                        && rules[i].signature != Declared(rules[i])
                        && Unboxed(o, rules) == Failure(NoSuchMethod(rules[i].methodName))
    decreases |rules|
  {
    if !InstanceOf(o, rules[0].className) {
      UnboxedFailure(o, rules[1..]);
      var i :| && 0 <= i < |rules[1..]| && InstanceOf(o, rules[1..][i].className)
               && rules[1..][i].signature != Declared(rules[1..][i])
               && Unboxed(o, rules[1..]) == Failure(NoSuchMethod(rules[1..][i].methodName));
      assert rules[1..][i] == rules[i + 1];
    } else {
      assert 0 < |rules| && InstanceOf(o, rules[0].className);
    }
  }

  /** In the table as written only the Long row names an undeclared signature. */
  lemma AsWrittenUndeclaredOnlyLong()
    ensures forall i :: 0 <= i < |UnboxRulesAsWritten| && UnboxRulesAsWritten[i].signature != Declared(UnboxRulesAsWritten[i]) ==>
              i == 3
  {
    UnboxRulesDeclared();
    TablesDifferInLongRow();
  }

  /** As written, the only entry that fails to convert is a Long, and it
      fails with the longValue lookup. */
  lemma AsWrittenFailsOnlyOnLong(o: JObj)
    ensures MarshalValue(o, UnboxRulesAsWritten).Failure? ==>
              InstanceOf(o, "java/lang/Long") && MarshalValue(o, UnboxRulesAsWritten) == Failure(NoSuchMethod("longValue"))
  {
    if MarshalValue(o, UnboxRulesAsWritten).Failure? {
      UnboxedFailure(o, UnboxRulesAsWritten);
      AsWrittenUndeclaredOnlyLong();
    }
  }

  /** Both tables convert a context without a Long to the same namespace. */
  lemma NoLongAgrees(entries: map<string, JObj>)
    ensures AllMarshal(entries, UnboxRules)
    ensures NoLong(entries) ==>
              AllMarshal(entries, UnboxRulesAsWritten) && LocalsOf(entries, UnboxRulesAsWritten) == LocalsOf(entries, UnboxRules)
  {
    MarshalAllSucceed(entries);
    if NoLong(entries) {
      forall k | k in entries
        ensures MarshalValue(entries[k], UnboxRulesAsWritten) == MarshalValue(entries[k], UnboxRules)
      {
        AsWrittenAgreesWithoutLong(entries[k]);
      }
      var c1, c2 := Converted(entries, entries.Keys, UnboxRulesAsWritten), Converted(entries, entries.Keys, UnboxRules);
      assert c1.Keys == c2.Keys;
      assert forall k :: k in c1 ==> c1[k] == c2[k];
      assert c1 == c2;
    }
  }

  /** The loop, run with the table as written, computes Locals. */
  lemma ContextToLocalsIsLocals(context: JObj, r: Result<Namespace, PyError>)
    requires !context.JMap? ==> r == Failure(AssertionFailed)
    requires context.JMap? ==> (r.Success? <==> AllMarshal(context.entries, UnboxRulesAsWritten))
    requires r.Success? ==> context.JMap? && AllMarshal(context.entries, UnboxRulesAsWritten) && r.value == LocalsOf(context.entries, UnboxRulesAsWritten)
    requires context.JMap? && r.Failure? ==>
               exists k :: k in context.entries && MarshalValue(context.entries[k], UnboxRulesAsWritten) == Failure(r.error)
    ensures r == Locals(context)
  {
    if context.JMap? && r.Failure? {
      var k :| k in context.entries && MarshalValue(context.entries[k], UnboxRulesAsWritten) == Failure(r.error);
      AsWrittenFailsOnlyOnLong(context.entries[k]);
    }
  }

  /** The namespace holds the seeds and the context's keys and nothing else; a
      context key overrides a seed; each key is bound to its converted value. */
  lemma LocalsContents(entries: map<string, JObj>)
    requires Locals(JMap(entries)).Success?
    ensures var ns := Locals(JMap(entries)).value;
            && ns.Keys == entries.Keys + {"JWrapper", "importClass"}
            && (forall k :: k in entries ==> Success(ns[k]) == MarshalValue(entries[k], UnboxRulesAsWritten))
            && ("JWrapper" !in entries ==> ns["JWrapper"] == PyObject("JWrapper"))
            && ("importClass" !in entries ==> ns["importClass"] == PyObject("importClass"))
  {
  }

  /** The unboxing table as written fails on every Long: the call names "()L",
      while longValue is declared with the signature of long, "()J". With the
      intended table the Long is unboxed. */
  lemma LongAsWrittenFails(o: JObj)
    requires o != JNull && InstanceOf(o, "java/lang/Long")
    requires !InstanceOf(o, "java/lang/String") && !InstanceOf(o, "java/lang/Boolean")
    requires !InstanceOf(o, "java/lang/Byte") && !InstanceOf(o, "java/lang/Integer")
    ensures MarshalValue(o, UnboxRulesAsWritten) == Failure(NoSuchMethod("longValue"))
    ensures MarshalValue(o, UnboxRules) == Success(PyScalar(PyUnboxed(o, "longValue", "()J")))
  {
    var l := Klass("long", true, false, None);
    assert Sig(l) == "J";
    var u := UnboxRulesAsWritten[3];
    assert u == Unbox("java/lang/Long", "longValue", "()L", "long");
    assert Declared(u) == "()J";
    assert u.signature != Declared(u) by { assert u.signature[2] == 'L'; }
    UnboxedFirstMatch(o, UnboxRulesAsWritten, 3);
    MarshalBoxFirstMatch(o, 3);
  }

  /** Hence a context holding a Long is refused as written. */
  lemma LongContextAsWrittenFails(entries: map<string, JObj>, key: string)
    requires key in entries && entries[key] != JNull && InstanceOf(entries[key], "java/lang/Long")
    requires !InstanceOf(entries[key], "java/lang/String") && !InstanceOf(entries[key], "java/lang/Boolean")
    requires !InstanceOf(entries[key], "java/lang/Byte") && !InstanceOf(entries[key], "java/lang/Integer")
    ensures !AllMarshal(entries, UnboxRulesAsWritten)
    ensures Locals(JMap(entries)) == Failure(NoSuchMethod("longValue"))
  {
    LongAsWrittenFails(entries[key]);
  }
}
