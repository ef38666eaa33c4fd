/**
 * Argument coercion (`cast` in scripting-cpython.py): an ordered cascade of
 * rules that turns a Python value into an argument for a Java parameter of a
 * given class, or fails with a TypeError.
 */
module Coercion {
  import opened Wrappers
  import opened Values
  import opened Signatures

  /** What a successful cast hands to the Java call. */
  datatype Arg =
    | ArgNull
    | ArgJava(o: JObj)
      /** javabridge's get_nice_arg(value, signature): a conversion the model leaves uninterpreted */
    | ArgNice(value: PyValue, signature: string)

  /** The TypeErrors `cast` raises. */
  datatype CastError =
    | NullToPrimitive
    | NotAnInstance(target: Klass)
    | NotAnArrayTarget
    | NoLength
    | NoConversion(signature: string)

  /** klass.isInstance(o): never true of a primitive class. */
  predicate IsInstance(k: Klass, o: JObj) {
    !k.isPrimitive && Replace(k.name, '.', '/') in ClassesOf(o)
  }

  function Cast(v: PyValue, k: Klass): Result<Arg, CastError>
    decreases v
  {
    var csig := Sig(k);
    match v
    case PyNone =>
      if !k.isPrimitive then Success(ArgNull) else Failure(NullToPrimitive)
    // The Java-handle test comes before the sequence test.
    case PyJava(o) =>
      if IsInstance(k, o) then Success(ArgJava(o)) else Failure(NotAnInstance(k))
    // Anything with an attribute `o` is unwrapped once and cast again.
    case PyWrapper(inner) =>
      Cast(inner, k)
    case PySeq(items) =>
      if k.component.None? then Failure(NotAnArrayTarget)
      // Only the first element is tried against the component type.
      else if |items| > 0 && Cast(items[0], k.component.value).Failure? then
        Failure(Cast(items[0], k.component.value).error)
      else Success(ArgNice(v, csig))
    case PyObject(_) =>
      // Not a scalar either: without a component type the sequence rule fails
      // at once; with one, len() of an object that has none raises.
      if k.component.None? then Failure(NotAnArrayTarget) else Failure(NoLength)
    case PyScalar(_) =>
      if k.isPrimitive || csig == "Ljava/lang/String;" || csig == "Ljava/lang/Object;" then
        Success(ArgNice(v, csig))
      else Failure(NoConversion(csig))
  }

  /** The value under every `.o` layer. */
  function Unwrapped(v: PyValue): (u: PyValue)
    ensures !u.PyWrapper?
  {
    if v.PyWrapper? then Unwrapped(v.o) else v
  }

  /** Casting looks through every wrapper layer: the result is that of the innermost value. */
  lemma {:induction false} CastSeesThroughWrappers(v: PyValue, k: Klass)
    ensures Cast(v, k) == Cast(Unwrapped(v), k)
    decreases v
  {
    if v.PyWrapper? {
      CastSeesThroughWrappers(v.o, k);
    }
  }

  /** What each kind of success says about the input: null comes only from None
      and never for a primitive, a handle comes back unchanged only when the
      target accepts it, and get_nice_arg is asked only for a non-empty-target
      sequence or a scalar bound for a primitive, String or Object parameter. */
  lemma CastOutcome(v: PyValue, k: Klass)
    ensures Cast(v, k) == Success(ArgNull) <==> Unwrapped(v) == PyNone && !k.isPrimitive
    ensures forall o :: Cast(v, k) == Success(ArgJava(o)) <==> Unwrapped(v) == PyJava(o) && IsInstance(k, o)
    ensures Cast(v, k).Success? && Cast(v, k).value.ArgNice? ==>
              && Cast(v, k).value == ArgNice(Unwrapped(v), Sig(k))
              && (|| (Unwrapped(v).PySeq? && k.component.Some?)
                  || (Unwrapped(v).PyScalar? &&
                      (k.isPrimitive || Sig(k) in {"Ljava/lang/String;", "Ljava/lang/Object;"})))
  {
    CastSeesThroughWrappers(v, k);
  }

  /** None: null for a reference type, TypeError for a primitive. */
  lemma CastNone(k: Klass)
    ensures Cast(PyNone, k) == (if k.isPrimitive then Failure(NullToPrimitive) else Success(ArgNull))
  {
  }

  /** A Java handle passes unchanged exactly when the target accepts it; this holds
      even for an array target, because the handle test comes first. */
  lemma CastHandle(o: JObj, k: Klass)
    ensures Cast(PyJava(o), k).Success? <==> IsInstance(k, o)
    ensures Cast(PyJava(o), k).Success? ==> Cast(PyJava(o), k).value == ArgJava(o)
  {
  }

  /** Wrapping a handle in a proxy and casting it gives the original handle back. */
  lemma CastUnwrapsProxy(o: JObj, k: Klass)
    ensures Cast(PyWrapper(PyJava(o)), k) == Cast(PyJava(o), k)
  {
  }

  /** A sequence needs an array target; the empty sequence fits any array target. */
  lemma CastSequenceNeedsArray(items: seq<PyValue>, k: Klass)
    ensures k.component.None? ==> Cast(PySeq(items), k) == Failure(NotAnArrayTarget)
    ensures k.component.Some? && items == [] ==> Cast(PySeq(items), k) == Success(ArgNice(PySeq([]), Sig(k)))
  {
  }

  /** Only element 0 is examined: sequences that share their first element are
      accepted or refused together, with the same error, whatever follows. */
  lemma CastSequenceHeadOnly(x: PyValue, rest1: seq<PyValue>, rest2: seq<PyValue>, k: Klass)
    ensures Cast(PySeq([x] + rest1), k).Success? == Cast(PySeq([x] + rest2), k).Success?
    ensures Cast(PySeq([x] + rest1), k).Failure? ==> Cast(PySeq([x] + rest1), k) == Cast(PySeq([x] + rest2), k)
  {
  }

  /** A first element that fails the component type sinks the whole sequence. */
  lemma CastSequenceFirstElementFails(x: PyValue, rest: seq<PyValue>, k: Klass)
    requires k.component.Some? && Cast(x, k.component.value).Failure?
    ensures Cast(PySeq([x] + rest), k) == Failure(Cast(x, k.component.value).error)
  {
  }

  /** A scalar fits a primitive, String or Object parameter and nothing else. */
  lemma CastScalar(s: Scalar, k: Klass)
    ensures Cast(PyScalar(s), k).Success? <==>
              k.isPrimitive || Sig(k) == "Ljava/lang/String;" || Sig(k) == "Ljava/lang/Object;"
  {
  }
}
