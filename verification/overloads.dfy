/**
 * Overload resolution as JWrapper.__call, JClassWrapper.__call_static and
 * JClassWrapper.__call__ perform it, and the per-name method tables the two
 * proxy constructors build. The three resolution loops in the source are the
 * same loop; the model states it once.
 */
module Overloads {
  import opened Wrappers
  import opened Values
  import opened Signatures
  import opened Coercion

  /** A java.lang.reflect.Method as the proxies read it. */
  datatype MethodDesc = MethodDesc(name: string, params: seq<Klass>, ret: Klass, isVarArgs: bool, isStatic: bool)

  /** What resolution looks at in a method or constructor; a
      java.lang.reflect.Constructor is described by exactly this. */
  datatype Candidate = Candidate(params: seq<Klass>, isVarArgs: bool)

  function MethodCandidates(ms: seq<MethodDesc>): (cs: seq<Candidate>)
    ensures |cs| == |ms|
    ensures forall i :: 0 <= i < |ms| ==> cs[i] == Candidate(ms[i].params, ms[i].isVarArgs)
  {
    seq(|ms|, i requires 0 <= i < |ms| => Candidate(ms[i].params, ms[i].isVarArgs))
  }

  // ---------------------------------------------------------------------------
  // Method tables

  /** The table a proxy builds from the class's methods in discovery order:
      methods whose static flag is `wantStatic`, grouped by name, each group in
      discovery order (JWrapper keeps the instance methods, JClassWrapper the
      static ones). */
  function Table(ms: seq<MethodDesc>, wantStatic: bool): map<string, seq<MethodDesc>>
    decreases |ms|
  {
    if ms == [] then map[]
    else
      var t := Table(ms[..|ms| - 1], wantStatic);
      var m := ms[|ms| - 1];
      if m.isStatic != wantStatic then t
      else t[m.name := (if m.name in t then t[m.name] else []) + [m]]
  }

  /** The methods named `name` with static flag `wantStatic`, in discovery order. */
  function Select(ms: seq<MethodDesc>, name: string, wantStatic: bool): seq<MethodDesc>
    decreases |ms|
  {
    if ms == [] then []
    else
      var m := ms[|ms| - 1];
      Select(ms[..|ms| - 1], name, wantStatic) + (if m.name == name && m.isStatic == wantStatic then [m] else [])
  }

  ghost predicate Declares(ms: seq<MethodDesc>, name: string, wantStatic: bool) {
    exists i :: 0 <= i < |ms| && ms[i].name == name && ms[i].isStatic == wantStatic
  }

  /** The table has an entry exactly for the names some kept method carries, and
      each entry is the kept methods of that name in discovery order. */
  lemma {:induction false} TableGroupsByName(ms: seq<MethodDesc>, wantStatic: bool)
    ensures forall n :: n in Table(ms, wantStatic) <==> Declares(ms, n, wantStatic)
    ensures forall n :: n in Table(ms, wantStatic) ==> Table(ms, wantStatic)[n] == Select(ms, n, wantStatic)
    decreases |ms|
  {
    if ms != [] {
      var init := ms[..|ms| - 1];
      var m := ms[|ms| - 1];
      TableGroupsByName(init, wantStatic);
      forall n ensures Declares(ms, n, wantStatic) <==> Declares(init, n, wantStatic) || (m.name == n && m.isStatic == wantStatic) {
        if Declares(ms, n, wantStatic) {
          var i :| 0 <= i < |ms| && ms[i].name == n && ms[i].isStatic == wantStatic;
          if i < |ms| - 1 {
            assert init[i] == ms[i];
          }
        }
        if Declares(init, n, wantStatic) {
          var i :| 0 <= i < |init| && init[i].name == n && init[i].isStatic == wantStatic;
          assert ms[i] == init[i];
        }
      }
      forall n | !Declares(init, n, wantStatic) ensures Select(init, n, wantStatic) == [] {
        SelectEmpty(init, n, wantStatic);
      }
    }
  }

  /** Every kept method's name has an entry. */
  lemma TableHasEveryKeptName(ms: seq<MethodDesc>, i: nat, wantStatic: bool)
    requires i < |ms| && ms[i].isStatic == wantStatic
    ensures ms[i].name in Table(ms, wantStatic)
  {
    TableGroupsByName(ms, wantStatic);
    assert Declares(ms, ms[i].name, wantStatic);
  }

  lemma {:induction false} SelectEmpty(ms: seq<MethodDesc>, name: string, wantStatic: bool)
    requires !Declares(ms, name, wantStatic)
    ensures Select(ms, name, wantStatic) == []
    decreases |ms|
  {
    if ms != [] {
      SelectEmpty(ms[..|ms| - 1], name, wantStatic);
    }
  }

  /** Every method in an entry has that entry's name and the wanted static flag. */
  lemma {:induction false} SelectKeepsOnlyMatches(ms: seq<MethodDesc>, name: string, wantStatic: bool)
    ensures forall m :: m in Select(ms, name, wantStatic) ==> m in ms && m.name == name && m.isStatic == wantStatic
    decreases |ms|
  {
    if ms != [] {
      SelectKeepsOnlyMatches(ms[..|ms| - 1], name, wantStatic);
    }
  }

  // ---------------------------------------------------------------------------
  // One candidate

  /** The arity filter: too few arguments (one fewer is allowed for a
      variable-arity candidate) or too many for a fixed-arity one skip it. */
  predicate ArityFits(n: nat, c: Candidate) {
    && !(n < |c.params| - (if c.isVarArgs then 1 else 0))
    && !(n > |c.params| && !c.isVarArgs)
  }

  /** The arguments a candidate's parameters are matched against: for a
      variable-arity candidate, the fixed prefix followed by one sequence that
      holds the remaining arguments.
      The source writes `args[:pm1] + [args[pm1:]]` with `args` a tuple, which
      CPython refuses (tuple + list); this is the repack the code evidently
      intends. `AttemptAsWritten` below models the line as written. Java never
      reports a variable-arity member without parameters; for one, the model
      leaves the arguments as they are, and no parameter is matched. */
  function Repack(args: seq<PyValue>, c: Candidate): seq<PyValue>
    requires ArityFits(|args|, c)
  {
    if c.isVarArgs && |c.params| > 0 then
      args[..|c.params| - 1] + [PySeq(args[|c.params| - 1..])]
    else args
  }

  /** `[cast(o, klass) for o, klass in zip(args1, params)]`: stops at the first
      failing cast; zip stops at the shorter list. */
  function CastAll(xs: seq<PyValue>, ps: seq<Klass>): Result<seq<Arg>, CastError>
    decreases |xs|
  {
    if xs == [] || ps == [] then Success([])
    else
      match Cast(xs[0], ps[0])
      case Failure(e) => Failure(e)
      case Success(a) =>
        match CastAll(xs[1..], ps[1..])
        case Failure(e) => Failure(e)
        case Success(rest) => Success([a] + rest)
  }

  function Min(a: nat, b: nat): nat {
    if a < b then a else b
  }

  /** CastAll succeeds exactly when every zipped pair casts, and then holds the
      casts in order. */
  lemma {:induction false} CastAllPairwise(xs: seq<PyValue>, ps: seq<Klass>)
    ensures CastAll(xs, ps).Success? <==>
              forall k :: 0 <= k < Min(|xs|, |ps|) ==> Cast(xs[k], ps[k]).Success?
    ensures CastAll(xs, ps).Success? ==>
              && |CastAll(xs, ps).value| == Min(|xs|, |ps|)
              && forall k :: 0 <= k < Min(|xs|, |ps|) ==> CastAll(xs, ps).value[k] == Cast(xs[k], ps[k]).value
    decreases |xs|
  {
    if xs != [] && ps != [] {
      CastAllPairwise(xs[1..], ps[1..]);
      if Cast(xs[0], ps[0]).Success? && CastAll(xs[1..], ps[1..]).Failure? {
        var k :| 0 <= k < Min(|xs| - 1, |ps| - 1) && Cast(xs[1..][k], ps[1..][k]).Failure?;
        assert Cast(xs[k + 1], ps[k + 1]).Failure?;
      }
      if CastAll(xs, ps).Success? {
        forall k | 0 <= k < Min(|xs|, |ps|) ensures Cast(xs[k], ps[k]).Success? {
          if k > 0 {
            assert xs[k] == xs[1..][k - 1] && ps[k] == ps[1..][k - 1];
          }
        }
      }
    }
  }

  /** The converted arguments a candidate accepts the call with, or None when it is skipped. */
  function Attempt(c: Candidate, args: seq<PyValue>): Option<seq<Arg>> {
    if !ArityFits(|args|, c) then None
    else
      match CastAll(Repack(args, c), c.params)
      case Success(cargs) => Some(cargs)
      case Failure(_) => None
  }

  /** A surviving candidate gets exactly one argument per parameter; with
      variable arity the last is the sequence of the trailing arguments. */
  lemma RepackShape(args: seq<PyValue>, c: Candidate)
    requires ArityFits(|args|, c) && (c.isVarArgs ==> |c.params| > 0)
    ensures |Repack(args, c)| == |c.params|
    ensures c.isVarArgs ==> Repack(args, c)[|c.params| - 1] == PySeq(args[|c.params| - 1..])
    ensures forall k :: 0 <= k < |c.params| - (if c.isVarArgs then 1 else 0) ==> Repack(args, c)[k] == args[k]
  {
  }

  /** An accepted candidate converts every argument it was given, one per
      parameter, each by `Cast` against its parameter. */
  lemma AttemptConvertsEachParameter(c: Candidate, args: seq<PyValue>)
    requires Attempt(c, args).Some? && (c.isVarArgs ==> |c.params| > 0)
    ensures |Attempt(c, args).value| == |c.params|
    ensures forall k :: 0 <= k < |c.params| ==>
              && Cast(Repack(args, c)[k], c.params[k]).Success?
              && Attempt(c, args).value[k] == Cast(Repack(args, c)[k], c.params[k]).value
  {
    RepackShape(args, c);
    CastAllPairwise(Repack(args, c), c.params);
  }

  /** A fixed-arity candidate is never chosen for more arguments than it has parameters. */
  lemma FixedArityRejectsExtraArguments(c: Candidate, args: seq<PyValue>)
    requires !c.isVarArgs && |args| > |c.params|
    ensures Attempt(c, args).None?
  {
  }

  // ---------------------------------------------------------------------------
  // The candidate list

  /** The chosen candidate's position and its converted arguments. */
  datatype Choice = Choice(index: nat, args: seq<Arg>)

  function FirstMatchFrom(cs: seq<Candidate>, args: seq<PyValue>, i: nat): Option<Choice>
    requires i <= |cs|
    decreases |cs| - i
  {
    if i == |cs| then None
    else
      match Attempt(cs[i], args)
      case Some(cargs) => Some(Choice(i, cargs))
      case None => FirstMatchFrom(cs, args, i + 1)
  }

  /** The first candidate, in table order, that accepts the arguments. */
  function FirstMatch(cs: seq<Candidate>, args: seq<PyValue>): Option<Choice> {
    FirstMatchFrom(cs, args, 0)
  }

  lemma {:induction false} FirstMatchFromChosen(cs: seq<Candidate>, args: seq<PyValue>, i: nat)
    requires i <= |cs| && FirstMatchFrom(cs, args, i).Some?
    ensures var ch := FirstMatchFrom(cs, args, i).value;
            && i <= ch.index < |cs|
            && Attempt(cs[ch.index], args) == Some(ch.args)
            && forall j :: i <= j < ch.index ==> Attempt(cs[j], args).None?
    decreases |cs| - i
  {
    if Attempt(cs[i], args).None? {
      FirstMatchFromChosen(cs, args, i + 1);
    }
  }

  lemma {:induction false} FirstMatchFromNone(cs: seq<Candidate>, args: seq<PyValue>, i: nat)
    requires i <= |cs|
    ensures FirstMatchFrom(cs, args, i).None? <==> forall j :: i <= j < |cs| ==> Attempt(cs[j], args).None?
    decreases |cs| - i
  {
    if i < |cs| && Attempt(cs[i], args).None? {
      FirstMatchFromNone(cs, args, i + 1);
    }
  }

  /** Resolution picks the first accepting candidate and tries none after it;
      it fails exactly when no candidate accepts. */
  lemma FirstMatchIsFirst(cs: seq<Candidate>, args: seq<PyValue>)
    ensures FirstMatch(cs, args).Some? ==>
              var ch := FirstMatch(cs, args).value;
              && ch.index < |cs|
              && Attempt(cs[ch.index], args) == Some(ch.args)
              && forall j :: 0 <= j < ch.index ==> Attempt(cs[j], args).None?
    ensures FirstMatch(cs, args).None? <==> forall j :: 0 <= j < |cs| ==> Attempt(cs[j], args).None?
  {
    FirstMatchFromNone(cs, args, 0);
    if FirstMatch(cs, args).Some? {
      FirstMatchFromChosen(cs, args, 0);
    }
  }

  /** The resolution loop shared by the three call paths. A cast failure moves
      on to the next candidate (the source keeps it in `last_e`, which it never
      reports); the first candidate whose casts all succeed ends the loop. */
  method Resolve(cs: seq<Candidate>, args: seq<PyValue>) returns (r: Option<Choice>)
    ensures r == FirstMatch(cs, args)
  {
    for i := 0 to |cs|
      invariant FirstMatchFrom(cs, args, 0) == FirstMatchFrom(cs, args, i)
    {
      var c := cs[i];
      if !ArityFits(|args|, c) {
        continue;
      }
      var args1 := Repack(args, c);
      var cargs := CastAll(args1, c.params);
      if cargs.Failure? {
        continue;
      }
      return Some(Choice(i, cargs.value));
    }
    return None;
  }

  // ---------------------------------------------------------------------------
  // The repack as written

  const TupleConcatError: PyError := TypeError("can only concatenate tuple (not \"list\") to tuple")

  /** One candidate as the source has it: a variable-arity candidate that passes
      the arity filter raises TypeError at the repack, outside the try, so the
      error leaves the whole call. */
  function AttemptAsWritten(c: Candidate, args: seq<PyValue>): Result<Option<seq<Arg>>, PyError> {
    if !ArityFits(|args|, c) then Success(None)
    else if c.isVarArgs then Failure(TupleConcatError)
    else Success(Attempt(c, args))
  }

  function ResolveAsWrittenFrom(cs: seq<Candidate>, args: seq<PyValue>, i: nat): Result<Option<Choice>, PyError>
    requires i <= |cs|
    decreases |cs| - i
  {
    if i == |cs| then Success(None)
    else
      match AttemptAsWritten(cs[i], args)
      case Failure(e) => Failure(e)
      case Success(Some(cargs)) => Success(Some(Choice(i, cargs)))
      case Success(None) => ResolveAsWrittenFrom(cs, args, i + 1)
  }

  function ResolveAsWritten(cs: seq<Candidate>, args: seq<PyValue>): Result<Option<Choice>, PyError> {
    ResolveAsWrittenFrom(cs, args, 0)
  }

  predicate VarArgsFits(c: Candidate, n: nat) {
    c.isVarArgs && ArityFits(n, c)
  }

  lemma {:induction false} ResolveAsWrittenFromAgrees(cs: seq<Candidate>, args: seq<PyValue>, i: nat)
    requires i <= |cs|
    ensures (forall j :: i <= j < |cs| ==> !VarArgsFits(cs[j], |args|)) ==>
              ResolveAsWrittenFrom(cs, args, i) == Success(FirstMatchFrom(cs, args, i))
    ensures forall j :: i <= j < |cs| && VarArgsFits(cs[j], |args|) &&
                        (forall l :: i <= l < j ==> !ArityFits(|args|, cs[l])) ==>
              ResolveAsWrittenFrom(cs, args, i) == Failure(TupleConcatError)
    decreases |cs| - i
  {
    if i < |cs| {
      ResolveAsWrittenFromAgrees(cs, args, i + 1);
    }
  }

  /** As written, resolution agrees with the intended one while no
      variable-arity candidate fits the argument count, and raises TypeError as
      soon as the first candidate that fits is a variable-arity one, whatever
      the arguments. */
  lemma ResolveAsWrittenAgreesWithoutVarArgs(cs: seq<Candidate>, args: seq<PyValue>)
    ensures (forall j :: 0 <= j < |cs| ==> !VarArgsFits(cs[j], |args|)) ==>
              ResolveAsWritten(cs, args) == Success(FirstMatch(cs, args))
    ensures forall j :: 0 <= j < |cs| && VarArgsFits(cs[j], |args|) &&
                        (forall l :: 0 <= l < j ==> !ArityFits(|args|, cs[l])) ==>
              ResolveAsWritten(cs, args) == Failure(TupleConcatError)
  {
    ResolveAsWrittenFromAgrees(cs, args, 0);
  }

  const ObjectClass: Klass := Klass("java.lang.Object", false, false, None)
  const StringClass: Klass := Klass("java.lang.String", false, false, None)
  const ObjectArrayClass: Klass := Klass("[Ljava.lang.Object;", false, true, Some(ObjectClass))

  /** String.format(String, Object...) called as format("%d", 1): the intended
      repack selects it with the trailing argument packed into an Object[];
      as written the call raises TypeError. */
  lemma VarArgsCallAsWrittenFails()
    ensures var cs := [Candidate([StringClass, ObjectArrayClass], true)];
            var args := [PyScalar(PyStr("%d")), PyScalar(PyInt(1))];
            && FirstMatch(cs, args).Some?
            && FirstMatch(cs, args).value.index == 0
            && ResolveAsWritten(cs, args) == Failure(TupleConcatError)
  {
    var cs := [Candidate([StringClass, ObjectArrayClass], true)];
    var args := [PyScalar(PyStr("%d")), PyScalar(PyInt(1))];
    var trailing := PySeq([PyScalar(PyInt(1))]);
    assert Repack(args, cs[0]) == [args[0], trailing];
    ScalarFitsObjectAndString();
    assert Cast(trailing, ObjectArrayClass).Success?;
    assert CastAll([trailing], [ObjectArrayClass]).Success?;
    assert CastAll([args[0], trailing], cs[0].params).Success?;
  }

  lemma ScalarFitsObjectAndString()
    ensures forall s :: Cast(PyScalar(s), ObjectClass).Success?
    ensures forall s :: Cast(PyScalar(s), StringClass).Success?
  {
    SigOfObjectClass();
    SigOfStringClass();
  }

  lemma SigOfObjectClass()
    ensures Sig(ObjectClass) == "Ljava/lang/Object;"
  {
    SigOfClass(ObjectClass);
    var r := Replace(ObjectClass.name, '.', '/');
    assert r == "java/lang/Object" by {
      assert |r| == 16;
      assert r[4] == '/' && r[9] == '/';
    }
  }

  lemma SigOfStringClass()
    ensures Sig(StringClass) == "Ljava/lang/String;"
  {
    SigOfClass(StringClass);
    var r := Replace(StringClass.name, '.', '/');
    assert r == "java/lang/String" by {
      assert |r| == 16;
      assert r[4] == '/' && r[9] == '/';
    }
  }
}
