/**
 * The two proxies of scripting-cpython.py: JWrapper (ObjectProxy), which wraps
 * a Java object and exposes its instance methods, and JClassWrapper
 * (ClassProxy), which wraps a class and exposes its static methods, static
 * fields and constructors; and the name `importClass` binds a class under.
 * The Java operations a proxy performs are returned as ForeignOp values:
 * javabridge carries them out, outside the model.
 */
module Proxies {
  import opened Wrappers
  import opened Values
  import opened Signatures
  import opened Coercion
  import opened Overloads

  /** A public field as Class.getField reports it. */
  datatype FieldDesc = FieldDesc(fieldType: Klass, isStatic: bool)

  /** What introspection of a class reports: its public methods in discovery
      order, its public fields by name and its public constructors. */
  datatype ClassDesc = ClassDesc(methods: seq<MethodDesc>, fields: map<string, FieldDesc>, constructors: seq<Candidate>)

  /** A Java operation a proxy hands to javabridge. */
  datatype ForeignOp =
    | CallMethod(target: JObj, name: string, signature: string, args: seq<Arg>)
    | StaticCall(className: string, name: string, signature: string, args: seq<Arg>)
    | MakeInstance(className: string, signature: string, args: seq<Arg>)
    | GetField(target: JObj, name: string, signature: string)
    | GetStaticField(className: string, name: string, signature: string)
    | SetStaticField(className: string, name: string, signature: string, value: PyValue)

  /** What reading an attribute of a proxy yields. */
  datatype Attr =
      /** an attribute stored on the proxy itself */
    | Plain(value: PyValue)
      /** the callable the proxy made for a method name: it resolves that name's overloads */
    | Callable(name: string)
      /** a field read carried out through javabridge */
    | Foreign(op: ForeignOp)

  /** Why a field name is refused. */
  datatype FieldProblem = NoSuchField | WrongKind

  /** The field checks of both proxies: the class must have a public field of
      that name (Class.getField), and its static flag must be the one the proxy
      serves. A match yields the field's type signature. */
  function FieldLookup(fields: map<string, FieldDesc>, name: string, wantStatic: bool): (r: Result<string, FieldProblem>)
    ensures r.Success? <==> name in fields && fields[name].isStatic == wantStatic
    ensures r.Success? ==> r.value == Sig(fields[name].fieldType)
    ensures r == Failure(NoSuchField) <==> name !in fields
  {
    if name !in fields then Failure(NoSuchField)
    else if fields[name].isStatic != wantStatic then Failure(WrongKind)
    else Success(Sig(fields[name].fieldType))
  }

  /** The attributes a proxy carries for the method names in `names`: one
      dispatching callable each. */
  function Dispatchers(names: set<string>): (d: map<string, Attr>)
    ensures d.Keys == names
    ensures forall n :: n in d ==> d[n] == Callable(n)
  {
    map n | n in names :: Callable(n)
  }

  /** Some method name is the name of a public instance field. */
  predicate Clashes(names: set<string>, fields: map<string, FieldDesc>) {
    exists n :: n in names && n in fields && !fields[n].isStatic
  }

  lemma ClashesAdd(names: set<string>, fields: map<string, FieldDesc>, n: string)
    ensures Clashes(names + {n}, fields) <==> Clashes(names, fields) || (n in fields && !fields[n].isStatic)
  {
    if Clashes(names + {n}, fields) && !(n in fields && !fields[n].isStatic) {
      var k :| k in names + {n} && k in fields && !fields[k].isStatic;
      assert k in names;
    }
  }

  /** The static-field writes of JClassWrapper.__init__: for each method name
      that names a static field, the dispatcher (a Python function, `PyObject`)
      is written into that field. */
  function StaticWrites(cname: string, fields: map<string, FieldDesc>, names: set<string>): set<ForeignOp> {
    set n | n in names && n in fields && fields[n].isStatic :: SetStaticField(cname, n, Sig(fields[n].fieldType), PyObject(n))
  }

  lemma DispatchersAdd(names: set<string>, n: string)
    ensures Dispatchers(names + {n}) == Dispatchers(names)[n := Callable(n)]
  {
  }

  lemma StaticWritesAdd(cname: string, fields: map<string, FieldDesc>, names: set<string>, n: string)
    ensures StaticWrites(cname, fields, names + {n}) ==
            StaticWrites(cname, fields, names) +
            (if n in fields && fields[n].isStatic then {SetStaticField(cname, n, Sig(fields[n].fieldType), PyObject(n))} else {})
  {
  }

  /** `setattr(self, name, fn)` in JClassWrapper.__init__, through
      JClassWrapper.__setattr__, for a method name seen for the first time:
      the proxy's attributes and the static-field writes so far become those
      of one more name, or AttributeError when the name is an instance
      field's. */
  method Install(cname: string, fields: map<string, FieldDesc>, names: set<string>,
                 d: map<string, Attr>, writes: seq<ForeignOp>, n: string)
    returns (r: Result<(map<string, Attr>, seq<ForeignOp>), PyError>)
    requires d == Dispatchers(names - fields.Keys)
    requires (set w | w in writes) == StaticWrites(cname, fields, names)
    ensures r.Failure? <==> n in fields && !fields[n].isStatic
    ensures r.Failure? ==> r.error == AttributeError("")
    ensures r.Success? ==> r.value.0 == Dispatchers((names + {n}) - fields.Keys)
    ensures r.Success? ==> (set w | w in r.value.1) == StaticWrites(cname, fields, names + {n})
  {
    StaticWritesAdd(cname, fields, names, n);
    match FieldLookup(fields, n, true) {
      case Failure(NoSuchField) =>
        DispatchersAdd(names - fields.Keys, n);
        assert (names + {n}) - fields.Keys == (names - fields.Keys) + {n};
        return Success((d[n := Callable(n)], writes));
      case Failure(WrongKind) =>
        return Failure(AttributeError(""));
      case Success(sig) =>
        assert (names + {n}) - fields.Keys == names - fields.Keys;
        var writes' := writes + [SetStaticField(cname, n, sig, PyObject(n))];
        assert (set w | w in writes') == (set w | w in writes) + {SetStaticField(cname, n, sig, PyObject(n))};
        return Success((d, writes'));
    }
  }

  /** JWrapper: a proxy for one Java object. */
  class ObjectProxy {
    const o: JObj
    /** the object's class (`class_wrapper`) */
    const klass: ClassDesc
    /** instance methods by name, in discovery order */
    var methods: map<string, seq<MethodDesc>>
    /** the proxy's own attributes */
    var dict: map<string, Attr>

    /** JWrapper.__init__: keeps the non-static methods, grouped by name in
        discovery order, and gives each name a dispatcher. The `setattr` of
        line 251 goes through JWrapper.__setattr__, whose `self.klass` lookup
        always fails, so every dispatcher is stored on the proxy. */
    constructor (o: JObj, klass: ClassDesc)
      ensures this.o == o && this.klass == klass
      ensures methods == Table(klass.methods, false)
      ensures dict == Dispatchers(methods.Keys)
    {
      this.o := o;
      this.klass := klass;
      var ms: map<string, seq<MethodDesc>> := map[];
      var d: map<string, Attr> := map[];
      for i := 0 to |klass.methods|
        invariant ms == Table(klass.methods[..i], false)
        invariant d == Dispatchers(ms.Keys)
      {
        assert klass.methods[..i + 1][..i] == klass.methods[..i];
        var m := klass.methods[i];
        if m.isStatic {
          continue;
        }
        assert Table(klass.methods[..i + 1], false) == ms[m.name := (if m.name in ms then ms[m.name] else []) + [m]];
        if m.name !in ms {
          DispatchersAdd(ms.Keys, m.name);
          d := d[m.name := Callable(m.name)];
          assert [] + [m] == [m];
          assert ms[m.name := [m]].Keys == ms.Keys + {m.name};
          ms := ms[m.name := [m]];
        } else {
          assert ms[m.name := ms[m.name] + [m]].Keys == ms.Keys;
          ms := ms[m.name := ms[m.name] + [m]];
        }
      }
      assert klass.methods[..|klass.methods|] == klass.methods;
      methods := ms;
      dict := d;
    }

    /** JWrapper.__call: resolves `name` against its overloads and calls the
        chosen one on the wrapped object with the signature built from its
        parameter and return types. */
    method Call(name: string, args: seq<PyValue>) returns (r: Result<ForeignOp, PyError>)
      requires name in methods
      ensures FirstMatch(MethodCandidates(methods[name]), args).None? ==>
                r == Failure(TypeError("No matching method found for " + name))
      ensures FirstMatch(MethodCandidates(methods[name]), args).Some? ==>
                var ch := FirstMatch(MethodCandidates(methods[name]), args).value;
                && ch.index < |methods[name]|
                && var m := methods[name][ch.index];
                   r == Success(CallMethod(o, name, MethodSig(m.params, m.ret), ch.args))
    {
      var ms := methods[name];
      var ch := Resolve(MethodCandidates(ms), args);
      FirstMatchIsFirst(MethodCandidates(ms), args);
      if ch.None? {
        return Failure(TypeError("No matching method found for " + name));
      }
      var m := ms[ch.value.index];
      return Success(CallMethod(o, name, MethodSig(m.params, m.ret), ch.value.args));
    }

    /** Attribute read as written: JWrapper.__getattr__ looks the field up on
        `self.klass`, which a JWrapper never sets, so every name that is not
        one of the proxy's own attributes raises AttributeError, fields
        included. */
    function GetAttr(name: string): (r: Result<Attr, PyError>)
      reads this
      ensures r.Success? <==> name in dict
      ensures r.Success? ==> r.value == dict[name]
      ensures r.Failure? ==> r.error == AttributeError("")
    {
      if name in dict then Success(dict[name]) else Failure(AttributeError(""))
    }

    /** Attribute read as the code evidently intends: the field rule applied to
        the wrapped object's class (`class_wrapper`); a static field is refused. */
    function GetAttrIntended(name: string): (r: Result<Attr, PyError>)
      reads this
      ensures name in dict ==> r == Success(dict[name])
      ensures name !in dict ==>
                (r.Success? <==> name in klass.fields && !klass.fields[name].isStatic)
      ensures name !in dict && r.Success? ==>
                r.value == Foreign(GetField(o, name, Sig(klass.fields[name].fieldType)))
    {
      if name in dict then Success(dict[name])
      else
        match FieldLookup(klass.fields, name, false)
        case Failure(_) => Failure(AttributeError(""))
        case Success(sig) => Success(Foreign(GetField(o, name, sig)))
    }

    /** Attribute write as written: the `self.klass` lookup fails, so every
        write stores a plain attribute on the proxy, even over a method's
        dispatcher. */
    method SetAttr(name: string, value: PyValue)
      modifies this
      ensures dict == old(dict)[name := Plain(value)]
      ensures methods == old(methods)
    {
      dict := dict[name := Plain(value)];
    }
  }

  /** As written, an instance field that is not shadowed by a proxy attribute
      cannot be read; with `class_wrapper` in place of `klass` it is read
      through javabridge. */
  lemma InstanceFieldReadAsWrittenFails(p: ObjectProxy, name: string)
    requires name !in p.dict && name in p.klass.fields && !p.klass.fields[name].isStatic
    ensures p.GetAttr(name) == Failure(AttributeError(""))
    ensures p.GetAttrIntended(name) == Success(Foreign(GetField(p.o, name, Sig(p.klass.fields[name].fieldType))))
  {
  }

  const EnvNameError: PyError := NameError("global name 'env' is not defined")

  /** JClassWrapper.__init__ as written: after setting `cname` and `klass` it
      reads `env`, bound nowhere in its scope or in the module, so every
      construction raises NameError; `importClass`, which constructs one,
      raises with it. */
  function NewClassProxyAsWritten(className: string, klass: ClassDesc): (r: Result<(), PyError>)
    ensures r.Failure? && r.error.NameError?
  {
    Failure(EnvNameError)
  }

  /** JClassWrapper: a proxy for a class. */
  class ClassProxy {
    /** the class name with '/' for '.' */
    const cname: string
    const klass: ClassDesc
    /** static methods by name, in discovery order */
    var methods: map<string, seq<MethodDesc>>
    /** the proxy's own attributes */
    var dict: map<string, Attr>

    /** The proxy New builds. */
    constructor (cname: string, klass: ClassDesc, methods: map<string, seq<MethodDesc>>, dict: map<string, Attr>)
      ensures this.cname == cname && this.klass == klass
      ensures this.methods == methods && this.dict == dict
    {
      this.cname := cname;
      this.klass := klass;
      this.methods := methods;
      this.dict := dict;
    }

    /** JClassWrapper.__init__ as evidently intended (with `env` bound as in
        the other methods): keeps the static methods, grouped by name in
        discovery order, and makes a dispatcher for each name. The dispatcher
        is stored with `setattr`, which goes through JClassWrapper.__setattr__:
        a name with no public field becomes an attribute of the proxy; a name
        of a static field makes javabridge write the dispatcher into that
        field, and the proxy keeps no attribute; a name of an instance field
        raises AttributeError, and construction fails. `writes` holds the
        static-field writes performed. */
    static method New(className: string, klass: ClassDesc) returns (r: Result<ClassProxy, PyError>, writes: seq<ForeignOp>)
      ensures r.Failure? <==> Clashes(Table(klass.methods, true).Keys, klass.fields)
      ensures r.Failure? ==> r.error == AttributeError("")
      ensures r.Success? ==>
                && fresh(r.value)
                && r.value.cname == Replace(className, '.', '/') && r.value.klass == klass
                && r.value.methods == Table(klass.methods, true)
                && r.value.dict == Dispatchers(r.value.methods.Keys - klass.fields.Keys)
                && (set w | w in writes) == StaticWrites(r.value.cname, klass.fields, r.value.methods.Keys)
    {
      var cname := Replace(className, '.', '/');
      var fields := klass.fields;
      var ms: map<string, seq<MethodDesc>> := map[];
      var d: map<string, Attr> := map[];
      writes := [];
      for i := 0 to |klass.methods|
        invariant ms == Table(klass.methods[..i], true)
        invariant !Clashes(ms.Keys, fields)
        invariant d == Dispatchers(ms.Keys - fields.Keys)
        invariant (set w | w in writes) == StaticWrites(cname, fields, ms.Keys)
      {
        assert klass.methods[..i + 1][..i] == klass.methods[..i];
        var m := klass.methods[i];
        if !m.isStatic {
          continue;
        }
        assert Table(klass.methods[..i + 1], true) == ms[m.name := (if m.name in ms then ms[m.name] else []) + [m]];
        if m.name !in ms {
          var installed := Install(cname, fields, ms.Keys, d, writes, m.name);
          if installed.Failure? {
            TableHasEveryKeptName(klass.methods, i, true);
            assert m.name in Table(klass.methods, true).Keys && m.name in fields && !fields[m.name].isStatic;
            return Failure(installed.error), writes;
          }
          d, writes := installed.value.0, installed.value.1;
          ClashesAdd(ms.Keys, fields, m.name);
          assert [] + [m] == [m];
          assert ms[m.name := [m]].Keys == ms.Keys + {m.name};
          ms := ms[m.name := [m]];
        } else {
          assert ms[m.name := ms[m.name] + [m]].Keys == ms.Keys;
          ms := ms[m.name := ms[m.name] + [m]];
        }
      }
      assert klass.methods[..|klass.methods|] == klass.methods;
      var p := new ClassProxy(cname, klass, ms, d);
      r := Success(p);
    }

    /** JClassWrapper.__call_static: resolves `name` against its static
        overloads and calls the chosen one on the class. */
    method CallStatic(name: string, args: seq<PyValue>) returns (r: Result<ForeignOp, PyError>)
      requires name in methods
      ensures FirstMatch(MethodCandidates(methods[name]), args).None? ==>
                r == Failure(TypeError("No matching method found for " + name))
      ensures FirstMatch(MethodCandidates(methods[name]), args).Some? ==>
                var ch := FirstMatch(MethodCandidates(methods[name]), args).value;
                && ch.index < |methods[name]|
                && var m := methods[name][ch.index];
                   r == Success(StaticCall(cname, name, MethodSig(m.params, m.ret), ch.args))
    {
      var ms := methods[name];
      var ch := Resolve(MethodCandidates(ms), args);
      FirstMatchIsFirst(MethodCandidates(ms), args);
      if ch.None? {
        return Failure(TypeError("No matching method found for " + name));
      }
      var m := ms[ch.value.index];
      return Success(StaticCall(cname, name, MethodSig(m.params, m.ret), ch.value.args));
    }

    /** JClassWrapper.__call__: resolves the arguments against the class's
        constructors and makes an instance with the signature "(...)V". */
    method Construct(args: seq<PyValue>) returns (r: Result<ForeignOp, PyError>)
      ensures FirstMatch(klass.constructors, args).None? ==>
                r == Failure(TypeError("No matching constructor found"))
      ensures FirstMatch(klass.constructors, args).Some? ==>
                var ch := FirstMatch(klass.constructors, args).value;
                && ch.index < |klass.constructors|
                && r == Success(MakeInstance(cname, ConstructorSig(klass.constructors[ch.index].params), ch.args))
    {
      var ks := klass.constructors;
      var ch := Resolve(ks, args);
      FirstMatchIsFirst(ks, args);
      if ch.None? {
        return Failure(TypeError("No matching constructor found"));
      }
      var k := ks[ch.value.index];
      return Success(MakeInstance(cname, ConstructorSig(k.params), ch.value.args));
    }

    /** JClassWrapper.__getattr__ (reached for names that are not the proxy's
        own attributes): a static field is read through javabridge; a missing
        or non-static field raises AttributeError. */
    function GetAttr(name: string): (r: Result<Attr, PyError>)
      reads this
      ensures name in dict ==> r == Success(dict[name])
      ensures name !in dict && name !in klass.fields ==>
                r == Failure(AttributeError("Could not find field " + name))
      ensures name !in dict && name in klass.fields && !klass.fields[name].isStatic ==>
                r == Failure(AttributeError("Field " + name + " is not static"))
      ensures name !in dict && name in klass.fields && klass.fields[name].isStatic ==>
                r == Success(Foreign(GetStaticField(cname, name, Sig(klass.fields[name].fieldType))))
    {
      if name in dict then Success(dict[name])
      else
        match FieldLookup(klass.fields, name, true)
        case Failure(NoSuchField) => Failure(AttributeError("Could not find field " + name))
        case Failure(WrongKind) => Failure(AttributeError("Field " + name + " is not static"))
        case Success(sig) => Success(Foreign(GetStaticField(cname, name, sig)))
    }

    /** JClassWrapper.__setattr__ (called for every write): a name with no
        field becomes a plain attribute; a non-static field raises
        AttributeError; a static field is written through javabridge with the
        value as given (it is not cast). */
    method SetAttr(name: string, value: PyValue) returns (r: Result<Option<ForeignOp>, PyError>)
      modifies this
      ensures methods == old(methods)
      ensures name !in klass.fields ==> r == Success(None) && dict == old(dict)[name := Plain(value)]
      ensures name in klass.fields && !klass.fields[name].isStatic ==>
                r == Failure(AttributeError("")) && dict == old(dict)
      ensures name in klass.fields && klass.fields[name].isStatic ==>
                && r == Success(Some(SetStaticField(cname, name, Sig(klass.fields[name].fieldType), value)))
                && dict == old(dict)
    {
      match FieldLookup(klass.fields, name, true)
      case Failure(NoSuchField) =>
        dict := dict[name := Plain(value)];
        r := Success(None);
      case Failure(WrongKind) =>
        r := Failure(AttributeError(""));
      case Success(sig) =>
        r := Success(Some(SetStaticField(cname, name, sig, value)));
    }
  }

  // ---------------------------------------------------------------------------
  // importClass

  /** The text after the last '.', or all of `s` when it has none
      (`s.rsplit(".", 1)[-1]`). */
  function AfterLastDot(s: string): string
    decreases |s|
  {
    if s == [] then []
    else if s[|s| - 1] == '.' then []
    else AfterLastDot(s[..|s| - 1]) + [s[|s| - 1]]
  }

  /** The name importClass binds the class under: the one given, else the
      class name after its last '.'. */
  function ImportName(className: string, importName: Option<string>): string {
    if importName.Some? then importName.value
    else if '.' in className then AfterLastDot(className)
    else className
  }

  lemma {:induction false} AfterLastDotIsLastSegment(s: string)
    ensures '.' !in AfterLastDot(s)
    ensures |AfterLastDot(s)| <= |s| && s[|s| - |AfterLastDot(s)|..] == AfterLastDot(s)
    ensures |AfterLastDot(s)| < |s| ==> s[|s| - |AfterLastDot(s)| - 1] == '.'
    ensures '.' !in s ==> AfterLastDot(s) == s
    decreases |s|
  {
    if s != [] && s[|s| - 1] != '.' {
      var init := s[..|s| - 1];
      AfterLastDotIsLastSegment(init);
      assert s == init + [s[|s| - 1]];
    }
  }

  /** Without an explicit name, the bound name is the last segment of the
      class name: it has no '.', ends the class name, and is preceded by a
      '.' unless it is the whole name. */
  lemma ImportNameIsLastSegment(className: string)
    ensures var n := ImportName(className, None);
            && '.' !in n
            && |n| <= |className| && className[|className| - |n|..] == n
            && (|n| < |className| ==> className[|className| - |n| - 1] == '.')
  {
    AfterLastDotIsLastSegment(className);
  }

  lemma {:induction false} AfterLastDotOfQualified(pkg: string, simple: string)
    requires '.' !in simple
    ensures AfterLastDot(pkg + "." + simple) == simple
    decreases |simple|
  {
    var s := pkg + "." + simple;
    if simple == [] {
      assert s[|s| - 1] == '.';
    } else {
      var init := simple[..|simple| - 1];
      AfterLastDotOfQualified(pkg, init);
      assert s[..|s| - 1] == pkg + "." + init;
    }
  }

  /** importClass("java.lang.String") binds the class as "String". */
  lemma ImportNameOfQualified(pkg: string, simple: string)
    requires '.' !in simple
    ensures ImportName(pkg + "." + simple, None) == simple
  {
    var s := pkg + "." + simple;
    assert s[|pkg|] == '.';
    AfterLastDotOfQualified(pkg, simple);
  }
}
