/**
 * The JNI type signature of a Java class (`sig` in scripting-cpython.py): the
 * encoding of the "Type Signatures" table in chapter 3 of the Java Native
 * Interface Specification, and a decoder that inverts it on well-formed
 * descriptors.
 */
module Signatures {
  import opened Wrappers

  /** A java.lang.Class as the bridge queries it: getName(), isPrimitive(),
      isArray() and getComponentType() (None where Java returns null). */
  datatype Klass = Klass(name: string, isPrimitive: bool, isArray: bool, component: Option<Klass>)

  /** The part of a class that its signature encodes. */
  datatype TypeName = TypeName(name: string, isPrimitive: bool, isArray: bool)

  function ShapeOf(k: Klass): TypeName {
    TypeName(k.name, k.isPrimitive, k.isArray)
  }

  /** `s.replace(from, to)` for single characters. */
  function Replace(s: string, from: char, to: char): (r: string)
    ensures |r| == |s|
    ensures forall i :: 0 <= i < |s| ==> r[i] == (if s[i] == from then to else s[i])
  {
    seq(|s|, i requires 0 <= i < |s| => if s[i] == from then to else s[i])
  }

  /** The nine primitive type names and, at the same index, their one-letter codes. */
  const PrimitiveNames: seq<string> := ["void", "int", "byte", "boolean", "long", "float", "double", "char", "short"]
  const PrimitiveCodes: string := "VIBZJFDCS"

  function Sig(k: Klass): string {
    // A class that is neither primitive nor an array is named "L<name>;" before
    // the comparisons below, so it can never match a primitive name.
    var name := if !(k.isPrimitive || k.isArray) then "L" + k.name + ";" else k.name;
    if name == "void" then "V"
    else if name == "int" then "I"
    else if name == "byte" then "B"
    else if name == "boolean" then "Z"
    else if name == "long" then "J"
    else if name == "float" then "F"
    else if name == "double" then "D"
    else if name == "char" then "C"
    else if name == "short" then "S"
    else Replace(name, '.', '/')
  }

  /** Each primitive name becomes its letter. */
  lemma SigOfPrimitive(k: Klass, i: nat)
    requires k.isPrimitive || k.isArray
    requires i < |PrimitiveNames| && k.name == PrimitiveNames[i]
    ensures Sig(k) == [PrimitiveCodes[i]]
  {
  }

  /** A plain class becomes "L" + its name with '/' for '.' + ";". */
  lemma SigOfClass(k: Klass)
    requires !k.isPrimitive && !k.isArray
    ensures Sig(k) == "L" + Replace(k.name, '.', '/') + ";"
  {
    var name := "L" + k.name + ";";
    assert name[0] == 'L';
    assert Replace(name, '.', '/') == "L" + Replace(k.name, '.', '/') + ";";
  }

  /** An array class keeps its name, with '/' for '.'. */
  lemma SigOfArray(k: Klass)
    requires k.isArray && k.name !in PrimitiveNames
    ensures Sig(k) == Replace(k.name, '.', '/')
  {
  }

  /** No signature contains a '.'. */
  lemma SigHasNoDot(k: Klass)
    ensures '.' !in Sig(k)
  {
    var s := Sig(k);
    forall i | 0 <= i < |s| ensures s[i] != '.' {
    }
  }

  /** The descriptors Java actually hands out: a primitive is one of the nine
      names and not an array; an array's name starts with '['; class names use
      '.' as separator and never '/'. */
  predicate WellFormed(k: Klass) {
    && (k.isPrimitive ==> !k.isArray && k.name in PrimitiveNames)
    && (!k.isPrimitive ==> '/' !in k.name)
    && (k.isArray ==> |k.name| > 0 && k.name[0] == '[')
  }

  /** Reads a signature back into the class it names. */
  function DecodeSig(s: string): Option<TypeName> {
    if |s| == 1 && s[0] in PrimitiveCodes then
      Some(TypeName(PrimitiveNameOf(s[0]), true, false))
    else if |s| > 0 && s[0] == '[' then
      Some(TypeName(Replace(s, '/', '.'), false, true))
    else if |s| >= 2 && s[0] == 'L' && s[|s| - 1] == ';' then
      Some(TypeName(Replace(s[1..|s| - 1], '/', '.'), false, false))
    else
      None
  }

  function PrimitiveNameOf(c: char): string
    requires c in PrimitiveCodes
  {
    if c == 'V' then "void"
    else if c == 'I' then "int"
    else if c == 'B' then "byte"
    else if c == 'Z' then "boolean"
    else if c == 'J' then "long"
    else if c == 'F' then "float"
    else if c == 'D' then "double"
    else if c == 'C' then "char"
    else "short"
  }

  lemma ReplaceBack(s: string)
    requires '/' !in s
    ensures Replace(Replace(s, '.', '/'), '/', '.') == s
  {
    var r := Replace(Replace(s, '.', '/'), '/', '.');
    forall i | 0 <= i < |s| ensures r[i] == s[i] {
      assert s[i] != '/';
    }
  }

  /** Decoding a well-formed class's signature gives the class back. */
  lemma DecodeSigRoundTrip(k: Klass)
    requires WellFormed(k)
    ensures DecodeSig(Sig(k)) == Some(ShapeOf(k))
  {
    if k.isPrimitive {
      var i :| 0 <= i < |PrimitiveNames| && PrimitiveNames[i] == k.name;
      SigOfPrimitive(k, i);
    } else if k.isArray {
      SigOfArray(k);
      var s := Sig(k);
      assert s[0] == '[';
      ReplaceBack(k.name);
    } else {
      SigOfClass(k);
      var s := Sig(k);
      assert s[1..|s| - 1] == Replace(k.name, '.', '/');
      ReplaceBack(k.name);
    }
  }

  /** Distinct well-formed classes have distinct signatures. */
  lemma SigInjective(k1: Klass, k2: Klass)
    requires WellFormed(k1) && WellFormed(k2)
    requires Sig(k1) == Sig(k2)
    ensures ShapeOf(k1) == ShapeOf(k2)
  {
    DecodeSigRoundTrip(k1);
    DecodeSigRoundTrip(k2);
  }

  /** The concatenated signatures of a parameter list (`"".join(map(sig, params))`). */
  function SigList(params: seq<Klass>): string
    decreases |params|
  {
    if params == [] then "" else Sig(params[0]) + SigList(params[1..])
  }

  /** The signature of a method: "(" + parameter signatures + ")" + return signature. */
  function MethodSig(params: seq<Klass>, ret: Klass): string {
    "(" + SigList(params) + ")" + Sig(ret)
  }

  /** The signature of a constructor: its return part is the literal "V". */
  function ConstructorSig(params: seq<Klass>): string {
    "(" + SigList(params) + ")V"
  }

  const VoidClass: Klass := Klass("void", true, false, None)

  /** The constructor form is the method form with a void return. */
  lemma ConstructorSigIsVoidMethod(params: seq<Klass>)
    ensures ConstructorSig(params) == MethodSig(params, VoidClass)
  {
  }

  lemma {:induction false} SigListHasNoDot(params: seq<Klass>)
    ensures '.' !in SigList(params)
    decreases |params|
  {
    if params != [] {
      SigHasNoDot(params[0]);
      SigListHasNoDot(params[1..]);
    }
  }

  /** A method signature is "(" + the parameters' signatures + ")" + the return's, with no '.' anywhere. */
  lemma MethodSigShape(params: seq<Klass>, ret: Klass)
    ensures '.' !in MethodSig(params, ret)
    ensures MethodSig(params, ret)[0] == '('
    ensures MethodSig(params, ret)[|SigList(params)| + 1] == ')'
    ensures MethodSig(params, ret)[|SigList(params)| + 2..] == Sig(ret)
  {
    SigListHasNoDot(params);
    SigHasNoDot(ret);
  }
}
