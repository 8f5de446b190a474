/**
 * The compiler-generated filter: it recognises types and methods the
 * compiler or the standard library produced, flags such methods and, when
 * `noCompilerGenerated` is set, drops them and such types.
 */
module Analyser {
  import opened Strings
  import opened DebugTypes

  /** `std::...` names, and names starting with an underscore, belong to the implementation. */
  predicate IsCompilerGeneratedType(name: string)
  {
    // on an empty std::string, name[0] is the terminating '\0', not '_'
    StartsWith(name, "std::") || (|name| > 0 && name[0] == '_')
  }

  /** The helper functions the MSVC compiler emits. */
  const MsvcHelpers: seq<string> := [
    "__vbaseDtor", "__vecDelDtor", "__dflt_ctor_closure", "__delDtor",
    "__vec_ctor", "__vec_dtor", "__vec_ctor_vb", "__ehvec_ctor",
    "__ehvec_dtor", "__ehvec_ctor_vb", "__copy_ctor_closure", "__local_vftable_ctor_closure",
    "__placement_delete_closure", "__placement_arrayDelete_closure", "_man_vec_ctor",
    "__man_vec_dtor", "__ehvec_copy_ctor", "__ehvec_copy_ctor_vb"
  ]

  predicate IsCompilerGeneratedMethod(m: Method)
  {
    m.isCompilerGenerated || StartsWith(m.name, "std::") || m.name in MsvcHelpers
  }

  /** A method with its compiler-generated flag set when the filter recognises it. */
  function Mark(m: Method): (r: Method)
    ensures r.isCompilerGenerated == IsCompilerGeneratedMethod(m)
    ensures r.(isCompilerGenerated := m.isCompilerGenerated) == m
  {
    if IsCompilerGeneratedMethod(m) then m.(isCompilerGenerated := true) else m
  }

  /** The method list `process(type)` leaves behind. */
  function AnalysedMethods(methods: seq<Method>, noCompilerGenerated: bool): seq<Method>
  {
    if methods == [] then []
    else
      var init := AnalysedMethods(methods[..|methods| - 1], noCompilerGenerated);
      var m := methods[|methods| - 1];
      if noCompilerGenerated && IsCompilerGeneratedMethod(m) then init else init + [Mark(m)]
  }

  /** The methods the filter does not recognise, in their order. */
  function NotGenerated(methods: seq<Method>): (r: seq<Method>)
    ensures forall m :: m in r <==> m in methods && !IsCompilerGeneratedMethod(m)
    ensures |r| <= |methods|
  {
    if methods == [] then []
    else
      var init := NotGenerated(methods[..|methods| - 1]);
      var m := methods[|methods| - 1];
      assert forall x :: x in methods <==> x in methods[..|methods| - 1] || x == m;
      if IsCompilerGeneratedMethod(m) then init else init + [m]
  }

  /** With the option off, every method stays in place and only its flag may change. */
  lemma {:induction false} AnalysedKeepsAll(methods: seq<Method>)
    ensures |AnalysedMethods(methods, false)| == |methods|
    ensures forall i :: 0 <= i < |methods| ==> AnalysedMethods(methods, false)[i] == Mark(methods[i])
  {
    if methods != [] {
      AnalysedKeepsAll(methods[..|methods| - 1]);
    }
  }

  /** With the option on, exactly the unrecognised methods remain, unchanged and in order. */
  lemma {:induction false} AnalysedDropsGenerated(methods: seq<Method>)
    ensures AnalysedMethods(methods, true) == NotGenerated(methods)
  {
    if methods != [] {
      AnalysedDropsGenerated(methods[..|methods| - 1]);
      var m := methods[|methods| - 1];
      if !IsCompilerGeneratedMethod(m) {
        assert Mark(m) == m;
      }
    }
  }

  /** True when `a` is `b` with some elements deleted. */
  predicate IsSubsequence<T(==)>(a: seq<T>, b: seq<T>)
    decreases |b|
  {
    if a == [] then true
    else if b == [] then false
    else
      (a[|a| - 1] == b[|b| - 1] && IsSubsequence(a[..|a| - 1], b[..|b| - 1])) ||
      IsSubsequence(a, b[..|b| - 1])
  }

  /** The kept methods appear in their original relative order. */
  lemma {:induction false} NotGeneratedKeepsOrder(methods: seq<Method>)
    ensures IsSubsequence(NotGenerated(methods), methods)
  {
    if methods != [] {
      var init := methods[..|methods| - 1];
      NotGeneratedKeepsOrder(init);
      var r := NotGenerated(methods);
      if IsCompilerGeneratedMethod(methods[|methods| - 1]) {
        assert r == NotGenerated(init);
        if r != [] {
          assert IsSubsequence(r, methods[..|methods| - 1]);
        }
      } else {
        assert r == NotGenerated(init) + [methods[|methods| - 1]];
        assert r[..|r| - 1] == NotGenerated(init);
      }
    }
  }

  /**
   * The walk over `allMethods` in `process(type)`: every recognised method
   * is flagged, and dropped when `noCompilerGenerated` is set.
   */
  method FilterMethods(methods: seq<Method>, noCompilerGenerated: bool) returns (kept: seq<Method>)
    ensures kept == AnalysedMethods(methods, noCompilerGenerated)
  {
    kept := [];
    var i := 0;
    while i < |methods|
      invariant 0 <= i <= |methods|
      invariant kept == AnalysedMethods(methods[..i], noCompilerGenerated)
    {
      var m := methods[i];
      assert methods[..i + 1][..i] == methods[..i];
      if IsCompilerGeneratedMethod(m) {
        m := m.(isCompilerGenerated := true);
        if !noCompilerGenerated {
          kept := kept + [m];
        }
      } else {
        kept := kept + [m];
      }
      i := i + 1;
    }
    assert methods[..i] == methods;
  }

  /** What `process(type)` answers: whether the type is kept. */
  predicate KeepType(t: Type, noCompilerGenerated: bool)
  {
    !(noCompilerGenerated && IsCompilerGeneratedType(t.name))
  }

  /** The type as `process(type)` leaves it (a dropped type is left untouched). */
  function AnalysedType(t: Type, noCompilerGenerated: bool): Type
  {
    if KeepType(t, noCompilerGenerated) then t.(allMethods := AnalysedMethods(t.allMethods, noCompilerGenerated)) else t
  }

  /** `process(type)`: whether the type is kept, and the type after filtering its methods. */
  method ProcessType(t: Type, noCompilerGenerated: bool) returns (keep: bool, r: Type)
    ensures keep <==> !(noCompilerGenerated && IsCompilerGeneratedType(t.name))
    ensures r == AnalysedType(t, noCompilerGenerated)
    ensures r.(allMethods := t.allMethods) == t
  {
    if noCompilerGenerated && IsCompilerGeneratedType(t.name) {
      return false, t;
    }
    var methods := FilterMethods(t.allMethods, noCompilerGenerated);
    return true, t.(allMethods := methods);
  }

  /** The type list `process(types)` leaves behind. */
  function AnalysedTypes(types: seq<Type>, noCompilerGenerated: bool): seq<Type>
  {
    if types == [] then []
    else
      var init := AnalysedTypes(types[..|types| - 1], noCompilerGenerated);
      var t := types[|types| - 1];
      if KeepType(t, noCompilerGenerated) then init + [AnalysedType(t, noCompilerGenerated)] else init
  }

  /** `process(types)`: drops each type `process(type)` rejects, keeping the rest in order. */
  method ProcessTypes(types: seq<Type>, noCompilerGenerated: bool) returns (kept: seq<Type>)
    ensures kept == AnalysedTypes(types, noCompilerGenerated)
  {
    kept := [];
    var i := 0;
    while i < |types|
      invariant 0 <= i <= |types|
      invariant kept == AnalysedTypes(types[..i], noCompilerGenerated)
    {
      assert types[..i + 1][..i] == types[..i];
      var keep, t := ProcessType(types[i], noCompilerGenerated);
      if keep {
        kept := kept + [t];
      }
      i := i + 1;
    }
    assert types[..i] == types;
  }

  /** The names of the types that survive, in order. */
  function KeptNames(types: seq<Type>, noCompilerGenerated: bool): seq<string>
  {
    if types == [] then []
    else
      var init := KeptNames(types[..|types| - 1], noCompilerGenerated);
      var t := types[|types| - 1];
      if KeepType(t, noCompilerGenerated) then init + [t.name] else init
  }

  /**
   * `process(types)` keeps exactly the types `process(type)` accepts, in
   * order and with their names: with the option off, all of them.
   */
  lemma {:induction false} AnalysedTypesNames(types: seq<Type>, noCompilerGenerated: bool)
    ensures Names(AnalysedTypes(types, noCompilerGenerated)) == KeptNames(types, noCompilerGenerated)
    ensures !noCompilerGenerated ==> KeptNames(types, noCompilerGenerated) == Names(types)
    ensures forall n :: n in KeptNames(types, noCompilerGenerated) <==>
      n in Names(types) && !(noCompilerGenerated && IsCompilerGeneratedType(n))
  {
    if types != [] {
      var init := types[..|types| - 1];
      AnalysedTypesNames(init, noCompilerGenerated);
      assert Names(types) == Names(init) + [types[|types| - 1].name];
    }
  }

  /** Every surviving type has had its methods filtered. */
  lemma {:induction false} AnalysedTypesFiltered(types: seq<Type>, noCompilerGenerated: bool)
    ensures forall t :: t in AnalysedTypes(types, noCompilerGenerated) ==>
      exists u :: u in types && KeepType(u, noCompilerGenerated) &&
        t == u.(allMethods := AnalysedMethods(u.allMethods, noCompilerGenerated))
  {
    if types != [] {
      AnalysedTypesFiltered(types[..|types| - 1], noCompilerGenerated);
      assert forall u :: u in types[..|types| - 1] ==> u in types;
    }
  }
}
