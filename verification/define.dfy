/** What `Lineage.define` computes, stated as functions of the heap it starts
    from: how it sorts its arguments, what each specification argument adds
    to the new prototype, and the heap it leaves behind. The lemmas below are
    the promises `define` makes; the imperative version in module Lineage is
    proved to produce exactly `DefineSpec`. */
module LineageSpec {
  import opened Wrappers
  import opened JsHeap

  /** The two ways `define` can throw. */
  datatype DefineError =
    | WrongOrder       // a constructor among the specification arguments
    | TypeErrorOnNull  // `getNames(null)` reads `toString` or `valueOf` of null

  /** What `define` hands back: the new constructor, or what it threw. */
  datatype Outcome = Defined(ctor: FnId) | Thrown(error: DefineError)

  /** The arguments of `define` sorted into an optional name, an optional
      parent constructor and the specification arguments. */
  datatype Classified = Classified(name: Option<string>, parent: Option<FnId>, specs: seq<Value>)

  /** The heap after `define`, with its outcome. */
  datatype After = After(out: Outcome, objects: seq<JsObject>, functions: seq<Func>)

  /** The result of merging specification arguments into the prototype's own
      properties, with the error that stopped the merge, if any. */
  datatype Merged = Merged(own: map<string, Value>, error: Option<DefineError>)

  predicate ArgsOk(nObjs: nat, nFns: nat, args: seq<Value>) {
    forall i | 0 <= i < |args| :: ValidValue(nObjs, nFns, args[i])
  }

  /** A function whose `_isConstructor` flag is set. */
  predicate IsCtorRef(fns: seq<Func>, v: Value) {
    IsFunction(v) && v.f < |fns| && fns[v.f].isConstructor
  }

  // ---- Sorting the arguments -----------------------------------------------

  /** The arguments as they were passed, rebuilt from their classification. */
  function Unclassify(c: Classified): seq<Value> {
    (if c.name.Some? then [Str(c.name.value)] else []) +
    (if c.parent.Some? then [Fn(c.parent.value)] else []) +
    c.specs
  }

  /** A leading string is the name; a constructor in the next slot is the
      parent; everything after that is a specification argument. */
  function Classify(fns: seq<Func>, args: seq<Value>): (c: Classified)
    ensures c.parent.Some? ==> c.parent.value < |fns|
    ensures |c.specs| <= |args| && c.specs == args[|args| - |c.specs|..]
  {
    var k := if |args| > 0 && IsString(args[0]) then 1 else 0;
    var hasParent := k < |args| && IsCtorRef(fns, args[k]);
    Classified(
      if k == 1 then Some(args[0].s) else None,
      if hasParent then Some(args[k].f) else None,
      args[k + (if hasParent then 1 else 0)..])
  }

  /** The classification loses nothing and takes a slot for the name or the
      parent only when the argument there is a string or a constructor. */
  lemma ClassifyArgs(fns: seq<Func>, args: seq<Value>)
    ensures var c := Classify(fns, args);
      && Unclassify(c) == args
      && (c.name.Some? <==> |args| > 0 && IsString(args[0]))
      && (c.parent.Some? ==> IsCtorRef(fns, Fn(c.parent.value)))
      && (var slot := if c.name.Some? then 1 else 0;
          c.parent.None? && slot < |args| ==> !IsCtorRef(fns, args[slot]))
  {
    var c := Classify(fns, args);
    if c.name.Some? {
      if c.parent.Some? {
        assert args == [args[0]] + [args[1]] + args[2..];
      } else {
        assert args == [args[0]] + args[1..];
      }
    } else if c.parent.Some? {
      assert args == [args[0]] + args[1..];
    }
  }

  // ---- getNames and the copy of one specification object -------------------

  /** The names `getNames` returns for object `o`: what `for..in` yields, then
      `toString` and `valueOf` when the engine hides them and they are defined. */
  function SpecNames(objs: seq<JsObject>, engine: Engine, o: ObjId): set<string>
    requires Acyclic(objs) && o < |objs|
  {
    ForInNames(objs, engine, o) +
      (set n | n in {"toString", "valueOf"} && Hides(engine, n) && Get(objs, o, n) != Undefined)
  }

  /** The properties the copy loop writes for specification object `o`. */
  function SpecProps(objs: seq<JsObject>, engine: Engine, o: ObjId): map<string, Value>
    requires Acyclic(objs) && o < |objs|
  {
    map n | n in SpecNames(objs, engine, o) :: Get(objs, o, n)
  }

  /** `getNames` finds every name of the object, own or inherited, that the
      engine enumerates, and a name the engine hides exactly when it reads
      as defined, which the built-in makes it do unless the chain overrides
      it with undefined. On an engine without the quirks that is every name. */
  lemma SpecNamesComplete(objs: seq<JsObject>, engine: Engine, o: ObjId, n: string)
    requires Acyclic(objs) && o < |objs|
    ensures n in SpecNames(objs, engine, o) <==>
      if Hides(engine, n) then Get(objs, o, n) != Undefined else n in NamesOf(objs, o)
    ensures Hides(engine, n) && n !in NamesOf(objs, o) ==> n in SpecNames(objs, engine, o)
    ensures !engine.toStringProblematic && !engine.valueOfProblematic ==>
      (n in SpecNames(objs, engine, o) <==> n in NamesOf(objs, o))
  {
    if n !in NamesOf(objs, o) {
      GetMissing(objs, o, n);
    }
  }

  /** The value a factory's return value becomes (lines 135-137): objects,
      the new prototype among them, are replaced by undefined. */
  function FactoryYield(r: Value, ctorProto: ObjId): (y: Value)
    ensures !IsObject(y)
  {
    if IsObject(r) || r == Obj(ctorProto) then Undefined else r
  }

  /** What calling a function as a factory returns. */
  function Returns(g: Func): Value {
    match g.body
    case Foreign(r) => r
    case _ => Undefined
  }

  /** The `if (isObject(arg))` block: copy the names of a specification object. */
  function CopySpec(objs: seq<JsObject>, engine: Engine, own: map<string, Value>, v: Value): Merged
    requires Acyclic(objs) && (v.Obj? ==> v.o < |objs|)
  {
    if IsObject(v) then
      if v.Null? then
        if engine.toStringProblematic || engine.valueOfProblematic then Merged(own, Some(TypeErrorOnNull))
        else Merged(own, None)
      else Merged(own + SpecProps(objs, engine, v.o), None)
    else Merged(own, None)
  }

  /** One turn of the specification loop. */
  function ApplySpec(objs: seq<JsObject>, fns: seq<Func>, engine: Engine, ctorProto: ObjId,
                     own: map<string, Value>, v: Value): Merged
    requires Acyclic(objs) && ValidValue(|objs|, |fns|, v)
  {
    if IsFunction(v) then
      if fns[v.f].isConstructor then Merged(own, Some(WrongOrder))
      else CopySpec(objs, engine, own, FactoryYield(Returns(fns[v.f]), ctorProto))
    else CopySpec(objs, engine, own, v)
  }

  /** The specification loop: every argument in order, stopping at a throw. */
  function ApplySpecs(objs: seq<JsObject>, fns: seq<Func>, engine: Engine, ctorProto: ObjId,
                      own: map<string, Value>, specs: seq<Value>): Merged
    requires Acyclic(objs) && ArgsOk(|objs|, |fns|, specs)
    decreases |specs|
  {
    if specs == [] then Merged(own, None)
    else
      var m := ApplySpec(objs, fns, engine, ctorProto, own, specs[0]);
      if m.error.Some? then m
      else ApplySpecs(objs, fns, engine, ctorProto, m.own, specs[1..])
  }

  // ---- The whole of define -------------------------------------------------

  /** `generateCtor` names the function only when the name is truthy. */
  function CtorName(name: Option<string>): Option<string> {
    if name.Some? && name.value != "" then name else None
  }

  /** `parent.prototype`, when there is a parent. */
  function ParentProto(fns: seq<Func>, parent: Option<FnId>): Option<ObjId>
    requires parent.Some? ==> parent.value < |fns|
  {
    if parent.Some? then fns[parent.value].proto else None
  }

  function NoopFunc(): Func {
    Func(None, false, None, Noop)
  }

  /** The own properties of a fresh prototype: its `constructor` link. */
  function InitialOwn(ctor: FnId): map<string, Value> {
    map["constructor" := Fn(ctor)]
  }

  /** The specification loop of `define` run on its arguments. */
  function Merge(objs: seq<JsObject>, fns: seq<Func>, engine: Engine, args: seq<Value>): Merged
    requires Linked(objs, fns) && ArgsOk(|objs|, |fns|, args)
  {
    var c := Classify(fns, args);
    SpecsOk(|objs|, |fns|, args, c.specs);
    ApplySpecs(objs, fns, engine, |objs|, InitialOwn(|fns|), c.specs)
  }

  /** The parent's prototype chain already provides `initialize`. */
  predicate InheritsInitialize(objs: seq<JsObject>, fns: seq<Func>, parent: Option<FnId>)
    requires Linked(objs, fns) && (parent.Some? ==> parent.value < |fns|)
  {
    var pp := ParentProto(fns, parent);
    pp.Some? && Has(objs, pp.value, "initialize")
  }

  /** The constructor `generateCtor` builds, owning prototype `p`. */
  function CtorFunc(name: Option<string>, p: ObjId): Func {
    Func(CtorName(name), true, Some(p), Generated)
  }

  /** The heap and outcome `define` produces. */
  function DefineSpec(objs: seq<JsObject>, fns: seq<Func>, engine: Engine, args: seq<Value>): (a: After)
    requires Linked(objs, fns) && ArgsOk(|objs|, |fns|, args)
  {
    var c := Classify(fns, args);
    Finish(objs, fns, c.name, ParentProto(fns, c.parent), Merge(objs, fns, engine, args))
  }

  /** The heap after the specification loop, given its result `m`: the new
      constructor and prototype, and a fresh no-op `initialize` when the
      prototype cannot find one. */
  function Finish(objs: seq<JsObject>, fns: seq<Func>, name: Option<string>, pp: Option<ObjId>, m: Merged): After
    requires Acyclic(objs) && (pp.Some? ==> pp.value < |objs|)
  {
    var ctor, p := |fns|, |objs|;
    var fns1 := fns + [CtorFunc(name, p)];
    var objs2 := objs + [JsObject(m.own, pp)];
    AppendAcyclic(objs, JsObject(m.own, pp));
    if m.error.Some? then After(Thrown(m.error.value), objs2, fns1)
    else if Has(objs2, p, "initialize") then After(Defined(ctor), objs2, fns1)
    else After(Defined(ctor), objs + [JsObject(m.own["initialize" := Fn(ctor + 1)], pp)], fns1 + [NoopFunc()])
  }

  /** `define` keeps the heap well formed. */
  lemma DefineWellFormed(objs: seq<JsObject>, fns: seq<Func>, engine: Engine, args: seq<Value>)
    requires WellFormed(objs, fns) && ArgsOk(|objs|, |fns|, args)
    ensures var a := DefineSpec(objs, fns, engine, args);
      WellFormed(a.objects, a.functions) && |a.objects| == |objs| + 1 && |fns| < |a.functions|
  {
    var c := Classify(fns, args);
    SpecsOk(|objs|, |fns|, args, c.specs);
    ApplySpecsValid(objs, fns, engine, |objs|, InitialOwn(|fns|), c.specs, |objs| + 1, |fns| + 1);
    FinishWellFormed(objs, fns, c.name, ParentProto(fns, c.parent), Merge(objs, fns, engine, args));
  }

  lemma FinishWellFormed(objs: seq<JsObject>, fns: seq<Func>, name: Option<string>, pp: Option<ObjId>, m: Merged)
    requires WellFormed(objs, fns) && (pp.Some? ==> pp.value < |objs|) && PropsOk(m.own, |objs| + 1, |fns| + 1)
    ensures var a := Finish(objs, fns, name, pp, m);
      WellFormed(a.objects, a.functions) && |a.objects| == |objs| + 1 && |fns| < |a.functions|
  {
    var ctor, p := |fns|, |objs|;
    var fns1 := fns + [CtorFunc(name, p)];
    var objs2 := objs + [JsObject(m.own, pp)];
    AppendAcyclic(objs, JsObject(m.own, pp));
    if m.error.Some? || Has(objs2, p, "initialize") {
      GrownWellFormed(objs, fns, objs2, fns1);
    } else {
      var own3 := m.own["initialize" := Fn(ctor + 1)];
      assert PropsOk(own3, p + 1, ctor + 2);
      GrownWellFormed(objs, fns, objs + [JsObject(own3, pp)], fns1 + [NoopFunc()]);
    }
  }

  lemma AppendAcyclic(objs: seq<JsObject>, x: JsObject)
    requires Acyclic(objs) && (x.parent.Some? ==> x.parent.value < |objs|)
    ensures Acyclic(objs + [x])
  {
  }

  // ---- Helper lemmas -------------------------------------------------------

  lemma SpecsOk(nObjs: nat, nFns: nat, args: seq<Value>, specs: seq<Value>)
    requires ArgsOk(nObjs, nFns, args) && |specs| <= |args| && specs == args[|args| - |specs|..]
    ensures ArgsOk(nObjs, nFns, specs)
  {
    forall i | 0 <= i < |specs| ensures ValidValue(nObjs, nFns, specs[i]) {
      assert specs[i] == args[|args| - |specs| + i];
    }
  }

  /** Appending one object (whose link points back) and some functions to a
      well-formed heap keeps it well formed. */
  lemma GrownWellFormed(objs: seq<JsObject>, fns: seq<Func>, objs': seq<JsObject>, fns': seq<Func>)
    requires WellFormed(objs, fns)
    requires |objs'| == |objs| + 1 && objs'[..|objs|] == objs && |fns| <= |fns'| && fns'[..|fns|] == fns
    requires objs'[|objs|].parent.Some? ==> objs'[|objs|].parent.value < |objs|
    requires PropsOk(objs'[|objs|].props, |objs'|, |fns'|)
    requires forall f | |fns| <= f < |fns'| :: FuncOk(fns'[f], |objs'|)
    ensures WellFormed(objs', fns')
  {
    forall i | 0 <= i < |objs| ensures objs'[i] == objs[i] && PropsOk(objs'[i].props, |objs'|, |fns'|) {
      assert objs'[i] == objs'[..|objs|][i];
      assert PropsOk(objs[i].props, |objs|, |fns|);
    }
    forall f | 0 <= f < |fns| ensures FuncOk(fns'[f], |objs'|) {
      assert fns'[f] == fns'[..|fns|][f];
      assert FuncOk(fns[f], |objs|);
    }
  }

  /** The merge only ever adds values that point into the heap. */
  lemma {:induction false} ApplySpecsValid(objs: seq<JsObject>, fns: seq<Func>, engine: Engine, p: ObjId,
                                           own: map<string, Value>, specs: seq<Value>, nObjs: nat, nFns: nat)
    requires WellFormed(objs, fns) && ArgsOk(|objs|, |fns|, specs)
    requires |objs| <= nObjs && |fns| <= nFns && PropsOk(own, nObjs, nFns)
    ensures PropsOk(ApplySpecs(objs, fns, engine, p, own, specs).own, nObjs, nFns)
    decreases |specs|
  {
    if specs != [] {
      var m := ApplySpec(objs, fns, engine, p, own, specs[0]);
      if specs[0].Obj? {
        forall n | n in SpecNames(objs, engine, specs[0].o)
          ensures ValidValue(nObjs, nFns, Get(objs, specs[0].o, n))
        {
          GetValid(objs, fns, specs[0].o, n);
        }
      }
      assert PropsOk(m.own, nObjs, nFns);
      if m.error.None? {
        ApplySpecsValid(objs, fns, engine, p, m.own, specs[1..], nObjs, nFns);
      }
    }
  }

  // ---- The specification loop ----------------------------------------------

  /** The specification arguments that make `define` throw. */
  predicate Throws(fns: seq<Func>, engine: Engine, v: Value) {
    || IsCtorRef(fns, v)
    || (v.Null? && (engine.toStringProblematic || engine.valueOfProblematic))
  }

  function ErrorOf(v: Value): DefineError {
    if IsFunction(v) then WrongOrder else TypeErrorOnNull
  }

  /** `specs[i]` is the first specification argument that throws. */
  predicate FirstThrow(fns: seq<Func>, engine: Engine, specs: seq<Value>, i: int) {
    && 0 <= i < |specs|
    && Throws(fns, engine, specs[i])
    && forall j | 0 <= j < i :: !Throws(fns, engine, specs[j])
  }

  /** Specification argument `v` is an object whose names include `n`. */
  predicate Defines(objs: seq<JsObject>, engine: Engine, v: Value, n: string)
    requires Acyclic(objs)
  {
    v.Obj? && v.o < |objs| && n in SpecNames(objs, engine, v.o)
  }

  /** Some specification argument is an object whose names include `n`. */
  predicate DefinedBySpecs(objs: seq<JsObject>, engine: Engine, specs: seq<Value>, n: string)
    requires Acyclic(objs)
  {
    exists i | 0 <= i < |specs| :: Defines(objs, engine, specs[i], n)
  }

  /** Whatever a factory (a function without the constructor flag) returns
      is never copied: the loop's map is left as it was. What the factory
      itself does with the prototype it is handed is foreign code. */
  lemma FactoryAddsNothing(objs: seq<JsObject>, fns: seq<Func>, engine: Engine, ctorProto: ObjId,
                           own: map<string, Value>, v: Value)
    requires Acyclic(objs) && ValidValue(|objs|, |fns|, v)
    requires IsFunction(v) && !IsCtorRef(fns, v)
    ensures ApplySpec(objs, fns, engine, ctorProto, own, v) == Merged(own, None)
  {
  }

  /** One turn of the loop throws exactly on a throwing argument, and
      otherwise adds the names of an object argument and nothing else. */
  lemma ApplySpecStep(objs: seq<JsObject>, fns: seq<Func>, engine: Engine, ctorProto: ObjId,
                      own: map<string, Value>, v: Value)
    requires Acyclic(objs) && ValidValue(|objs|, |fns|, v)
    ensures var m := ApplySpec(objs, fns, engine, ctorProto, own, v);
      && (m.error.Some? <==> Throws(fns, engine, v))
      && (m.error.Some? ==> m.error.value == ErrorOf(v) && m.own == own)
      && (m.error.None? ==> m.own == if v.Obj? then own + SpecProps(objs, engine, v.o) else own)
  {
  }

  /** The loop throws exactly when some argument throws, and then with the
      error of the first one. */
  lemma {:induction false} ApplySpecsError(objs: seq<JsObject>, fns: seq<Func>, engine: Engine, ctorProto: ObjId,
                                           own: map<string, Value>, specs: seq<Value>)
    requires Acyclic(objs) && ArgsOk(|objs|, |fns|, specs)
    ensures var m := ApplySpecs(objs, fns, engine, ctorProto, own, specs);
      && (m.error.None? <==> forall i | 0 <= i < |specs| :: !Throws(fns, engine, specs[i]))
      && (m.error.Some? ==> exists i :: FirstThrow(fns, engine, specs, i) && m.error.value == ErrorOf(specs[i]))
    decreases |specs|
  {
    if specs != [] {
      var m1 := ApplySpec(objs, fns, engine, ctorProto, own, specs[0]);
      ApplySpecStep(objs, fns, engine, ctorProto, own, specs[0]);
      if m1.error.Some? {
        assert FirstThrow(fns, engine, specs, 0);
      } else {
        var rest := specs[1..];
        ApplySpecsError(objs, fns, engine, ctorProto, m1.own, rest);
        var m := ApplySpecs(objs, fns, engine, ctorProto, m1.own, rest);
        assert forall i | 1 <= i < |specs| :: specs[i] == rest[i - 1];
        if m.error.Some? {
          var j :| FirstThrow(fns, engine, rest, j) && m.error.value == ErrorOf(rest[j]);
          assert FirstThrow(fns, engine, specs, j + 1);
        }
      }
    }
  }

  /** A name no specification argument defines keeps the value it had. */
  lemma {:induction false} ApplySpecsUntouched(objs: seq<JsObject>, fns: seq<Func>, engine: Engine, ctorProto: ObjId,
                                               own: map<string, Value>, specs: seq<Value>, n: string)
    requires Acyclic(objs) && ArgsOk(|objs|, |fns|, specs)
    requires !DefinedBySpecs(objs, engine, specs, n)
    ensures var m := ApplySpecs(objs, fns, engine, ctorProto, own, specs);
      (n in m.own <==> n in own) && (n in own ==> m.own[n] == own[n])
    decreases |specs|
  {
    if specs != [] {
      var m1 := ApplySpec(objs, fns, engine, ctorProto, own, specs[0]);
      ApplySpecStep(objs, fns, engine, ctorProto, own, specs[0]);
      assert !Defines(objs, engine, specs[0], n);
      if m1.error.None? {
        var rest := specs[1..];
        assert forall i | 0 <= i < |rest| :: rest[i] == specs[i + 1];
        ApplySpecsUntouched(objs, fns, engine, ctorProto, m1.own, rest, n);
      }
    }
  }

  /** When several specification objects define a name, the last one wins. */
  lemma {:induction false} ApplySpecsLastWins(objs: seq<JsObject>, fns: seq<Func>, engine: Engine, ctorProto: ObjId,
                                              own: map<string, Value>, specs: seq<Value>, i: nat, n: string)
    requires Acyclic(objs) && ArgsOk(|objs|, |fns|, specs)
    requires ApplySpecs(objs, fns, engine, ctorProto, own, specs).error.None?
    requires i < |specs| && Defines(objs, engine, specs[i], n)
    requires forall j | i < j < |specs| :: !Defines(objs, engine, specs[j], n)
    ensures var m := ApplySpecs(objs, fns, engine, ctorProto, own, specs);
      n in m.own && m.own[n] == Get(objs, specs[i].o, n)
    decreases |specs|
  {
    var m1 := ApplySpec(objs, fns, engine, ctorProto, own, specs[0]);
    ApplySpecStep(objs, fns, engine, ctorProto, own, specs[0]);
    var rest := specs[1..];
    assert forall k | 0 <= k < |rest| :: rest[k] == specs[k + 1];
    if i == 0 {
      ApplySpecsUntouched(objs, fns, engine, ctorProto, m1.own, rest, n);
    } else {
      ApplySpecsLastWins(objs, fns, engine, ctorProto, m1.own, rest, i - 1, n);
    }
  }

  /** Without a throw, the loop adds exactly the names of the specification objects. */
  lemma {:induction false} ApplySpecsKeys(objs: seq<JsObject>, fns: seq<Func>, engine: Engine, ctorProto: ObjId,
                                          own: map<string, Value>, specs: seq<Value>, n: string)
    requires Acyclic(objs) && ArgsOk(|objs|, |fns|, specs)
    requires ApplySpecs(objs, fns, engine, ctorProto, own, specs).error.None?
    ensures n in ApplySpecs(objs, fns, engine, ctorProto, own, specs).own <==>
      n in own || DefinedBySpecs(objs, engine, specs, n)
    decreases |specs|
  {
    if specs != [] {
      var m1 := ApplySpec(objs, fns, engine, ctorProto, own, specs[0]);
      ApplySpecStep(objs, fns, engine, ctorProto, own, specs[0]);
      var rest := specs[1..];
      assert forall k | 0 <= k < |rest| :: rest[k] == specs[k + 1];
      ApplySpecsKeys(objs, fns, engine, ctorProto, m1.own, rest, n);
      if DefinedBySpecs(objs, engine, specs, n) && !Defines(objs, engine, specs[0], n) {
        var i :| 0 <= i < |specs| && Defines(objs, engine, specs[i], n);
        assert Defines(objs, engine, rest[i - 1], n);
      }
    }
  }

  lemma FirstThrowUnique(fns: seq<Func>, engine: Engine, specs: seq<Value>, i: int, j: int)
    requires FirstThrow(fns, engine, specs, i) && FirstThrow(fns, engine, specs, j)
    ensures i == j
  {
  }

  /** The loop stops with the error of the first throwing argument. */
  lemma ApplySpecsFirstError(objs: seq<JsObject>, fns: seq<Func>, engine: Engine, ctorProto: ObjId,
                             own: map<string, Value>, specs: seq<Value>, i: int)
    requires Acyclic(objs) && ArgsOk(|objs|, |fns|, specs)
    requires FirstThrow(fns, engine, specs, i)
    ensures ApplySpecs(objs, fns, engine, ctorProto, own, specs).error == Some(ErrorOf(specs[i]))
  {
    ApplySpecsError(objs, fns, engine, ctorProto, own, specs);
    var m := ApplySpecs(objs, fns, engine, ctorProto, own, specs);
    var j :| FirstThrow(fns, engine, specs, j) && m.error.value == ErrorOf(specs[j]);
    FirstThrowUnique(fns, engine, specs, i, j);
  }

  // ---- The heap after the loop ---------------------------------------------

  /** What `Finish` allocates and keeps, whatever the loop produced. */
  lemma FinishShape(objs: seq<JsObject>, fns: seq<Func>, name: Option<string>, pp: Option<ObjId>, m: Merged)
    requires Acyclic(objs) && (pp.Some? ==> pp.value < |objs|)
    ensures var a := Finish(objs, fns, name, pp, m);
      && a.out == (if m.error.Some? then Thrown(m.error.value) else Defined(|fns|))
      && |a.objects| == |objs| + 1 && a.objects[..|objs|] == objs
      && a.objects[|objs|].parent == pp
      && |fns| < |a.functions| && a.functions[..|fns|] == fns
      && a.functions[|fns|] == CtorFunc(name, |objs|)
  {
  }

  /** Apart from a missing `initialize`, the new prototype owns what the loop produced. */
  lemma FinishProps(objs: seq<JsObject>, fns: seq<Func>, name: Option<string>, pp: Option<ObjId>, m: Merged, n: string)
    requires Acyclic(objs) && (pp.Some? ==> pp.value < |objs|)
    requires n != "initialize" || n in m.own
    ensures var props := Finish(objs, fns, name, pp, m).objects[|objs|].props;
      (n in props <==> n in m.own) && (n in m.own ==> props[n] == m.own[n])
  {
  }

  /** `initialize` is found on the new prototype: its own, the inherited one
      left unshadowed, or a fresh no-op. */
  lemma FinishInitialize(objs: seq<JsObject>, fns: seq<Func>, name: Option<string>, pp: Option<ObjId>, m: Merged)
    requires Acyclic(objs) && (pp.Some? ==> pp.value < |objs|)
    requires m.error.None?
    ensures var a := Finish(objs, fns, name, pp, m);
      var inherited := pp.Some? && Has(objs, pp.value, "initialize");
      && Acyclic(a.objects)
      && Has(a.objects, |objs|, "initialize")
      && ("initialize" in m.own ==> |a.functions| == |fns| + 1)
      && ("initialize" !in m.own && inherited ==>
            && "initialize" !in a.objects[|objs|].props
            && Get(a.objects, |objs|, "initialize") == Get(objs, pp.value, "initialize")
            && |a.functions| == |fns| + 1)
      && ("initialize" !in m.own && !inherited ==>
            && "initialize" in a.objects[|objs|].props
            && a.objects[|objs|].props["initialize"] == Fn(|fns| + 1)
            && |a.functions| == |fns| + 2 && a.functions[|fns| + 1] == NoopFunc())
  {
    var a := Finish(objs, fns, name, pp, m);
    var objs2 := objs + [JsObject(m.own, pp)];
    AppendAcyclic(objs, JsObject(m.own, pp));
    AppendAcyclic(objs, a.objects[|objs|]);
    assert a.objects == objs + [a.objects[|objs|]];
    if pp.Some? {
      assert forall i | 0 <= i <= pp.value :: objs2[i] == objs[i];
      ChainFrame(objs, objs2, pp.value);
      assert forall i | 0 <= i <= pp.value :: a.objects[i] == objs[i];
      ChainFrame(objs, a.objects, pp.value);
    }
  }

  // ---- What define promises ------------------------------------------------

  /** `define` leaves every object and function that existed as it was (the
      parent's prototype among them), links the new prototype to the parent's
      prototype, flags the new constructor, and points the prototype's
      `constructor` back to it unless a specification object overrides it. */
  lemma DefineLinkage(objs: seq<JsObject>, fns: seq<Func>, engine: Engine, args: seq<Value>)
    requires Linked(objs, fns) && ArgsOk(|objs|, |fns|, args)
    ensures var a := DefineSpec(objs, fns, engine, args);
      var c := Classify(fns, args);
      && a.objects[..|objs|] == objs
      && a.functions[..|fns|] == fns
      && a.objects[|objs|].parent == ParentProto(fns, c.parent)
      && a.functions[|fns|] == Func(CtorName(c.name), true, Some(|objs|), Generated)
      && (a.out.Defined? ==> a.out.ctor == |fns|)
      && (!DefinedBySpecs(objs, engine, c.specs, "constructor") ==>
            "constructor" in a.objects[|objs|].props && a.objects[|objs|].props["constructor"] == Fn(|fns|))
  {
    var c := Classify(fns, args);
    var pp := ParentProto(fns, c.parent);
    var m := Merge(objs, fns, engine, args);
    SpecsOk(|objs|, |fns|, args, c.specs);
    FinishShape(objs, fns, c.name, pp, m);
    if !DefinedBySpecs(objs, engine, c.specs, "constructor") {
      ApplySpecsUntouched(objs, fns, engine, |objs|, InitialOwn(|fns|), c.specs, "constructor");
      FinishProps(objs, fns, c.name, pp, m, "constructor");
    }
  }

  /** `define` throws exactly when a specification argument throws, and the
      error is the first such argument's: a constructor gives the wrong-order
      error, a null object on a quirky engine the type error. */
  lemma DefineThrows(objs: seq<JsObject>, fns: seq<Func>, engine: Engine, args: seq<Value>)
    requires Linked(objs, fns) && ArgsOk(|objs|, |fns|, args)
    ensures var a := DefineSpec(objs, fns, engine, args);
      var specs := Classify(fns, args).specs;
      && (a.out.Thrown? <==> exists i | 0 <= i < |specs| :: Throws(fns, engine, specs[i]))
      && (a.out == Thrown(WrongOrder) <==> exists i :: FirstThrow(fns, engine, specs, i) && IsCtorRef(fns, specs[i]))
      && (a.out == Thrown(TypeErrorOnNull) <==> exists i :: FirstThrow(fns, engine, specs, i) && specs[i] == Null)
  {
    var c := Classify(fns, args);
    SpecsOk(|objs|, |fns|, args, c.specs);
    FinishShape(objs, fns, c.name, ParentProto(fns, c.parent), Merge(objs, fns, engine, args));
    ApplySpecsThrows(objs, fns, engine, |objs|, InitialOwn(|fns|), c.specs);
  }

  /** The loop-level form of `DefineThrows`. */
  lemma ApplySpecsThrows(objs: seq<JsObject>, fns: seq<Func>, engine: Engine, ctorProto: ObjId,
                         own: map<string, Value>, specs: seq<Value>)
    requires Acyclic(objs) && ArgsOk(|objs|, |fns|, specs)
    ensures var m := ApplySpecs(objs, fns, engine, ctorProto, own, specs);
      && (m.error.Some? <==> exists i | 0 <= i < |specs| :: Throws(fns, engine, specs[i]))
      && (m.error == Some(WrongOrder) <==> exists i :: FirstThrow(fns, engine, specs, i) && IsCtorRef(fns, specs[i]))
      && (m.error == Some(TypeErrorOnNull) <==> exists i :: FirstThrow(fns, engine, specs, i) && specs[i] == Null)
  {
    ApplySpecsError(objs, fns, engine, ctorProto, own, specs);
    forall i | FirstThrow(fns, engine, specs, i)
      ensures ApplySpecs(objs, fns, engine, ctorProto, own, specs).error == Some(ErrorOf(specs[i]))
    {
      ApplySpecsFirstError(objs, fns, engine, ctorProto, own, specs, i);
    }
  }

  /** Where no null object can throw, `define` throws the wrong-order error
      exactly when a constructor is among the specification arguments. */
  lemma DefineWrongOrder(objs: seq<JsObject>, fns: seq<Func>, engine: Engine, args: seq<Value>)
    requires Linked(objs, fns) && ArgsOk(|objs|, |fns|, args)
    requires Null !in Classify(fns, args).specs || (!engine.toStringProblematic && !engine.valueOfProblematic)
    ensures var a := DefineSpec(objs, fns, engine, args);
      var specs := Classify(fns, args).specs;
      && (a.out == Thrown(WrongOrder) <==> exists i | 0 <= i < |specs| :: IsCtorRef(fns, specs[i]))
      && (a.out.Thrown? ==> a.out.error == WrongOrder)
  {
    var c := Classify(fns, args);
    SpecsOk(|objs|, |fns|, args, c.specs);
    FinishShape(objs, fns, c.name, ParentProto(fns, c.parent), Merge(objs, fns, engine, args));
    ApplySpecsWrongOrder(objs, fns, engine, |objs|, InitialOwn(|fns|), c.specs);
  }

  /** With no null that can throw, the loop throws only the wrong-order
      error, and does so exactly when a constructor is among the arguments. */
  lemma ApplySpecsWrongOrder(objs: seq<JsObject>, fns: seq<Func>, engine: Engine, ctorProto: ObjId,
                             own: map<string, Value>, specs: seq<Value>)
    requires Acyclic(objs) && ArgsOk(|objs|, |fns|, specs)
    requires Null !in specs || (!engine.toStringProblematic && !engine.valueOfProblematic)
    ensures var m := ApplySpecs(objs, fns, engine, ctorProto, own, specs);
      && (m.error == Some(WrongOrder) <==> exists i | 0 <= i < |specs| :: IsCtorRef(fns, specs[i]))
      && (m.error.Some? ==> m.error.value == WrongOrder)
  {
    ApplySpecsError(objs, fns, engine, ctorProto, own, specs);
    var m := ApplySpecs(objs, fns, engine, ctorProto, own, specs);
    forall j | 0 <= j < |specs| && specs[j] == Null ensures !Throws(fns, engine, specs[j]) {
      assert specs[j] in specs;
    }
    if m.error.Some? {
      var j :| FirstThrow(fns, engine, specs, j) && m.error.value == ErrorOf(specs[j]);
      assert IsCtorRef(fns, specs[j]);
    }
    if i :| 0 <= i < |specs| && IsCtorRef(fns, specs[i]) {
      assert Throws(fns, engine, specs[i]);
    }
  }

  /** Each name a specification object enumerates becomes an own property of
      the new prototype, with the value from the last object that has it. */
  lemma DefineLastSpecWins(objs: seq<JsObject>, fns: seq<Func>, engine: Engine, args: seq<Value>, i: nat, n: string)
    requires Linked(objs, fns) && ArgsOk(|objs|, |fns|, args)
    requires DefineSpec(objs, fns, engine, args).out.Defined?
    requires var specs := Classify(fns, args).specs;
      i < |specs| && Defines(objs, engine, specs[i], n)
      && forall j | i < j < |specs| :: !Defines(objs, engine, specs[j], n)
    ensures var a := DefineSpec(objs, fns, engine, args);
      var specs := Classify(fns, args).specs;
      n in a.objects[|objs|].props && a.objects[|objs|].props[n] == Get(objs, specs[i].o, n)
  {
    var c := Classify(fns, args);
    var pp := ParentProto(fns, c.parent);
    var m := Merge(objs, fns, engine, args);
    SpecsOk(|objs|, |fns|, args, c.specs);
    FinishShape(objs, fns, c.name, pp, m);
    ApplySpecsLastWins(objs, fns, engine, |objs|, InitialOwn(|fns|), c.specs, i, n);
    FinishProps(objs, fns, c.name, pp, m, n);
  }

  /** The new prototype owns `constructor`, the names of the specification
      objects, and `initialize` when neither those nor the parent's chain
      provide one; nothing else. */
  lemma DefineOwnNames(objs: seq<JsObject>, fns: seq<Func>, engine: Engine, args: seq<Value>, n: string)
    requires Linked(objs, fns) && ArgsOk(|objs|, |fns|, args)
    requires DefineSpec(objs, fns, engine, args).out.Defined?
    ensures var a := DefineSpec(objs, fns, engine, args);
      var c := Classify(fns, args);
      n in a.objects[|objs|].props <==>
        || n == "constructor"
        || DefinedBySpecs(objs, engine, c.specs, n)
        || (n == "initialize" && !InheritsInitialize(objs, fns, c.parent))
  {
    var c := Classify(fns, args);
    var pp := ParentProto(fns, c.parent);
    var m := Merge(objs, fns, engine, args);
    SpecsOk(|objs|, |fns|, args, c.specs);
    FinishShape(objs, fns, c.name, pp, m);
    ApplySpecsKeys(objs, fns, engine, |objs|, InitialOwn(|fns|), c.specs, n);
    if n != "initialize" || n in m.own {
      FinishProps(objs, fns, c.name, pp, m, n);
    } else {
      FinishInitialize(objs, fns, c.name, pp, m);
    }
  }

  /** After `define`, `initialize` is found on the new prototype: its own, the
      one inherited from the parent's chain (never shadowed), or else a fresh
      no-op function. */
  lemma DefineInitialize(objs: seq<JsObject>, fns: seq<Func>, engine: Engine, args: seq<Value>)
    requires Linked(objs, fns) && ArgsOk(|objs|, |fns|, args)
    requires DefineSpec(objs, fns, engine, args).out.Defined?
    ensures var a := DefineSpec(objs, fns, engine, args);
      var c := Classify(fns, args);
      var supplied := DefinedBySpecs(objs, engine, c.specs, "initialize");
      var inherited := InheritsInitialize(objs, fns, c.parent);
      && Acyclic(a.objects)
      && Has(a.objects, |objs|, "initialize")
      && (supplied || inherited ==> |a.functions| == |fns| + 1)
      && (!supplied && inherited ==>
            && "initialize" !in a.objects[|objs|].props
            && Get(a.objects, |objs|, "initialize") == Get(objs, ParentProto(fns, c.parent).value, "initialize"))
      && (!supplied && !inherited ==>
            && "initialize" in a.objects[|objs|].props
            && a.objects[|objs|].props["initialize"] == Fn(|fns| + 1)
            && |a.functions| == |fns| + 2 && a.functions[|fns| + 1] == NoopFunc())
  {
    var c := Classify(fns, args);
    var pp := ParentProto(fns, c.parent);
    var m := Merge(objs, fns, engine, args);
    SpecsOk(|objs|, |fns|, args, c.specs);
    FinishShape(objs, fns, c.name, pp, m);
    ApplySpecsKeys(objs, fns, engine, |objs|, InitialOwn(|fns|), c.specs, "initialize");
    FinishInitialize(objs, fns, c.name, pp, m);
  }
}
