/** Lineage itself: the state the library keeps once loaded (the heap it
    defines into, the global `Lineage` binding and the value that binding had
    before) and its operations `define` and `noConflict`, with the private
    helpers `generateCtor`, `getNames` and `createNoop`. Each method is proved
    against the functions of module LineageSpec. */
module Lineage {
  import opened Wrappers
  import opened JsHeap
  import opened LineageSpec

  /** What `getNames` returns, or that it threw. */
  datatype NamesResult = Names(names: seq<string>) | Threw

  /** `arguments[i]`: undefined past the end. */
  function ArgAt(args: seq<Value>, i: nat): (v: Value)
    ensures i < |args| ==> v == args[i]
    ensures |args| <= i ==> v == Undefined
  {
    if i < |args| then args[i] else Undefined
  }

  /** The properties the copy loop writes for the names it was given. */
  function PropsOf(objs: seq<JsObject>, o: ObjId, names: seq<string>): map<string, Value>
    requires Acyclic(objs) && o < |objs|
  {
    map n | n in names :: Get(objs, o, n)
  }

  class Realm {
    /** Every plain object, prototypes and specification objects alike. */
    var objects: seq<JsObject>
    /** Every function object. */
    var functions: seq<Func>
    /** The global binding `global.Lineage`. */
    var global: Value
    /** The Lineage namespace object. */
    const lineage: ObjId
    /** What `global.Lineage` held before Lineage was loaded. */
    const oldLineage: Value
    /** The enumeration quirks detected at load time. */
    const engine: Engine

    ghost predicate Valid()
      reads this
    {
      WellFormed(objects, functions) && lineage < |objects|
    }

    /** Loading lineage.js into a host heap: the namespace object is created,
        the old global binding saved and the global bound to Lineage. */
    constructor (hostObjects: seq<JsObject>, hostFunctions: seq<Func>, previous: Value, quirks: Engine)
      requires WellFormed(hostObjects, hostFunctions)
      ensures Valid()
      ensures objects == hostObjects + [JsObject(map[], None)] && functions == hostFunctions
      ensures lineage == |hostObjects| && global == Obj(lineage)
      ensures oldLineage == previous && engine == quirks
    {
      objects := hostObjects + [JsObject(map[], None)];
      functions := hostFunctions;
      lineage := |hostObjects|;
      oldLineage := previous;
      global := Obj(|hostObjects|);
      engine := quirks;
      new;
      GrownWellFormed(hostObjects, hostFunctions, objects, functions);
    }

    /** `for (name in members)`: every name of the object and its chain that
        the engine enumerates, each once, in an order the engine chooses. */
    method ForIn(o: ObjId) returns (names: seq<string>)
      requires Acyclic(objects) && o < |objects|
      ensures forall n :: n in names <==> n in NamesOf(objects, o) && !Hides(engine, n)
      ensures forall i, j | 0 <= i < j < |names| :: names[i] != names[j]
    {
      names := [];
      var pending := ForInNames(objects, engine, o);
      while pending != {}
        invariant pending <= ForInNames(objects, engine, o)
        invariant forall n :: n in names <==> n in ForInNames(objects, engine, o) && n !in pending
        invariant forall i, j | 0 <= i < j < |names| :: names[i] != names[j]
        decreases pending
      {
        var name :| name in pending;
        names := names + [name];
        pending := pending - {name};
      }
    }

    /** `getNames`: the enumerable names of a specification object, own and
        inherited, then `toString` and `valueOf` where the engine leaves them
        out of `for..in` and they are defined. Reading either of them on
        `null` throws. */
    method GetNames(members: Value) returns (r: NamesResult)
      requires Acyclic(objects) && IsObject(members) && (members.Obj? ==> members.o < |objects|)
      ensures r.Threw? <==> members.Null? && (engine.toStringProblematic || engine.valueOfProblematic)
      ensures r.Names? && members.Null? ==> r.names == []
      ensures r.Names? && members.Obj? ==> forall n ::
        n in r.names <==>
          if Hides(engine, n) then Get(objects, members.o, n) != Undefined else n in NamesOf(objects, members.o)
      ensures r.Names? ==> forall i, j | 0 <= i < j < |r.names| :: r.names[i] != r.names[j]
    {
      var names: seq<string> := [];
      ghost var extra: set<string> := {};
      if members.Obj? {
        names := ForIn(members.o);
        assert Listed(objects, engine, members.o, names, extra);
      }
      if engine.toStringProblematic {
        if members.Null? {
          return Threw;
        }
        if Get(objects, members.o, "toString") != Undefined {
          AppendHidden(objects, engine, members.o, names, extra, "toString");
          names, extra := names + ["toString"], extra + {"toString"};
        }
      }
      if engine.valueOfProblematic {
        if members.Null? {
          return Threw;
        }
        if Get(objects, members.o, "valueOf") != Undefined {
          AppendHidden(objects, engine, members.o, names, extra, "valueOf");
          names, extra := names + ["valueOf"], extra + {"valueOf"};
        }
      }
      r := Names(names);
    }

    /** The copy loop of `define`: from the last name to the first, write
        `spec[name]` onto the prototype. */
    method CopyMembers(ctorProto: ObjId, spec: ObjId, names: seq<string>)
      requires Acyclic(objects) && spec < ctorProto < |objects|
      modifies this`objects
      ensures objects == old(objects)[ctorProto :=
        JsObject(old(objects)[ctorProto].props + PropsOf(old(objects), spec, names), old(objects)[ctorProto].parent)]
    {
      ghost var objs0 := objects;
      ghost var target := objects[ctorProto];
      var nameIndex := |names| - 1;
      assert PropsOf(objs0, spec, names[nameIndex + 1..]) == map[];
      assert target.props + map[] == target.props;
      while nameIndex >= 0
        invariant -1 <= nameIndex < |names|
        invariant objects == objs0[ctorProto :=
          JsObject(target.props + PropsOf(objs0, spec, names[nameIndex + 1..]), target.parent)]
      {
        SetPropsAcyclic(objs0, ctorProto, target.props + PropsOf(objs0, spec, names[nameIndex + 1..]));
        assert forall i | 0 <= i <= spec :: objects[i] == objs0[i];
        ChainFrame(objs0, objects, spec);
        var name := names[nameIndex];
        PropsOfStep(objs0, spec, names, nameIndex);
        UnionUpdate(target.props, PropsOf(objs0, spec, names[nameIndex + 1..]), name, Get(objs0, spec, name));
        objects := objects[ctorProto := objects[ctorProto].(props := objects[ctorProto].props[name := Get(objects, spec, name)])];
        nameIndex := nameIndex - 1;
      }
    }

    /** `generateCtor`: a new constructor, named when the name is truthy,
        with a new prototype that inherits from the parent's prototype and
        points back to it through `constructor`; the constructor is flagged. */
    method GenerateCtor(name: Option<string>, parent: Option<FnId>) returns (ctor: FnId)
      requires parent.Some? ==> parent.value < |functions|
      modifies this`objects, this`functions
      ensures ctor == |old(functions)|
      ensures functions == old(functions) + [CtorFunc(name, |old(objects)|)]
      ensures objects == old(objects) + [JsObject(InitialOwn(ctor), ParentProto(old(functions), parent))]
    {
      ctor := |functions|;
      var p := |objects|;
      var proto := if parent.Some? then functions[parent.value].proto else None;
      objects := objects + [JsObject(map[], proto)];
      functions := functions + [Func(CtorName(name), false, Some(p), Generated)];
      objects := objects[p := objects[p].(props := objects[p].props["constructor" := Fn(ctor)])];
      functions := functions[ctor := functions[ctor].(isConstructor := true)];
    }

    /** `createNoop`: a fresh function that does nothing. */
    method CreateNoop() returns (f: FnId)
      modifies this`functions
      ensures f == |old(functions)| && functions == old(functions) + [NoopFunc()]
    {
      f := |functions|;
      functions := functions + [NoopFunc()];
    }

    /** The start of `define`: a leading string is the name, a constructor
        after it the parent; `argsIndex` ends at the first specification
        argument. */
    method SortArguments(args: seq<Value>) returns (ctorName: Option<string>, parent: Option<FnId>, argsIndex: nat)
      requires ArgsOk(|objects|, |functions|, args)
      ensures var c := Classify(functions, args);
        ctorName == c.name && parent == c.parent && argsIndex <= |args| && args[argsIndex..] == c.specs
    {
      argsIndex := 0;
      ctorName := None;
      parent := None;
      var arg := ArgAt(args, argsIndex);
      if IsString(arg) {
        ctorName := Some(arg.s);
        argsIndex := argsIndex + 1;
        arg := ArgAt(args, argsIndex);
      }
      if IsFunction(arg) && functions[arg.f].isConstructor {
        parent := Some(arg.f);
        argsIndex := argsIndex + 1;
      }
    }

    /** The specification loop of `define`: each argument in turn is a
        constructor (a throw), a factory (whose return value is dropped) or
        a specification object, whose names are copied onto the prototype,
        the last object allocated. `fns0` are the functions that existed
        before `define`. */
    method CopySpecs(ctorProto: ObjId, ghost fns0: seq<Func>, specs: seq<Value>) returns (error: Option<DefineError>)
      requires Acyclic(objects) && ctorProto + 1 == |objects|
      requires |fns0| <= |functions| && fns0 == functions[..|fns0|] && ArgsOk(ctorProto, |fns0|, specs)
      requires objects[ctorProto].parent.Some? ==> objects[ctorProto].parent.value < ctorProto
      modifies this`objects
      ensures var m := ApplySpecs(old(objects)[..ctorProto], fns0, engine, ctorProto, old(objects)[ctorProto].props, specs);
        && objects == old(objects)[..ctorProto] + [JsObject(m.own, old(objects)[ctorProto].parent)]
        && error == m.error
    {
      ghost var objs0 := objects[..ctorProto];
      ghost var pp := objects[ctorProto].parent;
      ghost var own := objects[ctorProto].props;
      ghost var merged := ApplySpecs(objs0, fns0, engine, ctorProto, own, specs);
      assert objects == objs0 + [JsObject(own, pp)];
      var argsIndex := 0;
      while argsIndex < |specs|
        invariant argsIndex <= |specs|
        invariant objects == objs0 + [JsObject(own, pp)]
        invariant ApplySpecs(objs0, fns0, engine, ctorProto, own, specs[argsIndex..]) == merged
      {
        AppendAcyclic(objs0, JsObject(own, pp));
        assert specs[argsIndex..][0] == specs[argsIndex] && specs[argsIndex..][1..] == specs[argsIndex + 1..];
        assert ValidValue(ctorProto, |fns0|, specs[argsIndex]);
        var arg := specs[argsIndex];
        argsIndex := argsIndex + 1;
        if IsFunction(arg) {
          assert functions[arg.f] == fns0[arg.f];
          if functions[arg.f].isConstructor {
            return Some(WrongOrder);
          }
          arg := Returns(functions[arg.f]);
          if IsObject(arg) || arg == Obj(ctorProto) {
            arg := Undefined;
          }
        }
        if IsObject(arg) {
          var names := GetNames(arg);
          if names.Threw? {
            return Some(TypeErrorOnNull);
          }
          if arg.Obj? {
            CopyMatchesSpec(objs0, objects, engine, arg.o, names.names);
            CopyMembers(ctorProto, arg.o, names.names);
            ReplaceLast(objs0, JsObject(own, pp), JsObject(own + SpecProps(objs0, engine, arg.o), pp));
            own := own + SpecProps(objs0, engine, arg.o);
          }
        }
      }
      return None;
    }

    /** `Lineage.define`. */
    method Define(args: seq<Value>) returns (out: Outcome)
      requires Valid() && ArgsOk(|objects|, |functions|, args)
      modifies this`objects, this`functions
      ensures Valid()
      ensures After(out, objects, functions) == DefineSpec(old(objects), old(functions), engine, args)
    {
      ghost var objs0, fns0 := objects, functions;
      var ctorName, parent, argsIndex := SortArguments(args);
      ghost var c := Classified(ctorName, parent, args[argsIndex..]);
      SpecsOk(|objs0|, |fns0|, args, c.specs);
      DefineIsFinish(objs0, fns0, engine, args, c);

      var ctor := GenerateCtor(ctorName, parent);
      out := FillPrototype(ctor, objs0, fns0, ctorName, args[argsIndex..]);
    }

    /** The rest of `define` once the constructor exists: the specification
        loop, then a no-op `initialize` if the prototype cannot find one.
        `objs0` and `fns0` are the heap `define` started from. */
    method FillPrototype(ctor: FnId, ghost objs0: seq<JsObject>, ghost fns0: seq<Func>, ghost name: Option<string>,
                         specs: seq<Value>) returns (out: Outcome)
      requires ctor == |fns0| && functions == fns0 + [CtorFunc(name, |objs0|)]
      requires |objects| == |objs0| + 1 && objects[..|objs0|] == objs0 && objects[|objs0|].props == InitialOwn(ctor)
      requires Acyclic(objs0) && ArgsOk(|objs0|, |fns0|, specs)
      requires objects[|objs0|].parent.Some? ==> objects[|objs0|].parent.value < |objs0|
      modifies this`objects, this`functions
      ensures After(out, objects, functions) == Finish(objs0, fns0, name, old(objects)[|objs0|].parent,
        ApplySpecs(objs0, fns0, engine, |objs0|, InitialOwn(ctor), specs))
    {
      ghost var pp := objects[|objs0|].parent;
      ghost var merged := ApplySpecs(objs0, fns0, engine, |objs0|, InitialOwn(ctor), specs);
      var ctorProto := functions[ctor].proto.value;
      assert objects == objs0 + [objects[|objs0|]];
      AppendAcyclic(objs0, objects[|objs0|]);
      var error := CopySpecs(ctorProto, fns0, specs);
      FinishCases(objs0, fns0, name, pp, merged);
      if error.Some? {
        out := Thrown(error.value);
      } else {
        ProvideInitialize(ctorProto);
        ReplaceLast(objs0, JsObject(merged.own, pp), JsObject(merged.own["initialize" := Fn(ctor + 1)], pp));
        out := Defined(ctor);
      }
    }

    /** The end of `define`: when the prototype cannot find `initialize`,
        give it a fresh no-op one. */
    method ProvideInitialize(ctorProto: ObjId)
      requires Acyclic(objects) && ctorProto < |objects|
      modifies this`objects, this`functions
      ensures Has(old(objects), ctorProto, "initialize") ==>
        objects == old(objects) && functions == old(functions)
      ensures !Has(old(objects), ctorProto, "initialize") ==>
        && objects == old(objects)[ctorProto := JsObject(
             old(objects)[ctorProto].props["initialize" := Fn(|old(functions)|)], old(objects)[ctorProto].parent)]
        && functions == old(functions) + [NoopFunc()]
    {
      if !Has(objects, ctorProto, "initialize") {
        var noop := CreateNoop();
        objects := objects[ctorProto := objects[ctorProto].(props := objects[ctorProto].props["initialize" := Fn(noop)])];
      }
    }

    /** `Lineage.noConflict`: give the global binding back to its previous
        value if it still holds Lineage, call the callback if it is a
        function, and return Lineage. */
    method NoConflict(callback: Value) returns (result: Value, calledBack: bool)
      modifies this`global
      ensures global == if old(global) == Obj(lineage) then oldLineage else old(global)
      ensures calledBack == IsFunction(callback)
      ensures result == Obj(lineage)
    {
      if global == Obj(lineage) {
        global := oldLineage;
      }
      calledBack := IsFunction(callback);
      result := Obj(lineage);
    }
  }

  /** What the copy loop writes, given the names `getNames` found in the
      current heap, is what the specification loop adds from the heap as it
      was before `define`. */
  lemma CopyMatchesSpec(objs0: seq<JsObject>, objs: seq<JsObject>, engine: Engine, o: ObjId, names: seq<string>)
    requires Acyclic(objs0) && Acyclic(objs) && o < |objs0| <= |objs| && objs[..|objs0|] == objs0
    requires forall n :: n in names <==>
      if Hides(engine, n) then Get(objs, o, n) != Undefined else n in NamesOf(objs, o)
    ensures PropsOf(objs, o, names) == SpecProps(objs0, engine, o)
  {
    assert forall i | 0 <= i <= o :: objs[i] == objs0[i];
    ChainFrame(objs0, objs, o);
    forall n ensures n in names <==> n in SpecNames(objs0, engine, o) {
      SpecNamesComplete(objs0, engine, o, n);
    }
  }

  /** Writing one more name: the copy from `names[k..]` is the copy from
      `names[k + 1..]` with `names[k]` written on top. */
  lemma PropsOfStep(objs: seq<JsObject>, o: ObjId, names: seq<string>, k: nat)
    requires Acyclic(objs) && o < |objs| && k < |names|
    ensures PropsOf(objs, o, names[k..]) == PropsOf(objs, o, names[k + 1..])[names[k] := Get(objs, o, names[k])]
  {
    assert names[k..] == [names[k]] + names[k + 1..];
  }

  lemma UnionUpdate(a: map<string, Value>, b: map<string, Value>, k: string, v: Value)
    ensures a + b[k := v] == (a + b)[k := v]
  {
  }

  /** Replacing an object's properties keeps every chain finite. */
  lemma SetPropsAcyclic(objs: seq<JsObject>, i: ObjId, props: map<string, Value>)
    requires Acyclic(objs) && i < |objs|
    ensures Acyclic(objs[i := JsObject(props, objs[i].parent)])
  {
  }

  lemma ReplaceLast(objs: seq<JsObject>, x: JsObject, y: JsObject)
    ensures (objs + [x])[|objs| := y] == objs + [y]
  {
  }

  /** `DefineSpec` spelled out for a given classification. */
  lemma DefineIsFinish(objs: seq<JsObject>, fns: seq<Func>, engine: Engine, args: seq<Value>, c: Classified)
    requires WellFormed(objs, fns) && ArgsOk(|objs|, |fns|, args)
    requires c == Classify(fns, args) && ArgsOk(|objs|, |fns|, c.specs)
    ensures DefineSpec(objs, fns, engine, args) == Finish(objs, fns, c.name, ParentProto(fns, c.parent),
      ApplySpecs(objs, fns, engine, |objs|, InitialOwn(|fns|), c.specs))
    ensures var a := DefineSpec(objs, fns, engine, args);
      WellFormed(a.objects, a.functions) && |objs| < |a.objects|
  {
    DefineWellFormed(objs, fns, engine, args);
  }

  /** The three ways `Finish` can end: a throw, a prototype that finds
      `initialize`, and one that is given a fresh no-op. */
  lemma FinishCases(objs: seq<JsObject>, fns: seq<Func>, name: Option<string>, pp: Option<ObjId>, m: Merged)
    requires Acyclic(objs) && (pp.Some? ==> pp.value < |objs|)
    ensures Acyclic(objs + [JsObject(m.own, pp)])
    ensures var objs2, fns1 := objs + [JsObject(m.own, pp)], fns + [CtorFunc(name, |objs|)];
      Finish(objs, fns, name, pp, m) ==
        if m.error.Some? then After(Thrown(m.error.value), objs2, fns1)
        else if Has(objs2, |objs|, "initialize") then After(Defined(|fns|), objs2, fns1)
        else After(Defined(|fns|), objs + [JsObject(m.own["initialize" := Fn(|fns| + 1)], pp)], fns1 + [NoopFunc()])
  {
    AppendAcyclic(objs, JsObject(m.own, pp));
  }

  /** The names found so far, each once: those `for..in` enumerates, and
      the hidden ones in `extra`. */
  ghost predicate Listed(objs: seq<JsObject>, engine: Engine, o: ObjId, names: seq<string>, extra: set<string>)
    requires Acyclic(objs) && o < |objs|
  {
    && (forall n :: n in names <==> if Hides(engine, n) then n in extra else n in NamesOf(objs, o))
    && (forall i, j | 0 <= i < j < |names| :: names[i] != names[j])
  }

  /** Appending a hidden name not yet listed keeps the list exact and free
      of duplicates. */
  lemma AppendHidden(objs: seq<JsObject>, engine: Engine, o: ObjId, names: seq<string>, extra: set<string>, n: string)
    requires Acyclic(objs) && o < |objs| && Listed(objs, engine, o, names, extra)
    requires Hides(engine, n) && n !in extra
    ensures Listed(objs, engine, o, names + [n], extra + {n})
  {
    assert n !in names;
  }
}
