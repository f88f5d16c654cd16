/** The abstract JavaScript heap that Lineage works on.

    Plain objects live in one arena and function objects in another; a value
    refers to them by index. An object owns a finite map of properties and has
    an optional link to its prototype. A prototype is always allocated before
    the objects that inherit from it, so every chain is finite. Every chain
    ends at the built-in `Object.prototype`, which is not in the object arena:
    of its members only `toString` and `valueOf` are modelled, as functions 0
    and 1 of the function arena; none of its members is enumerable. */
module JsHeap {
  import opened Wrappers

  type ObjId = nat
  type FnId = nat

  /** A JavaScript value, keeping only the distinctions Lineage's type tests make. */
  datatype Value =
    | Undefined
    | Null
    | Prim            // a number or a boolean
    | Str(s: string)  // a primitive string
    | Fn(f: FnId)     // a function object
    | Obj(o: ObjId)   // a plain object

  /** What calling a function does, as far as Lineage can observe it. */
  datatype Body =
    | Generated                // a constructor built by `define`
    | Noop                     // the default `initialize`
    | Foreign(result: Value)   // user code: only the value it returns is modelled

  /** A function object: its name (None when anonymous), its `_isConstructor`
      flag, its `prototype` (None when it has no object there) and its body. */
  datatype Func = Func(name: Option<string>, isConstructor: bool, proto: Option<ObjId>, body: Body)

  /** A plain object: its own properties and its prototype link. */
  datatype JsObject = JsObject(props: map<string, Value>, parent: Option<ObjId>)

  /** The two engine quirks Lineage detects when it loads: the engine leaves
      `toString` (resp. `valueOf`) out of `for..in`. */
  datatype Engine = Engine(toStringProblematic: bool, valueOfProblematic: bool)

  // ---- The type tests of lineage.js ----------------------------------------

  /** `Object.prototype.toString` reports '[object String]'. */
  predicate IsString(v: Value) { v.Str? }

  /** `typeof` reports 'function'. */
  predicate IsFunction(v: Value) { v.Fn? }

  /** `typeof` reports 'object', which it also does for `null`. */
  predicate IsObject(v: Value) { v.Obj? || v.Null? }

  // ---- Well-formedness -----------------------------------------------------

  /** `Object.prototype.toString` and `Object.prototype.valueOf`. */
  const ToStringFn: FnId := 0
  const ValueOfFn: FnId := 1

  /** Every reference in `v` points into arenas of the given sizes. */
  predicate ValidValue(nObjs: nat, nFns: nat, v: Value) {
    match v
    case Fn(f) => f < nFns
    case Obj(o) => o < nObjs
    case _ => true
  }

  predicate PropsOk(props: map<string, Value>, nObjs: nat, nFns: nat) {
    forall n | n in props :: ValidValue(nObjs, nFns, props[n])
  }

  predicate FuncOk(g: Func, nObjs: nat) {
    && (g.proto.Some? ==> g.proto.value < nObjs)
    && (g.body.Generated? ==> g.isConstructor)
  }

  /** Every prototype was allocated before the objects that inherit from it. */
  predicate Acyclic(objs: seq<JsObject>) {
    forall i | 0 <= i < |objs| :: objs[i].parent.Some? ==> objs[i].parent.value < i
  }

  /** Every chain is finite and every function's prototype is allocated. */
  predicate Linked(objs: seq<JsObject>, fns: seq<Func>) {
    && Acyclic(objs)
    && (forall f | 0 <= f < |fns| :: FuncOk(fns[f], |objs|))
  }

  /** Besides, the two built-ins exist and every property refers to
      something allocated. */
  predicate WellFormed(objs: seq<JsObject>, fns: seq<Func>) {
    && Linked(objs, fns)
    && ValueOfFn < |fns|
    && (forall i | 0 <= i < |objs| :: PropsOk(objs[i].props, |objs|, |fns|))
  }

  // ---- Property access along the prototype chain ---------------------------

  /** The first object on the chain from `o` that owns a property named `n`. */
  function Owner(objs: seq<JsObject>, o: ObjId, n: string): (k: Option<ObjId>)
    requires Acyclic(objs) && o < |objs|
    ensures k.Some? ==> k.value <= o && n in objs[k.value].props
    ensures n in objs[o].props ==> k == Some(o)
    decreases o
  {
    if n in objs[o].props then Some(o)
    else match objs[o].parent
      case None => None
      case Some(q) => Owner(objs, q, n)
  }

  /** The objects on the chain from `o`: `o`, its prototype, and so on. */
  function ChainOf(objs: seq<JsObject>, o: ObjId): (c: set<ObjId>)
    requires Acyclic(objs) && o < |objs|
    ensures o in c && forall j | j in c :: j <= o
    decreases o
  {
    {o} + match objs[o].parent
      case None => {}
      case Some(q) => ChainOf(objs, q)
  }

  /** The owner is the nearest object on the chain that owns `n` (a chain
      visits ever older objects, so the nearest is the newest); when there is
      none, no object on the chain owns `n`. */
  lemma {:induction false} OwnerNearest(objs: seq<JsObject>, o: ObjId, n: string)
    requires Acyclic(objs) && o < |objs|
    ensures var k := Owner(objs, o, n);
      && (k.Some? ==> k.value in ChainOf(objs, o))
      && (k.Some? ==> forall j | j in ChainOf(objs, o) && k.value < j :: n !in objs[j].props)
      && (k.None? ==> forall j | j in ChainOf(objs, o) :: n !in objs[j].props)
    decreases o
  {
    if n !in objs[o].props && objs[o].parent.Some? {
      OwnerNearest(objs, objs[o].parent.value, n);
    }
  }

  /** The `in` operator as `define` uses it: `n` is an own or inherited
      property of `o`. `Object.prototype`'s own members are left out, which
      loses nothing because `define` only asks about `initialize`. */
  predicate Has(objs: seq<JsObject>, o: ObjId, n: string)
    requires Acyclic(objs) && o < |objs|
  {
    Owner(objs, o, n).Some?
  }

  /** What `Object.prototype` holds under name `n`. */
  function Builtin(n: string): Value {
    if n == "toString" then Fn(ToStringFn)
    else if n == "valueOf" then Fn(ValueOfFn)
    else Undefined
  }

  /** Reading `o[n]`: the value of the nearest owner, else what
      `Object.prototype` holds. */
  function Get(objs: seq<JsObject>, o: ObjId, n: string): Value
    requires Acyclic(objs) && o < |objs|
  {
    match Owner(objs, o, n)
    case None => Builtin(n)
    case Some(k) => objs[k].props[n]
  }

  /** Every property name of `o`, own or inherited. */
  function NamesOf(objs: seq<JsObject>, o: ObjId): set<string>
    requires Acyclic(objs) && o < |objs|
    decreases o
  {
    objs[o].props.Keys +
      match objs[o].parent
      case None => {}
      case Some(q) => NamesOf(objs, q)
  }

  /** The names `for..in` enumerates on this engine: all of them, less the
      ones the engine's quirk hides. */
  function ForInNames(objs: seq<JsObject>, engine: Engine, o: ObjId): set<string>
    requires Acyclic(objs) && o < |objs|
  {
    set n | n in NamesOf(objs, o) && !Hides(engine, n)
  }

  predicate Hides(engine: Engine, n: string) {
    || (n == "toString" && engine.toStringProblematic)
    || (n == "valueOf" && engine.valueOfProblematic)
  }

  // ---- Lemmas about the chain ----------------------------------------------

  /** A name is enumerated on `o` exactly when `in` finds it. */
  lemma {:induction false} NamesOfHas(objs: seq<JsObject>, o: ObjId, n: string)
    requires Acyclic(objs) && o < |objs|
    ensures n in NamesOf(objs, o) <==> Has(objs, o, n)
    decreases o
  {
    if n !in objs[o].props && objs[o].parent.Some? {
      NamesOfHas(objs, objs[o].parent.value, n);
    }
  }

  /** A name not found on the chain reads as the built-in: a function for
      `toString` and `valueOf`, undefined for every other name. */
  lemma GetMissing(objs: seq<JsObject>, o: ObjId, n: string)
    requires Acyclic(objs) && o < |objs|
    requires n !in NamesOf(objs, o)
    ensures Get(objs, o, n) == Builtin(n)
    ensures Get(objs, o, n) != Undefined <==> n == "toString" || n == "valueOf"
  {
    NamesOfHas(objs, o, n);
  }

  /** The chain from `o` only looks at objects allocated no later than `o`:
      two heaps that agree on those agree on every read from `o`. */
  lemma {:induction false} ChainFrame(objs: seq<JsObject>, objs': seq<JsObject>, o: ObjId)
    requires Acyclic(objs) && Acyclic(objs') && o < |objs| && o < |objs'|
    requires forall i | 0 <= i <= o :: objs'[i] == objs[i]
    ensures NamesOf(objs', o) == NamesOf(objs, o)
    ensures forall n :: Owner(objs', o, n) == Owner(objs, o, n)
    ensures forall n :: Get(objs', o, n) == Get(objs, o, n)
    decreases o
  {
    assert objs'[o] == objs[o];
    if objs[o].parent.Some? {
      ChainFrame(objs, objs', objs[o].parent.value);
    }
    forall n ensures Get(objs', o, n) == Get(objs, o, n) {
      var k := Owner(objs, o, n);
      assert Owner(objs', o, n) == k;
      if k.Some? {
        assert objs'[k.value] == objs[k.value];
      }
    }
  }

  /** Reading a property of a well-formed heap yields a value that points into it. */
  lemma GetValid(objs: seq<JsObject>, fns: seq<Func>, o: ObjId, n: string)
    requires WellFormed(objs, fns) && o < |objs|
    ensures ValidValue(|objs|, |fns|, Get(objs, o, n))
  {
    var k := Owner(objs, o, n);
    if k.Some? {
      assert PropsOk(objs[k.value].props, |objs|, |fns|);
    }
  }
}
