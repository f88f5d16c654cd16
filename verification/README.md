# Lineage: `define` and `noConflict` over an abstract heap

Lineage (`src/lineage.js`) is a small JavaScript library for defining
constructor functions and their prototypes. `Lineage.define` takes an
optional name, an optional parent constructor and any number of
specification arguments. It builds a constructor whose prototype inherits
from the parent's prototype, copies the names of every specification object
onto that prototype, and makes sure `initialize` can be found on it.
`Lineage.noConflict` gives the global `Lineage` binding back to whatever it
held before the library was loaded.

The model has three layers:

- `JsHeap` (`heap.dfy`) is the abstract heap.
  - Plain objects sit in one arena, each a map of properties plus an optional
    prototype link. A prototype is always allocated before its heirs, so every
    chain is finite.
  - Functions sit in a second arena, each with its name, its `_isConstructor`
    flag, its `prototype` and what calling it returns.
  - Every chain ends at the built-in `Object.prototype`. Of its members, only
    `toString` and `valueOf` are modelled, as functions 0 and 1.
  - The module also holds the type tests `isString`, `isFunction` and
    `isObject`, the `in` operator, property reads and the names `for..in`
    enumerates.
- `LineageSpec` (`define.dfy`) states what `define` computes as functions of
  the heap it starts from:
  - `Classify` sorts the arguments.
  - `ApplySpecs` is the specification loop.
  - `DefineSpec` gives the resulting heap and outcome.

  Its lemmas carry the promises of `define`.
- `Lineage` (`lineage.dfy`) is the library as it runs: a class `Realm` whose
  fields are the two arenas and the global binding. Its methods follow the
  source step by step:
  - `Define` runs the `argsIndex` counter, the `while` loop over the
    specification arguments and the reverse `for` copy loop.
  - `GenerateCtor`, `GetNames` and `CreateNoop` are the helpers.
  - `NoConflict` restores the global.

  `Define` is proved to leave exactly the heap and outcome `DefineSpec` gives.

What the code does with a factory function's return value differs from its
doc comment. The doc comment (`src/lineage.js:77-79`) says a factory may
return a specification object. The code (`src/lineage.js:134-137`) replaces
any object result with `undefined`, and any other result then fails the
`isObject` test. So nothing a factory returns is ever copied. The model
follows the code.

In the model, `define` can throw in two ways:

- The wrong-order error, when a constructor appears among the specification
  arguments.
- The `TypeError` of reading `toString` or `valueOf` of `null`. This happens
  when `null` is passed as a specification object (its `typeof` is
  `'object'`) on an engine whose `for..in` hides those names.

The source can also throw where the model does not: from a factory
function's own code, and from the `eval` that names the constructor when
the name is not a JavaScript identifier (see "Left out"). When `define`
throws, the constructor and prototype it had already made stay
in the heap, with whatever was copied before the throw.

## Model

| member | source | states |
|---|---|---|
| `JsHeap.Owner` | src/lineage.js:153 | the owner found was allocated no later than the object and really owns the name; an own property is found on the object itself |
| `JsHeap.OwnerNearest` | src/lineage.js:153 | the owner found is on the object's chain and no nearer object on the chain owns the name; when none is found, no object on the chain owns it |
| `JsHeap.NamesOfHas` | src/lineage.js:304 | a name is among the names of the object and its chain exactly when `in` finds it on the chain (`Object.prototype`'s own members aside, which `define` never asks about: it applies `in` only to `initialize`) |
| `JsHeap.GetMissing` | src/lineage.js:307-311 | a name found nowhere on the chain reads as `Object.prototype`'s member: defined for `toString` and `valueOf`, undefined otherwise |
| `JsHeap.ChainFrame` | src/lineage.js:146-149 | reads through an object's chain depend only on objects allocated no later than it, so writing onto the newer prototype never changes what a specification object reads as |
| `JsHeap.GetValid` | src/lineage.js:148 | a value read from a well-formed heap refers only to allocated objects and functions |
| `LineageSpec.Classify` | src/lineage.js:97-114 | any parent found is a known function, and the specification arguments are exactly a suffix of the arguments |
| `LineageSpec.ClassifyArgs` | src/lineage.js:97-114 | the classification loses no argument; the name is taken exactly when the first argument is a string; a parent is always constructor-flagged; with no parent, the slot after the name holds no constructor |
| `LineageSpec.SpecNamesComplete` | src/lineage.js:297-314 | `getNames` lists every name the engine enumerates, own or inherited, and a hidden `toString`/`valueOf` exactly when it reads as defined (always when the chain does not override it); on an engine without the quirks, exactly the names of the object |
| `LineageSpec.FactoryYield` | src/lineage.js:134-137 | what a factory returns never passes the `isObject` test afterwards |
| `LineageSpec.FactoryAddsNothing` | src/lineage.js:126-141 | what a factory returns is never copied: the loop's map is unchanged and no error arises from that result (what the factory's own code does is foreign, see "Left out") |
| `LineageSpec.ApplySpecStep` | src/lineage.js:123-150 | one turn of the loop throws exactly on a throwing argument, with its error, and otherwise adds exactly the names of an object argument |
| `LineageSpec.ApplySpecsError` | src/lineage.js:123-150 | the loop ends without error exactly when no argument throws, and otherwise with the error of the first argument that throws |
| `LineageSpec.ApplySpecsUntouched` | src/lineage.js:146-149 | a name no specification object defines keeps its value |
| `LineageSpec.ApplySpecsLastWins` | src/lineage.js:146-149 | a name defined by several specification objects ends with the value of the last one |
| `LineageSpec.ApplySpecsKeys` | src/lineage.js:143-149 | without a throw, the loop adds exactly the names of the specification objects |
| `LineageSpec.ApplySpecsFirstError` | src/lineage.js:126-131 | the loop stops with the error of the first throwing argument |
| `LineageSpec.ApplySpecsThrows` | src/lineage.js:126-131 | the loop throws iff some argument throws; it throws wrong-order iff the first throwing argument is a constructor, and the null error iff it is null |
| `LineageSpec.ApplySpecsWrongOrder` | src/lineage.js:126-131 | where no null can throw, the loop throws, and throws only wrong-order, exactly when a constructor is among the arguments |
| `LineageSpec.DefineWellFormed` | src/lineage.js:84-163 | `define` keeps the model heap well formed and grows it by exactly one object (the new prototype) and at least one function |
| `LineageSpec.DefineLinkage` | src/lineage.js:271-281 | existing objects and functions, the parent's prototype among them, are unchanged; the new prototype links to the parent's prototype (or to nothing); the new constructor is flagged and owns the new prototype; `constructor` points back to it unless a specification object overrides it |
| `LineageSpec.DefineThrows` | src/lineage.js:126-131 | `define` throws iff a specification argument throws, wrong-order iff the first such argument is a constructor, the null error iff it is null |
| `LineageSpec.DefineWrongOrder` | src/lineage.js:126-131 | where no null can throw, `define` raises the wrong-order error exactly when a constructor is among the specification arguments, and raises no other |
| `LineageSpec.DefineLastSpecWins` | src/lineage.js:123-150 | after a successful `define`, each name a specification object lists is an own property of the prototype, with the value from the last object that lists it |
| `LineageSpec.DefineOwnNames` | src/lineage.js:116-159 | the new prototype owns exactly `constructor`, the names of the specification objects, and `initialize` when neither those nor the parent's chain provide one |
| `LineageSpec.DefineInitialize` | src/lineage.js:153-159 | after `define`, `initialize` is found on the new prototype; an inherited one is not shadowed; a fresh no-op is added only when none is supplied or inherited |
| `LineageSpec.FinishShape` | src/lineage.js:116-119 | the finishing step keeps existing objects and functions, allocates the constructor and its prototype, and reports the loop's error or the new constructor |
| `LineageSpec.FinishInitialize` | src/lineage.js:153-159 | the finishing step leaves `initialize` resolvable: owned, inherited unshadowed, or a fresh no-op |
| `Lineage.Realm.constructor` | src/lineage.js:60-62 | loading saves the old global binding, creates the namespace object and binds the global to it |
| `Lineage.Realm.ForIn` | src/lineage.js:304-306 | the enumeration yields each enumerable name of the object and its chain once |
| `Lineage.Realm.GetNames` | src/lineage.js:297-314 | throws exactly for `null` on a quirky engine; lists nothing for `null` otherwise; for an object, lists without duplicates the enumerated names and the hidden names that read as defined |
| `Lineage.Realm.CopyMembers` | src/lineage.js:146-149 | the reverse copy loop writes each listed name's value onto the prototype and changes no other object |
| `Lineage.Realm.GenerateCtor` | src/lineage.js:229-285 | appends one flagged constructor, named only when the name is non-empty, and one prototype linked to the parent's prototype whose `constructor` is the new constructor |
| `Lineage.Realm.CreateNoop` | src/lineage.js:292-294 | appends one anonymous no-op function and returns it |
| `Lineage.Realm.SortArguments` | src/lineage.js:97-114 | the name, the parent and the index of the first specification argument agree with `Classify` |
| `Lineage.Realm.CopySpecs` | src/lineage.js:123-150 | the while loop leaves the prototype owning what `ApplySpecs` computes and reports its error |
| `Lineage.Realm.ProvideInitialize` | src/lineage.js:153-159 | adds a fresh no-op `initialize` exactly when the prototype cannot find one, and changes nothing otherwise |
| `Lineage.Realm.FillPrototype` | src/lineage.js:121-162 | after the constructor exists, the rest of `define` ends in the heap and outcome of the finishing step on the loop's result |
| `Lineage.Realm.Define` | src/lineage.js:84-163 | keeps the heap well formed and ends in exactly the heap and outcome `DefineSpec` gives |
| `Lineage.Realm.NoConflict` | src/lineage.js:179-187 | restores the saved binding only when the global still holds Lineage, leaves it untouched otherwise, calls back exactly when given a function, and returns Lineage |
| `Lineage.CopyMatchesSpec` | src/lineage.js:143-149 | what the copy loop writes from the current heap is what the specification loop adds from the heap `define` started from |
| `Lineage.AppendHidden` | src/lineage.js:307-312 | appending a hidden name not yet listed keeps the list exact and free of duplicates |

## Left out

- Function names: the `eval` that gives a constructor its name (`src/lineage.js:249-257`) is not modelled. The name is kept as an optional string. In the source, a name that is not a JavaScript identifier (say `"my-class"`) makes that `eval` throw a `SyntaxError`; the model accepts any non-empty name and defines the constructor.
- Instance construction: what a generated constructor does when called (`this.initialize.apply`, `src/lineage.js:253` and `263`) is not modelled.
- Factories and callbacks: only the value a factory returns is modelled. What it does with its four arguments (it may write members onto the new prototype it is handed, or throw), and what the `noConflict` callback does, is foreign code, so `NoConflict` reports only whether the callback is called.
- Default `prototype` objects: every JavaScript function gets its own `prototype` object. The model allocates none for the no-op `initialize`, for a constructor created with a parent (whose default is replaced) or for the namespace functions; object counts in the contracts are the model heap's.
- The namespace object's members: the source gives `Lineage` the properties `define`, `noConflict` and `version` (`src/lineage.js:63`, `83`, `178`). The model's namespace object has no properties, so passing `Lineage` itself as a specification object copies those members in the source and nothing in the model.
- Engine detection: the quirk detection at `src/lineage.js:209-221` is not modelled. Its two results are given as the `Engine` flags.
- Enumeration order: the order of `for..in` is the engine's. `ForIn` picks names in an arbitrary order, and the properties state no order.
- Enumerability: every own property of a heap object is enumerable. Only `toString` and `valueOf` of `Object.prototype` are modelled, and an object whose chain does not end at `Object.prototype` cannot be expressed.
- Getters, setters and non-writable properties: a property read returns the stored value and a write replaces it. A getter that throws is not modelled.
- `isString` on `String` wrapper objects: the model has no wrapper objects. In the source, a `new String("x")` passes both `isString` and `isObject`, so it would be taken as the name; in the model the three type tests never overlap. Numbers and booleans are one `Prim` value, since no test tells them apart.
- Source text that is not behaviour: the version and copyright strings (`src/lineage.js:4-15`, `63`) and the `createProto` indirection (`src/lineage.js:272-274`) are not modelled. The new prototype is linked to the parent's prototype directly.
- Exception values: what `define` throws is an error tag, not the source's message string or `TypeError` object.
- `LineageSpec.DefineWrongOrder`: stated only where no `null` argument can throw. `DefineThrows` covers every argument list.
