/** The linker that resolves imports by name (`src/linker.rs`): a map from pairs of strings, kept
    through interned string numbers. */
module ImportLinker {
  import opened WasmTypes

  datatype EntityKind = FunctionEntity | TableEntity | MemoryEntity | GlobalEntity

  /** A definition that can be imported. */
  datatype Extern = Extern(kind: EntityKind, handle: nat)

  datatype ImportKey = ImportKey(name: nat, mod: nat)

  datatype LinkResult = Linked | AlreadyDefined(mod: string, field: string)

  datatype Import = Import(mod: string, name: string, kind: EntityKind)

  datatype Imports = Imports(functions: seq<nat>, tables: seq<nat>, memories: seq<nat>, globals: seq<nat>)

  datatype ResolveResult = Resolved(imports: Imports) | MissingImport(mod: string, field: string) | Mismatched

  // ---------------------------------------------------------------- bindings

  /** Strings and their numbers are each other's inverse; keys are pairs of numbers in use. */
  ghost predicate TablesOk(string2idx: map<string, nat>, strings: seq<string>, m: map<ImportKey, Extern>) {
    && (forall s :: s in string2idx ==> string2idx[s] < |strings| && strings[string2idx[s]] == s)
    && (forall i :: 0 <= i < |strings| ==> strings[i] in string2idx && string2idx[strings[i]] == i)
    && (forall k :: k in m ==> k.name < |strings| && k.mod < |strings|)
  }

  /** What a name of a module is bound to. */
  function Binding(string2idx: map<string, nat>, m: map<ImportKey, Extern>, mod: string, name: string): Option<Extern> {
    if mod in string2idx && name in string2idx && ImportKey(string2idx[name], string2idx[mod]) in m
    then Some(m[ImportKey(string2idx[name], string2idx[mod])]) else None
  }

  /** The imports as instantiation sees them: each looked up, in order, stopping at the first that is not there or does not fit. */
  function Resolve(string2idx: map<string, nat>, m: map<ImportKey, Extern>, imports: seq<Import>): ResolveResult
    decreases |imports|
  {
    if imports == [] then Resolved(Imports([], [], [], [])) else
      var n := |imports| - 1;
      var r := Resolve(string2idx, m, imports[..n]);
      if !r.Resolved? then r else
        var def := Binding(string2idx, m, imports[n].mod, imports[n].name);
        if def.None? then MissingImport(imports[n].mod, imports[n].name)
        else if def.value.kind != imports[n].kind then Mismatched
        else Resolved(AddImport(r.imports, def.value))
  }

  function AddImport(i: Imports, def: Extern): Imports {
    match def.kind
    case FunctionEntity => i.(functions := i.functions + [def.handle])
    case TableEntity => i.(tables := i.tables + [def.handle])
    case MemoryEntity => i.(memories := i.memories + [def.handle])
    case GlobalEntity => i.(globals := i.globals + [def.handle])
  }

  function Count(imports: seq<Import>, kind: EntityKind): nat {
    if imports == [] then 0 else Count(imports[..|imports| - 1], kind) + if imports[|imports| - 1].kind == kind then 1 else 0
  }

  predicate Fits(string2idx: map<string, nat>, m: map<ImportKey, Extern>, i: Import) {
    var def := Binding(string2idx, m, i.mod, i.name);
    def.Some? && def.value.kind == i.kind
  }

  /** Import `i` got the slot of its kind whose number is the number of imports of that kind before it. */
  predicate SlotOf(string2idx: map<string, nat>, m: map<ImportKey, Extern>, imports: seq<Import>, r: Imports, i: nat)
    requires i < |imports|
  {
    var k := Count(imports[..i], imports[i].kind);
    && Fits(string2idx, m, imports[i])
    && var handle := Binding(string2idx, m, imports[i].mod, imports[i].name).value.handle;
       match imports[i].kind
       case FunctionEntity => k < |r.functions| && r.functions[k] == handle
       case TableEntity => k < |r.tables| && r.tables[k] == handle
       case MemoryEntity => k < |r.memories| && r.memories[k] == handle
       case GlobalEntity => k < |r.globals| && r.globals[k] == handle
  }

  /** There are as many slots of each kind as imports. */
  predicate OneSlotEach(imports: seq<Import>, r: Imports) {
    && |r.functions| == Count(imports, FunctionEntity) && |r.tables| == Count(imports, TableEntity)
    && |r.memories| == Count(imports, MemoryEntity) && |r.globals| == Count(imports, GlobalEntity)
  }

  /** Import `i` is the first that does not fit. */
  predicate FirstMisfit(string2idx: map<string, nat>, m: map<ImportKey, Extern>, imports: seq<Import>, i: nat) {
    i < |imports| && !Fits(string2idx, m, imports[i]) && forall k :: 0 <= k < i ==> Fits(string2idx, m, imports[k])
  }

  lemma SlotKept(string2idx: map<string, nat>, m: map<ImportKey, Extern>, imports: seq<Import>, r: Imports, def: Extern, i: nat)
    requires i < |imports| - 1 && SlotOf(string2idx, m, imports[..|imports| - 1], r, i)
    ensures SlotOf(string2idx, m, imports, AddImport(r, def), i)
  {
    hide Binding, Fits, Count;
    assert imports[..|imports| - 1][..i] == imports[..i];
  }

  lemma SlotAdded(string2idx: map<string, nat>, m: map<ImportKey, Extern>, imports: seq<Import>, r: Imports)
    requires imports != [] && OneSlotEach(imports[..|imports| - 1], r) && Fits(string2idx, m, imports[|imports| - 1])
    ensures
      var n := |imports| - 1;
      var r' := AddImport(r, Binding(string2idx, m, imports[n].mod, imports[n].name).value);
      OneSlotEach(imports, r') && SlotOf(string2idx, m, imports, r', n)
  {
    hide Binding;
  }

  /** Resolving succeeds exactly if every import is bound to a definition of its kind; then there is one slot per
      import of each kind, and the slots of a kind are its imports' definitions in order. */
  lemma {:induction false} ResolveExact(string2idx: map<string, nat>, m: map<ImportKey, Extern>, imports: seq<Import>)
    ensures
      var r := Resolve(string2idx, m, imports);
      && (r.Resolved? <==> forall i :: 0 <= i < |imports| ==> Fits(string2idx, m, imports[i]))
      && (r.Resolved? ==> OneSlotEach(imports, r.imports))
      && (r.Resolved? ==> forall i :: 0 <= i < |imports| ==> SlotOf(string2idx, m, imports, r.imports, i))
    decreases |imports|
  {
    if imports != [] {
      hide Binding, SlotOf, OneSlotEach, AddImport, Count;
      var n := |imports| - 1;
      ResolveExact(string2idx, m, imports[..n]);
      assert forall i :: 0 <= i < n ==> imports[..n][i] == imports[i];
      var r0, r := Resolve(string2idx, m, imports[..n]), Resolve(string2idx, m, imports);
      if r.Resolved? {
        SlotAdded(string2idx, m, imports, r0.imports);
        var def := Binding(string2idx, m, imports[n].mod, imports[n].name).value;
        forall i | 0 <= i < |imports| ensures SlotOf(string2idx, m, imports, r.imports, i) {
          if i < n {
            SlotKept(string2idx, m, imports, r0.imports, def, i);
          }
        }
      }
    }
  }

  /** The first import that does not fit decides the error: it is reported as missing if it is not bound, and the kinds are
      mismatched if it is bound. */
  lemma {:induction false} ResolveFails(string2idx: map<string, nat>, m: map<ImportKey, Extern>, imports: seq<Import>, i: nat)
    requires FirstMisfit(string2idx, m, imports, i)
    ensures
      var def := Binding(string2idx, m, imports[i].mod, imports[i].name);
      Resolve(string2idx, m, imports) == if def.None? then MissingImport(imports[i].mod, imports[i].name) else Mismatched
    decreases |imports|
  {
    hide Binding;
    var n := |imports| - 1;
    ResolveExact(string2idx, m, imports[..n]);
    assert forall k :: 0 <= k < n ==> imports[..n][k] == imports[k];
    if i < n {
      ResolveFails(string2idx, m, imports[..n], i);
    }
  }

  // ---------------------------------------------------------------- numbers and names

  lemma InternKeeps(string2idx: map<string, nat>, strings: seq<string>, m: map<ImportKey, Extern>, s: string)
    requires TablesOk(string2idx, strings, m) && s !in string2idx
    ensures TablesOk(string2idx[s := |strings|], strings + [s], m)
    ensures forall mod, n :: Binding(string2idx[s := |strings|], m, mod, n) == Binding(string2idx, m, mod, n)
  {
    forall mod, n ensures Binding(string2idx[s := |strings|], m, mod, n) == Binding(string2idx, m, mod, n) {
      forall k: ImportKey | k.name == |strings| || k.mod == |strings| ensures k !in m {
      }
    }
  }

  lemma KeyBound(string2idx: map<string, nat>, strings: seq<string>, m: map<ImportKey, Extern>, k: ImportKey)
    requires TablesOk(string2idx, strings, m) && k.mod < |strings| && k.name < |strings|
    ensures Binding(string2idx, m, strings[k.mod], strings[k.name]) == if k in m then Some(m[k]) else None
  {
  }

  /** The binding of a name once key `k` is bound to `item`. */
  function WithBinding(mod: string, name: string, x: Option<Extern>, m: string, n: string, item: Extern): Option<Extern> {
    if m == mod && n == name then Some(item) else x
  }

  lemma InsertBinds(string2idx: map<string, nat>, strings: seq<string>, m: map<ImportKey, Extern>, k: ImportKey, item: Extern)
    requires TablesOk(string2idx, strings, m) && k.mod < |strings| && k.name < |strings|
    ensures TablesOk(string2idx, strings, m[k := item])
    ensures forall mod, n :: Binding(string2idx, m[k := item], mod, n)
                == WithBinding(strings[k.mod], strings[k.name], Binding(string2idx, m, mod, n), mod, n, item)
  {
    forall mod, n ensures Binding(string2idx, m[k := item], mod, n)
      == WithBinding(strings[k.mod], strings[k.name], Binding(string2idx, m, mod, n), mod, n, item)
    {
      if mod in string2idx && n in string2idx {
        assert strings[string2idx[mod]] == mod && strings[string2idx[n]] == n;
      }
    }
  }

  /** The binding of a name once `asMod` has all bindings of another module, in which the name is bound to `aliased`. */
  function WithAlias(asMod: string, x: Option<Extern>, aliased: Option<Extern>, m: string): Option<Extern> {
    if m == asMod && aliased.Some? then aliased else x
  }

  /** The definitions after the names numbered `done` were bound under `to` as they are under `from`. */
  ghost predicate AliasedSoFar(before: map<ImportKey, Extern>, after: map<ImportKey, Extern>, from: nat, to: nat, done: set<nat>) {
    && (forall k :: k in after <==> k in before || (k.mod == to && k.name in done))
    && (forall k :: k in before ==> after[k] == before[k])
    && (forall n :: n in done ==> ImportKey(n, from) in before && ImportKey(n, to) !in before
                                  && after[ImportKey(n, to)] == before[ImportKey(n, from)])
  }

  lemma AliasOne(before: map<ImportKey, Extern>, after: map<ImportKey, Extern>, from: nat, to: nat, done: set<nat>, n: nat)
    requires AliasedSoFar(before, after, from, to, done) && n !in done && ImportKey(n, from) in before
    ensures ImportKey(n, to) in after <==> ImportKey(n, to) in before
    ensures ImportKey(n, to) !in after ==>
              AliasedSoFar(before, after[ImportKey(n, to) := before[ImportKey(n, from)]], from, to, done + {n})
  {
  }

  /** What aliasing means for names. */
  lemma AliasBinds(string2idx: map<string, nat>, strings: seq<string>, before: map<ImportKey, Extern>, after: map<ImportKey, Extern>,
                   mod: string, asMod: string, done: set<nat>, m: string, n: string)
    requires TablesOk(string2idx, strings, before) && mod in string2idx && asMod in string2idx
    requires AliasedSoFar(before, after, string2idx[mod], string2idx[asMod], done)
    ensures
      var x, y := Binding(string2idx, before, m, n), Binding(string2idx, after, m, n);
      && (x.Some? ==> y == x) && (y != x ==> m == asMod && y == Binding(string2idx, before, mod, n))
      && (m == asMod && n in string2idx && string2idx[n] in done ==> y == Binding(string2idx, before, mod, n))
  {
    if m in string2idx && n in string2idx {
      var k := ImportKey(string2idx[n], string2idx[m]);
      if k !in before && k in after {
        assert k.name in done;
        assert strings[string2idx[m]] == m && strings[string2idx[asMod]] == asMod;
      }
    }
  }

  /** All names were aliased: exactly if none was bound under both. */
  lemma AliasComplete(string2idx: map<string, nat>, strings: seq<string>, before: map<ImportKey, Extern>, after: map<ImportKey, Extern>,
                      mod: string, asMod: string, done: set<nat>)
    requires TablesOk(string2idx, strings, before) && mod in string2idx && asMod in string2idx
    requires AliasedSoFar(before, after, string2idx[mod], string2idx[asMod], done)
    requires forall k :: k in before && k.mod == string2idx[mod] ==> k.name in done
    ensures forall n :: Binding(string2idx, before, mod, n) == None || Binding(string2idx, before, asMod, n) == None
    ensures forall m, n :: Binding(string2idx, after, m, n)
                == WithAlias(asMod, Binding(string2idx, before, m, n), Binding(string2idx, before, mod, n), m)
  {
    forall n ensures Binding(string2idx, before, mod, n) == None || Binding(string2idx, before, asMod, n) == None {
      if Binding(string2idx, before, mod, n).Some? {
        assert string2idx[n] in done;
      }
    }
    forall m, n ensures Binding(string2idx, after, m, n)
      == WithAlias(asMod, Binding(string2idx, before, m, n), Binding(string2idx, before, mod, n), m)
    {
      AliasBinds(string2idx, strings, before, after, mod, asMod, done, m, n);
      if m == asMod && Binding(string2idx, before, mod, n).Some? {
        assert string2idx[n] in done;
      }
    }
  }

  lemma AliasTables(string2idx: map<string, nat>, strings: seq<string>, before: map<ImportKey, Extern>, after: map<ImportKey, Extern>,
                    from: nat, to: nat, done: set<nat>)
    requires TablesOk(string2idx, strings, before) && AliasedSoFar(before, after, from, to, done) && to < |strings|
    ensures TablesOk(string2idx, strings, after)
  {
    forall k | k in after ensures k.name < |strings| && k.mod < |strings| {
      if k !in before {
        assert ImportKey(k.name, from) in before;
      }
    }
  }

  lemma KeyInRange(string2idx: map<string, nat>, strings: seq<string>, m: map<ImportKey, Extern>, k: ImportKey)
    requires TablesOk(string2idx, strings, m) && k in m
    ensures k.name < |strings| && k.mod < |strings|
  {
  }

  lemma KeyInRangeOf(string2idx: map<string, nat>, strings: seq<string>, m: map<ImportKey, Extern>, s: string)
    requires TablesOk(string2idx, strings, m) && s in string2idx
    ensures string2idx[s] < |strings|
  {
  }

  lemma BothBound(string2idx: map<string, nat>, strings: seq<string>, m: map<ImportKey, Extern>, mod: string, asMod: string, n: nat)
    returns (name: string)
    requires TablesOk(string2idx, strings, m) && mod in string2idx && asMod in string2idx
    requires ImportKey(n, string2idx[mod]) in m && ImportKey(n, string2idx[asMod]) in m
    ensures Binding(string2idx, m, mod, name).Some? && Binding(string2idx, m, asMod, name).Some?
  {
    name := strings[n];
    assert string2idx[name] == n;
  }

  // ---------------------------------------------------------------- the linker

  class Linker {
    var string2idx: map<string, nat>
    var strings: seq<string>
    var defs: map<ImportKey, Extern>

    ghost predicate Valid()
      reads this
    {
      TablesOk(string2idx, strings, defs)
    }

    /** What the linker means: its bindings by name. */
    ghost function Bound(mod: string, name: string): Option<Extern>
      reads this
    {
      Binding(string2idx, defs, mod, name)
    }

    constructor ()
      ensures Valid() && forall m, n :: Bound(m, n) == None
    {
      string2idx, strings, defs := map[], [], map[];
    }

    method Get(mod: string, name: string) returns (r: Option<Extern>)
      requires Valid()
      ensures r == Bound(mod, name)
    {
      if mod !in string2idx || name !in string2idx {
        return None;
      }
      var key := ImportKey(string2idx[name], string2idx[mod]);
      r := if key in defs then Some(defs[key]) else None;
    }

    /** The number of a string: the one it has, or the next. Numbers never change and bindings are not affected. */
    method InternStr(s: string) returns (i: nat)
      requires Valid()
      modifies this`string2idx, this`strings
      ensures Valid() && s in string2idx && string2idx[s] == i
      ensures old(strings) <= strings && forall x :: x in old(string2idx) ==> x in string2idx && string2idx[x] == old(string2idx)[x]
      ensures forall m, n :: Bound(m, n) == old(Bound(m, n))
    {
      if s in string2idx {
        return string2idx[s];
      }
      i := |strings|;
      InternKeeps(string2idx, strings, defs, s);
      strings := strings + [s];
      string2idx := string2idx[s := i];
    }

    /** Adds a binding, or reports that the name is taken. */
    method Insert(key: ImportKey, item: Extern) returns (r: LinkResult)
      requires Valid() && key.mod < |strings| && key.name < |strings|
      modifies this`defs
      ensures Valid()
      ensures r.Linked? <==> old(Bound(strings[key.mod], strings[key.name])) == None
      ensures r.Linked? <==> key !in old(defs)
      ensures r.Linked? ==> defs == old(defs)[key := item]
      ensures r.Linked? ==> forall m, n :: Bound(m, n) == WithBinding(strings[key.mod], strings[key.name], old(Bound(m, n)), m, n, item)
      ensures !r.Linked? ==> defs == old(defs) && r == AlreadyDefined(strings[key.mod], strings[key.name])
    {
      hide TablesOk, Binding;
      KeyBound(string2idx, strings, defs, key);
      if key in defs {
        return AlreadyDefined(strings[key.mod], strings[key.name]);
      }
      InsertBinds(string2idx, strings, defs, key, item);
      defs := defs[key := item];
      return Linked;
    }

    /** Binds the names numbered in `items` under `to` as they are under `from`, until one is taken. */
    method InsertAll(items: map<nat, Extern>, from: nat, to: nat) returns (r: LinkResult, ghost done: set<nat>)
      requires Valid() && to < |strings|
      requires forall n :: n in items <==> ImportKey(n, from) in defs
      requires forall n :: n in items ==> items[n] == defs[ImportKey(n, from)]
      modifies this`defs
      ensures Valid() && AliasedSoFar(old(defs), defs, from, to, done)
      ensures r.Linked? ==> done == items.Keys
      ensures !r.Linked? ==> exists n :: n in items && ImportKey(n, to) in old(defs)
    {
      ghost var before := defs;
      done := {};
      var todo := items.Keys;
      while todo != {}
        invariant todo <= items.Keys && done == items.Keys - todo
        invariant AliasedSoFar(before, defs, from, to, done) && TablesOk(string2idx, strings, defs)
        decreases todo
      {
        hide AliasedSoFar;
        var n :| n in todo;
        KeyInRange(string2idx, strings, before, ImportKey(n, from));
        AliasOne(before, defs, from, to, done, n);
        AliasTables(string2idx, strings, before, defs, from, to, done);
        r := Insert(ImportKey(n, to), items[n]);
        if !r.Linked? {
          return;
        }
        todo := todo - {n};
        done := done + {n};
      }
      r := Linked;
    }

    /** Aliasing once both module names have numbers. */
    method AliasInterned(mod: string, asMod: string) returns (r: LinkResult)
      requires Valid() && mod in string2idx && asMod in string2idx
      modifies this`defs
      ensures Valid()
      ensures r.Linked? <==> forall n :: old(Bound(mod, n)) == None || old(Bound(asMod, n)) == None
      ensures r.Linked? ==> forall m, n :: Bound(m, n) == WithAlias(asMod, old(Bound(m, n)), old(Bound(mod, n)), m)
      ensures forall m, n :: old(Bound(m, n)).Some? ==> Bound(m, n) == old(Bound(m, n))
      ensures forall m, n :: Bound(m, n) != old(Bound(m, n)) ==> m == asMod && Bound(m, n) == old(Bound(mod, n))
    {
      hide Binding, TablesOk, AliasedSoFar;
      var from, to := string2idx[mod], string2idx[asMod];
      ghost var before := defs;
      var items := map key | key in defs && key.mod == from :: key.name := defs[key];
      assert forall n :: n in items <==> ImportKey(n, from) in defs;
      KeyInRangeOf(string2idx, strings, defs, asMod);
      ghost var done: set<nat>;
      r, done := InsertAll(items, from, to);
      forall m, n
        ensures Binding(string2idx, before, m, n).Some? ==> Bound(m, n) == Binding(string2idx, before, m, n)
        ensures Bound(m, n) != Binding(string2idx, before, m, n) ==> m == asMod && Bound(m, n) == Binding(string2idx, before, mod, n)
      {
        AliasBinds(string2idx, strings, before, defs, mod, asMod, done, m, n);
      }
      if r.Linked? {
        AliasComplete(string2idx, strings, before, defs, mod, asMod, done);
      } else {
        ghost var n :| n in items && ImportKey(n, to) in before;
        ghost var name := BothBound(string2idx, strings, before, mod, asMod, n);
        assert old(Bound(mod, name)).Some? && old(Bound(asMod, name)).Some?;
      }
    }

    /** Binds all names of `mod` under `asMod` too. It succeeds exactly if no name is bound in both. Whatever the outcome, no
        existing binding changes and nothing is bound but names of `asMod`, to what they are in `mod`. */
    method AliasModule(mod: string, asMod: string) returns (r: LinkResult)
      requires Valid()
      modifies this
      ensures Valid()
      ensures r.Linked? <==> forall n :: old(Bound(mod, n)) == None || old(Bound(asMod, n)) == None
      ensures r.Linked? ==> forall m, n :: Bound(m, n) == WithAlias(asMod, old(Bound(m, n)), old(Bound(mod, n)), m)
      ensures forall m, n :: old(Bound(m, n)).Some? ==> Bound(m, n) == old(Bound(m, n))
      ensures forall m, n :: Bound(m, n) != old(Bound(m, n)) ==> m == asMod && Bound(m, n) == old(Bound(mod, n))
    {
      hide Binding, TablesOk;
      var _ := InternStr(mod);
      var _ := InternStr(asMod);
      r := AliasInterned(mod, asMod);
    }

    /** Binds the exports of an instance, which have different names, under `mod`. It succeeds exactly if none of them is bound
        there; whatever the outcome, no existing binding changes. */
    method DefineInstance(mod: string, exports: seq<(string, Extern)>) returns (r: LinkResult)
      requires Valid() && forall i, j :: 0 <= i < j < |exports| ==> exports[i].0 != exports[j].0
      modifies this
      ensures Valid()
      ensures r.Linked? <==> forall i :: 0 <= i < |exports| ==> old(Bound(mod, exports[i].0)) == None
      ensures r.Linked? ==> forall i :: 0 <= i < |exports| ==> Bound(mod, exports[i].0) == Some(exports[i].1)
      ensures forall m, n :: old(Bound(m, n)).Some? ==> Bound(m, n) == old(Bound(m, n))
      ensures forall m, n :: Bound(m, n) != old(Bound(m, n)) ==> m == mod && exists i :: 0 <= i < |exports| && exports[i].0 == n
    {
      hide Binding, TablesOk;
      var keys := InternExports(mod, exports);
      assert forall m, n :: Bound(m, n) == old(Bound(m, n));
      var i := 0;
      r := Linked;
      while i < |exports|
        invariant 0 <= i <= |exports| && Valid() && |keys| == |exports| && r.Linked?
        invariant forall j :: 0 <= j < |keys| ==> keys[j].mod < |strings| && keys[j].name < |strings|
        invariant forall j :: 0 <= j < |keys| ==> strings[keys[j].mod] == mod && strings[keys[j].name] == exports[j].0
        invariant forall j :: 0 <= j < i ==> old(Bound(mod, exports[j].0)) == None && Bound(mod, exports[j].0) == Some(exports[j].1)
        invariant forall m, n :: old(Bound(m, n)).Some? ==> Bound(m, n) == old(Bound(m, n))
        invariant forall m, n :: Bound(m, n) != old(Bound(m, n)) ==> m == mod && exists j :: 0 <= j < i && exports[j].0 == n
      {
        assert Bound(mod, exports[i].0) == old(Bound(mod, exports[i].0));
        r := Insert(keys[i], exports[i].1);
        if !r.Linked? {
          return;
        }
        i := i + 1;
      }
    }

    /** The keys of the exports. */
    method InternExports(mod: string, exports: seq<(string, Extern)>) returns (keys: seq<ImportKey>)
      requires Valid()
      modifies this`string2idx, this`strings
      ensures Valid() && |keys| == |exports| && forall m, n :: Bound(m, n) == old(Bound(m, n))
      ensures forall j :: 0 <= j < |keys| ==> keys[j].mod < |strings| && keys[j].name < |strings|
      ensures forall j :: 0 <= j < |keys| ==> strings[keys[j].mod] == mod && strings[keys[j].name] == exports[j].0
    {
      hide Binding;
      keys := [];
      var i := 0;
      while i < |exports|
        invariant 0 <= i <= |exports| && Valid() && |keys| == i && forall m, n :: Bound(m, n) == old(Bound(m, n))
        invariant forall j :: 0 <= j < |keys| ==> keys[j].mod < |strings| && keys[j].name < |strings|
        invariant forall j :: 0 <= j < |keys| ==> strings[keys[j].mod] == mod && strings[keys[j].name] == exports[j].0
      {
        var m := InternStr(mod);
        var n := InternStr(exports[i].0);
        keys := keys + [ImportKey(n, m)];
        i := i + 1;
      }
    }

    /** Looks up the imports of a module, in order. */
    method ResolveImports(imports: seq<Import>) returns (r: ResolveResult)
      requires Valid()
      ensures r == Resolve(string2idx, defs, imports)
    {
      hide Binding;
      var found := Imports([], [], [], []);
      var i := 0;
      while i < |imports|
        invariant 0 <= i <= |imports| && Resolve(string2idx, defs, imports[..i]) == Resolved(found)
      {
        assert imports[..i + 1][..i] == imports[..i];
        var def := Get(imports[i].mod, imports[i].name);
        if def.None? {
          StopsEarly(string2idx, defs, imports, i + 1);
          return MissingImport(imports[i].mod, imports[i].name);
        }
        if def.value.kind != imports[i].kind {
          StopsEarly(string2idx, defs, imports, i + 1);
          return Mismatched;
        }
        found := AddImport(found, def.value);
        i := i + 1;
      }
      assert imports[..i] == imports;
      return Resolved(found);
    }
  }

  lemma {:induction false} StopsEarly(string2idx: map<string, nat>, m: map<ImportKey, Extern>, imports: seq<Import>, i: nat)
    requires i <= |imports| && !Resolve(string2idx, m, imports[..i]).Resolved?
    ensures Resolve(string2idx, m, imports) == Resolve(string2idx, m, imports[..i])
    decreases |imports| - i
  {
    hide Binding;
    if i == |imports| {
      assert imports[..i] == imports;
    } else {
      assert imports[..i + 1][..i] == imports[..i];
      StopsEarly(string2idx, m, imports, i + 1);
    }
  }
}
