/** The engine's type registry: `TypeRegistryInner` of `src/type_registry.rs`, its
    hash consing of recursion groups and its reference counted unregistration. */
module TypeRegistry {
  import opened WasmTypes
  import opened IsoRecursive
  import opened RegistryStore
  import opened RegistryOps

  // ---------------------------------------------------------------- canonicalisation

  /** One reference rewritten for hash consing: positions of the own group, which starts
      at `|types|`, become group-relative, earlier module indices engine-wide. */
  function CanonRef(types: seq<nat>, x: TypeIndex): TypeIndex {
    if !x.Module? then x
    else if x.interned < |types| then Shared(types[x.interned])
    else RecGroup(x.interned - |types|)
  }

  function GroupKey(types: seq<nat>, ts: seq<SubType<TypeIndex>>): (key: Key)
    ensures |key| == |ts|
  {
    MapGroup(ts, x => CanonRef(types, x))
  }

  /** One reference rewritten for runtime usage. References into the own group become
      the slab's length plus module index plus group start, as the code has it. */
  function RuntimeRef(types: seq<nat>, base: nat, x: TypeIndex): TypeIndex {
    if !x.Module? then x
    else if x.interned < |types| then Shared(types[x.interned])
    else Shared(base + (x.interned + |types|))
  }

  function RuntimeTypes(types: seq<nat>, base: nat, ts: seq<SubType<TypeIndex>>): (r: seq<SubType<TypeIndex>>)
    ensures |r| == |ts|
  {
    MapGroup(ts, x => RuntimeRef(types, base, x))
  }

  ghost predicate AllOwned(g: Graph, types: seq<nat>) {
    forall i :: 0 <= i < |types| ==> types[i] in g.owner
  }

  /** `types` gives every defined type the index that stands for it. */
  ghost predicate Denotes(g: Graph, types: seq<nat>, defs: seq<Def>) {
    |types| == |defs| && forall i :: 0 <= i < |types| ==> types[i] in g.den && g.den[types[i]] == defs[i]
  }

  lemma GroupKeyOk(g: Graph, types: seq<nat>, ts: seq<SubType<TypeIndex>>)
    requires Structured(g) && AllOwned(g, types) && GroupRefersBelow(ts, |types| + |ts|)
    ensures KeyOk(g, GroupKey(types, ts))
  {
    hide EntriesOk, KeysDistinct, DenInjective, OwnersLive, TraceGroup, MapGroup;
    var f := x => CanonRef(types, x);
    TraceMapGroup(ts, f);
    forall y | y in TraceGroup(GroupKey(types, ts)) ensures RefOk(g, |g.arena|, |ts|, y) {
      var i :| 0 <= i < |TraceGroup(ts)| && y == f(TraceGroup(ts)[i]);
      assert TraceGroup(ts)[i] in TraceGroup(ts);
      if y.Shared? {
        OwnerInArena(g, y.shared);
      }
    }
  }

  /** Canonicalising a group and reading the key back gives the group's closed form. */
  lemma KeyMeansGroup(g: Graph, types: seq<nat>, defs: seq<Def>, ts: seq<SubType<TypeIndex>>)
    requires Denotes(g, types, defs) && GroupRefersBelow(ts, |types| + |ts|)
    ensures KeyBody(g.den, GroupKey(types, ts)) == RollGroup(defs, ts)
  {
    hide MapGroup, TraceGroup;
    var f, k, h := x => CanonRef(types, x), x => KeyRef(g.den, x), x => RollRef(defs, x);
    forall x | x in TraceGroup(ts) ensures k(f(x)) == h(x) {
    }
    MapMapGroup(ts, f, k, h);
  }

  // ---------------------------------------------------------------- helpers for the loops

  lemma {:induction false} MultAppend(refs: seq<nat>, s: nat, indices: seq<nat>)
    ensures Mult(refs + [s], indices) == Mult(refs, indices) + if s in indices then 1 else 0
  {
    if refs != [] {
      assert (refs + [s])[1..] == refs[1..] + [s];
      MultAppend(refs[1..], s, indices);
    }
  }

  lemma MultTake(refs: seq<nat>, j: nat, indices: seq<nat>)
    requires j < |refs|
    ensures Mult(refs[..j + 1], indices) == Mult(refs[..j], indices) + if refs[j] in indices then 1 else 0
  {
    assert refs[..j + 1] == refs[..j] + [refs[j]];
    MultAppend(refs[..j], refs[j], indices);
  }

  lemma {:induction false} MultTakeMonotone(refs: seq<nat>, j: nat, indices: seq<nat>)
    requires j <= |refs|
    ensures Mult(refs[..j], indices) <= Mult(refs, indices)
    decreases |refs| - j
  {
    if j < |refs| {
      MultTake(refs, j, indices);
      MultTakeMonotone(refs, j + 1, indices);
    } else {
      assert refs[..j] == refs;
    }
  }

  lemma CountedStep(st: Store, refs: seq<nat>, j: nat)
    requires Structured(st.g) && |st.registrations| == |st.g.arena| && j < |refs| && refs[j] in st.g.owner
    ensures st.g.owner[refs[j]] < |st.g.arena|
    ensures
      var o := st.g.owner[refs[j]];
      Counted(st, refs[..j + 1]) == Counted(st, refs[..j])[o := Counted(st, refs[..j])[o] + 1]
  {
    hide EntriesOk, KeysDistinct, DenInjective, OwnersLive, Mult;
    OwnerInArena(st.g, refs[j]);
    var o := st.g.owner[refs[j]];
    forall x | 0 <= x < |st.g.arena|
      ensures Counted(st, refs[..j + 1])[x] == Counted(st, refs[..j])[x] + if x == o then 1 else 0
    {
      if x in st.g.live {
        MultTake(refs, j, st.g.arena[x].indices);
        OwnerIff(st.g, x, refs[j]);
      }
    }
  }

  lemma CountedNone(st: Store)
    requires |st.registrations| == |st.g.arena|
    ensures Counted(st, []) == st.registrations
  {
  }

  predicate Free(keys: set<nat>, id: nat) {
    id !in keys
  }

  lemma FreshIdExists(keys: set<nat>)
    ensures exists id: nat :: Free(keys, id)
  {
    var m := UpperBound(keys);
    assert Free(keys, m);
  }

  lemma UpperBound(keys: set<nat>) returns (m: nat)
    ensures forall k :: k in keys ==> k < m
  {
    if keys == {} {
      m := 0;
    } else {
      var k :| k in keys;
      var m' := UpperBound(keys - {k});
      m := if m' <= k then k + 1 else m';
      assert forall x :: x in keys ==> x == k || x in keys - {k};
    }
  }

  /** The counters half way through releasing the references of entry `e`. */
  ghost predicate PartlyReleased(st: Store, regs: seq<nat>, e: nat, j: nat)
    requires e in st.g.live && LiveInArena(st.g) && |st.registrations| == |st.g.arena|
    requires j <= |Refs(st.g.arena[e].key)|
  {
    && |regs| == |st.registrations|
    && (forall x :: 0 <= x < |regs| && (x !in st.g.live || x == e) ==> regs[x] == st.registrations[x])
    && (forall x :: x in st.g.live && x != e ==>
          regs[x] + Mult(Refs(st.g.arena[e].key)[..j], st.g.arena[x].indices) == st.registrations[x])
  }

  lemma PartlyReleasedOne(st: Store, handles: multiset<nat>, regs: seq<nat>, e: nat, j: nat, x: nat)
    requires Structured(st.g) && Conserved(st, handles) && e in st.g.live && st.registrations[e] == 0
    requires j < |Refs(st.g.arena[e].key)| && x in st.g.live && x != e
    requires x < |regs|
    requires regs[x] + Mult(Refs(st.g.arena[e].key)[..j], st.g.arena[x].indices) == st.registrations[x]
    ensures
      var s := Refs(st.g.arena[e].key)[j];
      && s in st.g.owner
      && Mult(Refs(st.g.arena[e].key)[..j + 1], st.g.arena[x].indices)
         == Mult(Refs(st.g.arena[e].key)[..j], st.g.arena[x].indices) + (if x == st.g.owner[s] then 1 else 0)
      && (x == st.g.owner[s] ==> regs[x] > 0)
  {
    hide Structured, Mult, Refs;
    var refs := Refs(st.g.arena[e].key);
    RefIsOlder(st.g, e, refs[j]);
    ReleasedConserved(st, handles, e);
    MultTake(refs, j, st.g.arena[x].indices);
    OwnerIff(st.g, x, refs[j]);
    MultTakeMonotone(refs, j + 1, st.g.arena[x].indices);
  }

  lemma PartlyReleasedStep(st: Store, handles: multiset<nat>, regs: seq<nat>, e: nat, j: nat)
    requires Structured(st.g) && Conserved(st, handles) && e in st.g.live && st.registrations[e] == 0
    requires j < |Refs(st.g.arena[e].key)| && PartlyReleased(st, regs, e, j)
    ensures
      var s := Refs(st.g.arena[e].key)[j];
      && s in st.g.owner && st.g.owner[s] in st.g.live && st.g.owner[s] < |regs| && st.g.owner[s] != e
      && regs[st.g.owner[s]] > 0
      && PartlyReleased(st, regs[st.g.owner[s] := regs[st.g.owner[s]] - 1], e, j + 1)
  {
    hide Structured, InDegree, Mult, Refs;
    var s := Refs(st.g.arena[e].key)[j];
    RefIsOlder(st.g, e, s);
    var o := st.g.owner[s];
    PartlyReleasedOne(st, handles, regs, e, j, o);
    var regs' := regs[o := regs[o] - 1];
    forall x | x in st.g.live && x != e
      ensures regs'[x] + Mult(Refs(st.g.arena[e].key)[..j + 1], st.g.arena[x].indices) == st.registrations[x]
    {
      PartlyReleasedOne(st, handles, regs, e, j, x);
    }
  }

  /** Each place in the key adds one to the counter of the group it mentions. */
  lemma CountedInto(st: Store, key: Key)
    requires |st.registrations| == |st.g.arena|
    ensures forall x :: x in st.g.live && x < |st.g.arena| ==>
              Counted(st, Refs(key))[x] == st.registrations[x] + IntoGroup(key, st.g.arena[x].indices)
  {
    hide Refs, Mult, IntoGroup;
    forall x | x in st.g.live && x < |st.g.arena|
      ensures Counted(st, Refs(key))[x] == st.registrations[x] + IntoGroup(key, st.g.arena[x].indices)
    {
      MultIsInto(key, st.g.arena[x].indices);
    }
  }

  lemma PartlyReleasedDone(st: Store, regs: seq<nat>, e: nat)
    requires e in st.g.live && LiveInArena(st.g) && |st.registrations| == |st.g.arena|
    requires PartlyReleased(st, regs, e, |Refs(st.g.arena[e].key)|)
    ensures regs == Uncounted(st, e)
    ensures forall x :: x in st.g.live && x != e ==> regs[x] + IntoGroup(st.g.arena[e].key, st.g.arena[x].indices) == st.registrations[x]
  {
    hide Refs, Mult, IntoGroup;
    forall x | x in st.g.live && x != e
      ensures Mult(Refs(st.g.arena[e].key), st.g.arena[x].indices) == IntoGroup(st.g.arena[e].key, st.g.arena[x].indices)
    {
      MultIsInto(st.g.arena[e].key, st.g.arena[x].indices);
    }
    var refs, un := Refs(st.g.arena[e].key), Uncounted(st, e);
    assert refs[..|refs|] == refs;
    forall x | 0 <= x < |regs| ensures regs[x] == un[x] {
    }
  }

  lemma ElemsTake(m: seq<nat>, k: nat)
    requires k < |m|
    ensures ElemsOf(m[..k + 1]) == ElemsOf(m[..k]) + {m[k]}
  {
    assert m[..k + 1] == m[..k] + [m[k]];
  }

  lemma SizesAgree(st: Store, handles: multiset<nat>)
    requires RegistryStore.Valid(st, handles)
    ensures |st.registrations| == |st.g.arena| && LiveInArena(st.g) && st.g.types.Keys == st.g.owner.Keys
    ensures Structured(st.g)
  {
    hide EntriesOk, KeysDistinct, DenInjective, OwnersLive;
  }

  lemma InsertedValid(st: Store, handles: multiset<nat>, key: Key, ids: seq<nat>, stored: seq<SubType<TypeIndex>>)
    requires RegistryStore.Valid(st, handles) && Insertable(st.g, key, ids, stored)
    ensures RegistryStore.Valid(Inserted(st, key, ids, stored), handles + multiset{|st.g.arena|})
  {
    hide EntriesOk, KeysDistinct, DenInjective, OwnersLive, KeyOk, FreshIds, InDegree, Refs, Mult,
         Bind, KeyBody, GroupDefs, Repeat;
    GrownStructured(st.g, key, ids, stored);
    InsertedConserved(st, handles, key, ids, stored);
    assert ZerosWithin(Inserted(st, key, ids, stored), {});
  }

  lemma IncrementedValid(st: Store, handles: multiset<nat>, e: nat)
    requires RegistryStore.Valid(st, handles) && e in st.g.live
    ensures e < |st.registrations| && RegistryStore.Valid(Incremented(st, e), handles + multiset{e})
  {
    hide EntriesOk, KeysDistinct, DenInjective, OwnersLive, InDegree;
    IncrementedKeeps(st, handles, e);
  }

  /** What registering a group with key `key` does: one more registration of the live entry
      that has this key, or else a new entry. */
  ghost predicate RegisteredGroup(st: Store, st': Store, key: Key, stored: seq<SubType<TypeIndex>>, entry: nat)
    requires |st.registrations| == |st.g.arena| && |stored| == |key|
  {
    && entry in st'.g.live && entry < |st'.g.arena| && st'.g.arena[entry].key == key
    && if exists e :: e in st.g.live && e < |st.g.arena| && st.g.arena[e].key == key then
         entry < |st.registrations| && st' == Incremented(st, entry)
       else
         && |st'.g.arena[entry].indices| == |key| && FreshIds(st.g, st'.g.arena[entry].indices)
         && st' == Inserted(st, key, st'.g.arena[entry].indices, stored)
  }

  ghost predicate Extends(g: Graph, g': Graph) {
    && (forall s :: s in g.owner ==> s in g'.owner && g'.owner[s] == g.owner[s])
    && (forall s :: s in g.den ==> s in g'.den && g'.den[s] == g.den[s])
  }

  /** The types of `entry` are the closed types of a group with body `body`. */
  ghost predicate EntryMeans(g: Graph, entry: nat, body: seq<SubType<Ref>>) {
    && entry < |g.arena|
    && Denotes(g, g.arena[entry].indices, GroupDefs(body))
    && forall s :: s in g.arena[entry].indices ==> s in g.owner && g.owner[s] == entry
  }

  lemma LiveEntryMeans(g: Graph, e: nat)
    requires Structured(g) && e in g.live
    ensures EntryMeans(g, e, KeyBody(g.den, g.arena[e].key))
  {
    hide KeysDistinct, DenInjective, OwnersLive, KeyBody, RefersToOlder;
    assert EntryOk(g, e);
  }

  lemma GrownEntryMeans(g: Graph, key: Key, ids: seq<nat>, stored: seq<SubType<TypeIndex>>)
    requires Insertable(g, key, ids, stored)
    ensures EntryMeans(Grown(g, key, ids, stored), |g.arena|, KeyBody(g.den, key))
    ensures Extends(g, Grown(g, key, ids, stored))
  {
    hide Structured, KeyBody, KeyOk, Bind, Repeat, FreshIds;
    GrownMaps(g, key, ids, stored);
  }

  /** Registering a group extends what the indices stand for by the group's closed types. */
  lemma RegisteredGroupDenotes(st: Store, handles: multiset<nat>, st': Store, types: seq<nat>, defs: seq<Def>,
                               ts: seq<SubType<TypeIndex>>, stored: seq<SubType<TypeIndex>>, entry: nat)
    requires RegistryStore.Valid(st, handles) && |st.registrations| == |st.g.arena| && |stored| == |ts|
    requires AllOwned(st.g, types)
    requires RegisteredGroup(st, st', GroupKey(types, ts), stored, entry)
    requires Denotes(st.g, types, defs) && GroupRefersBelow(ts, |types| + |ts|)
    ensures EntryMeans(st'.g, entry, RollGroup(defs, ts))
    ensures Denotes(st'.g, types + st'.g.arena[entry].indices, defs + GroupDefs(RollGroup(defs, ts)))
    ensures Extends(st.g, st'.g)
  {
    hide EntriesOk, KeysDistinct, DenInjective, OwnersLive, Conserved, KeyBody, GroupKey, RollGroup, KeyOk, Grown,
         GroupRefersBelow, FreshIds, GroupDefs;
    var key := GroupKey(types, ts);
    KeyMeansGroup(st.g, types, defs, ts);
    if e :| e in st.g.live && e < |st.g.arena| && st.g.arena[e].key == key {
      LiveEntryMeans(st.g, entry);
    } else {
      GroupKeyOk(st.g, types, ts);
      GrownEntryMeans(st.g, key, st'.g.arena[entry].indices, stored);
      assert |st.g.arena| == entry by { hide Inserted; NewEntryIsLast(st, st', key, stored, entry); }
    }
  }

  lemma NewEntryIsLast(st: Store, st': Store, key: Key, stored: seq<SubType<TypeIndex>>, entry: nat)
    requires |st.registrations| == |st.g.arena| && |stored| == |key|
    requires RegisteredGroup(st, st', key, stored, entry)
    requires !exists e :: e in st.g.live && e < |st.g.arena| && st.g.arena[e].key == key
    ensures entry == |st.g.arena|
  {
    hide FreshIds, Bind, KeyBody, GroupDefs, Counted, Repeat;
    assert entry in st.g.live || entry == |st.g.arena|;
  }

  /** The `n`-th group of a module, the last of those considered, is registered after the others. */
  ghost predicate RegisteredLast(m: ModuleTypes, n: nat, mid: Store, before: seq<nat>,
                                 st': Store, entries: seq<nat>, types: seq<nat>)
    requires WellFormed(m) && 0 < n <= |m.recGroups| && |entries| == n
  {
    var entry := entries[n - 1];
    && |mid.registrations| == |mid.g.arena|
    && RegisteredGroup(mid, st', GroupKey(before, GroupTypes(m, n - 1)),
                       RuntimeTypes(before, |mid.g.types|, GroupTypes(m, n - 1)), entry)
    && types == before + st'.g.arena[entry].indices
  }

  /** The first `n` groups of a module were registered one after the other: `entries` are their
      entries and `types` the shared indices of their types, in order. */
  ghost predicate RegisteredGroups(m: ModuleTypes, n: nat, st: Store, st': Store, entries: seq<nat>, types: seq<nat>)
    requires WellFormed(m) && n <= |m.recGroups|
    decreases n
  {
    |entries| == n &&
    if n == 0 then st' == st && types == [] else
      exists mid: Store, before: seq<nat> ::
        && RegisteredLast(m, n, mid, before, st', entries, types)
        && RegisteredGroups(m, n - 1, st, mid, entries[..n - 1], before)
  }

  lemma ModuleStart(m: ModuleTypes, st: Store)
    requires WellFormed(m)
    ensures RegisteredGroups(m, 0, st, st, [], []) && Denotes(st.g, [], Roll(m, 0))
  {
  }

  lemma ModuleStep(m: ModuleTypes, n: nat, st0: Store, st: Store, handles: multiset<nat>, st': Store,
                   entries: seq<nat>, types: seq<nat>, entry: nat)
    requires WellFormed(m) && n < |m.recGroups|
    requires RegistryStore.Valid(st, handles) && |st.registrations| == |st.g.arena|
    requires |types| == EndOf(m.recGroups, n)
    requires RegisteredGroups(m, n, st0, st, entries, types) && Denotes(st.g, types, Roll(m, n))
    requires RegisteredGroup(st, st', GroupKey(types, GroupTypes(m, n)),
                             RuntimeTypes(types, |st.g.types|, GroupTypes(m, n)), entry)
    ensures
      var types' := types + st'.g.arena[entry].indices;
      && RegisteredGroups(m, n + 1, st0, st', entries + [entry], types')
      && |types'| == EndOf(m.recGroups, n + 1)
      && Denotes(st'.g, types', Roll(m, n + 1))
      && Extends(st.g, st'.g) && EntryMeans(st'.g, entry, RollGroup(Roll(m, n), GroupTypes(m, n)))
  {
    hide Structured, Conserved, GroupKey, RuntimeTypes, GroupTypes, RegisteredGroup, WellFormed, GroupRefersBelow,
         GroupDefs, RollGroup, Extends;
    GroupStart(m, n);
    var ts := GroupTypes(m, n);
    DenotesOwned(st.g, types, Roll(m, n));
    RegisteredGroupDenotes(st, handles, st', types, Roll(m, n), ts, RuntimeTypes(types, |st.g.types|, ts), entry);
    assert (entries + [entry])[..n] == entries;
    assert RegisteredLast(m, n + 1, st, types, st', entries + [entry], types + st'.g.arena[entry].indices);
  }

  lemma DenotesOwned(g: Graph, types: seq<nat>, defs: seq<Def>)
    requires Structured(g) && Denotes(g, types, defs)
    ensures AllOwned(g, types) && |types| == |defs|
  {
  }

  lemma GroupStart(m: ModuleTypes, n: nat)
    requires WellFormed(m) && n < |m.recGroups|
    ensures EndOf(m.recGroups, n) + |GroupTypes(m, n)| == m.recGroups[n].end
    ensures GroupRefersBelow(GroupTypes(m, n), m.recGroups[n].end)
  {
    assert m.recGroups[n].start <= m.recGroups[n].end;
    assert m.recGroups[n].start == EndOf(m.recGroups, n);
  }

  lemma DropFirst(entries: seq<nat>, handles: multiset<nat>)
    requires entries != [] && multiset(entries) <= handles
    ensures entries[0] in handles && multiset(entries[1..]) <= handles - multiset{entries[0]}
    ensures handles - multiset(entries) == handles - multiset{entries[0]} - multiset(entries[1..])
  {
    assert entries == [entries[0]] + entries[1..];
    assert entries[0] in multiset(entries);
  }

  /** Dropping the handles of a collection, one after the other. */
  ghost function DroppedAll(st: Store, handles: multiset<nat>, entries: seq<nat>): Store
    requires RegistryStore.Valid(st, handles) && multiset(entries) <= handles
    decreases |entries|
  {
    hide Structured, Conserved, ZerosWithin;
    if entries == [] then st else
      DropFirst(entries, handles);
      DroppedValid(st, handles, entries[0]);
      DroppedAll(Dropped(st, handles, entries[0]), handles - multiset{entries[0]}, entries[1..])
  }

  // ---------------------------------------------------------------- the drop stack

  lemma ConservedSizes(st: Store, handles: multiset<nat>)
    requires Conserved(st, handles)
    ensures |st.registrations| == |st.g.arena| && LiveInArena(st.g)
  {
  }

  lemma EntryFacts(g: Graph, e: nat)
    requires Structured(g) && e in g.live
    ensures e < |g.arena| && Distinct(g.arena[e].indices)
    ensures forall s :: s in g.arena[e].indices ==> s in g.owner && s in g.types
  {
    hide KeyBody, DenInjective, KeysDistinct, RefersToOlder, MeansItsKey, OwnersLive, Distinct;
    assert EntryOk(g, e);
  }

  /** Removing from the hash set by key removes just the entry itself. */
  lemma RemovedByKey(g: Graph, e: nat)
    requires Structured(g) && e in g.live
    ensures (set x | x in g.live && g.arena[x].key != g.arena[e].key) == g.live - {e}
    ensures |g.live - {e}| < |g.live|
  {
    hide EntriesOk, DenInjective, OwnersLive;
  }

  lemma PartlyReleasedStart(st: Store, e: nat)
    requires e in st.g.live && LiveInArena(st.g) && |st.registrations| == |st.g.arena|
    ensures PartlyReleased(st, st.registrations, e, 0)
  {
    assert Refs(st.g.arena[e].key)[..0] == [];
  }

  lemma PartlyReleasedBound(st: Store, regs: seq<nat>, e: nat, j: nat)
    requires e in st.g.live && LiveInArena(st.g) && |st.registrations| == |st.g.arena|
    requires j <= |Refs(st.g.arena[e].key)| && PartlyReleased(st, regs, e, j)
    ensures |regs| == |st.registrations| && forall x :: 0 <= x < |regs| ==> regs[x] <= st.registrations[x]
  {
    hide Refs, Mult;
  }

  /** `stack` is `stack0` plus the entries whose counts went from positive to zero. */
  ghost predicate Pushed(st: Store, regs: seq<nat>, stack0: seq<nat>, stack: seq<nat>)
    requires |regs| == |st.registrations|
  {
    && |stack0| <= |stack| && stack[..|stack0|] == stack0
    && Distinct(stack[|stack0|..])
    && forall x :: x in stack[|stack0|..] <==>
         x in st.g.live && x < |regs| && st.registrations[x] > 0 && regs[x] == 0
  }

  lemma PushedNone(st: Store, stack: seq<nat>)
    ensures Pushed(st, st.registrations, stack, stack)
  {
    assert stack[|stack|..] == [];
  }

  lemma PushedStep(st: Store, regs: seq<nat>, stack0: seq<nat>, stack: seq<nat>, o: nat)
    requires |regs| == |st.registrations| && Pushed(st, regs, stack0, stack)
    requires o in st.g.live && o < |regs| && regs[o] > 0 && st.registrations[o] > 0
    ensures Pushed(st, regs[o := regs[o] - 1], stack0, if regs[o] == 1 then stack + [o] else stack)
  {
    var more := stack[|stack0|..];
    if regs[o] == 1 {
      assert (stack + [o])[|stack0|..] == more + [o];
      assert (stack + [o])[..|stack0|] == stack[..|stack0|];
      assert o !in more;
    }
  }

  /** The entries waiting to be unregistered: distinct, live, with count zero (save for the
      one the caller passed in), and no zero count is anywhere else. */
  ghost predicate StackOk(st: Store, pending: set<nat>, stack: seq<nat>, entry: nat) {
    && Distinct(stack)
    && (forall x :: x in stack ==> x in st.g.live && x < |st.registrations| && x !in pending)
    && (forall x :: x in pending ==> x in st.g.live && x < |st.registrations| && st.registrations[x] == 0)
    && ZerosWithin(st, ElemsOf(stack) + pending)
    && ((forall x :: x in stack ==> st.registrations[x] == 0) || stack == [entry])
  }

  lemma StackStart(st: Store, pending: set<nat>, entry: nat)
    requires |st.registrations| == |st.g.arena| && LiveInArena(st.g)
    requires entry in st.g.live && entry !in pending && ZerosWithin(st, {entry} + pending)
    requires forall x :: x in pending ==> x in st.g.live && st.registrations[x] == 0
    ensures StackOk(st, pending, [entry], entry)
  {
    assert ElemsOf([entry]) == {entry};
  }

  lemma StackTop(st: Store, pending: set<nat>, stack: seq<nat>, entry: nat)
    requires StackOk(st, pending, stack, entry) && stack != []
    ensures
      var e := stack[|stack| - 1];
      && e in st.g.live && e < |st.registrations| && e !in pending
      && (st.registrations[e] != 0 ==> StackOk(st, pending, stack[..|stack| - 1], entry))
  {
    var e := stack[|stack| - 1];
    assert e in stack;
    if st.registrations[e] != 0 {
      assert stack[..|stack| - 1] == [];
      assert ElemsOf(stack) == {e};
    }
  }

  lemma DistinctConcat(a: seq<nat>, b: seq<nat>)
    requires Distinct(a) && Distinct(b) && forall x :: x in a ==> x !in b
    ensures Distinct(a + b)
  {
    forall i, j | 0 <= i < j < |a + b| ensures (a + b)[i] != (a + b)[j] {
      if i < |a| {
        assert (a + b)[i] in a;
      }
    }
  }

  lemma DistinctPrefix(s: seq<nat>)
    requires Distinct(s) && s != []
    ensures Distinct(s[..|s| - 1]) && s[|s| - 1] !in s[..|s| - 1]
    ensures forall x :: x in s <==> x in s[..|s| - 1] || x == s[|s| - 1]
  {
    assert s == s[..|s| - 1] + [s[|s| - 1]];
  }

  lemma UncountedLess(st: Store, e: nat)
    requires |st.registrations| == |st.g.arena| && e < |st.g.arena|
    ensures forall x :: 0 <= x < |st.g.arena| ==> Uncounted(st, e)[x] <= st.registrations[x]
  {
    hide Refs, Mult;
  }

  /** What is on the stack after an entry's references were released. */
  lemma StackMembers(st: Store, pending: set<nat>, stack: seq<nat>, stack': seq<nat>, entry: nat, e: nat, regs: seq<nat>)
    requires |regs| == |st.registrations| && e < |regs| && st.registrations[e] == 0
    requires forall x :: 0 <= x < |regs| ==> regs[x] <= st.registrations[x]
    requires stack != [] && stack[|stack| - 1] == e && StackOk(st, pending, stack, entry)
    requires Pushed(st, regs, stack[..|stack| - 1], stack')
    ensures forall x :: x in stack' ==> x in st.g.live && x != e && x < |regs| && x !in pending
    ensures forall x :: x in stack[..|stack| - 1] ==> x in stack'
    ensures forall x :: x in stack' ==> x in stack || (st.registrations[x] > 0 && regs[x] == 0)
    ensures e !in pending && stack' == stack[..|stack| - 1] + stack'[|stack| - 1..]
  {
    var rest := stack[..|stack| - 1];
    var more := stack'[|rest|..];
    assert stack' == rest + more;
    assert e in stack;
    forall x | x in stack' ensures x in st.g.live && x != e && x < |regs| && x !in pending
      && (x in stack || (st.registrations[x] > 0 && regs[x] == 0))
    {
      if x in rest {
        assert x in stack;
      } else {
        assert x in more;
      }
    }
  }

  lemma StackStep(st: Store, handles: multiset<nat>, pending: set<nat>, stack: seq<nat>, stack': seq<nat>,
                  entry: nat, e: nat)
    requires Conserved(st, handles) && e in st.g.live && st.registrations[e] == 0
    requires stack != [] && stack[|stack| - 1] == e && StackOk(st, pending, stack, entry)
    requires Pushed(st, Uncounted(st, e), stack[..|stack| - 1], stack')
    ensures StackOk(Released(st, e), pending, stack', entry)
  {
    hide Refs, Mult, InDegree, Distinct, Uncounted;
    var rest, regs := stack[..|stack| - 1], Uncounted(st, e);
    UncountedLess(st, e);
    StackMembers(st, pending, stack, stack', entry, e, regs);
    DistinctPrefix(stack);
    DistinctConcat(rest, stack'[|rest|..]);
    StackZeros(st, pending, stack, stack', entry, e, regs);
    var st' := Released(st, e);
    assert st'.registrations == regs && st'.g.live == st.g.live - {e};
    hide Conserved, Released, Without, Pushed;
    assert forall x :: x in pending ==> x != e && regs[x] == 0;
  }

  lemma StackZeros(st: Store, pending: set<nat>, stack: seq<nat>, stack': seq<nat>, entry: nat, e: nat, regs: seq<nat>)
    requires |regs| == |st.registrations| && e < |regs| && st.registrations[e] == 0
    requires forall x :: 0 <= x < |regs| ==> regs[x] <= st.registrations[x]
    requires stack != [] && stack[|stack| - 1] == e && StackOk(st, pending, stack, entry)
    requires Pushed(st, regs, stack[..|stack| - 1], stack')
    requires forall x :: x in stack[..|stack| - 1] ==> x in stack'
    requires forall x :: x in stack' ==> x < |regs|
    requires forall x :: x in stack' ==> x in stack || (st.registrations[x] > 0 && regs[x] == 0)
    ensures forall x :: x in st.g.live && x != e && x < |regs| && regs[x] == 0 ==> x in ElemsOf(stack') + pending
    ensures forall x :: x in stack' ==> regs[x] == 0
  {
    hide Distinct;
    var rest := stack[..|stack| - 1];
    assert forall x :: x in stack ==> x in rest || x == e;
    forall x | x in st.g.live && x != e && x < |regs| && regs[x] == 0 ensures x in ElemsOf(stack') + pending {
      if st.registrations[x] > 0 {
        assert x in stack'[|rest|..];
      } else {
        assert x in ElemsOf(stack) + pending;
      }
    }
    forall x | x in stack' ensures regs[x] == 0 {
      if stack == [entry] {
        assert stack'[|rest|..] == stack';
      }
    }
  }

  lemma StackEmpty(st: Store, pending: set<nat>, entry: nat)
    requires StackOk(st, pending, [], entry)
    ensures ZerosWithin(st, pending)
  {
    assert ElemsOf([]) == {};
  }

  lemma ShrunkFacts(st0: Store, st: Store, handles: multiset<nat>, pending: set<nat>)
    requires Shrunk(st0, st, handles, pending)
    ensures Structured(st.g) && Conserved(st, handles)
    ensures |st.registrations| == |st.g.arena| && LiveInArena(st.g)
  {
    hide Structured;
  }

  class TypeRegistryInner {
    var arena: seq<Entry>
    var registrations: seq<nat>
    var hashConsingMap: set<nat>
    var typeToRecGroup: map<nat, nat>
    var types: map<nat, SubType<TypeIndex>>
    var dropStack: seq<nat>
    ghost var den: map<nat, Def>
    ghost var handles: multiset<nat>

    ghost function State(): Store
      reads this
    {
      Store(Graph(arena, hashConsingMap, typeToRecGroup, types, den), registrations)
    }

    ghost predicate Valid()
      reads this
    {
      RegistryStore.Valid(State(), handles) && dropStack == []
    }

    constructor ()
      ensures Valid() && State() == EMPTY && handles == multiset{}
    {
      arena, registrations, hashConsingMap, typeToRecGroup := [], [], {}, map[];
      types, dropStack, den, handles := map[], [], map[], multiset{};
    }

    /** Puts a type into the slab, which may use any free id. */
    method AllocType(ty: SubType<TypeIndex>) returns (id: nat)
      modifies this`types
      ensures id !in old(types) && types == old(types)[id := ty]
    {
      FreshIdExists(types.Keys);
      id :| Free(types.Keys, id);
      types := types[id := ty];
    }

    method IncrRefCount(e: nat)
      requires e < |registrations|
      modifies this`registrations
      ensures registrations == old(registrations)[e := old(registrations)[e] + 1]
    {
      registrations := registrations[e := registrations[e] + 1];
    }

    method DecrRefCount(e: nat) returns (last: bool)
      requires e < |registrations| && registrations[e] > 0
      modifies this`registrations
      ensures registrations == old(registrations)[e := old(registrations)[e] - 1]
      ensures last <==> registrations[e] == 0
    {
      last := registrations[e] == 1;
      registrations := registrations[e := registrations[e] - 1];
    }

    /** The references of a new key keep the groups they point to alive. */
    method CountReferences(key: Key)
      requires Structured(State().g) && |registrations| == |arena| && KeyOk(State().g, key)
      modifies this`registrations
      ensures registrations == Counted(old(State()), Refs(key))
      ensures forall x :: x in hashConsingMap && x < |arena| ==> registrations[x] == old(registrations)[x] + IntoGroup(key, arena[x].indices)
    {
      hide Structured, Counted, Refs, Mult, TraceGroup, IntoGroup;
      var refs := Refs(key);
      CountedNone(State());
      assert refs[..0] == [];
      for j := 0 to |refs|
        invariant registrations == Counted(old(State()), refs[..j])
      {
        assert RefOk(old(State()).g, |arena|, |key|, Shared(refs[j]));
        CountedStep(old(State()), refs, j);
        IncrRefCount(typeToRecGroup[refs[j]]);
      }
      assert refs[..|refs|] == refs;
      CountedInto(old(State()), key);
    }

    /** Stores the types of a new group in the slab. */
    method AllocGroup(stored: seq<SubType<TypeIndex>>) returns (ids: seq<nat>)
      modifies this`types
      ensures |ids| == |stored| && Distinct(ids)
      ensures forall s :: s in ids ==> s !in old(types)
      ensures types == Bind(old(types), ids, stored)
    {
      ids := [];
      assert Distinct(ids) && Bind(types, ids, stored[..0]) == types;
      hide Distinct, Bind;
      for k := 0 to |stored|
        invariant |ids| == k && Distinct(ids)
        invariant forall s :: s in ids ==> s !in old(types)
        invariant types == Bind(old(types), ids, stored[..k])
      {
        var id := AllocType(stored[k]);
        BindOneMore(old(types), ids, stored, id);
        DistinctMore(ids, id);
        ids := ids + [id];
      }
      assert stored[..|stored|] == stored;
    }

    /** Points the reverse map at a new entry. */
    method OwnGroup(ids: seq<nat>, entry: nat)
      requires Distinct(ids) && forall s :: s in ids ==> s !in typeToRecGroup
      modifies this`typeToRecGroup
      ensures typeToRecGroup == Bind<nat>(old(typeToRecGroup), ids, Repeat(entry, |ids|))
    {
      for k := 0 to |ids|
        invariant typeToRecGroup == Bind<nat>(old(typeToRecGroup), ids[..k], Repeat(entry, k))
      {
        assert ids[..k + 1][..k] == ids[..k];
        assert Repeat(entry, k + 1)[..k] == Repeat(entry, k);
        typeToRecGroup := typeToRecGroup[ids[k] := entry];
      }
      assert ids[..|ids|] == ids;
    }

    /** Enters a group whose key is not in the hash consing map. */
    method InsertRecGroup(key: Key, stored: seq<SubType<TypeIndex>>) returns (entry: nat)
      requires Valid() && KeyOk(State().g, key) && |stored| == |key|
      requires forall e :: e in hashConsingMap ==> e < |arena| && arena[e].key != key
      modifies this
      ensures Valid() && handles == old(handles) + multiset{entry} && entry == |old(arena)|
      ensures entry in hashConsingMap && entry < |arena| && arena[entry].key == key
      ensures |arena[entry].indices| == |key| && FreshIds(old(State()).g, arena[entry].indices)
      ensures |registrations| == |arena| && State() == Inserted(old(State()), key, arena[entry].indices, stored)
    {
      hide Structured, Conserved, ZerosWithin, KeyOk, Bind, KeyBody, GroupDefs, Repeat, Counted, Refs, Distinct;
      ghost var st := State();
      SizesAgree(st, handles);
      CountReferences(key);
      var ids := AllocGroup(stored);
      entry := |arena|;
      den := Bind(den, ids, GroupDefs(KeyBody(den, key)));
      arena := arena + [Entry(key, ids)];
      registrations := registrations + [1];
      hashConsingMap := hashConsingMap + {entry};
      OwnGroup(ids, entry);
      handles := handles + multiset{entry};
      assert State() == Inserted(st, key, ids, stored);
      InsertedValid(st, old(handles), key, ids, stored);
    }

    /** Registers one recursion group: hash consed to the live entry with the same key,
        or entered anew under fresh shared indices. */
    method RegisterRecGroup(map_: seq<nat>, ts: seq<SubType<TypeIndex>>) returns (entry: nat)
      requires Valid() && AllOwned(State().g, map_) && GroupRefersBelow(ts, |map_| + |ts|)
      modifies this
      ensures Valid() && handles == old(handles) + multiset{entry}
      ensures |old(registrations)| == |old(arena)|
      ensures RegisteredGroup(old(State()), State(), GroupKey(map_, ts), RuntimeTypes(map_, |old(types)|, ts), entry)
    {
      hide Structured, Conserved, ZerosWithin, KeyOk, GroupRefersBelow, Inserted, FreshIds;
      ghost var st := State();
      SizesAgree(st, handles);
      var key := GroupKey(map_, ts);
      if e :| e in hashConsingMap && arena[e].key == key {
        IncrementedValid(st, handles, e);
        IncrRefCount(e);
        handles := handles + multiset{e};
        return e;
      }
      GroupKeyOk(st.g, map_, ts);
      entry := InsertRecGroup(key, RuntimeTypes(map_, |types|, ts));
    }

    /** Gives back the references of the zero-count entry `e`; entries whose count
        reaches zero go on the drop stack. */
    method ReleaseReferences(e: nat)
      requires Structured(State().g) && Conserved(State(), handles)
      requires e in hashConsingMap && registrations[e] == 0
      modifies this`registrations, this`dropStack
      ensures registrations == Uncounted(old(State()), e)
      ensures forall x :: x in hashConsingMap && x != e ==>
                && x < |arena| && x < |registrations|
                && registrations[x] + IntoGroup(arena[e].key, arena[x].indices) == old(registrations)[x]
      ensures Pushed(old(State()), registrations, old(dropStack), dropStack)
    {
      hide Structured, Conserved, Refs, Mult, TraceGroup, PartlyReleased, IntoGroup;
      ghost var st := State();
      ConservedSizes(st, handles);
      var refs := Refs(arena[e].key);
      PartlyReleasedStart(st, e);
      PushedNone(st, dropStack);
      for j := 0 to |refs|
        invariant PartlyReleased(st, registrations, e, j)
        invariant |registrations| == |st.registrations|
        invariant Pushed(st, registrations, old(dropStack), dropStack)
      {
        PartlyReleasedStep(st, handles, registrations, e, j);
        var other := typeToRecGroup[refs[j]];
        ghost var regs := registrations;
        PartlyReleasedBound(st, regs, e, j);
        var last := DecrRefCount(other);
        PushedStep(st, regs, old(dropStack), dropStack, other);
        if last {
          dropStack := dropStack + [other];
        }
      }
      PartlyReleasedDone(st, registrations, e);
    }

    /** Takes an entry's indices out of the reverse map and the slab. */
    method RemoveIndices(indices: seq<nat>)
      requires forall s :: s in indices ==> s in typeToRecGroup && s in types
      requires Distinct(indices)
      modifies this`typeToRecGroup, this`types
      ensures typeToRecGroup == old(typeToRecGroup) - ElemsOf(indices)
      ensures types == old(types) - ElemsOf(indices)
    {
      for k := 0 to |indices|
        invariant typeToRecGroup == old(typeToRecGroup) - ElemsOf(indices[..k])
        invariant types == old(types) - ElemsOf(indices[..k])
      {
        ElemsTake(indices, k);
        assert indices[k] in typeToRecGroup && indices[k] in types;
        typeToRecGroup := typeToRecGroup - {indices[k]};
        types := types - {indices[k]};
      }
      assert indices[..|indices|] == indices;
    }

    /** Removes a zero-count entry and everything only it kept alive. The worklist of
        decrements leaves exactly what a sweep from the roots would leave; `pending` are
        zero-count entries whose own removal is still due. An entry that has registrations
        again when it is looked at stays. */
    method UnregisterEntry(entry: nat, ghost pending: set<nat>)
      requires Structured(State().g) && Conserved(State(), handles) && dropStack == []
      requires entry in hashConsingMap && entry !in pending
      requires ZerosWithin(State(), {entry} + pending)
      requires forall x :: x in pending ==> x in hashConsingMap && registrations[x] == 0
      modifies this`registrations, this`hashConsingMap, this`typeToRecGroup, this`types, this`dropStack, this`den
      ensures dropStack == [] && |old(registrations)| == |old(arena)|
      ensures Structured(State().g) && Conserved(State(), handles) && ZerosWithin(State(), pending)
      ensures State() == Collect(old(State()), handles, pending)
    {
      hide Structured, Conserved, ZerosWithin, Refs, Mult, Uncounted, Collect, Shrunk, StackOk;
      ghost var st0 := State();
      ConservedSizes(st0, handles);
      ShrunkStart(st0, handles, pending);
      dropStack := dropStack + [entry];
      assert dropStack == [entry];
      StackStart(st0, pending, entry);
      while dropStack != []
        invariant Shrunk(st0, State(), handles, pending)
        invariant StackOk(State(), pending, dropStack, entry)
        decreases |hashConsingMap|, |dropStack|
      {
        ghost var st := State();
        ShrunkFacts(st0, st, handles, pending);
        var top := |dropStack| - 1;
        var e := dropStack[top];
        StackTop(st, pending, dropStack, entry);
        ghost var stack := dropStack;
        dropStack := dropStack[..top];
        if registrations[e] != 0 {
          continue;
        }
        EntryFacts(st.g, e);
        ReleaseReferences(e);
        hashConsingMap := set x | x in hashConsingMap && arena[x].key != arena[e].key;
        RemoveIndices(arena[e].indices);
        den := den - ElemsOf(arena[e].indices);
        RemovedByKey(st.g, e);
        assert State() == Released(st, e);
        ShrunkStep(st0, st, handles, pending, e);
        StackStep(st, handles, pending, stack, dropStack, entry, e);
      }
      ShrunkFacts(st0, State(), handles, pending);
      StackEmpty(State(), pending, entry);
      ShrunkDone(st0, State(), handles, pending);
    }

    /** Registers all recursion groups of a module, in order. */
    method RegisterModuleTypes(m: ModuleTypes) returns (entries: seq<nat>, map_: seq<nat>)
      requires Valid() && WellFormed(m)
      modifies this
      ensures Valid() && handles == old(handles) + multiset(entries)
      ensures RegisteredGroups(m, |m.recGroups|, old(State()), State(), entries, map_)
      ensures Denotes(State().g, map_, Defs(m))
    {
      hide RegistryStore.Valid, GroupKey, RuntimeTypes, GroupTypes, RegisteredGroup, WellFormed, Denotes,
           GroupRefersBelow, RegisteredGroups, Roll, AllOwned;
      entries, map_ := [], [];
      ModuleStart(m, State());
      for n := 0 to |m.recGroups|
        invariant Valid() && handles == old(handles) + multiset(entries)
        invariant RegisteredGroups(m, n, old(State()), State(), entries, map_)
        invariant |map_| == EndOf(m.recGroups, n) && Denotes(State().g, map_, Roll(m, n))
      {
        ghost var st, hs := State(), handles;
        SizesAgree(st, hs);
        GroupStart(m, n);
        DenotesOwned(st.g, map_, Roll(m, n));
        var entry := RegisterRecGroup(map_, GroupTypes(m, n));
        ModuleStep(m, n, old(State()), st, hs, State(), entries, map_, entry);
        map_ := map_ + arena[entry].indices;
        entries := entries + [entry];
      }
    }

    /** A handle on the registered type with this index, or nothing when the index is free. */
    method GetType(index: nat) returns (r: Option<(nat, SubType<TypeIndex>)>)
      requires Valid()
      modifies this
      ensures Valid() && |old(registrations)| == |old(arena)|
      ensures index !in old(types) ==> r == None && State() == old(State()) && handles == old(handles)
      ensures index in old(types) ==>
                && index in old(typeToRecGroup) && old(typeToRecGroup)[index] < |old(registrations)|
                && r == Some((old(typeToRecGroup)[index], old(types)[index]))
                && handles == old(handles) + multiset{old(typeToRecGroup)[index]}
                && State() == Incremented(old(State()), old(typeToRecGroup)[index])
    {
      hide Structured, RegistryStore.Valid;
      ghost var st := State();
      SizesAgree(st, handles);
      if index !in types {
        return None;
      }
      var entry := typeToRecGroup[index];
      OwnerInArena(st.g, index);
      IncrementedValid(st, handles, entry);
      IncrRefCount(entry);
      handles := handles + multiset{entry};
      r := Some((entry, types[index]));
    }

    /** Duplicates a handle. */
    method CloneHandle(e: nat)
      requires Valid() && e in handles
      modifies this
      ensures Valid() && handles == old(handles) + multiset{e}
      ensures e < |old(registrations)| && State() == Incremented(old(State()), e)
    {
      hide Structured;
      ghost var st := State();
      IncrementedValid(st, handles, e);
      IncrRefCount(e);
      handles := handles + multiset{e};
    }

    /** Gives a handle back; the last one unregisters the entry. */
    method DropHandle(e: nat)
      requires Valid() && e in handles
      modifies this
      ensures Valid() && handles == old(handles) - multiset{e}
      ensures Conserved(old(State()), old(handles)) && State() == Dropped(old(State()), old(handles), e)
    {
      hide Structured, InDegree, Collect;
      ghost var st := State();
      DecrementedKeeps(st, handles, e);
      var last := DecrRefCount(e);
      handles := handles - multiset{e};
      ghost var d := State();
      assert d == Decremented(st, e);
      if last {
        assert ZerosWithin(d, {e});
        UnregisterEntry(e, {});
      } else {
        ShrunkStart(d, handles, {});
        ShrunkDone(d, d, handles, {});
      }
    }

    /** Drops every entry of a module's type collection. */
    method UnregisterTypeCollection(entries: seq<nat>)
      requires Valid() && multiset(entries) <= handles
      modifies this
      ensures Valid() && handles == old(handles) - multiset(entries)
      ensures RegistryStore.Valid(old(State()), old(handles))
      ensures State() == DroppedAll(old(State()), old(handles), entries)
    {
      hide RegistryStore.Valid, Dropped;
      assert entries[0..] == entries;
      for k := 0 to |entries|
        invariant Valid() && multiset(entries[k..]) <= handles
        invariant handles - multiset(entries[k..]) == old(handles) - multiset(entries)
        invariant DroppedAll(State(), handles, entries[k..]) == DroppedAll(old(State()), old(handles), entries)
      {
        DropFirst(entries[k..], handles);
        assert entries[k..][1..] == entries[k + 1..];
        DropHandle(entries[k]);
      }
      assert entries[|entries|..] == [];
    }
  }
}
