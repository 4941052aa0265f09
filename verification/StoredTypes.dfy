/** The runtime types the registry keeps in its slab, compared with the hash consing key
    they were made from. */
module StoredTypes {
  import opened WasmTypes
  import opened IsoRecursive
  import opened RegistryStore
  import opened RegistryOps
  import opened TypeRegistry
  import opened RegistryRuns

  /** A key's reference resolved to an engine-wide one: position `k` of the group is `ids[k]`. */
  function Resolve(ids: seq<nat>, x: TypeIndex): TypeIndex {
    if x.RecGroup? && x.relative < |ids| then Shared(ids[x.relative]) else x
  }

  /** The stored types are the key with every group-relative index resolved. */
  predicate StoredAgree(types: seq<nat>, ts: seq<SubType<TypeIndex>>, base: nat, ids: seq<nat>) {
    RuntimeTypes(types, base, ts) == MapGroup(GroupKey(types, ts), x => Resolve(ids, x))
  }

  /** The group refers to its own `k`-th type. */
  predicate RefersToOwn(types: seq<nat>, ts: seq<SubType<TypeIndex>>, k: nat) {
    Module(|types| + k) in TraceGroup(ts)
  }

  /** The stored types agree with the key exactly when every position the group refers to was
      allocated at the slab's length plus the position plus twice the group's module start. */
  lemma StoredAgreeIff(types: seq<nat>, ts: seq<SubType<TypeIndex>>, base: nat, ids: seq<nat>)
    requires GroupRefersBelow(ts, |types| + |ts|) && |ids| == |ts|
    ensures StoredAgree(types, ts, base, ids) <==>
              forall k :: 0 <= k < |ts| && RefersToOwn(types, ts, k) ==> ids[k] == base + k + 2 * |types|
  {
    hide MapGroup, TraceGroup;
    var f, r, h := x => CanonRef(types, x), x => Resolve(ids, x), x => RuntimeRef(types, base, x);
    var trace := TraceGroup(ts);
    TraceMapGroup(ts, f);
    TraceMapGroup(GroupKey(types, ts), r);
    TraceMapGroup(ts, h);
    if StoredAgree(types, ts, base, ids) {
      forall k | 0 <= k < |ts| && RefersToOwn(types, ts, k) ensures ids[k] == base + k + 2 * |types| {
        var i :| 0 <= i < |trace| && trace[i] == Module(|types| + k);
        assert Apply(trace, h)[i] == Apply(Apply(trace, f), r)[i];
      }
    }
    if forall k :: 0 <= k < |ts| && RefersToOwn(types, ts, k) ==> ids[k] == base + k + 2 * |types| {
      forall x | x in trace ensures r(f(x)) == h(x) {
        if |types| <= x.interned {
          assert RefersToOwn(types, ts, x.interned - |types|);
        }
      }
      MapMapGroup(ts, f, r, h);
    }
  }

  /** In a slab without holes, which hands out its length next, they agree exactly when the
      group has no references to itself or is the module's first. */
  lemma StoredAgreeHoleFree(types: seq<nat>, ts: seq<SubType<TypeIndex>>, base: nat, ids: seq<nat>)
    requires GroupRefersBelow(ts, |types| + |ts|) && |ids| == |ts|
    requires forall k :: 0 <= k < |ids| ==> ids[k] == base + k
    ensures StoredAgree(types, ts, base, ids) <==>
              types == [] || forall k :: 0 <= k < |ts| ==> !RefersToOwn(types, ts, k)
  {
    hide StoredAgree, RefersToOwn;
    StoredAgreeIff(types, ts, base, ids);
  }

  /** The second group of a module: a type that may have subtypes, and one whose supertype is the first. */
  const PAIR: seq<SubType<TypeIndex>> :=
    [SubType(false, None, CompositeType(FuncType([], []), false)),
     SubType(true, Some(Module(1)), CompositeType(FuncType([], []), false))]

  /** The disagreement occurs: the stored supertype is index 3, while the group's first type is at index 1. */
  lemma StoredDisagree()
    ensures GroupRefersBelow(PAIR, 3) && !StoredAgree([0], PAIR, 1, [1, 2])
  {
    assert TraceGroup(PAIR) == [Module(1)] by {
      assert TraceSub(PAIR[0]) == [] && TraceSub(PAIR[1]) == [Module(1)];
      assert PAIR[1..][0] == PAIR[1] && PAIR[1..][1..] == [];
      assert TraceGroup(PAIR[1..]) == [Module(1)];
    }
    StoredAgreeIff([0], PAIR, 1, [1, 2]);
    assert RefersToOwn([0], PAIR, 0);
  }

  // ---------------------------------------------------------------- the slab over whole runs

  /** A key's references as the slab keeps them: position `r` of the own group at `start + r`. */
  function Shifted(start: nat): TypeIndex -> TypeIndex {
    (x: TypeIndex) => if x.RecGroup? then Shared(start + x.relative) else x
  }

  /** The slab holds, at the index of every member of entry `e`, that member of the key. */
  ghost predicate SlabHolds(g: Graph, e: nat, start: nat)
    requires e < |g.arena| && |g.arena[e].indices| == |g.arena[e].key|
  {
    forall p :: 0 <= p < |g.arena[e].indices| ==>
      g.arena[e].indices[p] in g.types && g.types[g.arena[e].indices[p]] == MapSub(g.arena[e].key[p], Shifted(start))
  }

  ghost predicate SlabHoldsAny(g: Graph, e: nat) {
    e < |g.arena| && |g.arena[e].indices| == |g.arena[e].key| && exists start: nat :: SlabHolds(g, e, start)
  }

  /** Every live entry's types are in the slab as its key says, up to where own references point. */
  ghost predicate SlabOk(g: Graph) {
    forall e :: e in g.live ==> SlabHoldsAny(g, e)
  }

  /** The types stored for a group are its key with own references shifted. */
  lemma StoredIsKey(types: seq<nat>, ts: seq<SubType<TypeIndex>>, base: nat)
    requires GroupRefersBelow(ts, |types| + |ts|)
    ensures RuntimeTypes(types, base, ts) == MapGroup(GroupKey(types, ts), Shifted(base + 2 * |types|))
  {
    hide MapGroup, TraceGroup;
    var f, h := x => CanonRef(types, x), x => RuntimeRef(types, base, x);
    var start := base + 2 * |types|;
    forall x | x in TraceGroup(ts) ensures Shifted(start)(f(x)) == h(x) {
    }
    MapMapGroup(ts, f, Shifted(start), h);
  }

  lemma OwnIndices(g: Graph, e: nat)
    requires Structured(g) && e in g.live
    ensures e < |g.arena| && |g.arena[e].indices| == |g.arena[e].key| && Distinct(g.arena[e].indices)
    ensures forall s :: s in g.arena[e].indices ==> s in g.owner && g.owner[s] == e
  {
    hide KeyBody, DenInjective, KeysDistinct, RefersToOlder, MeansItsKey;
    assert EntryOk(g, e);
  }

  lemma SlabKept(g: Graph, g': Graph, e: nat)
    requires SlabHoldsAny(g, e) && e < |g'.arena| && g'.arena[e] == g.arena[e]
    requires forall s :: s in g.arena[e].indices && s in g.types ==> s in g'.types && g'.types[s] == g.types[s]
    ensures SlabHoldsAny(g', e)
  {
    hide MapSub;
    var start: nat :| SlabHolds(g, e, start);
    assert SlabHolds(g', e, start);
  }

  lemma SlabNew(g: Graph, key: Key, ids: seq<nat>, stored: seq<SubType<TypeIndex>>, start: nat)
    requires g.arena != [] && g.arena[|g.arena| - 1] == Entry(key, ids) && |ids| == |key|
    requires stored == MapGroup(key, Shifted(start))
    requires forall k :: 0 <= k < |ids| ==> ids[k] in g.types && g.types[ids[k]] == stored[k]
    ensures SlabHoldsAny(g, |g.arena| - 1)
  {
    hide MapSub, Shifted;
    assert SlabHolds(g, |g.arena| - 1, start);
  }

  lemma GrownParts(g: Graph, key: Key, ids: seq<nat>, stored: seq<SubType<TypeIndex>>)
    requires FreshIds(g, ids) && |ids| == |key| == |stored|
    ensures
      var g' := Grown(g, key, ids, stored);
      && g'.arena == g.arena + [Entry(key, ids)] && g'.live == g.live + {|g.arena|}
      && (forall s :: s in g.types && s !in ids ==> s in g'.types && g'.types[s] == g.types[s])
      && (forall k :: 0 <= k < |ids| ==> ids[k] in g'.types && g'.types[ids[k]] == stored[k])
  {
    hide Bind, KeyBody, GroupDefs, Repeat;
  }

  lemma GrownSlab(g: Graph, key: Key, ids: seq<nat>, stored: seq<SubType<TypeIndex>>, start: nat)
    requires Structured(g) && SlabOk(g) && FreshIds(g, ids) && |ids| == |key| == |stored|
    requires stored == MapGroup(key, Shifted(start))
    ensures SlabOk(Grown(g, key, ids, stored))
  {
    hide Structured, Bind, MapSub, KeyBody, GroupDefs, Repeat, Shifted, MapGroup, SlabHoldsAny, Grown, Distinct;
    var g' := Grown(g, key, ids, stored);
    GrownParts(g, key, ids, stored);
    forall e | e in g'.live ensures SlabHoldsAny(g', e) {
      if e == |g.arena| {
        SlabNew(g', key, ids, stored, start);
      } else {
        OwnIndices(g, e);
        SlabKept(g, g', e);
      }
    }
  }

  lemma InsertedSlab(st: Store, types: seq<nat>, ts: seq<SubType<TypeIndex>>, ids: seq<nat>)
    requires Structured(st.g) && SlabOk(st.g) && |st.registrations| == |st.g.arena|
    requires FreshIds(st.g, ids) && |ids| == |ts| && GroupRefersBelow(ts, |types| + |ts|)
    ensures SlabOk(Inserted(st, GroupKey(types, ts), ids, RuntimeTypes(types, |st.g.types|, ts)).g)
  {
    hide Structured, SlabOk, FreshIds, Grown, GroupKey, RuntimeTypes, Counted, Refs, GroupRefersBelow, Shifted, MapGroup;
    StoredIsKey(types, ts, |st.g.types|);
    GrownSlab(st.g, GroupKey(types, ts), ids, RuntimeTypes(types, |st.g.types|, ts), |st.g.types| + 2 * |types|);
  }

  lemma RestrictedSlab(g: Graph, keep: set<nat>)
    requires Structured(g) && SlabOk(g) && keep <= g.live
    ensures SlabOk(Restricted(g, keep))
  {
    hide Structured, SlabHoldsAny;
    var g' := Restricted(g, keep);
    forall e | e in keep ensures SlabHoldsAny(g', e) {
      OwnIndices(g, e);
      SlabKept(g, g', e);
    }
  }

  lemma DroppedSlab(st: Store, handles: multiset<nat>, e: nat)
    requires RegistryStore.Valid(st, handles) && e in handles && SlabOk(st.g)
    ensures SlabOk(Dropped(st, handles, e).g)
  {
    hide SlabHoldsAny, Structured, Restricted;
    DecrementedKeeps(st, handles, e);
    RestrictedSlab(st.g, Survivors(st.g, Roots(handles - multiset{e}, {})));
  }

  lemma {:induction false} DroppedAllSlab(st: Store, handles: multiset<nat>, entries: seq<nat>)
    requires RegistryStore.Valid(st, handles) && multiset(entries) <= handles && SlabOk(st.g)
    ensures SlabOk(DroppedAll(st, handles, entries).g)
    decreases |entries|
  {
    hide Structured, Conserved, ZerosWithin, SlabOk, Dropped;
    if entries != [] {
      DropFirst(entries, handles);
      DroppedValid(st, handles, entries[0]);
      DroppedSlab(st, handles, entries[0]);
      DroppedAllSlab(Dropped(st, handles, entries[0]), handles - multiset{entries[0]}, entries[1..]);
    }
  }

  lemma RegisteredLastSlab(m: ModuleTypes, n: nat, mid: Store, handles: multiset<nat>, st': Store,
                           before: seq<nat>, entries: seq<nat>, types: seq<nat>)
    requires WellFormed(m) && n < |m.recGroups| && |entries| == n + 1
    requires RegistryStore.Valid(mid, handles) && RegisteredLast(m, n + 1, mid, before, st', entries, types)
    requires |before| == EndOf(m.recGroups, n) && SlabOk(mid.g)
    ensures SlabOk(st'.g)
  {
    hide Structured, Conserved, ZerosWithin, SlabHoldsAny, WellFormed, GroupTypes, GroupKey, RuntimeTypes, Inserted, FreshIds,
         GroupRefersBelow;
    GroupStart(m, n);
    var ts, entry := GroupTypes(m, n), entries[n];
    var key := GroupKey(before, ts);
    if !(exists e :: e in mid.g.live && e < |mid.g.arena| && mid.g.arena[e].key == key) {
      InsertedSlab(mid, before, ts, st'.g.arena[entry].indices);
    }
  }

  lemma {:induction false} RegisteredSlab(m: ModuleTypes, n: nat, st: Store, handles: multiset<nat>, st': Store,
                                          entries: seq<nat>, types: seq<nat>)
    requires WellFormed(m) && n <= |m.recGroups|
    requires RegistryStore.Valid(st, handles) && RegisteredGroups(m, n, st, st', entries, types) && SlabOk(st.g)
    ensures SlabOk(st'.g)
    decreases n
  {
    hide RegistryStore.Valid, RegisteredLast, WellFormed, Denotes, SlabOk, Roll, Extends, Covered;
    if n > 0 {
      var mid: Store, before: seq<nat> :|
        && RegisteredLast(m, n, mid, before, st', entries, types)
        && RegisteredGroups(m, n - 1, st, mid, entries[..n - 1], before);
      RegisteredGroupsKeep(m, n - 1, st, handles, mid, entries[..n - 1], before);
      RegisteredSlab(m, n - 1, st, handles, mid, entries[..n - 1], before);
      RegisteredLastSlab(m, n - 1, mid, handles + multiset(entries[..n - 1]), st', before, entries, types);
    }
  }

  lemma StepSlab(s: System, s': System, a: Action)
    requires Inv(s) && Step(s, s', a) && SlabOk(s.store.g)
    ensures SlabOk(s'.store.g)
  {
    hide RegOk, Structured, Conserved, ZerosWithin, SlabHoldsAny, RegisteredGroups, WellFormed, Dropped, DroppedAll, Held;
    match a
    case Register(r) =>
      RegisteredSlab(r.mod, |r.mod.recGroups|, s.store, Handles(s), s'.store, r.entries, r.map_);
    case Get(_) =>
    case Clone(_) =>
    case DropRef(e) => DroppedSlab(s.store, Handles(s), e);
    case DropReg(i) => DroppedAllSlab(s.store, Handles(s), s.regs[i].entries);
  }

  /** At every moment of every run the slab holds the registered groups' types: each live entry's
      key, member by member at that member's index, with only its references to itself moved. */
  lemma {:induction false} RunSlab(trace: seq<System>, actions: seq<Action>, i: nat)
    requires Run(trace, actions) && i < |trace|
    ensures SlabOk(trace[i].store.g)
  {
    hide Step, Inv, SlabHoldsAny;
    if i > 0 {
      RunSlab(trace, actions, i - 1);
      RunKeeps(trace, actions, i - 1);
      assert Step(trace[i - 1], trace[i - 1 + 1], actions[i - 1]);
      StepSlab(trace[i - 1], trace[i], actions[i - 1]);
    }
  }
}
