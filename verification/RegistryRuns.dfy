/** Whole runs of the type registry: any interleaving of module registrations, type
    look-ups, handle clones and drops, with drops atomic. */
module RegistryRuns {
  import opened WasmTypes
  import opened IsoRecursive
  import opened RegistryStore
  import opened RegistryOps
  import opened TypeRegistry

  /** An outstanding `RuntimeTypeCollection` and the module it was made for. */
  datatype Registration = Registration(mod: ModuleTypes, entries: seq<nat>, map_: seq<nat>)

  /** The registry together with everything its users hold: collections and `RegisteredType`s. */
  datatype System = System(store: Store, regs: seq<Registration>, refs: multiset<nat>)

  const INITIAL := System(EMPTY, [], multiset{})

  function Held(regs: seq<Registration>): multiset<nat> {
    if regs == [] then multiset{} else multiset(regs[0].entries) + Held(regs[1..])
  }

  function Handles(s: System): multiset<nat> {
    s.refs + Held(s.regs)
  }

  /** A collection maps each type of its module to a live index that stands for the type. */
  ghost predicate RegOk(g: Graph, r: Registration) {
    && WellFormed(r.mod) && Denotes(g, r.map_, Defs(r.mod))
    && forall i :: 0 <= i < |r.map_| ==> r.map_[i] in g.owner && g.owner[r.map_[i]] in r.entries
  }

  ghost predicate Inv(s: System) {
    RegistryStore.Valid(s.store, Handles(s)) && forall i :: 0 <= i < |s.regs| ==> RegOk(s.store.g, s.regs[i])
  }

  // ---------------------------------------------------------------- steps

  ghost predicate Registers(s: System, s': System, r: Registration) {
    && WellFormed(r.mod)
    && RegisteredGroups(r.mod, |r.mod.recGroups|, s.store, s'.store, r.entries, r.map_)
    && s'.regs == s.regs + [r] && s'.refs == s.refs
  }

  ghost predicate Gets(s: System, s': System, index: nat) {
    && index in s.store.g.types && index in s.store.g.owner && s.store.g.owner[index] < |s.store.registrations|
    && s' == System(Incremented(s.store, s.store.g.owner[index]), s.regs, s.refs + multiset{s.store.g.owner[index]})
  }

  ghost predicate Clones(s: System, s': System, e: nat) {
    && e in s.refs && e < |s.store.registrations|
    && s' == System(Incremented(s.store, e), s.regs, s.refs + multiset{e})
  }

  ghost predicate DropsRef(s: System, s': System, e: nat) {
    && e in s.refs && Conserved(s.store, Handles(s))
    && s' == System(Dropped(s.store, Handles(s), e), s.regs, s.refs - multiset{e})
  }

  ghost predicate DropsReg(s: System, s': System, i: nat) {
    && i < |s.regs| && RegistryStore.Valid(s.store, Handles(s)) && multiset(s.regs[i].entries) <= Handles(s)
    && s' == System(DroppedAll(s.store, Handles(s), s.regs[i].entries), s.regs[..i] + s.regs[i + 1..], s.refs)
  }

  datatype Action = Register(r: Registration) | Get(index: nat) | Clone(entry: nat) | DropRef(entry: nat) | DropReg(i: nat)

  ghost predicate Step(s: System, s': System, a: Action) {
    match a
    case Register(r) => Registers(s, s', r)
    case Get(index) => Gets(s, s', index)
    case Clone(e) => Clones(s, s', e)
    case DropRef(e) => DropsRef(s, s', e)
    case DropReg(i) => DropsReg(s, s', i)
  }

  ghost predicate Run(trace: seq<System>, actions: seq<Action>) {
    && |trace| == |actions| + 1 && trace[0] == INITIAL
    && forall i :: 0 <= i < |actions| ==> Step(trace[i], trace[i + 1], actions[i])
  }

  // ---------------------------------------------------------------- each step keeps the invariant

  lemma RegisteredGroupValid(st: Store, handles: multiset<nat>, st': Store, types: seq<nat>,
                             ts: seq<SubType<TypeIndex>>, stored: seq<SubType<TypeIndex>>, entry: nat)
    requires RegistryStore.Valid(st, handles) && |st.registrations| == |st.g.arena| && |stored| == |ts|
    requires AllOwned(st.g, types) && GroupRefersBelow(ts, |types| + |ts|)
    requires RegisteredGroup(st, st', GroupKey(types, ts), stored, entry)
    ensures RegistryStore.Valid(st', handles + multiset{entry})
  {
    hide EntriesOk, KeysDistinct, DenInjective, OwnersLive, Conserved, ZerosWithin, KeyOk, Inserted, FreshIds,
         GroupKey, GroupRefersBelow;
    var key := GroupKey(types, ts);
    if e :| e in st.g.live && e < |st.g.arena| && st.g.arena[e].key == key {
      IncrementedValid(st, handles, entry);
    } else {
      GroupKeyOk(st.g, types, ts);
      InsertedValid(st, handles, key, st'.g.arena[entry].indices, stored);
      NewEntryIsLast(st, st', key, stored, entry);
    }
  }

  ghost predicate Covered(g: Graph, types: seq<nat>, entries: seq<nat>) {
    forall i :: 0 <= i < |types| ==> types[i] in g.owner && g.owner[types[i]] in entries
  }

  lemma NothingCovered(g: Graph, entries: seq<nat>)
    ensures Extends(g, g) && Covered(g, [], entries)
  {
  }

  lemma CoveredStep(g0: Graph, g: Graph, g': Graph, before: seq<nat>, front: seq<nat>, entry: nat, body: seq<SubType<Ref>>)
    requires Extends(g0, g) && Extends(g, g') && Covered(g, before, front) && EntryMeans(g', entry, body)
    ensures Extends(g0, g') && Covered(g', before + g'.arena[entry].indices, front + [entry])
  {
    var types := before + g'.arena[entry].indices;
    forall i | 0 <= i < |types| ensures types[i] in g'.owner && g'.owner[types[i]] in front + [entry] {
      if i >= |before| {
        assert types[i] in g'.arena[entry].indices;
      }
    }
  }

  lemma RegisteredLastKeeps(m: ModuleTypes, n: nat, g0: Graph, mid: Store, handles: multiset<nat>, st': Store,
                            before: seq<nat>, entries: seq<nat>, types: seq<nat>)
    requires WellFormed(m) && n < |m.recGroups| && |entries| == n + 1
    requires RegistryStore.Valid(mid, handles) && RegisteredLast(m, n + 1, mid, before, st', entries, types)
    requires |before| == EndOf(m.recGroups, n) && Denotes(mid.g, before, Roll(m, n))
    requires Extends(g0, mid.g) && Covered(mid.g, before, entries[..n])
    ensures RegistryStore.Valid(st', handles + multiset{entries[n]})
    ensures |types| == EndOf(m.recGroups, n + 1) && Denotes(st'.g, types, Roll(m, n + 1))
    ensures Extends(g0, st'.g) && Covered(st'.g, types, entries)
  {
    hide RegistryStore.Valid, RegisteredGroup, GroupKey, RuntimeTypes, GroupTypes, WellFormed, RollGroup,
         GroupRefersBelow, Extends, Covered, GroupDefs;
    SizesAgree(mid, handles);
    GroupStart(m, n);
    DenotesOwned(mid.g, before, Roll(m, n));
    var ts := GroupTypes(m, n);
    var stored := RuntimeTypes(before, |mid.g.types|, ts);
    RegisteredGroupValid(mid, handles, st', before, ts, stored, entries[n]);
    RegisteredGroupDenotes(mid, handles, st', before, Roll(m, n), ts, stored, entries[n]);
    CoveredStep(g0, mid.g, st'.g, before, entries[..n], entries[n], RollGroup(Roll(m, n), ts));
    assert entries == entries[..n] + [entries[n]];
  }

  /** Registering the groups of a module keeps the invariant and everything registered
      before, and gives every type the index that stands for its closed form. */
  lemma {:induction false} RegisteredGroupsKeep(m: ModuleTypes, n: nat, st: Store, handles: multiset<nat>, st': Store,
                                                entries: seq<nat>, types: seq<nat>)
    requires WellFormed(m) && n <= |m.recGroups|
    requires RegistryStore.Valid(st, handles) && RegisteredGroups(m, n, st, st', entries, types)
    ensures RegistryStore.Valid(st', handles + multiset(entries))
    ensures |types| == EndOf(m.recGroups, n) && Denotes(st'.g, types, Roll(m, n))
    ensures Extends(st.g, st'.g) && Covered(st'.g, types, entries)
    decreases n
  {
    hide RegistryStore.Valid, RegisteredLast, WellFormed, Denotes, Extends, Covered, Roll;
    if n == 0 {
      ModuleStart(m, st);
      NothingCovered(st.g, entries);
      assert handles + multiset(entries) == handles;
    } else {
      var mid: Store, before: seq<nat> :|
        && RegisteredLast(m, n, mid, before, st', entries, types)
        && RegisteredGroups(m, n - 1, st, mid, entries[..n - 1], before);
      RegisteredGroupsKeep(m, n - 1, st, handles, mid, entries[..n - 1], before);
      RegisteredLastKeeps(m, n - 1, st.g, mid, handles + multiset(entries[..n - 1]), st', before, entries, types);
      assert entries == entries[..n - 1] + [entries[n - 1]];
      assert handles + multiset(entries) == handles + multiset(entries[..n - 1]) + multiset{entries[n - 1]};
    }
  }

  lemma ExtendsKeepsReg(g: Graph, g': Graph, r: Registration)
    requires Extends(g, g') && RegOk(g, r)
    ensures RegOk(g', r)
  {
    hide WellFormed;
  }

  lemma {:induction false} HeldAppend(regs: seq<Registration>, r: Registration)
    ensures Held(regs + [r]) == Held(regs) + multiset(r.entries)
  {
    if regs != [] {
      assert (regs + [r])[1..] == regs[1..] + [r];
      HeldAppend(regs[1..], r);
    }
  }

  lemma {:induction false} HeldRemove(regs: seq<Registration>, i: nat)
    requires i < |regs|
    ensures Held(regs) == multiset(regs[i].entries) + Held(regs[..i] + regs[i + 1..])
  {
    if i == 0 {
      assert regs[..0] + regs[1..] == regs[1..];
    } else {
      HeldRemove(regs[1..], i - 1);
      var rest := regs[..i] + regs[i + 1..];
      assert rest[1..] == regs[1..][..i - 1] + regs[1..][i..];
    }
  }

  lemma {:induction false} HeldCovers(regs: seq<Registration>, i: nat)
    requires i < |regs|
    ensures multiset(regs[i].entries) <= Held(regs)
  {
    HeldRemove(regs, i);
  }

  lemma RegisterKeeps(s: System, s': System, r: Registration)
    requires Inv(s) && Registers(s, s', r)
    ensures Inv(s')
  {
    hide RegistryStore.Valid, RegisteredGroups, WellFormed, Denotes, Held, Roll;
    RegisteredGroupsKeep(r.mod, |r.mod.recGroups|, s.store, Handles(s), s'.store, r.entries, r.map_);
    HeldAppend(s.regs, r);
    assert Handles(s') == Handles(s) + multiset(r.entries);
    forall i | 0 <= i < |s'.regs| ensures RegOk(s'.store.g, s'.regs[i]) {
      if i < |s.regs| {
        ExtendsKeepsReg(s.store.g, s'.store.g, s.regs[i]);
      }
    }
  }

  lemma IncrementKeeps(s: System, s': System, e: nat)
    requires Inv(s) && e in s.store.g.live && e < |s.store.registrations|
    requires s' == System(Incremented(s.store, e), s.regs, s.refs + multiset{e})
    ensures Inv(s')
  {
    hide RegistryStore.Valid, RegOk, Held;
    IncrementedValid(s.store, Handles(s), e);
    assert Handles(s') == Handles(s) + multiset{e};
  }

  /** A collection survives any drop that leaves its own handles outstanding. */
  lemma DropKeepsReg(st: Store, handles: multiset<nat>, e: nat, r: Registration)
    requires RegistryStore.Valid(st, handles) && e in handles && RegOk(st.g, r)
    requires multiset(r.entries) <= handles - multiset{e}
    ensures RegOk(Dropped(st, handles, e).g, r)
  {
    hide Structured, Dropped, WellFormed;
    forall i | 0 <= i < |r.map_|
      ensures
        var g := Dropped(st, handles, e).g;
        && r.map_[i] in g.owner && g.owner[r.map_[i]] in r.entries
        && r.map_[i] in g.den && r.map_[i] in st.g.den && g.den[r.map_[i]] == st.g.den[r.map_[i]]
    {
      assert st.g.owner[r.map_[i]] in multiset(r.entries);
      DroppedFrame(st, handles, e, r.map_[i]);
    }
  }

  lemma {:induction false} DropAllKeeps(st: Store, handles: multiset<nat>, entries: seq<nat>)
    requires RegistryStore.Valid(st, handles) && multiset(entries) <= handles
    ensures RegistryStore.Valid(DroppedAll(st, handles, entries), handles - multiset(entries))
    ensures forall r :: RegOk(st.g, r) && multiset(r.entries) <= handles - multiset(entries) ==>
              RegOk(DroppedAll(st, handles, entries).g, r)
    decreases |entries|
  {
    hide Structured, Conserved, ZerosWithin, RegOk, Dropped;
    if entries == [] {
      assert handles - multiset(entries) == handles;
    } else {
      DropFirst(entries, handles);
      DroppedValid(st, handles, entries[0]);
      var rest := handles - multiset{entries[0]};
      DropAllKeeps(Dropped(st, handles, entries[0]), rest, entries[1..]);
      forall r | RegOk(st.g, r) && multiset(r.entries) <= handles - multiset(entries)
        ensures RegOk(DroppedAll(st, handles, entries).g, r)
      {
        assert multiset(r.entries) <= rest;
        DropKeepsReg(st, handles, entries[0], r);
      }
    }
  }

  lemma DropRefKeeps(s: System, s': System, e: nat)
    requires Inv(s) && DropsRef(s, s', e)
    ensures Inv(s')
  {
    hide RegistryStore.Valid, Conserved, RegOk, Held, Dropped;
    var hs := Handles(s);
    assert e in hs;
    DroppedValid(s.store, hs, e);
    assert Handles(s') == hs - multiset{e};
    forall i | 0 <= i < |s'.regs| ensures RegOk(s'.store.g, s'.regs[i]) {
      HeldCovers(s.regs, i);
      DropKeepsReg(s.store, hs, e, s.regs[i]);
    }
  }

  lemma DropRegKeeps(s: System, s': System, i: nat)
    requires Inv(s) && DropsReg(s, s', i)
    ensures Inv(s')
  {
    hide RegistryStore.Valid, RegOk, Held, DroppedAll;
    var hs, gone := Handles(s), s.regs[i].entries;
    HeldRemove(s.regs, i);
    assert Handles(s') == hs - multiset(gone);
    DropAllKeeps(s.store, hs, gone);
    forall k | 0 <= k < |s'.regs| ensures RegOk(s'.store.g, s'.regs[k]) {
      HeldCovers(s'.regs, k);
      assert RegOk(s.store.g, s'.regs[k]) by {
        assert s'.regs[k] == if k < i then s.regs[k] else s.regs[k + 1];
      }
    }
  }

  lemma StepKeeps(s: System, s': System, a: Action)
    requires Inv(s) && Step(s, s', a)
    ensures Inv(s')
  {
    hide RegOk, Registers, DropsRef, DropsReg, Structured, InDegree;
    match a
    case Register(r) => RegisterKeeps(s, s', r);
    case Get(index) =>
      OwnerInArena(s.store.g, index);
      IncrementKeeps(s, s', s.store.g.owner[index]);
    case Clone(e) => IncrementKeeps(s, s', e);
    case DropRef(e) => DropRefKeeps(s, s', e);
    case DropReg(i) => DropRegKeeps(s, s', i);
  }

  /** Every state of every run satisfies the invariant; reference counts are conserved throughout. */
  lemma {:induction false} RunKeeps(trace: seq<System>, actions: seq<Action>, i: nat)
    requires Run(trace, actions) && i < |trace|
    ensures Inv(trace[i])
  {
    hide Step;
    if i > 0 {
      RunKeeps(trace, actions, i - 1);
      assert Step(trace[i - 1], trace[i - 1 + 1], actions[i - 1]);
      StepKeeps(trace[i - 1], trace[i], actions[i - 1]);
    }
  }

  // ---------------------------------------------------------------- what every run guarantees

  /** Hash consing is sound and complete: among all collections alive at any moment of a run,
      two module types have the same shared index exactly when they are the same type. */
  lemma SharedIndexIsTypeIdentity(trace: seq<System>, actions: seq<Action>, t: nat, i: nat, a: nat, j: nat, b: nat)
    requires Run(trace, actions) && t < |trace|
    requires i < |trace[t].regs| && a < |trace[t].regs[i].mod.wasmTypes|
    requires j < |trace[t].regs| && b < |trace[t].regs[j].mod.wasmTypes|
    ensures
      var ri, rj := trace[t].regs[i], trace[t].regs[j];
      && WellFormed(ri.mod) && WellFormed(rj.mod) && a < |ri.map_| && b < |rj.map_|
      && (ri.map_[a] == rj.map_[b] <==> Defs(ri.mod)[a] == Defs(rj.mod)[b])
  {
    hide Run, EntriesOk, KeysDistinct, OwnersLive, Conserved, ZerosWithin, Roll, Tiles;
    RunKeeps(trace, actions, t);
    assert RegOk(trace[t].store.g, trace[t].regs[i]) && RegOk(trace[t].store.g, trace[t].regs[j]);
  }

  /** At any moment of a run the registered groups are exactly those some outstanding
      handle reaches, and each counter is its handles plus the references to it. */
  lemma RegisteredIsReachable(trace: seq<System>, actions: seq<Action>, t: nat, e: nat)
    requires Run(trace, actions) && t < |trace|
    ensures
      var s := trace[t];
      && (e in s.store.g.live <==> Reached(s.store.g, Roots(Handles(s), {}), e))
      && (e in s.store.g.live ==>
            && e < |s.store.g.arena| && e < |s.store.registrations|
            && s.store.registrations[e] == Handles(s)[e] + InDegree(s.store.g, e))
  {
    hide Run, Structured, RegOk, Reached, InDegree;
    RunKeeps(trace, actions, t);
    LiveIsReached(trace[t].store, Handles(trace[t]), e);
  }

  /** Once every handle is gone the hash consing map, the slab and the reverse map are
      empty, as the registry's destructor demands. */
  lemma EmptyWithoutHandles(trace: seq<System>, actions: seq<Action>, t: nat)
    requires Run(trace, actions) && t < |trace|
    requires trace[t].regs == [] && trace[t].refs == multiset{}
    ensures trace[t].store.g.live == {} && trace[t].store.g.types == map[] && trace[t].store.g.owner == map[]
  {
    hide Run, EntriesOk, KeysDistinct, DenInjective, RegOk, InDegree;
    RunKeeps(trace, actions, t);
    var st := trace[t].store;
    assert Handles(trace[t]) == multiset{};
    if e :| e in st.g.live {
      PositiveIsReached(st, multiset{}, {}, e);
      NothingReached(st.g, e);
    }
    NoOwners(st.g);
    assert st.g.owner.Keys == {};
  }

  lemma NoOwners(g: Graph)
    requires OwnersLive(g) && g.live == {}
    ensures forall s :: s !in g.owner
  {
    assert forall s :: s in g.owner ==> OwnerOk(g, s);
  }

  lemma {:induction false} NothingReached(g: Graph, e: nat)
    ensures !Reached(g, Roots(multiset{}, {}), e)
    decreases |g.arena| - e
  {
    forall x | e < x < |g.arena| ensures !Reached(g, Roots(multiset{}, {}), x) {
      NothingReached(g, x);
    }
  }
}
