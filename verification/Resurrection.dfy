/** Handles dropped concurrently with registrations. A drop first decrements the counter
    outside the registry's lock; only a thread that saw zero then takes the lock and
    unregisters. In between, the entry can be registered again. */
module Resurrection {
  import opened WasmTypes
  import opened IsoRecursive
  import opened RegistryStore
  import opened RegistryOps
  import opened TypeRegistry

  /** `seen` holds the zero observations whose unregistration is still due. */
  datatype World = World(st: Store, handles: multiset<nat>, seen: multiset<nat>)

  datatype Action =
    | Drop(entry: nat)          // decrement outside the lock
    | Acquire(entry: nat)       // hash consing hit, type look-up or clone
    | Insert(key: Key, ids: seq<nat>, stored: seq<SubType<TypeIndex>>)
    | Unregister(entry: nat)    // a thread that saw zero has taken the lock

  ghost function Zeros(st: Store): set<nat> {
    set e | e in st.g.live && e < |st.registrations| && st.registrations[e] == 0
  }

  /** Entries are live, counted, and every zero count has an observer on its way. */
  ghost predicate Inv(s: World) {
    && Structured(s.st.g) && Conserved(s.st, s.handles)
    && (forall e :: e in Zeros(s.st) ==> e in s.seen)
    && (forall e :: e in s.seen ==> e in s.st.g.live && s.seen[e] == 1)
  }

  ghost predicate Step(s: World, s': World, a: Action) {
    |s.st.registrations| == |s.st.g.arena| &&
    match a
    case Drop(e) =>
      && e in s.handles && e < |s.st.registrations| && s.st.registrations[e] > 0
      && s' == World(Decremented(s.st, e), s.handles - multiset{e},
                      if s.st.registrations[e] == 1 then s.seen + multiset{e} else s.seen)
    case Acquire(e) =>
      && e in s.st.g.live && e < |s.st.registrations|
      && s' == World(Incremented(s.st, e), s.handles + multiset{e}, s.seen)
    case Insert(key, ids, stored) =>
      && Insertable(s.st.g, key, ids, stored)
      && s' == World(Inserted(s.st, key, ids, stored), s.handles + multiset{|s.st.g.arena|}, s.seen)
    case Unregister(e) =>
      && e in s.seen && e < |s.st.registrations|
      && s' == World(if s.st.registrations[e] != 0 then s.st
                      else Collect(s.st, s.handles, Zeros(s.st) - {e}),
                      s.handles, s.seen - multiset{e})
  }

  /** What a thread can tell before its step: a handle that brings the count to zero is not dropped while an observer
      of an earlier zero is on its way, and every other observed entry is kept registered by something else than
      the entry about to be removed: a handle, or an entry that waits for its own observer. */
  ghost predicate SingleObserver(s: World, a: Action) {
    match a
    case Drop(e) => e < |s.st.registrations| && s.st.registrations[e] == 1 ==> e !in s.seen
    case Unregister(e) =>
      e < |s.st.registrations| && s.st.registrations[e] == 0 ==>
        forall x :: x in s.seen && x != e ==> Reached(s.st.g, Roots(s.handles, Zeros(s.st) - {e}), x)
    case _ => true
  }

  lemma DropKeeps(s: World, s': World, e: nat)
    requires Inv(s) && Step(s, s', Drop(e)) && SingleObserver(s, Drop(e))
    ensures Inv(s')
  {
    hide Structured, InDegree;
    DecrementedKeeps(s.st, s.handles, e);
    assert e in s'.st.g.live;
  }

  lemma AcquireKeeps(s: World, s': World, e: nat)
    requires Inv(s) && Step(s, s', Acquire(e))
    ensures Inv(s')
  {
    hide Structured, InDegree;
    IncrementedKeeps(s.st, s.handles, e);
  }

  lemma InsertKeeps(s: World, s': World, key: Key, ids: seq<nat>, stored: seq<SubType<TypeIndex>>)
    requires Inv(s) && Step(s, s', Insert(key, ids, stored))
    ensures Inv(s')
  {
    hide Structured, Conserved, KeyOk, FreshIds, Bind, KeyBody, GroupDefs, Repeat, Mult, Refs;
    ConservedSizes(s.st, s.handles);
    GrownStructured(s.st.g, key, ids, stored);
    InsertedConserved(s.st, s.handles, key, ids, stored);
    forall e | e in Zeros(s'.st) ensures e in s'.seen {
      assert e in Zeros(s.st);
    }
  }

  /** Exactly the entries that something else reaches are still registered after a removal. */
  lemma RemovedExactly(s: World, s': World, e: nat)
    requires Inv(s) && Step(s, s', Unregister(e)) && s.st.registrations[e] == 0
    ensures forall x :: x in s.st.g.live ==>
              (x in s'.st.g.live <==> Reached(s.st.g, Roots(s.handles, Zeros(s.st) - {e}), x))
    ensures Structured(s'.st.g) && Conserved(s'.st, s'.handles) && ZerosWithin(s'.st, Zeros(s.st) - {e})
  {
    hide Structured, Conserved, Reached;
    var pending := Zeros(s.st) - {e};
    ShrunkStart(s.st, s.handles, pending);
    CollectKeeps(s.st, s.st, s.handles, pending);
  }

  lemma UnregisterKeepsIff(s: World, s': World, e: nat)
    requires Inv(s) && Step(s, s', Unregister(e))
    ensures Inv(s') <==> SingleObserver(s, Unregister(e))
  {
    hide Structured, Conserved, Collect, Reached;
    if s.st.registrations[e] == 0 {
      RemovedExactly(s, s', e);
      forall x | x in Zeros(s'.st) ensures x in s'.seen {
        assert x in Zeros(s.st) - {e};
      }
      if !SingleObserver(s, Unregister(e)) {
        var x :| x in s.seen && x != e && !Reached(s.st.g, Roots(s.handles, Zeros(s.st) - {e}), x);
        assert x in s'.seen && x !in s'.st.g.live;
      }
    }
  }

  lemma DropKeepsIff(s: World, s': World, e: nat)
    requires Inv(s) && Step(s, s', Drop(e))
    ensures Inv(s') <==> SingleObserver(s, Drop(e))
  {
    hide Structured, InDegree;
    if SingleObserver(s, Drop(e)) {
      DropKeeps(s, s', e);
    } else {
      assert s'.seen[e] == 2;
    }
  }

  /** Resurrection is safe exactly while every entry has at most one observer on its way: a step keeps the counters
      conserved and every observed entry registered exactly if the state before it admits it. */
  lemma StepKeepsIff(s: World, s': World, a: Action)
    requires Inv(s) && Step(s, s', a)
    ensures Inv(s') <==> SingleObserver(s, a)
  {
    hide Inv, Step, Collect;
    match a
    case Drop(e) => DropKeepsIff(s, s', e);
    case Acquire(e) => AcquireKeeps(s, s', e);
    case Insert(key, ids, stored) => InsertKeeps(s, s', key, ids, stored);
    case Unregister(e) => UnregisterKeepsIff(s, s', e);
  }

  ghost predicate Run(trace: seq<World>, actions: seq<Action>) {
    && |trace| == |actions| + 1 && trace[0] == World(EMPTY, multiset{}, multiset{})
    && forall i :: 0 <= i < |actions| ==>
         Step(trace[i], trace[i + 1], actions[i]) && SingleObserver(trace[i], actions[i])
  }

  lemma {:induction false} RunKeeps(trace: seq<World>, actions: seq<Action>, i: nat)
    requires Run(trace, actions) && i < |trace|
    ensures Inv(trace[i])
  {
    hide Step, SingleObserver;
    if i > 0 {
      RunKeeps(trace, actions, i - 1);
      StepKeepsIff(trace[i - 1], trace[i - 1 + 1], actions[i - 1]);
    } else {
      assert Zeros(EMPTY) == {};
    }
  }

  /** Over every such run: an unregistration under the lock finds its entry still registered;
      it removes the entry only if the count is still zero, and never an entry with a handle. */
  lemma UnregisterIsSafe(trace: seq<World>, actions: seq<Action>, i: nat)
    requires Run(trace, actions) && i < |actions| && actions[i].Unregister?
    ensures
      var s, s', e := trace[i], trace[i + 1], actions[i].entry;
      && e in s.st.g.live && e < |s.st.registrations|
      && (s.st.registrations[e] != 0 ==> s'.st == s.st)
      && (s.st.registrations[e] == 0 ==> e !in s'.st.g.live)
      && (forall x :: x in s.handles ==> x in s'.st.g.live)
  {
    hide Structured, InDegree;
    RunKeeps(trace, actions, i);
    RunKeeps(trace, actions, i + 1);
    var s, s', e := trace[i], trace[i + 1], actions[i].entry;
    assert Step(s, s', actions[i]);
    if s.st.registrations[e] == 0 {
      ShrunkStart(s.st, s.handles, Zeros(s.st) - {e});
      ZeroIsUnreached(s.st, s.st, s.handles, Zeros(s.st) - {e}, e);
    }
  }

  // ---------------------------------------------------------------- two observers

  /** With two observers on their way the re-check of the count is not enough. Whenever an entry that
      was resurrected before its observer took the lock is dropped to zero again, the first observer
      removes it, and the second still finds count zero on an entry that is no longer registered and
      whose reverse-map slots are empty. */
  lemma SecondObserverFindsRemoved(s: World, s': World, s'': World, e: nat)
    requires Inv(s) && e in s.seen && e < |s.st.registrations| && s.st.registrations[e] == 1
    requires Step(s, s', Drop(e)) && Step(s', s'', Unregister(e))
    ensures !SingleObserver(s, Drop(e))
    ensures e in s''.seen && e < |s''.st.registrations| && s''.st.registrations[e] == 0
    ensures e !in s''.st.g.live && e < |s''.st.g.arena|
    ensures forall i :: i in s''.st.g.arena[e].indices ==> i !in s''.st.g.owner
  {
    hide EntriesOk, KeysDistinct, DenInjective, OwnersLive, InDegree;
    DecrementedKeeps(s.st, s.handles, e);
    var pending := Zeros(s'.st) - {e};
    ShrunkStart(s'.st, s'.handles, pending);
    ZeroIsUnreached(s'.st, s'.st, s'.handles, pending, e);
    forall i | i in s''.st.g.arena[e].indices ensures i !in s''.st.g.owner {
      OwnerIff(s'.st.g, e, i);
    }
  }

  /** The same inside an unregistration: an observed entry that only the removed one kept registered is removed with it, and
      its observer finds count zero on an entry that is gone. */
  lemma CascadeRemovesObserved(s: World, s': World, e: nat, x: nat)
    requires Inv(s) && Step(s, s', Unregister(e)) && s.st.registrations[e] == 0
    requires x in s.seen && x != e && !Reached(s.st.g, Roots(s.handles, Zeros(s.st) - {e}), x)
    ensures !SingleObserver(s, Unregister(e))
    ensures x in s'.seen && x !in s'.st.g.live && x < |s'.st.registrations| && s'.st.registrations[x] == 0
  {
    hide Structured, InDegree, Reached;
    RemovedExactly(s, s', e);
    assert x in s.st.g.live;
  }

  const GROUP: Key := [SubType(true, None, CompositeType(FuncType([], []), false))]

  lemma GroupIsInsertable()
    ensures Insertable(EMPTY.g, GROUP, [0], GROUP)
  {
    assert TraceSub(GROUP[0]) == [];
    assert GROUP[1..] == [];
    assert TraceGroup(GROUP) == [];
    assert Structured(EMPTY.g);
    assert FreshIds(EMPTY.g, [0]);
    assert KeyOk(EMPTY.g, GROUP);
  }

  lemma EmptyInv()
    ensures Inv(World(EMPTY, multiset{}, multiset{}))
  {
    assert Zeros(EMPTY) == {};
  }

  lemma Registered() returns (s0: World, s1: World)
    ensures s0 == World(EMPTY, multiset{}, multiset{}) && Inv(s0) && Step(s0, s1, Insert(GROUP, [0], GROUP))
    ensures Inv(s1) && s1.st.registrations == [1] && s1.st.g.live == {0} && s1.handles == multiset{0}
    ensures s1.seen == multiset{}
  {
    hide Insertable, Inv, Bind, KeyBody, GroupDefs, Repeat, Refs;
    EmptyInv();
    GroupIsInsertable();
    s0 := World(EMPTY, multiset{}, multiset{});
    s1 := World(Inserted(EMPTY, GROUP, [0], GROUP), multiset{} + multiset{0}, multiset{});
    InsertKeeps(s0, s1, GROUP, [0], GROUP);
    assert Counted(EMPTY, Refs(GROUP)) == [];
  }

  /** The state before the second drop is reached by registering a group, dropping it and registering it again. */
  lemma Resurrected() returns (s0: World, s1: World, s2: World, s3: World)
    ensures s0 == World(EMPTY, multiset{}, multiset{}) && Step(s0, s1, Insert(GROUP, [0], GROUP))
    ensures Step(s1, s2, Drop(0)) && Step(s2, s3, Acquire(0))
    ensures Inv(s3) && 0 in s3.seen && s3.st.registrations == [1] && 0 in s3.handles
  {
    hide Structured, Conserved;
    s0, s1 := Registered();
    s2 := World(Decremented(s1.st, 0), s1.handles - multiset{0}, s1.seen + multiset{0});
    DropKeeps(s1, s2, 0);
    s3 := World(Incremented(s2.st, 0), s2.handles + multiset{0}, s2.seen);
    AcquireKeeps(s2, s3, 0);
  }

  /** A group is registered, dropped, registered again and dropped again before the first observer takes the lock. The first observer
      removes the entry; the second is still on its way and will find count zero on an entry that is gone. */
  lemma ResurrectionOccurs() returns (s0: World, s1: World, s2: World, s3: World, s4: World, s5: World)
    ensures s0 == World(EMPTY, multiset{}, multiset{}) && Step(s0, s1, Insert(GROUP, [0], GROUP))
    ensures Step(s1, s2, Drop(0)) && Step(s2, s3, Acquire(0)) && Step(s3, s4, Drop(0)) && Step(s4, s5, Unregister(0))
    ensures Inv(s3) && !SingleObserver(s3, Drop(0)) && !Inv(s4)
    ensures 0 in s5.seen && 0 !in s5.st.g.live && 0 < |s5.st.registrations| && s5.st.registrations[0] == 0
    ensures 0 < |s5.st.g.arena| && forall i :: i in s5.st.g.arena[0].indices ==> i !in s5.st.g.owner
  {
    hide Inv, Insertable, Inserted, Collect, SingleObserver;
    s0, s1, s2, s3 := Resurrected();
    StepSizes(s3);
    s4 := World(Decremented(s3.st, 0), s3.handles - multiset{0}, s3.seen + multiset{0});
    s5 := World(Collect(s4.st, s4.handles, Zeros(s4.st) - {0}), s4.handles, s4.seen - multiset{0});
    SecondObserverFindsRemoved(s3, s4, s5, 0);
    StepKeepsIff(s3, s4, Drop(0));
  }

  lemma StepSizes(s: World)
    requires Inv(s)
    ensures |s.st.registrations| == |s.st.g.arena|
  {
    hide Structured;
  }
}
