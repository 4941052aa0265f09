/** What each registry operation does to the store, and that each keeps the
    invariant of module `RegistryStore`. */
module RegistryOps {
  import opened WasmTypes
  import opened IsoRecursive
  import opened RegistryStore

  // ---------------------------------------------------------------- small maps

  /** Binds each `ids[k]` to `vs[k]`. */
  function Bind<V>(m: map<nat, V>, ids: seq<nat>, vs: seq<V>): (r: map<nat, V>)
    requires |ids| == |vs|
    ensures r.Keys == m.Keys + set s | s in ids
    ensures forall s :: s in m && s !in ids ==> s in r && r[s] == m[s]
    ensures Distinct(ids) ==> forall k :: 0 <= k < |ids| ==> ids[k] in r && r[ids[k]] == vs[k]
    decreases |ids|
  {
    if ids == [] then m else
      var n := |ids| - 1;
      var r := Bind(m, ids[..n], vs[..n]);
      assert forall s :: s in ids <==> s in ids[..n] || s == ids[n];
      r[ids[n] := vs[n]]
  }

  lemma BindOneMore<V>(m: map<nat, V>, ids: seq<nat>, vs: seq<V>, id: nat)
    requires |ids| < |vs|
    ensures Bind(m, ids + [id], vs[..|ids| + 1]) == Bind(m, ids, vs[..|ids|])[id := vs[|ids|]]
    ensures forall s :: s in ids ==> s in Bind(m, ids, vs[..|ids|])
  {
    assert (ids + [id])[..|ids|] == ids && vs[..|ids| + 1][..|ids|] == vs[..|ids|];
  }

  lemma DistinctMore(ids: seq<nat>, id: nat)
    requires Distinct(ids) && id !in ids
    ensures Distinct(ids + [id])
  {
  }

  function Repeat(v: nat, n: nat): (r: seq<nat>)
    ensures |r| == n && forall k :: 0 <= k < n ==> r[k] == v
  {
    seq(n, _ => v)
  }

  function RestrictTo<V>(m: map<nat, V>, owner: map<nat, nat>, live: set<nat>): map<nat, V> {
    map s | s in m && s in owner && owner[s] in live :: m[s]
  }

  // ---------------------------------------------------------------- registering

  /** The group was found in the hash consing map, or a handle on it was cloned. */
  function Incremented(st: Store, e: nat): Store
    requires e < |st.registrations|
  {
    st.(registrations := st.registrations[e := st.registrations[e] + 1])
  }

  lemma IncrementedKeeps(st: Store, handles: multiset<nat>, e: nat)
    requires Conserved(st, handles) && e in st.g.live
    ensures Conserved(Incremented(st, e), handles + multiset{e})
  {
  }

  /** A new entry for `key` under the indices `ids`, holding `stored` in the slab. */
  function Grown(g: Graph, key: Key, ids: seq<nat>, stored: seq<SubType<TypeIndex>>): Graph
    requires |ids| == |key| == |stored|
  {
    Graph(g.arena + [Entry(key, ids)],
          g.live + {|g.arena|},
          Bind<nat>(g.owner, ids, Repeat(|g.arena|, |ids|)),
          Bind(g.types, ids, stored),
          Bind(g.den, ids, GroupDefs(KeyBody(g.den, key))))
  }

  /** All counters after one more reference per element of `refs`. */
  function Counted(st: Store, refs: seq<nat>): (r: seq<nat>)
    requires |st.registrations| == |st.g.arena|
    ensures |r| == |st.g.arena|
  {
    seq(|st.g.arena|, x requires 0 <= x < |st.g.arena| =>
      if x in st.g.live then st.registrations[x] + Mult(refs, st.g.arena[x].indices) else st.registrations[x])
  }

  /** The store after a group was registered for the first time. */
  function Inserted(st: Store, key: Key, ids: seq<nat>, stored: seq<SubType<TypeIndex>>): Store
    requires |st.registrations| == |st.g.arena|
    requires |ids| == |key| == |stored|
  {
    Store(Grown(st.g, key, ids, stored), Counted(st, Refs(key)) + [1])
  }

  /** A key the registry may store: canonicalised, with all outer references live. */
  ghost predicate KeyOk(g: Graph, key: Key) {
    forall x :: x in TraceGroup(key) ==> RefOk(g, |g.arena|, |key|, x)
  }

  ghost predicate FreshIds(g: Graph, ids: seq<nat>) {
    Distinct(ids) && forall s :: s in ids ==> s !in g.owner
  }

  ghost predicate Insertable(g: Graph, key: Key, ids: seq<nat>, stored: seq<SubType<TypeIndex>>) {
    && Structured(g) && KeyOk(g, key) && FreshIds(g, ids) && |ids| == |key| == |stored|
    && (forall e :: e in g.live ==> g.arena[e].key != key)
  }

  lemma KeyBodyStable(g: Graph, key: Key, den': map<nat, Def>)
    requires forall s :: Shared(s) in TraceGroup(key) ==> s in den' && s in g.den && den'[s] == g.den[s]
    ensures KeyBody(den', key) == KeyBody(g.den, key)
  {
    MapGroupCongruent(key, x => KeyRef(den', x), x => KeyRef(g.den, x));
  }

  /** Keys that stand for the same closed group are the same key. */
  lemma KeyBodyInjective(g: Graph, key: Key, key': Key)
    requires KeyOk(g, key) && KeyOk(g, key') && g.den.Keys == g.owner.Keys && DenInjective(g.den)
    requires KeyBody(g.den, key) == KeyBody(g.den, key')
    ensures key == key'
  {
    var f := x => KeyRef(g.den, x);
    forall x, y | x in TraceGroup(key) && y in TraceGroup(key') && f(x) == f(y) ensures x == y {
      assert RefOk(g, |g.arena|, |key|, x) && RefOk(g, |g.arena|, |key'|, y);
    }
    MapGroupInjective(key, key', f);
  }

  lemma LiveKeyOk(g: Graph, e: nat)
    requires Structured(g) && e in g.live
    ensures KeyOk(g, g.arena[e].key)
  {
    hide KeyBody, DenInjective, KeysDistinct, OwnsItsIndices, MeansItsKey, OwnersLive;
    assert EntryOk(g, e);
    forall x | x in TraceGroup(g.arena[e].key) ensures RefOk(g, |g.arena|, |g.arena[e].key|, x) {
      assert RefOk(g, e, |g.arena[e].key|, x);
    }
  }

  lemma GrownMaps(g: Graph, key: Key, ids: seq<nat>, stored: seq<SubType<TypeIndex>>)
    requires Insertable(g, key, ids, stored)
    ensures
      var g' := Grown(g, key, ids, stored);
      && (forall s :: s in g'.owner <==> s in g.owner || s in ids)
      && (forall s :: s in g.owner ==> g'.owner[s] == g.owner[s])
      && (forall s :: s in ids ==> s in g'.owner && g'.owner[s] == |g.arena|)
      && (forall s :: s in g.den ==> s in g'.den && g'.den[s] == g.den[s])
      && (forall k :: 0 <= k < |ids| ==> ids[k] in g'.den && g'.den[ids[k]] == Def(KeyBody(g.den, key), k))
      && g'.types.Keys == g'.owner.Keys && g'.den.Keys == g'.owner.Keys
      && (forall s :: s in g.types ==> s in g'.types && g'.types[s] == g.types[s])
      && (forall k :: 0 <= k < |ids| ==> ids[k] in g'.types && g'.types[ids[k]] == stored[k])
  {
    hide EntriesOk, KeysDistinct, DenInjective, OwnersLive, KeyOk, KeyBody, Bind, GroupDefs, Repeat, MapGroup;
    var g' := Grown(g, key, ids, stored);
    forall s | s in ids ensures g'.owner[s] == |g.arena| {
      var k :| 0 <= k < |ids| && ids[k] == s;
    }
  }

  lemma NewDenDiffers(g: Graph, key: Key, ids: seq<nat>, stored: seq<SubType<TypeIndex>>, k: nat, t: nat)
    requires Insertable(g, key, ids, stored) && t in g.den
    ensures Def(KeyBody(g.den, key), k) != g.den[t]
  {
    hide KeyBody, DenInjective, KeysDistinct, OwnsItsIndices, RefersToOlder, KeyOk, FreshIds;
    assert OwnerOk(g, t);
    var e := g.owner[t];
    assert EntryOk(g, e);
    var p :| 0 <= p < |g.arena[e].indices| && g.arena[e].indices[p] == t;
    assert g.den[t] == Def(KeyBody(g.den, g.arena[e].key), p);
    LiveKeyOk(g, e);
    if KeyBody(g.den, key) == KeyBody(g.den, g.arena[e].key) {
      KeyBodyInjective(g, key, g.arena[e].key);
    }
  }

  lemma ExtendedInjective(den: map<nat, Def>, den': map<nat, Def>, ids: seq<nat>, body: seq<SubType<Ref>>)
    requires DenInjective(den)
    requires forall s :: s in den' ==> s in den || s in ids
    requires forall s :: s in den ==> s in den' && den'[s] == den[s]
    requires forall k :: 0 <= k < |ids| ==> ids[k] in den' && den'[ids[k]] == Def(body, k)
    requires forall k: nat, t :: t in den && k < |ids| ==> Def(body, k) != den[t]
    ensures DenInjective(den')
  {
    forall s, s' | s in den' && s' in den' && den'[s] == den'[s'] ensures s == s' {
      if s !in den {
        var k :| 0 <= k < |ids| && ids[k] == s;
        assert s' !in den;
        var k' :| 0 <= k' < |ids| && ids[k'] == s';
      }
    }
  }

  lemma GrownDen(g: Graph, key: Key, ids: seq<nat>, stored: seq<SubType<TypeIndex>>)
    requires Insertable(g, key, ids, stored)
    ensures DenInjective(Grown(g, key, ids, stored).den)
  {
    hide EntriesOk, KeysDistinct, OwnersLive, KeyOk, KeyBody, Bind, GroupDefs, Repeat, DenInjective, FreshIds;
    GrownMaps(g, key, ids, stored);
    forall k: nat, t | t in g.den && k < |ids| ensures Def(KeyBody(g.den, key), k) != g.den[t] {
      NewDenDiffers(g, key, ids, stored, k, t);
    }
    ExtendedInjective(g.den, Grown(g, key, ids, stored).den, ids, KeyBody(g.den, key));
  }

  lemma GrownOldEntry(g: Graph, key: Key, ids: seq<nat>, stored: seq<SubType<TypeIndex>>, e: nat)
    requires Insertable(g, key, ids, stored) && e in g.live
    ensures EntryOk(Grown(g, key, ids, stored), e)
  {
    hide KeyBody, DenInjective, KeysDistinct, OwnersLive, KeyOk, FreshIds, Bind, GroupDefs, Repeat, TraceGroup;
    var g' := Grown(g, key, ids, stored);
    GrownMaps(g, key, ids, stored);
    assert EntryOk(g, e);
    forall x | x in TraceGroup(g.arena[e].key) ensures RefOk(g', e, |g.arena[e].key|, x) {
      assert RefOk(g, e, |g.arena[e].key|, x);
    }
    forall s | Shared(s) in TraceGroup(g.arena[e].key) ensures s in g.den {
      assert RefOk(g, e, |g.arena[e].key|, Shared(s));
    }
    KeyBodyStable(g, g.arena[e].key, g'.den);
  }

  lemma GrownNewEntry(g: Graph, key: Key, ids: seq<nat>, stored: seq<SubType<TypeIndex>>)
    requires Insertable(g, key, ids, stored)
    ensures EntryOk(Grown(g, key, ids, stored), |g.arena|)
  {
    hide KeyBody, DenInjective, KeysDistinct, EntriesOk, OwnersLive, Bind, GroupDefs, Repeat, TraceGroup;
    var g' := Grown(g, key, ids, stored);
    GrownMaps(g, key, ids, stored);
    forall x | x in TraceGroup(key) ensures RefOk(g', |g.arena|, |key|, x) {
      assert RefOk(g, |g.arena|, |key|, x);
      if x.Shared? {
        OwnerInArena(g, x.shared);
      }
    }
    forall s | Shared(s) in TraceGroup(key) ensures s in g.den {
      assert RefOk(g, |g.arena|, |key|, Shared(s));
    }
    KeyBodyStable(g, key, g'.den);
  }

  lemma OwnerInArena(g: Graph, s: nat)
    requires Structured(g) && s in g.owner
    ensures g.owner[s] in g.live && g.owner[s] < |g.arena|
  {
    hide EntriesOk, DenInjective, KeysDistinct;
    assert OwnerOk(g, s);
  }

  lemma GrownOwners(g: Graph, key: Key, ids: seq<nat>, stored: seq<SubType<TypeIndex>>)
    requires Insertable(g, key, ids, stored)
    ensures OwnersLive(Grown(g, key, ids, stored))
  {
    var g' := Grown(g, key, ids, stored);
    GrownMaps(g, key, ids, stored);
    hide KeyBody, DenInjective, KeysDistinct, EntriesOk, KeyOk, FreshIds, Bind, GroupDefs;
    forall s | s in g'.owner ensures OwnerOk(g', s) {
      if s in g.owner {
        assert OwnerOk(g, s);
      }
    }
  }

  /** Adding a new group keeps the structural invariant, in particular the two sides of
      hash consing: distinct keys, and distinct meanings of distinct indices. */
  lemma GrownStructured(g: Graph, key: Key, ids: seq<nat>, stored: seq<SubType<TypeIndex>>)
    requires Insertable(g, key, ids, stored)
    ensures Structured(Grown(g, key, ids, stored))
  {
    hide EntryOk, DenInjective, OwnersLive, KeyOk, FreshIds, Bind, KeyBody, GroupDefs, Repeat;
    var g' := Grown(g, key, ids, stored);
    GrownMaps(g, key, ids, stored);
    GrownDen(g, key, ids, stored);
    GrownOwners(g, key, ids, stored);
    forall e | e in g'.live ensures EntryOk(g', e) {
      if e == |g.arena| {
        GrownNewEntry(g, key, ids, stored);
      } else {
        GrownOldEntry(g, key, ids, stored, e);
      }
    }
  }

  lemma NoEdgesToFresh(g: Graph, ids: seq<nat>, n: nat)
    requires Structured(g) && FreshIds(g, ids) && n <= |g.arena|
    ensures EdgesInto(g.arena, g.live, ids, n) == 0
  {
    hide EntriesOk, DenInjective, KeysDistinct, OwnersLive;
    EdgesPositive(g.arena, g.live, ids, n);
    forall x | x in g.live ensures Mult(Refs(g.arena[x].key), ids) == 0 {
      MultPositive(Refs(g.arena[x].key), ids);
      forall s | s in Refs(g.arena[x].key) ensures s !in ids {
        RefIsOlder(g, x, s);
      }
    }
  }

  lemma NoEdgesFromKeyToFresh(g: Graph, key: Key, ids: seq<nat>)
    requires KeyOk(g, key) && FreshIds(g, ids)
    ensures Mult(Refs(key), ids) == 0
  {
    MultPositive(Refs(key), ids);
    forall s | s in Refs(key) ensures s !in ids {
      assert RefOk(g, |g.arena|, |key|, Shared(s));
    }
  }

  lemma InsertedInDegree(g: Graph, key: Key, ids: seq<nat>, stored: seq<SubType<TypeIndex>>, e: nat)
    requires Insertable(g, key, ids, stored) && e <= |g.arena| && (e < |g.arena| ==> e in g.live)
    ensures InDegree(Grown(g, key, ids, stored), e)
            == if e < |g.arena| then InDegree(g, e) + Mult(Refs(key), g.arena[e].indices) else 0
  {
    var g' := Grown(g, key, ids, stored);
    hide EntriesOk, DenInjective, KeysDistinct, OwnersLive, KeyOk, FreshIds, Bind, KeyBody, GroupDefs, Mult, Refs,
         IntoGroup;
    MultIsInto(key, g'.arena[e].indices);
    EdgesAppend(g.arena, Entry(key, ids), g.live, g'.arena[e].indices, |g.arena|);
    if e == |g.arena| {
      NoEdgesToFresh(g, ids, |g.arena|);
      NoEdgesFromKeyToFresh(g, key, ids);
    }
  }

  /** Adding a new group keeps the counters conserved; its one registration is the handle returned. */
  lemma InsertedConserved(st: Store, handles: multiset<nat>, key: Key, ids: seq<nat>, stored: seq<SubType<TypeIndex>>)
    requires Conserved(st, handles) && Insertable(st.g, key, ids, stored)
    ensures Conserved(Inserted(st, key, ids, stored), handles + multiset{|st.g.arena|})
  {
    hide EntriesOk, DenInjective, KeysDistinct, OwnersLive, KeyOk, FreshIds, Bind, KeyBody, GroupDefs, Repeat,
         Mult, Refs, InDegree;
    var st' := Inserted(st, key, ids, stored);
    var n := |st.g.arena|;
    forall e | e in st'.g.live
      ensures st'.registrations[e] == (handles + multiset{n})[e] + InDegree(st'.g, e)
    {
      InsertedInDegree(st.g, key, ids, stored, e);
    }
  }

  // ---------------------------------------------------------------- dropping

  /** A handle on `e` is gone: its counter went down by one. */
  function Decremented(st: Store, e: nat): Store
    requires e < |st.registrations| && st.registrations[e] > 0
  {
    st.(registrations := st.registrations[e := st.registrations[e] - 1])
  }

  lemma DecrementedKeeps(st: Store, handles: multiset<nat>, e: nat)
    requires Conserved(st, handles) && e in handles
    ensures e < |st.registrations| && st.registrations[e] > 0
    ensures Conserved(Decremented(st, e), handles - multiset{e})
  {
  }

  function Monus(a: nat, b: nat): nat {
    if b <= a then a - b else 0
  }

  /** All counters after the references of the unregistered entry `e` were released. */
  function Uncounted(st: Store, e: nat): (r: seq<nat>)
    requires |st.registrations| == |st.g.arena| && e < |st.g.arena|
    ensures |r| == |st.g.arena|
  {
    seq(|st.g.arena|, x requires 0 <= x < |st.g.arena| =>
      if x in st.g.live && x != e then Monus(st.registrations[x], Mult(Refs(st.g.arena[e].key), st.g.arena[x].indices))
      else st.registrations[x])
  }

  function ElemsOf(s: seq<nat>): set<nat> {
    set x | x in s
  }

  function Without(g: Graph, e: nat): Graph
    requires e < |g.arena|
  {
    var gone := ElemsOf(g.arena[e].indices);
    Graph(g.arena, g.live - {e}, g.owner - gone, g.types - gone, g.den - gone)
  }

  /** One round of the unregistration worklist on the zero-count entry `e`. */
  function Released(st: Store, e: nat): Store
    requires |st.registrations| == |st.g.arena| && e < |st.g.arena|
  {
    Store(Without(st.g, e), Uncounted(st, e))
  }

  /** No live entry refers to `e`. */
  ghost predicate Unreferenced(g: Graph, e: nat)
    requires e < |g.arena| && LiveInArena(g)
  {
    forall x, s :: x in g.live && s in Refs(g.arena[x].key) ==> s !in g.arena[e].indices
  }

  lemma ZeroIsUnreferenced(st: Store, handles: multiset<nat>, e: nat)
    requires Conserved(st, handles) && e in st.g.live && st.registrations[e] == 0
    ensures handles[e] == 0 && InDegree(st.g, e) == 0
    ensures Unreferenced(st.g, e)
  {
    EdgesPositive(st.g.arena, st.g.live, st.g.arena[e].indices, |st.g.arena|);
    forall x, s | x in st.g.live && s in Refs(st.g.arena[x].key) ensures s !in st.g.arena[e].indices {
      MultPositive(Refs(st.g.arena[x].key), st.g.arena[e].indices);
    }
  }

  lemma UnreferencedBy(g: Graph, e: nat, x: nat, s: nat)
    requires e < |g.arena| && LiveInArena(g) && Unreferenced(g, e)
    requires x in g.live && Shared(s) in TraceGroup(g.arena[x].key)
    ensures s !in g.arena[e].indices
  {
    assert s in Refs(g.arena[x].key);
  }

  lemma WithoutEntry(g: Graph, e: nat, x: nat)
    requires Structured(g) && e in g.live && Unreferenced(g, e) && x in g.live && x != e
    ensures EntryOk(Without(g, e), x)
  {
    hide KeyBody, DenInjective, KeysDistinct, OwnersLive, TraceGroup, Refs, Unreferenced;
    var g' := Without(g, e);
    assert EntryOk(g, x);
    forall s | s in g.arena[x].indices ensures s !in g.arena[e].indices {
      OwnerIff(g, e, s);
    }
    forall y | y in TraceGroup(g.arena[x].key)
      ensures RefOk(g', x, |g.arena[x].key|, y)
      ensures y.Shared? ==> y.shared in g'.den && y.shared in g.den
    {
      assert RefOk(g, x, |g.arena[x].key|, y);
      if y.Shared? {
        UnreferencedBy(g, e, x, y.shared);
      }
    }
    KeyBodyStable(g, g.arena[x].key, g'.den);
  }

  lemma WithoutStructured(g: Graph, e: nat)
    requires Structured(g) && e in g.live && Unreferenced(g, e)
    ensures Structured(Without(g, e))
  {
    hide EntryOk, Unreferenced;
    var g' := Without(g, e);
    forall x | x in g'.live ensures EntryOk(g', x) {
      WithoutEntry(g, e, x);
    }
    forall s | s in g'.owner ensures OwnerOk(g', s) {
      assert OwnerOk(g, s);
      OwnerIff(g, e, s);
    }
  }

  /** Releasing an entry's references keeps the counters conserved, and none underflows. */
  lemma ReleasedConserved(st: Store, handles: multiset<nat>, e: nat)
    requires Conserved(st, handles) && e in st.g.live && st.registrations[e] == 0
    ensures forall x :: x in st.g.live && x != e ==>
              Mult(Refs(st.g.arena[e].key), st.g.arena[x].indices) <= st.registrations[x]
    ensures Conserved(Released(st, e), handles)
  {
    var st' := Released(st, e);
    ZeroIsUnreferenced(st, handles, e);
    hide Mult, Refs;
    forall x | x in st'.g.live
      ensures Mult(Refs(st.g.arena[e].key), st.g.arena[x].indices) <= st.registrations[x]
      ensures st'.registrations[x] == handles[x] + InDegree(st'.g, x)
    {
      EdgesRemove(st.g.arena, st.g.live, st.g.arena[x].indices, |st.g.arena|, e);
    }
  }

  // ---------------------------------------------------------------- the sweep

  ghost function Survivors(g: Graph, roots: iset<nat>): set<nat> {
    set e | e in g.live && Reached(g, roots, e)
  }

  function Restricted(g: Graph, keep: set<nat>): Graph {
    Graph(g.arena, keep, RestrictTo(g.owner, g.owner, keep),
          RestrictTo(g.types, g.owner, keep), RestrictTo(g.den, g.owner, keep))
  }

  /** Mark and sweep: keep exactly the entries some root reaches. The worklist of
      reference count decrements is proved to compute this. */
  ghost function Collect(st: Store, handles: multiset<nat>, pending: set<nat>): Store
    requires |st.registrations| == |st.g.arena|
  {
    var keep := Survivors(st.g, Roots(handles, pending));
    Store(Restricted(st.g, keep),
          seq(|st.g.arena|, e requires 0 <= e < |st.g.arena| =>
            if e in keep then handles[e] + EdgesInto(st.g.arena, keep, st.g.arena[e].indices, |st.g.arena|)
            else if e in st.g.live then 0
            else st.registrations[e]))
  }

  /** `st` is `st0` with some unreached, zero-count entries already released. */
  ghost predicate Shrunk(st0: Store, st: Store, handles: multiset<nat>, pending: set<nat>) {
    && Structured(st0.g) && Structured(st.g) && Conserved(st, handles)
    && |st0.registrations| == |st0.g.arena|
    && st.g.live <= st0.g.live
    && st.g == Restricted(st0.g, st.g.live)
    && (forall e :: 0 <= e < |st0.g.arena| && e !in st0.g.live ==> st.registrations[e] == st0.registrations[e])
    && (forall e :: e in st0.g.live && e !in st.g.live ==>
          st.registrations[e] == 0 && !Reached(st0.g, Roots(handles, pending), e))
  }

  lemma RestrictedSelf(g: Graph)
    requires OwnersLive(g) && g.types.Keys == g.owner.Keys && g.den.Keys == g.owner.Keys
    ensures g == Restricted(g, g.live)
  {
    forall s | s in g.owner ensures g.owner[s] in g.live {
      assert OwnerOk(g, s);
    }
    assert g.owner == RestrictTo(g.owner, g.owner, g.live);
    assert g.types == RestrictTo(g.types, g.owner, g.live);
    assert g.den == RestrictTo(g.den, g.owner, g.live);
  }

  lemma ShrunkStart(st: Store, handles: multiset<nat>, pending: set<nat>)
    requires Structured(st.g) && Conserved(st, handles)
    ensures Shrunk(st, st, handles, pending)
  {
    hide EntriesOk, DenInjective, KeysDistinct, OwnersLive;
    RestrictedSelf(st.g);
  }

  lemma ZeroIsUnreached(st0: Store, st: Store, handles: multiset<nat>, pending: set<nat>, e: nat)
    requires Shrunk(st0, st, handles, pending)
    requires e in st.g.live && st.registrations[e] == 0 && e !in pending
    ensures !Reached(st0.g, Roots(handles, pending), e)
  {
    hide EntriesOk, DenInjective, KeysDistinct, OwnersLive;
    ZeroIsUnreferenced(st, handles, e);
    forall x | e < x < |st0.g.arena| && x in st0.g.live && Edge(st0.g, x, e)
      ensures !Reached(st0.g, Roots(handles, pending), x)
    {
      var s :| s in Refs(st0.g.arena[x].key) && s in st0.g.owner && st0.g.owner[s] == e;
      OwnerIff(st0.g, e, s);
      assert x !in st.g.live;
    }
  }

  lemma RestrictedWithout(g: Graph, live: set<nat>, e: nat)
    requires Structured(g) && e in g.live
    ensures Without(Restricted(g, live), e) == Restricted(g, live - {e})
  {
    hide EntriesOk, DenInjective, KeysDistinct, OwnersLive;
    var gone := ElemsOf(g.arena[e].indices);
    forall s | s in g.owner ensures s in gone <==> g.owner[s] == e {
      OwnerIff(g, e, s);
    }
    assert RestrictTo(g.owner, g.owner, live) - gone == RestrictTo(g.owner, g.owner, live - {e});
    assert RestrictTo(g.types, g.owner, live) - gone == RestrictTo(g.types, g.owner, live - {e});
    assert RestrictTo(g.den, g.owner, live) - gone == RestrictTo(g.den, g.owner, live - {e});
  }

  lemma ShrunkStep(st0: Store, st: Store, handles: multiset<nat>, pending: set<nat>, e: nat)
    requires Shrunk(st0, st, handles, pending)
    requires e in st.g.live && st.registrations[e] == 0 && e !in pending
    ensures Shrunk(st0, Released(st, e), handles, pending)
  {
    ZeroIsUnreferenced(st, handles, e);
    ReleasedConserved(st, handles, e);
    WithoutStructured(st.g, e);
    ZeroIsUnreached(st0, st, handles, pending, e);
    RestrictedWithout(st0.g, st.g.live, e);
    hide EntriesOk, DenInjective, KeysDistinct, OwnersLive, Restricted, Unreferenced, InDegree, Mult, Refs;
  }

  lemma {:induction false} ReachedGrows(st0: Store, st: Store, handles: multiset<nat>, pending: set<nat>, e: nat)
    requires Shrunk(st0, st, handles, pending)
    requires Reached(st.g, Roots(handles, pending), e)
    ensures Reached(st0.g, Roots(handles, pending), e)
    decreases |st.g.arena| - e
  {
    hide EntriesOk, DenInjective, KeysDistinct, OwnersLive, Conserved;
    var roots := Roots(handles, pending);
    if e !in roots {
      var x :| e < x < |st.g.arena| && x in st.g.live && Edge(st.g, x, e) && Reached(st.g, roots, x);
      ReachedGrows(st0, st, handles, pending, x);
      assert Edge(st0.g, x, e);
    }
  }

  /** When no other zero counts are left, the decrements have swept exactly the unreached entries. */
  lemma ShrunkDone(st0: Store, st: Store, handles: multiset<nat>, pending: set<nat>)
    requires Shrunk(st0, st, handles, pending) && ZerosWithin(st, pending)
    ensures st == Collect(st0, handles, pending)
  {
    hide EntriesOk, DenInjective, KeysDistinct, OwnersLive, Mult, Refs;
    var keep := Survivors(st0.g, Roots(handles, pending));
    forall e | e in st.g.live ensures e in keep {
      PositiveIsReached(st, handles, pending, e);
      ReachedGrows(st0, st, handles, pending, e);
    }
    assert st.g.live == keep;
    assert st.registrations == Collect(st0, handles, pending).registrations;
  }

  /** A sweep keeps the invariant, and zero counts remain at most in `pending`. */
  lemma {:induction false} CollectKeeps(st0: Store, st: Store, handles: multiset<nat>, pending: set<nat>)
    requires Shrunk(st0, st, handles, pending)
    ensures
      var c := Collect(st0, handles, pending);
      Structured(c.g) && Conserved(c, handles) && ZerosWithin(c, pending)
    decreases |st.g.live|
  {
    if ZerosWithin(st, pending) {
      ShrunkDone(st0, st, handles, pending);
    } else {
      hide Structured, Conserved, Collect;
      var e :| e in st.g.live && e < |st.registrations| && st.registrations[e] == 0 && e !in pending;
      ShrunkStep(st0, st, handles, pending, e);
      assert Released(st, e).g.live == st.g.live - {e};
      CollectKeeps(st0, Released(st, e), handles, pending);
    }
  }

  /** Dropping one handle: decrement, then sweep what no other handle reaches. */
  ghost function Dropped(st: Store, handles: multiset<nat>, e: nat): Store
    requires Conserved(st, handles) && e in handles
  {
    DecrementedKeeps(st, handles, e);
    Collect(Decremented(st, e), handles - multiset{e}, {})
  }

  lemma DroppedValid(st: Store, handles: multiset<nat>, e: nat)
    requires Valid(st, handles) && e in handles
    ensures Valid(Dropped(st, handles, e), handles - multiset{e})
  {
    hide Structured, Collect;
    DecrementedKeeps(st, handles, e);
    var d := Decremented(st, e);
    ShrunkStart(d, handles - multiset{e}, {});
    CollectKeeps(d, d, handles - multiset{e}, {});
  }

  /** A sweep changes nothing about the entries that keep a handle. */
  lemma DroppedFrame(st: Store, handles: multiset<nat>, e: nat, s: nat)
    requires Valid(st, handles) && e in handles
    requires s in st.g.owner && st.g.owner[s] in handles - multiset{e}
    ensures
      var g := Dropped(st, handles, e).g;
      s in g.owner && g.owner[s] == st.g.owner[s] && s in g.den && s in st.g.den && g.den[s] == st.g.den[s]
  {
    hide EntriesOk, KeysDistinct, DenInjective, InDegree;
    DecrementedKeeps(st, handles, e);
    assert OwnerOk(st.g, s);
    var roots := Roots(handles - multiset{e}, {});
    assert Reached(st.g, roots, st.g.owner[s]);
  }
}
