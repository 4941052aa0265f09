/** The contents of the engine's type registry as a value, its invariant, and the
    reference counting laws the registry's methods are proved against.

    `Arc<RecGroupEntryInner>` pointers are positions in an append-only arena, so an
    entry's number is also its creation order; `registrations` holds the counters. */
module RegistryStore {
  import opened WasmTypes
  import opened IsoRecursive

  type Key = seq<SubType<TypeIndex>>

  datatype Entry = Entry(key: Key, indices: seq<nat>)

  datatype Graph = Graph(
    arena: seq<Entry>,
    live: set<nat>,                            // members of the hash consing map
    owner: map<nat, nat>,                      // shared type index -> its entry
    types: map<nat, SubType<TypeIndex>>,       // the slab of runtime types
    den: map<nat, Def>)                        // what each shared index stands for

  datatype Store = Store(g: Graph, registrations: seq<nat>)

  const EMPTY := Store(Graph([], {}, map[], map[], map[]), [])

  // ---------------------------------------------------------------- references

  /** The engine-wide references among `trace`, in order and with repetitions. */
  function SharedOf(trace: seq<TypeIndex>): (r: seq<nat>)
    ensures forall s :: s in r <==> Shared(s) in trace
  {
    if trace == [] then []
    else if trace[0].Shared? then [trace[0].shared] + SharedOf(trace[1..])
    else SharedOf(trace[1..])
  }

  function Refs(key: Key): (r: seq<nat>)
    ensures forall s :: s in r <==> Shared(s) in TraceGroup(key)
  {
    SharedOf(TraceGroup(key))
  }

  /** How many of `refs` fall on `indices`. */
  function Mult(refs: seq<nat>, indices: seq<nat>): nat {
    if refs == [] then 0
    else (if refs[0] in indices then 1 else 0) + Mult(refs[1..], indices)
  }

  lemma {:induction false} MultPositive(refs: seq<nat>, indices: seq<nat>)
    ensures Mult(refs, indices) > 0 <==> exists s :: s in refs && s in indices
  {
    if refs != [] {
      MultPositive(refs[1..], indices);
      if Mult(refs, indices) > 0 && refs[0] !in indices {
        var s :| s in refs[1..] && s in indices;
        assert s in refs;
      }
    }
  }

  // ---------------------------------------------------------------- occurrences

  /** The places in a key at which it mentions one of `indices`, counted over the structure of its types. */
  function IntoRef(x: TypeIndex, indices: seq<nat>): nat {
    if x.Shared? && x.shared in indices then 1 else 0
  }

  function IntoVal(v: ValType<TypeIndex>, indices: seq<nat>): nat {
    if !v.Ref? then 0 else
      match v.ref.heap.kind
      case ConcreteFunc(x) => IntoRef(x, indices)
      case ConcreteArray(x) => IntoRef(x, indices)
      case ConcreteStruct(x) => IntoRef(x, indices)
      case _ => 0
  }

  function IntoVals(vs: seq<ValType<TypeIndex>>, indices: seq<nat>): nat {
    if vs == [] then 0 else IntoVal(vs[0], indices) + IntoVals(vs[1..], indices)
  }

  function IntoField(f: FieldType<TypeIndex>, indices: seq<nat>): nat {
    if f.element.Val? then IntoVal(f.element.val, indices) else 0
  }

  function IntoFields(fs: seq<FieldType<TypeIndex>>, indices: seq<nat>): nat {
    if fs == [] then 0 else IntoField(fs[0], indices) + IntoFields(fs[1..], indices)
  }

  function IntoSub(t: SubType<TypeIndex>, indices: seq<nat>): nat {
    (if t.supertype.Some? then IntoRef(t.supertype.value, indices) else 0)
    + match t.composite.inner
      case FuncType(params, results) => IntoVals(params, indices) + IntoVals(results, indices)
      case ArrayType(field) => IntoField(field, indices)
      case StructType(fields) => IntoFields(fields, indices)
  }

  function IntoGroup(ts: seq<SubType<TypeIndex>>, indices: seq<nat>): nat {
    if ts == [] then 0 else IntoSub(ts[0], indices) + IntoGroup(ts[1..], indices)
  }

  /** The same count over a list of references. */
  function IntoTrace(trace: seq<TypeIndex>, indices: seq<nat>): nat {
    if trace == [] then 0 else IntoRef(trace[0], indices) + IntoTrace(trace[1..], indices)
  }

  lemma {:induction false} IntoConcat(a: seq<TypeIndex>, b: seq<TypeIndex>, indices: seq<nat>)
    ensures IntoTrace(a + b, indices) == IntoTrace(a, indices) + IntoTrace(b, indices)
  {
    if a == [] {
      assert a + b == b;
    } else {
      assert (a + b)[0] == a[0] && (a + b)[1..] == a[1..] + b;
      IntoConcat(a[1..], b, indices);
    }
  }

  lemma IntoOne(x: TypeIndex, indices: seq<nat>)
    ensures IntoTrace([x], indices) == IntoRef(x, indices) && IntoTrace([], indices) == 0
  {
    assert [x][1..] == [];
  }

  lemma IntoValTrace(v: ValType<TypeIndex>, indices: seq<nat>)
    ensures IntoTrace(TraceVal(v), indices) == IntoVal(v, indices)
  {
    hide IntoTrace, IntoRef;
    IntoOne(RecGroup(0), indices);
    if v.Ref? {
      match v.ref.heap.kind
      case ConcreteFunc(x) => IntoOne(x, indices);
      case ConcreteArray(x) => IntoOne(x, indices);
      case ConcreteStruct(x) => IntoOne(x, indices);
      case _ =>
    }
  }

  lemma {:induction false} IntoValsTrace(vs: seq<ValType<TypeIndex>>, indices: seq<nat>)
    ensures IntoTrace(TraceVals(vs), indices) == IntoVals(vs, indices)
  {
    hide IntoVal, TraceVal;
    if vs != [] {
      IntoValTrace(vs[0], indices);
      IntoValsTrace(vs[1..], indices);
      IntoConcat(TraceVal(vs[0]), TraceVals(vs[1..]), indices);
    }
  }

  lemma IntoFieldTrace(f: FieldType<TypeIndex>, indices: seq<nat>)
    ensures IntoTrace(TraceField(f), indices) == IntoField(f, indices)
  {
    hide IntoVal, TraceVal;
    if f.element.Val? {
      IntoValTrace(f.element.val, indices);
    }
  }

  lemma {:induction false} IntoFieldsTrace(fs: seq<FieldType<TypeIndex>>, indices: seq<nat>)
    ensures IntoTrace(TraceFields(fs), indices) == IntoFields(fs, indices)
  {
    hide IntoField, TraceField;
    if fs != [] {
      IntoFieldTrace(fs[0], indices);
      IntoFieldsTrace(fs[1..], indices);
      IntoConcat(TraceField(fs[0]), TraceFields(fs[1..]), indices);
    }
  }

  lemma IntoSubTrace(t: SubType<TypeIndex>, indices: seq<nat>)
    ensures IntoTrace(TraceSub(t), indices) == IntoSub(t, indices)
  {
    hide IntoTrace, IntoVals, IntoField, IntoFields, TraceVals, TraceField, TraceFields;
    IntoConcat(TraceSuper(t.supertype), TraceComposite(t.composite.inner), indices);
    IntoOne(if t.supertype.Some? then t.supertype.value else RecGroup(0), indices);
    match t.composite.inner
    case FuncType(params, results) =>
      IntoValsTrace(params, indices);
      IntoValsTrace(results, indices);
      IntoConcat(TraceVals(params), TraceVals(results), indices);
    case ArrayType(field) => IntoFieldTrace(field, indices);
    case StructType(fields) => IntoFieldsTrace(fields, indices);
  }

  /** Tracing a key meets every place of it, once. */
  lemma {:induction false} IntoGroupTrace(ts: seq<SubType<TypeIndex>>, indices: seq<nat>)
    ensures IntoTrace(TraceGroup(ts), indices) == IntoGroup(ts, indices)
  {
    hide IntoSub, TraceSub;
    if ts != [] {
      IntoSubTrace(ts[0], indices);
      IntoGroupTrace(ts[1..], indices);
      IntoConcat(TraceSub(ts[0]), TraceGroup(ts[1..]), indices);
    }
  }

  lemma {:induction false} MultIsTrace(trace: seq<TypeIndex>, indices: seq<nat>)
    ensures Mult(SharedOf(trace), indices) == IntoTrace(trace, indices)
  {
    if trace != [] {
      MultIsTrace(trace[1..], indices);
      if trace[0].Shared? {
        assert ([trace[0].shared] + SharedOf(trace[1..]))[1..] == SharedOf(trace[1..]);
      }
    }
  }

  /** The references that are counted one by one are all places of the key, with repetitions. */
  lemma MultIsInto(key: Key, indices: seq<nat>)
    ensures Mult(Refs(key), indices) == IntoGroup(key, indices)
  {
    hide Mult, SharedOf, IntoTrace, IntoGroup, TraceGroup;
    MultIsTrace(TraceGroup(key), indices);
    IntoGroupTrace(key, indices);
  }

  /** Every engine-wide reference of a list is kept as often as it occurs. */
  lemma {:induction false} SharedOfCounts(trace: seq<TypeIndex>, s: nat)
    ensures multiset(SharedOf(trace))[s] == multiset(trace)[Shared(s)]
  {
    if trace != [] {
      SharedOfCounts(trace[1..], s);
      assert trace == [trace[0]] + trace[1..];
    }
  }

  /** How often the members of a group mention `x`, member by member. */
  function MentionsOf(ts: seq<SubType<TypeIndex>>, x: TypeIndex): nat {
    if ts == [] then 0 else multiset(TraceSub(ts[0]))[x] + MentionsOf(ts[1..], x)
  }

  /** Tracing a group meets the references of its members, each as often as its member holds it. */
  lemma {:induction false} TraceGroupCounts(ts: seq<SubType<TypeIndex>>, x: TypeIndex)
    ensures multiset(TraceGroup(ts))[x] == MentionsOf(ts, x)
  {
    hide TraceSub;
    if ts != [] {
      TraceGroupCounts(ts[1..], x);
      assert TraceGroup(ts) == TraceSub(ts[0]) + TraceGroup(ts[1..]);
    }
  }

  /** Edges into `indices` from the live entries numbered below `n`, with multiplicity. */
  function EdgesInto(arena: seq<Entry>, live: set<nat>, indices: seq<nat>, n: nat): nat
    requires n <= |arena|
  {
    if n == 0 then 0
    else (if n - 1 in live then IntoGroup(arena[n - 1].key, indices) else 0)
         + EdgesInto(arena, live, indices, n - 1)
  }

  lemma {:induction false} EdgesRemove(arena: seq<Entry>, live: set<nat>, indices: seq<nat>, n: nat, e: nat)
    requires n <= |arena| && e in live
    ensures EdgesInto(arena, live - {e}, indices, n)
            == EdgesInto(arena, live, indices, n) - if e < n then Mult(Refs(arena[e].key), indices) else 0
  {
    hide IntoGroup, Mult, Refs;
    if n > 0 {
      EdgesRemove(arena, live, indices, n - 1, e);
      MultIsInto(arena[n - 1].key, indices);
    }
  }

  lemma {:induction false} EdgesAppend(arena: seq<Entry>, entry: Entry, live: set<nat>, indices: seq<nat>, n: nat)
    requires n <= |arena|
    ensures EdgesInto(arena + [entry], live + {|arena|}, indices, n) == EdgesInto(arena, live, indices, n)
  {
    hide IntoGroup;
    if n > 0 {
      EdgesAppend(arena, entry, live, indices, n - 1);
    }
  }

  lemma {:induction false} EdgesPositive(arena: seq<Entry>, live: set<nat>, indices: seq<nat>, n: nat)
    requires n <= |arena|
    ensures EdgesInto(arena, live, indices, n) > 0
            <==> exists x :: x in live && x < n && Mult(Refs(arena[x].key), indices) > 0
  {
    hide IntoGroup, Mult, Refs;
    if n > 0 {
      EdgesPositive(arena, live, indices, n - 1);
      MultIsInto(arena[n - 1].key, indices);
    }
  }

  // ---------------------------------------------------------------- the invariant

  /** What a reference of a hash consing key stands for. */
  function KeyRef(den: map<nat, Def>, x: TypeIndex): Ref {
    match x
    case Shared(s) => if s in den then Outer(den[s]) else Rec(0)
    case RecGroup(r) => Rec(r)
    case Module(_) => Rec(0)
  }

  function KeyBody(den: map<nat, Def>, key: Key): (r: seq<SubType<Ref>>)
    ensures |r| == |key|
  {
    MapGroup(key, x => KeyRef(den, x))
  }

  predicate Distinct<T(==)>(s: seq<T>) {
    forall i, j :: 0 <= i < j < |s| ==> s[i] != s[j]
  }

  ghost predicate OwnsItsIndices(g: Graph, e: nat)
    requires e < |g.arena|
  {
    && |g.arena[e].indices| == |g.arena[e].key|
    && Distinct(g.arena[e].indices)
    && forall s :: s in g.arena[e].indices ==> s in g.owner && g.owner[s] == e
  }

  /** A reference of a stored key is to a position of the own group or to a live older entry. */
  ghost predicate RefOk(g: Graph, e: nat, len: nat, x: TypeIndex) {
    match x
    case Shared(s) => s in g.owner && g.owner[s] < e
    case RecGroup(r) => r < len
    case Module(_) => false
  }

  ghost predicate RefersToOlder(g: Graph, e: nat)
    requires e < |g.arena|
  {
    forall x :: x in TraceGroup(g.arena[e].key) ==> RefOk(g, e, |g.arena[e].key|, x)
  }

  ghost predicate MeansItsKey(g: Graph, e: nat)
    requires e < |g.arena|
  {
    forall p :: 0 <= p < |g.arena[e].indices| ==>
      g.arena[e].indices[p] in g.den &&
      g.den[g.arena[e].indices[p]] == Def(KeyBody(g.den, g.arena[e].key), p)
  }

  ghost predicate EntryOk(g: Graph, e: nat) {
    e < |g.arena| && OwnsItsIndices(g, e) && RefersToOlder(g, e) && MeansItsKey(g, e)
  }

  /** Every live entry owns its indices, refers to older entries only and means its key. */
  ghost predicate EntriesOk(g: Graph) {
    forall e :: e in g.live ==> EntryOk(g, e)
  }

  ghost predicate OwnerOk(g: Graph, s: nat)
    requires s in g.owner
  {
    g.owner[s] in g.live && g.owner[s] < |g.arena| && s in g.arena[g.owner[s]].indices
  }

  ghost predicate OwnersLive(g: Graph) {
    forall s :: s in g.owner ==> OwnerOk(g, s)
  }

  ghost predicate LiveInArena(g: Graph) {
    forall e :: e in g.live ==> e < |g.arena|
  }

  ghost predicate KeysDistinct(g: Graph)
    requires LiveInArena(g)
  {
    forall e, e' :: e in g.live && e' in g.live && g.arena[e].key == g.arena[e'].key ==> e == e'
  }

  ghost predicate DenInjective(den: map<nat, Def>) {
    forall s, s' :: s in den && s' in den && den[s] == den[s'] ==> s == s'
  }

  ghost predicate Structured(g: Graph) {
    && LiveInArena(g)
    && EntriesOk(g)
    && KeysDistinct(g)
    && OwnersLive(g)
    && g.types.Keys == g.owner.Keys
    && g.den.Keys == g.owner.Keys
    && DenInjective(g.den)
  }

  /** The number of references to entry `e` from all live entries. */
  function InDegree(g: Graph, e: nat): nat
    requires e < |g.arena|
  {
    EdgesInto(g.arena, g.live, g.arena[e].indices, |g.arena|)
  }

  /** Reference count conservation: a live entry's counter is its outstanding handles
      plus the places in the keys of all live entries that mention one of its types. */
  ghost predicate Conserved(st: Store, handles: multiset<nat>) {
    && LiveInArena(st.g)
    && |st.registrations| == |st.g.arena|
    && (forall e :: e in handles ==> e in st.g.live)
    && (forall e :: e in st.g.live ==> st.registrations[e] == handles[e] + InDegree(st.g, e))
  }

  /** Zero counts occur only in `pending`. */
  ghost predicate ZerosWithin(st: Store, pending: set<nat>) {
    forall e :: e in st.g.live && e < |st.registrations| && st.registrations[e] == 0 ==> e in pending
  }

  /** The registry's invariant between operations when drops are atomic. */
  ghost predicate Valid(st: Store, handles: multiset<nat>) {
    Structured(st.g) && Conserved(st, handles) && ZerosWithin(st, {})
  }

  // ---------------------------------------------------------------- reachability

  /** A type of entry `x` refers to a type that entry `e` owns. */
  ghost predicate Edge(g: Graph, x: nat, e: nat)
    requires x < |g.arena|
  {
    exists s :: s in Refs(g.arena[x].key) && s in g.owner && g.owner[s] == e
  }

  /** Some root reaches `e` along references of live entries. Entries refer only to
      older ones, so the search goes upwards in creation order. */
  ghost predicate Reached(g: Graph, roots: iset<nat>, e: nat)
    decreases |g.arena| - e
  {
    e in roots || exists x :: e < x < |g.arena| && x in g.live && Edge(g, x, e) && Reached(g, roots, x)
  }

  ghost function Roots(handles: multiset<nat>, pending: set<nat>): iset<nat> {
    iset e | e in handles || e in pending
  }

  lemma RefIsOlder(g: Graph, e: nat, s: nat)
    requires Structured(g) && e in g.live && s in Refs(g.arena[e].key)
    ensures s in g.owner && g.owner[s] < e && g.owner[s] in g.live
  {
    hide KeyBody, DenInjective, KeysDistinct, OwnsItsIndices, MeansItsKey;
    assert EntryOk(g, e);
    assert RefOk(g, e, |g.arena[e].key|, Shared(s));
    assert OwnerOk(g, s);
  }

  lemma OwnerIff(g: Graph, e: nat, s: nat)
    requires Structured(g) && e in g.live
    ensures s in g.arena[e].indices <==> s in g.owner && g.owner[s] == e
  {
    hide KeyBody, DenInjective, KeysDistinct, RefersToOlder, MeansItsKey;
    assert EntryOk(g, e);
    assert s in g.owner ==> OwnerOk(g, s);
  }

  lemma EdgeIsMult(g: Graph, x: nat, e: nat)
    requires Structured(g) && x in g.live && e in g.live
    ensures Edge(g, x, e) <==> Mult(Refs(g.arena[x].key), g.arena[e].indices) > 0
    ensures Edge(g, x, e) ==> e < x
  {
    MultPositive(Refs(g.arena[x].key), g.arena[e].indices);
    forall s | s in Refs(g.arena[x].key)
      ensures s in g.owner && g.owner[s] < x && (s in g.arena[e].indices <==> g.owner[s] == e)
    {
      RefIsOlder(g, x, s);
      OwnerIff(g, e, s);
    }
  }

  /** If the only zero counts are at roots, every live entry is reached from a root. */
  lemma {:induction false} PositiveIsReached(st: Store, handles: multiset<nat>, pending: set<nat>, e: nat)
    requires Structured(st.g) && Conserved(st, handles) && ZerosWithin(st, pending)
    requires e in st.g.live
    ensures Reached(st.g, Roots(handles, pending), e)
    decreases |st.g.arena| - e
  {
    hide EntriesOk, KeysDistinct, DenInjective, OwnersLive;
    var g := st.g;
    if handles[e] == 0 && e !in pending {
      EdgesPositive(g.arena, g.live, g.arena[e].indices, |g.arena|);
      var x :| x in g.live && x < |g.arena| && Mult(Refs(g.arena[x].key), g.arena[e].indices) > 0;
      EdgeIsMult(g, x, e);
      PositiveIsReached(st, handles, pending, x);
    }
  }

  /** The counters agree with tracing: in every valid state the registered groups
      are exactly those that some outstanding handle reaches. */
  lemma LiveIsReached(st: Store, handles: multiset<nat>, e: nat)
    requires Valid(st, handles)
    ensures e in st.g.live <==> Reached(st.g, Roots(handles, {}), e)
  {
    hide EntriesOk, KeysDistinct, DenInjective;
    if e in st.g.live {
      PositiveIsReached(st, handles, {}, e);
    }
    if Reached(st.g, Roots(handles, {}), e) && handles[e] == 0 {
      var x :| e < x < |st.g.arena| && x in st.g.live && Edge(st.g, x, e);
      var s :| s in Refs(st.g.arena[x].key) && s in st.g.owner && st.g.owner[s] == e;
      assert OwnerOk(st.g, s);
    }
  }
}
