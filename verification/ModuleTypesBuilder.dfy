/** Interning the recursion groups of a module's type section (`src/translate/module_types.rs`), which feeds
    the type registry: for every type section the ranges tile the type list, every type refers below the end of its own
    group, and the module's type index space stays in step. */
module ModuleTypesBuilder {
  import opened WasmTypes
  import opened IsoRecursive
  import opened Cfg
  import opened TypeConversion

  /** What the validator knows: its types by id, and its recursion groups as sequences of ids. */
  datatype World = World(types: seq<SrcSub>, groups: seq<seq<nat>>)

  /** Groups are not empty, and every type is in at most one, once. */
  predicate WorldOk(w: World) {
    && (forall r :: 0 <= r < |w.groups| ==> w.groups[r] != [])
    && (forall r, k :: 0 <= r < |w.groups| && 0 <= k < |w.groups[r]| ==> w.groups[r][k] < |w.types|)
    && (forall r, k, r', k' | 0 <= r < |w.groups| && 0 <= k < |w.groups[r]| && 0 <= r' < |w.groups| && 0 <= k' < |w.groups[r']| ::
          w.groups[r][k] == w.groups[r'][k'] ==> r == r' && k == k')
  }

  /** Every reference of the type is to a type of group `r` or of the groups `before`. */
  predicate RefersTo(w: World, before: seq<nat>, r: nat, x: SrcIndex)
    requires r < |w.groups| && forall i :: 0 <= i < |before| ==> before[i] < |w.groups|
  {
    x.Id? && (x.id in w.groups[r] || exists i :: 0 <= i < |before| && x.id in w.groups[before[i]])
  }

  predicate TypeValid(w: World, before: seq<nat>, r: nat, s: SrcSub)
    requires r < |w.groups| && forall i :: 0 <= i < |before| ==> before[i] < |w.groups|
  {
    && (s.supertype.Some? ==> RefersTo(w, before, r, s.supertype.value))
    && forall j :: 0 <= j < |HeapRefs(s.inner)| ==> RefersTo(w, before, r, HeapRefs(s.inner)[j])
  }

  /** What validation gives for the groups of a type section, in order: references do not go to later groups. */
  predicate GroupValid(w: World, before: seq<nat>, r: nat)
    requires WorldOk(w) && forall i :: 0 <= i < |before| ==> before[i] < |w.groups|
  {
    r < |w.groups| && forall k :: 0 <= k < |w.groups[r]| ==> TypeValid(w, before, r, w.types[w.groups[r][k]])
  }

  predicate SectionValid(w: World, decl: seq<nat>)
    requires WorldOk(w)
  {
    && (forall i :: 0 <= i < |decl| ==> decl[i] < |w.groups|)
    && forall i :: 0 <= i < |decl| ==> GroupValid(w, decl[..i], decl[i])
  }

  // ---------------------------------------------------------------- the builder's steps

  datatype Builder = Builder(wasmTypes: seq<SubType<TypeIndex>>, recGroups: seq<Range>, seen: map<nat, nat>,
                             seenGroups: map<nat, nat>)

  const Empty := Builder([], [], map[], map[])

  /** Indices reserved for the members of a group, from `start` on. */
  function Reserve(seen: map<nat, nat>, ids: seq<nat>, start: nat): map<nat, nat> {
    if ids == [] then seen else Reserve(seen, ids[..|ids| - 1], start)[ids[|ids| - 1] := start + |ids| - 1]
  }

  /** Converts and defines the first `n` members of a group. */
  function PushTypes(b: Builder, moduleTypes: seq<nat>, w: World, ids: seq<nat>, n: nat): Checked<Builder>
    requires n <= |ids| && forall k :: 0 <= k < |ids| ==> ids[k] < |w.types|
  {
    if n == 0 then Ok(b) else
      var b1 :- PushTypes(b, moduleTypes, w, ids, n - 1);
      var ty :- ConvertSub(Context(b1.wasmTypes, b1.seen, moduleTypes), w.types[ids[n - 1]]);
      Ok(b1.(wasmTypes := b1.wasmTypes + [ty]))
  }

  function DefineGroup(b: Builder, moduleTypes: seq<nat>, w: World, r: nat): Checked<Builder>
    requires WorldOk(w) && r < |w.groups|
  {
    var ids, start := w.groups[r], |b.wasmTypes|;
    if exists k :: 0 <= k < |ids| && ids[k] in b.seen then Panic else
      var b1 :- PushTypes(b.(seen := Reserve(b.seen, ids, start)), moduleTypes, w, ids, |ids|);
      Ok(b1.(recGroups := b1.recGroups + [Range(start, |b1.wasmTypes|)], seenGroups := b1.seenGroups[r := |b.recGroups|]))
  }

  function InternGroup(b: Builder, moduleTypes: seq<nat>, w: World, r: nat): Checked<Builder>
    requires WorldOk(w) && r < |w.groups|
  {
    if r in b.seenGroups then Ok(b) else DefineGroup(b, moduleTypes, w, r)
  }

  function Elements(g: Range): seq<nat> {
    if g.start <= g.end then seq(g.end - g.start, k => g.start + k) else []
  }

  // ---------------------------------------------------------------- the invariant

  predicate GroupAt(b: Builder, w: World, r: nat)
    requires WorldOk(w)
  {
    && r in b.seenGroups && r < |w.groups| && b.seenGroups[r] < |b.recGroups|
    && var g := b.recGroups[b.seenGroups[r]];
       && g.end == g.start + |w.groups[r]| && g.end <= |b.wasmTypes|
       && forall k :: 0 <= k < |w.groups[r]| ==> w.groups[r][k] in b.seen && b.seen[w.groups[r][k]] == g.start + k
  }

  ghost predicate BuilderOk(b: Builder, w: World)
    requires WorldOk(w)
  {
    && WellFormed(ModuleTypes(b.wasmTypes, b.recGroups))
    && (forall r :: r in b.seenGroups ==> GroupAt(b, w, r))
    && (forall id :: id in b.seen ==> exists r :: r in b.seenGroups && GroupAt(b, w, r) && id in w.groups[r])
    && (forall g :: 0 <= g < |b.recGroups| ==> b.recGroups[g].start < b.recGroups[g].end)
    && (forall r, s :: r in b.seenGroups && s in b.seenGroups && b.seenGroups[r] == b.seenGroups[s] ==> r == s)
  }

  /** No concrete heap type mentioned by the `k`-th member of group `r` is that member itself or a later one. */
  predicate Backward(w: World, r: nat, k: nat)
    requires WorldOk(w) && r < |w.groups| && k < |w.groups[r]|
  {
    forall j, x :: 0 <= j < |HeapRefs(w.types[w.groups[r][k]].inner)| && k <= x < |w.groups[r]|
                   ==> HeapRefs(w.types[w.groups[r][k]].inner)[j] != Id(w.groups[r][x])
  }

  predicate NoCont(w: World, r: nat, k: nat)
    requires WorldOk(w) && r < |w.groups| && k < |w.groups[r]|
  {
    !w.types[w.groups[r][k]].inner.SCont?
  }

  /** The groups that the translator can define. */
  predicate Definable(w: World, r: nat)
    requires WorldOk(w) && r < |w.groups|
  {
    forall k :: 0 <= k < |w.groups[r]| ==> Backward(w, r, k) && NoCont(w, r, k)
  }

  lemma {:induction false} ReserveOk(seen: map<nat, nat>, ids: seq<nat>, start: nat)
    requires forall i, j :: 0 <= i < j < |ids| ==> ids[i] != ids[j]
    ensures forall k :: 0 <= k < |ids| ==> ids[k] in Reserve(seen, ids, start) && Reserve(seen, ids, start)[ids[k]] == start + k
    ensures forall id :: id !in ids ==> (id in Reserve(seen, ids, start) <==> id in seen)
    ensures forall id :: id !in ids && id in seen ==> Reserve(seen, ids, start)[id] == seen[id]
    ensures forall id :: id in Reserve(seen, ids, start) ==> id in seen || id in ids
    decreases |ids|
  {
    if ids != [] {
      var n := |ids| - 1;
      ReserveOk(seen, ids[..n], start);
      assert ids == ids[..n] + [ids[n]];
    }
  }

  lemma Distinct(w: World, r: nat)
    requires WorldOk(w) && r < |w.groups|
    ensures forall i, j :: 0 <= i < j < |w.groups[r]| ==> w.groups[r][i] != w.groups[r][j]
  {
  }

  // ---------------------------------------------------------------- one group

  /** How a valid reference of a member of group `r` is looked up once the group's indices are reserved from `start` on. */
  ghost predicate LookupOk(seen: map<nat, nat>, w: World, r: nat, start: nat, x: SrcIndex)
    requires r < |w.groups|
  {
    && x.Id? && x.id in seen
    && (if x.id in w.groups[r] then exists k :: 0 <= k < |w.groups[r]| && w.groups[r][k] == x.id && seen[x.id] == start + k
        else seen[x.id] < start)
  }

  lemma SeenLookup(b: Builder, w: World, before: seq<nat>, r: nat, x: SrcIndex)
    requires WorldOk(w) && BuilderOk(b, w) && r < |w.groups| && r !in b.seenGroups
    requires (forall i :: 0 <= i < |before| ==> before[i] < |w.groups| && before[i] in b.seenGroups) && RefersTo(w, before, r, x)
    ensures LookupOk(Reserve(b.seen, w.groups[r], |b.wasmTypes|), w, r, |b.wasmTypes|, x)
  {
    hide WellFormed;
    var ids := w.groups[r];
    Distinct(w, r);
    ReserveOk(b.seen, ids, |b.wasmTypes|);
    if x.id in ids {
      var k :| 0 <= k < |ids| && ids[k] == x.id;
    } else {
      var i :| 0 <= i < |before| && x.id in w.groups[before[i]];
      assert GroupAt(b, w, before[i]);
      var k :| 0 <= k < |w.groups[before[i]]| && w.groups[before[i]][k] == x.id;
    }
  }

  /** All references of all members of group `r` can be looked up. */
  ghost predicate RefsOk(seen: map<nat, nat>, w: World, r: nat, start: nat)
    requires WorldOk(w) && r < |w.groups|
  {
    forall k :: 0 <= k < |w.groups[r]| ==> TypeRefsOk(seen, w, r, start, w.types[w.groups[r][k]])
  }

  ghost predicate TypeRefsOk(seen: map<nat, nat>, w: World, r: nat, start: nat, s: SrcSub)
    requires WorldOk(w) && r < |w.groups|
  {
    && (s.supertype.Some? ==> LookupOk(seen, w, r, start, s.supertype.value))
    && forall j :: 0 <= j < |HeapRefs(s.inner)| ==> LookupOk(seen, w, r, start, HeapRefs(s.inner)[j])
  }

  lemma GroupLookups(b: Builder, w: World, before: seq<nat>, r: nat)
    requires WorldOk(w) && BuilderOk(b, w) && r < |w.groups| && r !in b.seenGroups
    requires forall i :: 0 <= i < |before| ==> before[i] < |w.groups| && before[i] in b.seenGroups
    requires GroupValid(w, before, r)
    ensures RefsOk(Reserve(b.seen, w.groups[r], |b.wasmTypes|), w, r, |b.wasmTypes|)
  {
    hide BuilderOk, RefersTo, LookupOk, Reserve, HeapRefs;
    var seen, start := Reserve(b.seen, w.groups[r], |b.wasmTypes|), |b.wasmTypes|;
    forall k | 0 <= k < |w.groups[r]| ensures TypeRefsOk(seen, w, r, start, w.types[w.groups[r][k]]) {
      var s := w.types[w.groups[r][k]];
      assert TypeValid(w, before, r, s);
      if s.supertype.Some? {
        SeenLookup(b, w, before, r, s.supertype.value);
      }
      forall j | 0 <= j < |HeapRefs(s.inner)| ensures LookupOk(seen, w, r, start, HeapRefs(s.inner)[j]) {
        SeenLookup(b, w, before, r, HeapRefs(s.inner)[j]);
      }
    }
  }

  /** A member is convertible, when those before it are defined, exactly if its heap types are backward. */
  lemma MemberConvertible(seen: map<nat, nat>, w: World, r: nat, start: nat, k: nat, c: Context)
    requires WorldOk(w) && r < |w.groups| && k < |w.groups[r]| && c.seen == seen && |c.wasmTypes| == start + k
    requires TypeRefsOk(seen, w, r, start, w.types[w.groups[r][k]])
    ensures Convertible(c, w.types[w.groups[r][k]]) <==> Backward(w, r, k) && NoCont(w, r, k)
  {
    var xs := HeapRefs(w.types[w.groups[r][k]].inner);
    hide HeapRefs;
    forall j | 0 <= j < |xs| ensures Resolves(c, xs[j]) <==> forall x :: k <= x < |w.groups[r]| ==> xs[j] != Id(w.groups[r][x]) {
      assert LookupOk(seen, w, r, start, xs[j]);
      if xs[j].id in w.groups[r] {
        var x :| 0 <= x < |w.groups[r]| && w.groups[r][x] == xs[j].id && seen[xs[j].id] == start + x;
        if Resolves(c, xs[j]) {
          forall y | k <= y < |w.groups[r]| ensures xs[j] != Id(w.groups[r][y]) {
            assert x < k;
          }
        }
      }
    }
  }

  /** The references of a converted member are below the end of its group. */
  lemma MemberRefers(seen: map<nat, nat>, w: World, r: nat, start: nat, k: nat, c: Context)
    requires WorldOk(w) && r < |w.groups| && k < |w.groups[r]| && c.seen == seen && |c.wasmTypes| == start + k
    requires TypeRefsOk(seen, w, r, start, w.types[w.groups[r][k]])
    requires ConvertSub(c, w.types[w.groups[r][k]]).Ok?
    ensures RefersBelow(ConvertSub(c, w.types[w.groups[r][k]]).value, start + |w.groups[r]|)
  {
    var s := w.types[w.groups[r][k]];
    hide HeapRefs, ConvertSub, TraceSub;
    ConvertSubExact(c, s);
    if s.supertype.Some? {
      assert LookupOk(seen, w, r, start, s.supertype.value);
    }
  }

  /** What defining the first `n` members does. */
  ghost predicate Pushed(b: Builder, b': Builder, bound: nat, n: nat) {
    && b' == b.(wasmTypes := b'.wasmTypes) && |b'.wasmTypes| == |b.wasmTypes| + n
    && (forall i :: 0 <= i < |b.wasmTypes| ==> b'.wasmTypes[i] == b.wasmTypes[i])
    && (forall i :: |b.wasmTypes| <= i < |b'.wasmTypes| ==> RefersBelow(b'.wasmTypes[i], bound))
  }

  /** Defining one more member. */
  lemma PushOne(b: Builder, p: Builder, moduleTypes: seq<nat>, w: World, r: nat, k: nat)
    requires WorldOk(w) && r < |w.groups| && k < |w.groups[r]| && RefsOk(b.seen, w, r, |b.wasmTypes|)
    requires Pushed(b, p, |b.wasmTypes| + |w.groups[r]|, k)
    ensures
      var ty := ConvertSub(Context(p.wasmTypes, p.seen, moduleTypes), w.types[w.groups[r][k]]);
      && (ty.Ok? <==> Backward(w, r, k) && NoCont(w, r, k))
      && (ty.Ok? ==> Pushed(b, p.(wasmTypes := p.wasmTypes + [ty.value]), |b.wasmTypes| + |w.groups[r]|, k + 1))
  {
    hide Backward, NoCont, RefersBelow, ConvertSub, TypeRefsOk, Convertible;
    var c, s := Context(p.wasmTypes, p.seen, moduleTypes), w.types[w.groups[r][k]];
    assert TypeRefsOk(b.seen, w, r, |b.wasmTypes|, s);
    assert p.seen == b.seen && |p.wasmTypes| == |b.wasmTypes| + k;
    hide WorldOk, RefsOk, Pushed;
    MemberConvertible(b.seen, w, r, |b.wasmTypes|, k, c);
    ConvertSubExact(c, s);
    if ConvertSub(c, s).Ok? {
      MemberRefers(b.seen, w, r, |b.wasmTypes|, k, c);
      PushedMore(b, p, |b.wasmTypes| + |w.groups[r]|, k, ConvertSub(c, s).value);
    }
  }

  lemma PushedMore(b: Builder, p: Builder, bound: nat, k: nat, ty: SubType<TypeIndex>)
    requires Pushed(b, p, bound, k) && RefersBelow(ty, bound)
    ensures Pushed(b, p.(wasmTypes := p.wasmTypes + [ty]), bound, k + 1)
  {
    hide RefersBelow;
  }

  lemma {:induction false} PushTypesExact(b: Builder, moduleTypes: seq<nat>, w: World, r: nat, n: nat)
    requires WorldOk(w) && r < |w.groups| && n <= |w.groups[r]| && RefsOk(b.seen, w, r, |b.wasmTypes|)
    ensures PushTypes(b, moduleTypes, w, w.groups[r], n).Ok? <==> forall k :: 0 <= k < n ==> Backward(w, r, k) && NoCont(w, r, k)
    ensures PushTypes(b, moduleTypes, w, w.groups[r], n).Ok? ==>
              Pushed(b, PushTypes(b, moduleTypes, w, w.groups[r], n).value, |b.wasmTypes| + |w.groups[r]|, n)
    decreases n
  {
    hide Backward, NoCont, ConvertSub, RefsOk, Pushed;
    if n == 0 {
      NothingPushed(b, |b.wasmTypes| + |w.groups[r]|);
    } else {
      PushTypesExact(b, moduleTypes, w, r, n - 1);
      var p := PushTypes(b, moduleTypes, w, w.groups[r], n - 1);
      if p.Ok? {
        PushOne(b, p.value, moduleTypes, w, r, n - 1);
      }
    }
  }

  lemma NothingPushed(b: Builder, bound: nat)
    ensures Pushed(b, b, bound, 0)
  {
  }

  // ---------------------------------------------------------------- interning a group

  lemma SameGroup(w: World, r: nat, k: nat, r': nat)
    requires WorldOk(w) && r < |w.groups| && k < |w.groups[r]| && r' < |w.groups| && w.groups[r][k] in w.groups[r']
    ensures r == r'
  {
    var k' :| 0 <= k' < |w.groups[r']| && w.groups[r'][k'] == w.groups[r][k];
  }

  lemma NotYetSeen(b: Builder, w: World, r: nat)
    requires WorldOk(w) && BuilderOk(b, w) && r < |w.groups| && r !in b.seenGroups
    ensures forall k :: 0 <= k < |w.groups[r]| ==> w.groups[r][k] !in b.seen
  {
    hide WellFormed, WorldOk;
    forall k | 0 <= k < |w.groups[r]| ensures w.groups[r][k] !in b.seen {
      if w.groups[r][k] in b.seen {
        var r' :| r' in b.seenGroups && GroupAt(b, w, r') && w.groups[r][k] in w.groups[r'];
        SameGroup(w, r, k, r');
      }
    }
  }

  lemma EndsAppend(groups: seq<Range>, g: Range, n: nat)
    requires n <= |groups|
    ensures EndOf(groups + [g], n) == EndOf(groups, n)
  {
  }

  /** Another group at the end of the type list keeps it well formed. */
  lemma WellFormedAppend(types: seq<SubType<TypeIndex>>, groups: seq<Range>, types': seq<SubType<TypeIndex>>)
    requires WellFormed(ModuleTypes(types, groups)) && |types| <= |types'|
    requires forall i :: 0 <= i < |types| ==> types'[i] == types[i]
    requires forall i :: |types| <= i < |types'| ==> RefersBelow(types'[i], |types'|)
    ensures WellFormed(ModuleTypes(types', groups + [Range(|types|, |types'|)]))
  {
    hide RefersBelow;
    var g' := groups + [Range(|types|, |types'|)];
    forall g | 0 <= g < |g'| ensures g'[g].start == EndOf(g', g) && g'[g].start <= g'[g].end {
      EndsAppend(groups, Range(|types|, |types'|), g);
    }
    forall g, i | 0 <= g < |g'| && g'[g].start <= i < g'[g].end && i < |types'| ensures RefersBelow(types'[i], g'[g].end) {
      if g < |groups| {
        TilesBounded(groups, |types|, g + 1);
        assert RefersBelow(types[i], groups[g].end);
      }
    }
  }

  lemma StillAt(b: Builder, b': Builder, w: World, r: nat)
    requires WorldOk(w) && GroupAt(b, w, r) && b.recGroups <= b'.recGroups && |b.wasmTypes| <= |b'.wasmTypes|
    requires r in b'.seenGroups && b'.seenGroups[r] == b.seenGroups[r]
    requires forall id :: id in b.seen ==> id in b'.seen && b'.seen[id] == b.seen[id]
    ensures GroupAt(b', w, r)
  {
  }

  /** The reserved indices beside the earlier ones. */
  lemma ReservedBeside(b: Builder, w: World, r: nat)
    requires WorldOk(w) && BuilderOk(b, w) && r < |w.groups| && r !in b.seenGroups
    ensures
      var seen, ids := Reserve(b.seen, w.groups[r], |b.wasmTypes|), w.groups[r];
      && (forall k :: 0 <= k < |ids| ==> ids[k] in seen && seen[ids[k]] == |b.wasmTypes| + k)
      && (forall id :: id in b.seen ==> id in seen && seen[id] == b.seen[id])
      && (forall id :: id in seen ==> id in b.seen || id in ids)
  {
    var ids := w.groups[r];
    Distinct(w, r);
    NotYetSeen(b, w, r);
    ReserveOk(b.seen, ids, |b.wasmTypes|);
    hide WorldOk, BuilderOk, Reserve;
    forall id | id in b.seen ensures id !in ids {
    }
  }

  function Defined(b: Builder, b1: Builder, r: nat): Builder {
    b1.(recGroups := b1.recGroups + [Range(|b.wasmTypes|, |b1.wasmTypes|)], seenGroups := b1.seenGroups[r := |b.recGroups|])
  }

  lemma DefinedGroups(b: Builder, b': Builder, w: World, r: nat)
    requires WorldOk(w) && BuilderOk(b, w) && r < |w.groups| && r !in b.seenGroups && GroupAt(b', w, r)
    requires b'.seenGroups == b.seenGroups[r := |b.recGroups|] && b.recGroups <= b'.recGroups && |b.wasmTypes| <= |b'.wasmTypes|
    requires forall id :: id in b.seen ==> id in b'.seen && b'.seen[id] == b.seen[id]
    requires forall id :: id in b'.seen ==> id in b.seen || id in w.groups[r]
    ensures forall x :: x in b'.seenGroups ==> GroupAt(b', w, x)
    ensures forall id :: id in b'.seen ==> exists x :: x in b'.seenGroups && GroupAt(b', w, x) && id in w.groups[x]
  {
    hide WellFormed, WorldOk;
    forall x | x in b'.seenGroups ensures GroupAt(b', w, x) {
      if x != r {
        StillAt(b, b', w, x);
      }
    }
    forall id | id in b'.seen ensures exists x :: x in b'.seenGroups && GroupAt(b', w, x) && id in w.groups[x] {
      if id in b.seen {
        var x :| x in b.seenGroups && GroupAt(b, w, x) && id in w.groups[x];
        assert GroupAt(b', w, x);
      } else {
        assert GroupAt(b', w, r);
      }
    }
  }

  /** The builder is in order after a new group was defined. */
  lemma DefinedOk(b: Builder, b1: Builder, w: World, r: nat)
    requires WorldOk(w) && BuilderOk(b, w) && r < |w.groups| && r !in b.seenGroups
    requires Pushed(b.(seen := Reserve(b.seen, w.groups[r], |b.wasmTypes|)), b1, |b.wasmTypes| + |w.groups[r]|, |w.groups[r]|)
    ensures BuilderOk(Defined(b, b1, r), w) && GroupAt(Defined(b, b1, r), w, r)
  {
    hide WellFormed, RefersBelow, Reserve, GroupAt;
    var b' := Defined(b, b1, r);
    WellFormedAppend(b.wasmTypes, b.recGroups, b1.wasmTypes);
    ReservedBeside(b, w, r);
    assert w.groups[r] != [];
    hide WorldOk;
    DefinedAt(b', w, r, |b.wasmTypes|, |b.recGroups|);
    DefinedGroups(b, b', w, r);
    DefinedNumbers(b, w, r);
  }

  lemma DefinedAt(b: Builder, w: World, r: nat, start: nat, g: nat)
    requires WorldOk(w) && r < |w.groups| && r in b.seenGroups && b.seenGroups[r] == g < |b.recGroups|
    requires b.recGroups[g] == Range(start, start + |w.groups[r]|) && start + |w.groups[r]| <= |b.wasmTypes|
    requires forall k :: 0 <= k < |w.groups[r]| ==> w.groups[r][k] in b.seen && b.seen[w.groups[r][k]] == start + k
    ensures GroupAt(b, w, r)
  {
    hide WorldOk;
  }

  /** Groups keep different numbers. */
  lemma DefinedNumbers(b: Builder, w: World, r: nat)
    requires WorldOk(w) && BuilderOk(b, w)
    ensures
      var numbers := b.seenGroups[r := |b.recGroups|];
      r !in b.seenGroups ==> forall x, y :: x in numbers && y in numbers && numbers[x] == numbers[y] ==> x == y
  {
    hide WorldOk, WellFormed;
    forall x | x in b.seenGroups ensures b.seenGroups[x] < |b.recGroups| {
      assert GroupAt(b, w, x);
    }
  }

  /** A group is interned without a failed assertion exactly if it was before or the translator can define it;
      then the builder is in order and knows the group. */
  lemma InternExact(b: Builder, moduleTypes: seq<nat>, w: World, before: seq<nat>, r: nat)
    requires WorldOk(w) && BuilderOk(b, w) && r < |w.groups| && GroupRangesOk(w, before) && GroupValid(w, before, r)
    requires forall i :: 0 <= i < |before| ==> before[i] in b.seenGroups
    ensures InternGroup(b, moduleTypes, w, r).Ok? <==> r in b.seenGroups || Definable(w, r)
    ensures InternGroup(b, moduleTypes, w, r).Ok? ==>
              var b' := InternGroup(b, moduleTypes, w, r).value;
              && BuilderOk(b', w) && GroupAt(b', w, r) && (forall x :: x in b.seenGroups ==> x in b'.seenGroups)
              && (forall id :: id in b.seen ==> id in b'.seen && b'.seen[id] == b.seen[id])
              && (forall x :: x in b'.seenGroups ==> x == r || x in b.seenGroups)
  {
    hide WellFormed, TypeValid, Backward, NoCont, PushTypes, Reserve;
    if r !in b.seenGroups {
      NotYetSeen(b, w, r);
      GroupLookups(b, w, before, r);
      var b0 := b.(seen := Reserve(b.seen, w.groups[r], |b.wasmTypes|));
      PushTypesExact(b0, moduleTypes, w, r, |w.groups[r]|);
      Distinct(w, r);
      ReserveOk(b.seen, w.groups[r], |b.wasmTypes|);
      if PushTypes(b0, moduleTypes, w, w.groups[r], |w.groups[r]|).Ok? {
        DefinedOk(b, PushTypes(b0, moduleTypes, w, w.groups[r], |w.groups[r]|).value, w, r);
      }
    }
  }

  predicate GroupRangesOk(w: World, before: seq<nat>) {
    forall i :: 0 <= i < |before| ==> before[i] < |w.groups|
  }

  // ---------------------------------------------------------------- the type section

  /** The ids of the types of the declared groups, in order: the module's type index space. */
  function Flat(w: World, decl: seq<nat>): seq<nat>
    requires GroupRangesOk(w, decl)
    decreases |decl|
  {
    if decl == [] then [] else Flat(w, decl[..|decl| - 1]) + w.groups[decl[|decl| - 1]]
  }

  /** The builder and the module's types after the first `n` declared groups. */
  function Section(w: World, decl: seq<nat>, n: nat): Checked<(Builder, seq<nat>)>
    requires WorldOk(w) && GroupRangesOk(w, decl) && n <= |decl|
  {
    if n == 0 then Ok((Empty, [])) else
      var (b, types) :- Section(w, decl, n - 1);
      var b' :- InternGroup(b, types, w, decl[n - 1]);
      if decl[n - 1] !in b'.seenGroups || b'.seenGroups[decl[n - 1]] >= |b'.recGroups| then Panic
      else Ok((b', types + Elements(b'.recGroups[b'.seenGroups[decl[n - 1]]])))
  }

  /** The module's types stand for the declared types, index by index. */
  ghost predicate InStep(b: Builder, types: seq<nat>, flat: seq<nat>) {
    |types| == |flat| && forall j :: 0 <= j < |flat| ==> flat[j] in b.seen && types[j] == b.seen[flat[j]]
  }

  lemma InStepAppend(b: Builder, b': Builder, w: World, types: seq<nat>, flat: seq<nat>, r: nat)
    requires WorldOk(w) && InStep(b, types, flat) && GroupAt(b', w, r)
    requires forall id :: id in b.seen ==> id in b'.seen && b'.seen[id] == b.seen[id]
    ensures InStep(b', types + Elements(b'.recGroups[b'.seenGroups[r]]), flat + w.groups[r])
  {
  }

  /** What holds after the first `n` groups. */
  ghost predicate SectionOk(w: World, decl: seq<nat>, n: nat, b: Builder, types: seq<nat>)
    requires WorldOk(w) && GroupRangesOk(w, decl) && n <= |decl|
  {
    && BuilderOk(b, w) && InStep(b, types, Flat(w, decl[..n]))
    && (forall i :: 0 <= i < n ==> decl[i] in b.seenGroups)
    && (forall x :: x in b.seenGroups ==> x < |w.groups| && Definable(w, x))
  }

  lemma EmptyOk(w: World)
    requires WorldOk(w)
    ensures BuilderOk(Empty, w)
  {
  }

  lemma FlatLast(w: World, decl: seq<nat>, n: nat)
    requires GroupRangesOk(w, decl) && n < |decl|
    ensures Flat(w, decl[..n + 1]) == Flat(w, decl[..n]) + w.groups[decl[n]]
  {
    assert decl[..n + 1][..n] == decl[..n];
  }

  /** The type section is translated without a failed assertion exactly if every declared group is definable. */
  lemma {:induction false} SectionExact(w: World, decl: seq<nat>, n: nat)
    requires WorldOk(w) && SectionValid(w, decl) && GroupRangesOk(w, decl) && n <= |decl|
    ensures Section(w, decl, n).Ok? <==> forall i :: 0 <= i < n ==> Definable(w, decl[i])
    ensures Section(w, decl, n).Ok? ==> SectionOk(w, decl, n, Section(w, decl, n).value.0, Section(w, decl, n).value.1)
    decreases n
  {
    hide WorldOk, BuilderOk, Definable, GroupValid, InternGroup, InStep;
    if n == 0 {
      EmptyOk(w);
      assert InStep(Empty, [], []) by { NothingInStep(); }
      assert decl[..0] == [];
    } else {
      SectionExact(w, decl, n - 1);
      if Section(w, decl, n - 1).Ok? {
        var (b, types) := Section(w, decl, n - 1).value;
        var before, r := decl[..n - 1], decl[n - 1];
        InternExact(b, types, w, before, r);
        if InternGroup(b, types, w, r).Ok? {
          var b' := InternGroup(b, types, w, r).value;
          InStepAppend(b, b', w, types, Flat(w, before), r);
          FlatLast(w, decl, n - 1);
        }
      }
    }
  }

  lemma NothingInStep()
    ensures InStep(Empty, [], [])
  {
  }

  /** What the type registry and the rest of the translation rely on, for every valid type section that translates. */
  lemma SectionWellFormed(w: World, decl: seq<nat>)
    requires WorldOk(w) && SectionValid(w, decl) && GroupRangesOk(w, decl) && Section(w, decl, |decl|).Ok?
    ensures
      var (b, types) := Section(w, decl, |decl|).value;
      && WellFormed(ModuleTypes(b.wasmTypes, b.recGroups)) && InStep(b, types, Flat(w, decl))
      && (forall j :: 0 <= j < |types| ==> types[j] < |b.wasmTypes|)
  {
    hide WellFormed, Section;
    SectionExact(w, decl, |decl|);
    assert decl[..|decl|] == decl;
    var (b, types) := Section(w, decl, |decl|).value;
    forall j | 0 <= j < |types| ensures types[j] < |b.wasmTypes| {
      SeenBelow(b, w, Flat(w, decl)[j]);
    }
  }

  lemma SeenBelow(b: Builder, w: World, id: nat)
    requires WorldOk(w) && BuilderOk(b, w) && id in b.seen
    ensures b.seen[id] < |b.wasmTypes|
  {
    hide WellFormed;
    var r :| r in b.seenGroups && GroupAt(b, w, r) && id in w.groups[r];
  }

  /** Two declared types get the same index exactly if the validator identifies them. */
  lemma SameIndexIffSameType(w: World, decl: seq<nat>, i: nat, j: nat)
    requires WorldOk(w) && SectionValid(w, decl) && GroupRangesOk(w, decl) && Section(w, decl, |decl|).Ok?
    requires i < |Flat(w, decl)| && j < |Flat(w, decl)|
    ensures |Section(w, decl, |decl|).value.1| == |Flat(w, decl)|
    ensures Section(w, decl, |decl|).value.1[i] == Section(w, decl, |decl|).value.1[j] <==> Flat(w, decl)[i] == Flat(w, decl)[j]
  {
    hide Section, WorldOk, BuilderOk, SectionValid, Definable, Flat;
    SectionExact(w, decl, |decl|);
    assert decl[..|decl|] == decl;
    var (b, types) := Section(w, decl, |decl|).value;
    var x, y := Flat(w, decl)[i], Flat(w, decl)[j];
    if b.seen[x] == b.seen[y] {
      SeenInjective(b, w, x, y);
    }
  }

  lemma SeenAt(b: Builder, w: World, x: nat) returns (r: nat, k: nat)
    requires WorldOk(w) && BuilderOk(b, w) && x in b.seen
    ensures r in b.seenGroups && r < |w.groups| && k < |w.groups[r]| && w.groups[r][k] == x && b.seenGroups[r] < |b.recGroups|
    ensures b.recGroups[b.seenGroups[r]].end == b.recGroups[b.seenGroups[r]].start + |w.groups[r]|
    ensures b.seen[x] == b.recGroups[b.seenGroups[r]].start + k
  {
    hide WorldOk, WellFormed;
    r :| r in b.seenGroups && GroupAt(b, w, r) && x in w.groups[r];
    k :| 0 <= k < |w.groups[r]| && w.groups[r][k] == x;
  }

  lemma SeenInjective(b: Builder, w: World, x: nat, y: nat)
    requires WorldOk(w) && BuilderOk(b, w) && x in b.seen && y in b.seen && b.seen[x] == b.seen[y]
    ensures x == y
  {
    hide WorldOk, Tiles, GroupAt;
    var r, k := SeenAt(b, w, x);
    var s, l := SeenAt(b, w, y);
    TilesApart(b.recGroups, |b.wasmTypes|, b.seenGroups[r], b.seenGroups[s]);
    TilesApart(b.recGroups, |b.wasmTypes|, b.seenGroups[s], b.seenGroups[r]);
  }

  lemma {:induction false} TilesApart(groups: seq<Range>, n: nat, g: nat, h: nat)
    requires Tiles(groups, n) && g < |groups| && h < |groups|
    ensures g < h ==> groups[g].end <= groups[h].start
    decreases h
  {
    if g < h {
      assert groups[h].start == EndOf(groups, h);
      if g < h - 1 {
        TilesApart(groups, n, g, h - 1);
        assert groups[h - 1].start <= groups[h - 1].end;
      }
    }
  }

  /** A valid type section that is not translated: a struct with a field that refers to the struct itself. */
  lemma SelfReferenceFails()
    ensures
      var field := SrcField(true, SVal(SRef(true, Concrete(Id(0)))));
      var w := World([SrcSub(true, None, SStruct([field]), false)], [[0]]);
      WorldOk(w) && SectionValid(w, [0]) && GroupRangesOk(w, [0]) && Section(w, [0], 1).Panic?
  {
    var field := SrcField(true, SVal(SRef(true, Concrete(Id(0)))));
    var w := World([SrcSub(true, None, SStruct([field]), false)], [[0]]);
    var inner := w.types[0].inner;
    assert HeapRefs(inner) == [Id(0)] by {
      assert [field][1..] == [];
      assert FieldsRefs([field]) == FieldRefs(field) + FieldsRefs([]);
    }
    assert WorldOk(w);
    assert TypeValid(w, [], 0, w.types[0]);
    assert [0][..0] == [];
    assert SectionValid(w, [0]);
    assert HeapRefs(inner)[0] == Id(w.groups[0][0]);
    assert !Backward(w, 0, 0);
    hide Section;
    SectionExact(w, [0], 1);
  }

  // ---------------------------------------------------------------- the builder as it works

  datatype InProgress = InProgress(index: nat, start: nat, end: nat)

  class TypesBuilder {
    var wasmTypes: seq<SubType<TypeIndex>>
    var recGroups: seq<Range>
    var seenTypes: map<nat, nat>
    var seenRecGroups: map<nat, nat>
    var inProgress: Option<InProgress>

    constructor ()
      ensures Value() == Empty && inProgress == None
    {
      wasmTypes, recGroups, seenTypes, seenRecGroups, inProgress := [], [], map[], map[], None;
    }

    ghost function Value(): Builder
      reads this
    {
      Builder(wasmTypes, recGroups, seenTypes, seenRecGroups)
    }

    /** Reserves an index for every member, which must be new. */
    method StartRecGroup(ids: seq<nat>)
      requires inProgress == None && forall k :: 0 <= k < |ids| ==> ids[k] !in seenTypes
      modifies this`seenTypes, this`inProgress
      ensures seenTypes == Reserve(old(seenTypes), ids, |wasmTypes|)
      ensures inProgress == Some(InProgress(|recGroups|, |wasmTypes|, |wasmTypes| + |ids|))
    {
      var i := 0;
      while i < |ids|
        invariant 0 <= i <= |ids| && seenTypes == Reserve(old(seenTypes), ids[..i], |wasmTypes|)
      {
        assert ids[..i + 1][..i] == ids[..i];
        seenTypes := seenTypes[ids[i] := |wasmTypes| + i];
        i := i + 1;
      }
      assert ids[..i] == ids;
      inProgress := Some(InProgress(|recGroups|, |wasmTypes|, |wasmTypes| + |ids|));
    }

    method EndRecGroup(r: nat) returns (index: nat)
      requires inProgress.Some? && inProgress.value.start < |wasmTypes| && inProgress.value.end == |wasmTypes|
      requires inProgress.value.index == |recGroups|
      modifies this`recGroups, this`seenRecGroups, this`inProgress
      ensures inProgress == None && index == |old(recGroups)|
      ensures recGroups == old(recGroups) + [Range(old(inProgress).value.start, |wasmTypes|)]
      ensures seenRecGroups == old(seenRecGroups)[r := index]
    {
      var g := inProgress.value;
      inProgress := None;
      recGroups := recGroups + [Range(g.start, g.end)];
      index := g.index;
      seenRecGroups := seenRecGroups[r := index];
    }

    method DefineNewRecGroup(moduleTypes: seq<nat>, w: World, r: nat) returns (index: nat)
      requires WorldOk(w) && r < |w.groups| && inProgress == None
      requires DefineGroup(Value(), moduleTypes, w, r).Ok?
      modifies this
      ensures Value() == DefineGroup(old(Value()), moduleTypes, w, r).value && inProgress == None
      ensures r in seenRecGroups && seenRecGroups[r] == index == |recGroups| - 1
    {
      var ids := w.groups[r];
      StartRecGroup(ids);
      ghost var b0 := Value();
      var k := 0;
      PushTypesPrefix(b0, moduleTypes, w, ids, 0, |ids|);
      while k < |ids|
        invariant 0 <= k <= |ids|
        invariant inProgress == Some(InProgress(|b0.recGroups|, |b0.wasmTypes|, |b0.wasmTypes| + |ids|))
        invariant PushTypes(b0, moduleTypes, w, ids, k) == Ok(Value()) && |wasmTypes| == |b0.wasmTypes| + k
        invariant recGroups == b0.recGroups && seenTypes == b0.seen && seenRecGroups == b0.seenGroups
      {
        PushTypesPrefix(b0, moduleTypes, w, ids, k + 1, |ids|);
        var ty := ConvertSub(Context(wasmTypes, seenTypes, moduleTypes), w.types[ids[k]]);
        wasmTypes := wasmTypes + [ty.value];
        k := k + 1;
      }
      index := EndRecGroup(r);
    }

    /** Defines the group, unless it was met before. */
    method InternRecGroup(moduleTypes: seq<nat>, w: World, r: nat) returns (index: nat)
      requires WorldOk(w) && r < |w.groups| && inProgress == None && InternGroup(Value(), moduleTypes, w, r).Ok?
      modifies this
      ensures Value() == InternGroup(old(Value()), moduleTypes, w, r).value && inProgress == None
      ensures r in seenRecGroups && seenRecGroups[r] == index
    {
      hide DefineGroup;
      if r in seenRecGroups {
        index := seenRecGroups[r];
      } else {
        index := DefineNewRecGroup(moduleTypes, w, r);
      }
    }
  }

  lemma {:induction false} PushTypesPrefix(b: Builder, moduleTypes: seq<nat>, w: World, ids: seq<nat>, m: nat, n: nat)
    requires m <= n <= |ids| && forall k :: 0 <= k < |ids| ==> ids[k] < |w.types|
    requires PushTypes(b, moduleTypes, w, ids, n).Ok?
    ensures PushTypes(b, moduleTypes, w, ids, m).Ok?
    decreases n - m
  {
    hide ConvertSub;
    if m < n {
      PushTypesPrefix(b, moduleTypes, w, ids, m, n - 1);
    }
  }

  // ---------------------------------------------------------------- the driver

  lemma {:induction false} SectionPrefix(w: World, decl: seq<nat>, m: nat, n: nat)
    requires WorldOk(w) && GroupRangesOk(w, decl) && m <= n <= |decl| && Section(w, decl, n).Ok?
    ensures Section(w, decl, m).Ok?
    decreases n - m
  {
    hide WorldOk, InternGroup;
    if m < n {
      SectionPrefix(w, decl, m, n - 1);
    }
  }

  /** The group that a type belongs to, as the validator tells. */
  function GroupOf(w: World, id: nat, n: nat): (r: nat)
    requires n <= |w.groups|
    ensures r < n ==> id in w.groups[r]
    ensures forall k :: 0 <= k < n && id in w.groups[k] ==> r < n
  {
    if n == 0 then 0
    else if id in w.groups[n - 1] then n - 1
    else
      var r := GroupOf(w, id, n - 1);
      if r < n - 1 then r else n
  }

  lemma {:induction false} FlatPrefix(w: World, decl: seq<nat>, n: nat, m: nat)
    requires GroupRangesOk(w, decl) && n <= m <= |decl|
    ensures Flat(w, decl[..n]) <= Flat(w, decl[..m])
    decreases m - n
  {
    if n < m {
      FlatPrefix(w, decl, n, m - 1);
      FlatLast(w, decl, m - 1);
    }
  }

  /** The type at the index reached so far is the first of the next declared group. */
  lemma NextGroup(w: World, decl: seq<nat>, n: nat)
    requires WorldOk(w) && GroupRangesOk(w, decl) && n < |decl|
    ensures
      var i, flat := |Flat(w, decl[..n])|, Flat(w, decl);
      i < |flat| && flat[i] == w.groups[decl[n]][0] && GroupOf(w, flat[i], |w.groups|) == decl[n]
  {
    FlatPrefix(w, decl, n + 1, |decl|);
    FlatLast(w, decl, n);
    assert decl[..|decl|] == decl;
    var id := w.groups[decl[n]][0];
    assert id in w.groups[decl[n]];
    hide Flat;
    SameGroup(w, decl[n], 0, GroupOf(w, id, |w.groups|));
  }

  /** Translates a type section of `count` groups; `flat` is the module's type index space as the validator knows it. */
  method TranslateTypeSection(w: World, flat: seq<nat>, count: nat, ghost decl: seq<nat>) returns (b: TypesBuilder, types: seq<nat>)
    requires WorldOk(w) && SectionValid(w, decl) && GroupRangesOk(w, decl) && count == |decl| && flat == Flat(w, decl)
    requires forall i :: 0 <= i < |decl| ==> Definable(w, decl[i])
    ensures fresh(b) && Section(w, decl, |decl|) == Ok((b.Value(), types))
    ensures WellFormed(ModuleTypes(b.wasmTypes, b.recGroups)) && InStep(b.Value(), types, flat)
  {
    hide WorldOk, Definable, Section, InternGroup, Flat, WellFormed, InStep, BuilderOk, SectionValid;
    SectionExact(w, decl, |decl|);
    SectionWellFormed(w, decl);
    b := new TypesBuilder();
    types := [];
    var typeIndex := 0;
    var n := 0;
    SectionStart(w, decl);
    while n < count
      invariant 0 <= n <= count && fresh(b) && b.inProgress == None
      invariant Section(w, decl, n) == Ok((b.Value(), types)) && typeIndex == |Flat(w, decl[..n])|
    {
      SectionPrefix(w, decl, n + 1, |decl|);
      SectionNext(w, decl, n);
      NextGroup(w, decl, n);
      var r := GroupOf(w, flat[typeIndex], |w.groups|);
      var interned := b.InternRecGroup(types, w, r);
      var elems := Elements(b.recGroups[interned]);
      types := types + elems;
      typeIndex := typeIndex + |elems|;
      n := n + 1;
      TypesSize(w, decl, n);
      TypesSize(w, decl, n - 1);
    }
  }

  lemma SectionStart(w: World, decl: seq<nat>)
    requires WorldOk(w) && GroupRangesOk(w, decl)
    ensures Section(w, decl, 0) == Ok((Empty, [])) && Flat(w, decl[..0]) == []
  {
  }

  lemma SectionNext(w: World, decl: seq<nat>, n: nat)
    requires WorldOk(w) && GroupRangesOk(w, decl) && n < |decl| && Section(w, decl, n + 1).Ok?
    ensures Section(w, decl, n).Ok?
    ensures
      var (b, types) := Section(w, decl, n).value;
      && InternGroup(b, types, w, decl[n]).Ok?
      && var b' := InternGroup(b, types, w, decl[n]).value;
         && decl[n] in b'.seenGroups && b'.seenGroups[decl[n]] < |b'.recGroups|
         && Section(w, decl, n + 1) == Ok((b', types + Elements(b'.recGroups[b'.seenGroups[decl[n]]])))
  {
    hide WorldOk, InternGroup;
  }

  lemma TypesSize(w: World, decl: seq<nat>, n: nat)
    requires WorldOk(w) && SectionValid(w, decl) && GroupRangesOk(w, decl) && n <= |decl| && Section(w, decl, n).Ok?
    ensures |Section(w, decl, n).value.1| == |Flat(w, decl[..n])|
  {
    hide WorldOk, Section, Flat, BuilderOk, SectionValid;
    SectionExact(w, decl, n);
  }
}
