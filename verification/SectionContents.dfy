/** What a translated type section holds: the type list, read back, is the validator's types. */
module SectionContents {
  import opened WasmTypes
  import opened IsoRecursive
  import opened Cfg
  import opened TypeConversion
  import opened ModuleTypesBuilder

  /** Index `i` of the type list holds the validated type `id`. */
  ghost predicate Reads(types: seq<SubType<TypeIndex>>, w: World, back: map<nat, nat>, i: nat, id: nat) {
    && i < |types| && id < |w.types|
    && BackSub(back, types[i]) == w.types[id] && KindsOk(types, types[i])
  }

  /** Every type that was met is held at the index recorded for it. */
  ghost predicate Contents(b: Builder, w: World, back: map<nat, nat>) {
    forall id :: id in b.seen ==> Reads(b.wasmTypes, w, back, b.seen[id], id)
  }

  lemma ReadsGrow(types: seq<SubType<TypeIndex>>, types': seq<SubType<TypeIndex>>, w: World, back: map<nat, nat>, i: nat, id: nat)
    requires types <= types' && Reads(types, w, back, i, id)
    ensures Reads(types', w, back, i, id)
  {
    hide KindsOk, BackSub;
    KindsGrow(types, types', types[i]);
  }

  lemma MemberCanonical(w: World, before: seq<nat>, r: nat, k: nat)
    requires WorldOk(w) && GroupRangesOk(w, before) && GroupValid(w, before, r) && k < |w.groups[r]|
    ensures CanonicalSub(w.types[w.groups[r][k]])
  {
    hide HeapRefs;
    assert TypeValid(w, before, r, w.types[w.groups[r][k]]);
  }

  ghost predicate PushedReads(b: Builder, b': Builder, w: World, back: map<nat, nat>, ids: seq<nat>, n: nat)
    requires n <= |ids|
  {
    && b.wasmTypes <= b'.wasmTypes && |b'.wasmTypes| == |b.wasmTypes| + n && b'.seen == b.seen
    && forall k :: 0 <= k < n ==> Reads(b'.wasmTypes, w, back, |b.wasmTypes| + k, ids[k])
  }

  lemma PushReads(b: Builder, p: Builder, moduleTypes: seq<nat>, w: World, back: map<nat, nat>, ids: seq<nat>, n: nat)
    requires n < |ids| && ids[n] < |w.types| && PushedReads(b, p, w, back, ids, n)
    requires Inverts(back, b.seen) && CanonicalSub(w.types[ids[n]])
    requires ConvertSub(Context(p.wasmTypes, p.seen, moduleTypes), w.types[ids[n]]).Ok?
    ensures
      var ty := ConvertSub(Context(p.wasmTypes, p.seen, moduleTypes), w.types[ids[n]]).value;
      PushedReads(b, p.(wasmTypes := p.wasmTypes + [ty]), w, back, ids, n + 1)
  {
    hide Inverts, CanonicalSub, ConvertSub, BackSub, KindsOk, Reads;
    var c := Context(p.wasmTypes, p.seen, moduleTypes);
    SubRoundTrip(c, back, w.types[ids[n]]);
    var ty := ConvertSub(c, w.types[ids[n]]).value;
    var types' := p.wasmTypes + [ty];
    KindsGrow(p.wasmTypes, types', ty);
    forall k | 0 <= k < n + 1 ensures Reads(types', w, back, |b.wasmTypes| + k, ids[k]) {
      if k < n {
        ReadsGrow(p.wasmTypes, types', w, back, |b.wasmTypes| + k, ids[k]);
      } else {
        ReadsIntro(types', w, back, |b.wasmTypes| + k, ids[k]);
      }
    }
  }

  lemma ReadsIntro(types: seq<SubType<TypeIndex>>, w: World, back: map<nat, nat>, i: nat, id: nat)
    requires i < |types| && id < |w.types| && BackSub(back, types[i]) == w.types[id] && KindsOk(types, types[i])
    ensures Reads(types, w, back, i, id)
  {
    hide BackSub, KindsOk;
  }

  /** Member `k` of a group is defined at the index reserved for it. */
  lemma {:induction false} PushTypesReads(b: Builder, moduleTypes: seq<nat>, w: World, before: seq<nat>, r: nat, n: nat,
                                          back: map<nat, nat>)
    requires WorldOk(w) && GroupRangesOk(w, before) && r < |w.groups| && GroupValid(w, before, r) && n <= |w.groups[r]|
    requires Inverts(back, b.seen) && PushTypes(b, moduleTypes, w, w.groups[r], n).Ok?
    ensures PushedReads(b, PushTypes(b, moduleTypes, w, w.groups[r], n).value, w, back, w.groups[r], n)
    decreases n
  {
    hide Inverts, GroupValid, ConvertSub, Reads, CanonicalSub;
    if n > 0 {
      PushTypesReads(b, moduleTypes, w, before, r, n - 1, back);
      MemberCanonical(w, before, r, n - 1);
      PushReads(b, PushTypes(b, moduleTypes, w, w.groups[r], n - 1).value, moduleTypes, w, back, w.groups[r], n - 1);
    }
  }

  lemma DefineReads(b: Builder, moduleTypes: seq<nat>, w: World, before: seq<nat>, r: nat, back: map<nat, nat>)
    requires WorldOk(w) && BuilderOk(b, w) && GroupRangesOk(w, before) && r < |w.groups| && GroupValid(w, before, r) && r !in b.seenGroups
    requires Contents(b, w, back) && DefineGroup(b, moduleTypes, w, r).Ok?
    requires Inverts(back, DefineGroup(b, moduleTypes, w, r).value.seen)
    ensures Contents(DefineGroup(b, moduleTypes, w, r).value, w, back)
  {
    hide BuilderOk, GroupValid, Reserve, PushTypes, Reads, Inverts;
    var ids, start := w.groups[r], |b.wasmTypes|;
    ReservedBeside(b, w, r);
    hide WorldOk;
    var b0 := b.(seen := Reserve(b.seen, ids, start));
    var b' := DefineGroup(b, moduleTypes, w, r).value;
    var b1 := PushTypes(b0, moduleTypes, w, ids, |ids|).value;
    SeenUnchanged(b0, moduleTypes, w, ids, |ids|);
    PushTypesReads(b0, moduleTypes, w, before, r, |ids|, back);
    forall id | id in b'.seen ensures Reads(b'.wasmTypes, w, back, b'.seen[id], id) {
      if id in b.seen {
        ReadsGrow(b.wasmTypes, b'.wasmTypes, w, back, b.seen[id], id);
      } else {
        var k :| 0 <= k < |ids| && ids[k] == id;
        assert Reads(b'.wasmTypes, w, back, start + k, ids[k]);
      }
    }
  }

  lemma {:induction false} SeenUnchanged(b: Builder, moduleTypes: seq<nat>, w: World, ids: seq<nat>, n: nat)
    requires n <= |ids| && (forall k :: 0 <= k < |ids| ==> ids[k] < |w.types|) && PushTypes(b, moduleTypes, w, ids, n).Ok?
    ensures PushTypes(b, moduleTypes, w, ids, n).value.seen == b.seen
    decreases n
  {
    hide ConvertSub;
    if n > 0 {
      SeenUnchanged(b, moduleTypes, w, ids, n - 1);
    }
  }

  lemma InvertsLess(back: map<nat, nat>, seen: map<nat, nat>, seen': map<nat, nat>)
    requires Inverts(back, seen') && forall id :: id in seen ==> id in seen' && seen'[id] == seen[id]
    ensures Inverts(back, seen)
  {
  }

  /** After every prefix of the section, for every naming of the indices handed out. */
  lemma {:induction false} SectionReads(w: World, decl: seq<nat>, n: nat, back: map<nat, nat>)
    requires WorldOk(w) && SectionValid(w, decl) && GroupRangesOk(w, decl) && n <= |decl| && Section(w, decl, n).Ok?
    requires Inverts(back, Section(w, decl, n).value.0.seen)
    ensures Contents(Section(w, decl, n).value.0, w, back)
    decreases n
  {
    hide WorldOk, BuilderOk, Definable, GroupValid, DefineGroup, Inverts, InStep, Reads;
    if n > 0 {
      var (b, types) := Section(w, decl, n - 1).value;
      var before, r := decl[..n - 1], decl[n - 1];
      SectionExact(w, decl, n - 1);
      InternExact(b, types, w, before, r);
      var b' := InternGroup(b, types, w, r).value;
      InvertsLess(back, b.seen, b'.seen);
      SectionReads(w, decl, n - 1, back);
      if r !in b.seenGroups {
        DefineReads(b, types, w, before, r, back);
      }
    }
  }

  /** The type at each index, for a map that gives no index twice. */
  ghost function Inverse(seen: map<nat, nat>): map<nat, nat> {
    map i | i in seen.Values :: IdAt(seen, i)
  }

  ghost function IdAt(seen: map<nat, nat>, i: nat): (id: nat)
    requires i in seen.Values
    ensures id in seen && seen[id] == i
  {
    var id :| id in seen && seen[id] == i;
    id
  }

  lemma InverseInverts(b: Builder, w: World)
    requires WorldOk(w) && BuilderOk(b, w)
    ensures Inverts(Inverse(b.seen), b.seen)
  {
    hide WorldOk, BuilderOk;
    forall id | id in b.seen ensures b.seen[id] in Inverse(b.seen) && Inverse(b.seen)[b.seen[id]] == id {
      SeenInjective(b, w, IdAt(b.seen, b.seen[id]), id);
    }
  }

  /** A translated type section holds the declared types: what is at a declared type's index, read back with the
      index of every type that was met, is that type; and all concrete heap types have the right kind. */
  lemma SectionReadsBack(w: World, decl: seq<nat>, j: nat)
    requires WorldOk(w) && SectionValid(w, decl) && GroupRangesOk(w, decl) && Section(w, decl, |decl|).Ok?
    requires j < |Flat(w, decl)|
    ensures
      var (b, types) := Section(w, decl, |decl|).value;
      && |types| == |Flat(w, decl)| && types[j] < |b.wasmTypes| && Flat(w, decl)[j] < |w.types|
      && BackSub(Inverse(b.seen), b.wasmTypes[types[j]]) == w.types[Flat(w, decl)[j]]
      && KindsOk(b.wasmTypes, b.wasmTypes[types[j]])
  {
    hide Section, WorldOk, BuilderOk, SectionValid, Definable, Flat, BackSub, KindsOk, Inverts, Inverse;
    SectionExact(w, decl, |decl|);
    assert decl[..|decl|] == decl;
    var (b, types) := Section(w, decl, |decl|).value;
    InverseInverts(b, w);
    SectionReads(w, decl, |decl|, Inverse(b.seen));
    assert Reads(b.wasmTypes, w, Inverse(b.seen), b.seen[Flat(w, decl)[j]], Flat(w, decl)[j]);
  }
}
