/** Module type sections and the reference notion of type identity: iso-recursive
    equality as in section "Equivalence" of the WebAssembly GC proposal (MVP.md).
    A defined type is a position in a recursion group in which references inside
    the group are positions and references to earlier groups are replaced by the
    defined types they denote. Two types are the same when these closed forms are. */
module IsoRecursive {
  import opened WasmTypes

  /** A reference of a rolled-up type: to the own group, or to a closed outer type. */
  datatype Ref = Rec(k: nat) | Outer(def: Def)

  /** A closed defined type. */
  datatype Def = Def(group: seq<SubType<Ref>>, pos: nat)

  datatype Range = Range(start: nat, end: nat)

  datatype ModuleTypes = ModuleTypes(wasmTypes: seq<SubType<TypeIndex>>, recGroups: seq<Range>)

  predicate Tiles(groups: seq<Range>, n: nat) {
    && (forall g :: 0 <= g < |groups| ==> groups[g].start <= groups[g].end)
    && (forall g :: 0 <= g < |groups| ==> groups[g].start == EndOf(groups, g))
    && EndOf(groups, |groups|) == n
  }

  /** Where the first `n` groups end. */
  function EndOf(groups: seq<Range>, n: nat): nat
    requires n <= |groups|
  {
    if n == 0 then 0 else groups[n - 1].end
  }

  lemma {:induction false} TilesBounded(groups: seq<Range>, n: nat, g: nat)
    requires Tiles(groups, n) && g <= |groups|
    ensures EndOf(groups, g) <= n
    decreases |groups| - g
  {
    if g < |groups| {
      TilesBounded(groups, n, g + 1);
      assert groups[g].start <= groups[g].end;
      assert groups[g].start == EndOf(groups, g);
    }
  }

  /** Every reference is a module index below `bound`. */
  predicate RefersBelow(t: SubType<TypeIndex>, bound: nat) {
    forall x :: x in TraceSub(t) ==> x.Module? && x.interned < bound
  }

  /** What the registry relies on: the groups tile the type list, and a type refers
      only to types of its own group and of earlier ones. */
  predicate WellFormed(m: ModuleTypes) {
    && Tiles(m.recGroups, |m.wasmTypes|)
    && forall g, i :: 0 <= g < |m.recGroups| && m.recGroups[g].start <= i < m.recGroups[g].end && i < |m.wasmTypes|
         ==> RefersBelow(m.wasmTypes[i], m.recGroups[g].end)
  }

  function GroupTypes(m: ModuleTypes, g: nat): (ts: seq<SubType<TypeIndex>>)
    requires WellFormed(m) && g < |m.recGroups|
    ensures |ts| == m.recGroups[g].end - m.recGroups[g].start
    ensures GroupRefersBelow(ts, m.recGroups[g].end)
  {
    hide WellFormed, GroupRefersBelow;
    GroupWithin(m, g);
    m.wasmTypes[m.recGroups[g].start..m.recGroups[g].end]
  }

  lemma GroupWithin(m: ModuleTypes, g: nat)
    requires WellFormed(m) && g < |m.recGroups|
    ensures m.recGroups[g].start <= m.recGroups[g].end <= |m.wasmTypes|
    ensures GroupRefersBelow(m.wasmTypes[m.recGroups[g].start..m.recGroups[g].end], m.recGroups[g].end)
  {
    hide RefersBelow, GroupRefersBelow;
    TilesBounded(m.recGroups, |m.wasmTypes|, g + 1);
    assert m.recGroups[g].start <= m.recGroups[g].end;
    var ts := m.wasmTypes[m.recGroups[g].start..m.recGroups[g].end];
    forall k | 0 <= k < |ts| ensures RefersBelow(ts[k], m.recGroups[g].end) {
      assert ts[k] == m.wasmTypes[m.recGroups[g].start + k];
    }
    GroupRefers(ts, m.recGroups[g].end);
  }

  predicate GroupRefersBelow(ts: seq<SubType<TypeIndex>>, bound: nat) {
    forall x :: x in TraceGroup(ts) ==> x.Module? && x.interned < bound
  }

  lemma {:induction false} GroupRefers(ts: seq<SubType<TypeIndex>>, bound: nat)
    requires forall k :: 0 <= k < |ts| ==> RefersBelow(ts[k], bound)
    ensures GroupRefersBelow(ts, bound)
  {
    if ts != [] {
      assert RefersBelow(ts[0], bound);
      assert forall k :: 0 <= k < |ts[1..]| ==> RefersBelow(ts[1..][k], bound);
      GroupRefers(ts[1..], bound);
    }
  }

  /** Closes one reference, given the closed forms of all earlier types. */
  function RollRef(defs: seq<Def>, x: TypeIndex): Ref {
    if !x.Module? then Rec(0)
    else if x.interned < |defs| then Outer(defs[x.interned])
    else Rec(x.interned - |defs|)
  }

  function RollGroup(defs: seq<Def>, ts: seq<SubType<TypeIndex>>): (r: seq<SubType<Ref>>)
    ensures |r| == |ts|
  {
    MapGroup(ts, x => RollRef(defs, x))
  }

  function GroupDefs(body: seq<SubType<Ref>>): (r: seq<Def>)
    ensures |r| == |body|
    ensures forall k :: 0 <= k < |r| ==> r[k] == Def(body, k)
  {
    seq(|body|, k requires 0 <= k < |body| => Def(body, k))
  }

  /** The closed forms of all types in the first `n` groups. */
  function Roll(m: ModuleTypes, n: nat): (defs: seq<Def>)
    requires WellFormed(m) && n <= |m.recGroups|
    ensures |defs| == EndOf(m.recGroups, n)
  {
    if n == 0 then [] else
      var defs := Roll(m, n - 1);
      assert m.recGroups[n - 1].start == EndOf(m.recGroups, n - 1);
      defs + GroupDefs(RollGroup(defs, GroupTypes(m, n - 1)))
  }

  lemma RollStep(m: ModuleTypes, n: nat)
    requires WellFormed(m) && n < |m.recGroups|
    ensures Roll(m, n + 1) == Roll(m, n) + GroupDefs(RollGroup(Roll(m, n), GroupTypes(m, n)))
  {
    hide WellFormed, GroupTypes, RollGroup, GroupDefs;
  }

  lemma {:induction false} RollPrefix(m: ModuleTypes, g: nat, n: nat)
    requires WellFormed(m) && g <= n <= |m.recGroups|
    ensures Roll(m, g) <= Roll(m, n)
    decreases n - g
  {
    hide WellFormed, Roll, GroupTypes, RollGroup, GroupDefs;
    if g < n {
      RollPrefix(m, g, n - 1);
      RollStep(m, n - 1);
    }
  }

  lemma GroupBounds(m: ModuleTypes, g: nat)
    requires WellFormed(m) && g < |m.recGroups|
    ensures m.recGroups[g].start == EndOf(m.recGroups, g) <= m.recGroups[g].end <= |m.wasmTypes|
  {
    TilesBounded(m.recGroups, |m.wasmTypes|, g + 1);
  }

  /** The closed form of a type is its position in its group, in which references into the group are positions and
      references to earlier types are their closed forms. */
  lemma DefsOfGroup(m: ModuleTypes, g: nat, i: nat)
    requires WellFormed(m) && g < |m.recGroups| && m.recGroups[g].start <= i < m.recGroups[g].end
    ensures i < |m.wasmTypes| && |Roll(m, g)| == m.recGroups[g].start
    ensures Defs(m)[i] == Def(RollGroup(Roll(m, g), GroupTypes(m, g)), i - m.recGroups[g].start)
    ensures forall x :: 0 <= x < |Roll(m, g)| ==> Roll(m, g)[x] == Defs(m)[x]
  {
    hide WellFormed, Roll, GroupTypes, RollGroup;
    GroupBounds(m, g);
    RollStep(m, g);
    RollPrefix(m, g, |m.recGroups|);
    RollPrefix(m, g + 1, |m.recGroups|);
    assert Defs(m)[i] == Roll(m, g + 1)[i];
  }

  /** The closed form of every type of a module. */
  function Defs(m: ModuleTypes): (defs: seq<Def>)
    requires WellFormed(m)
    ensures |defs| == |m.wasmTypes|
  {
    Roll(m, |m.recGroups|)
  }
}
