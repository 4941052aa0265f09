/** From a faulting program counter to the trap recorded for it: the trap table that linking
    builds (`src/compile/mod.rs`), its lookup by binary search (`src/runtime/code_memory.rs`)
    and the registry of code regions (`src/placeholder/code_registry.rs`). */
module TrapTables {
  import opened WasmTypes

  type Trap = nat

  datatype TrapInfo = TrapInfo(offset: nat, trap: Trap)

  datatype RelocTarget = WasmTarget(func: nat) | BuiltinTarget(builtin: nat)

  datatype Relocation = Relocation(offset: nat, target: RelocTarget)

  /** A compiled function: the length of its code, what it refers to, where it traps. */
  datatype Compiled = Compiled(length: nat, relocs: seq<Relocation>, traps: seq<TrapInfo>)

  datatype FunctionLoc = FunctionLoc(start: nat, length: nat)

  /** Traps are inside the code and recorded in order. */
  predicate TrapsOk(c: Compiled) {
    && (forall j :: 0 <= j < |c.traps| ==> c.traps[j].offset < c.length)
    && (forall i, j :: 0 <= i < j < |c.traps| ==> c.traps[i].offset < c.traps[j].offset)
  }

  // ---------------------------------------------------------------- where functions go

  function EndOfLocs(locs: seq<FunctionLoc>): nat {
    if locs == [] then 0 else locs[|locs| - 1].start + locs[|locs| - 1].length
  }

  /** Functions are appended to the text one after the other; the text builder puts `gaps[i]` bytes of padding before
      the `i`-th. */
  function Locs(fs: seq<Compiled>, gaps: seq<nat>): (r: seq<FunctionLoc>)
    requires |gaps| == |fs|
    ensures |r| == |fs| && forall i :: 0 <= i < |fs| ==> r[i].length == fs[i].length
    decreases |fs|
  {
    if fs == [] then [] else
      var n := |fs| - 1;
      var r := Locs(fs[..n], gaps[..n]);
      r + [FunctionLoc(EndOfLocs(r) + gaps[n], fs[n].length)]
  }

  lemma {:induction false} LocsApart(fs: seq<Compiled>, gaps: seq<nat>, i: nat, j: nat)
    requires |gaps| == |fs| && i < j < |fs|
    ensures Locs(fs, gaps)[i].start + fs[i].length <= Locs(fs, gaps)[j].start
    decreases |fs|
  {
    var n := |fs| - 1;
    if j < n {
      LocsApart(fs[..n], gaps[..n], i, j);
    } else if i < n - 1 {
      LocsApart(fs[..n], gaps[..n], i, n - 1);
    }
  }

  /** The padding before the first `n` functions, and the length of their code. */
  function Padding(gaps: seq<nat>, n: nat): nat
    requires n <= |gaps|
  {
    if n == 0 then 0 else Padding(gaps, n - 1) + gaps[n - 1]
  }

  function CodeLength(fs: seq<Compiled>, n: nat): nat
    requires n <= |fs|
  {
    if n == 0 then 0 else CodeLength(fs, n - 1) + fs[n - 1].length
  }

  lemma {:induction false} SumsOfPrefix(fs: seq<Compiled>, gaps: seq<nat>, m: nat, n: nat)
    requires n <= m <= |fs| == |gaps|
    ensures Padding(gaps[..m], n) == Padding(gaps, n) && CodeLength(fs[..m], n) == CodeLength(fs, n)
    decreases n
  {
    if n > 0 {
      SumsOfPrefix(fs, gaps, m, n - 1);
    }
  }

  /** A function starts after the code of those before it and all padding up to it; the last one ends the text. */
  lemma {:induction false} LocsStart(fs: seq<Compiled>, gaps: seq<nat>, i: nat)
    requires |gaps| == |fs|
    ensures i < |fs| ==> Locs(fs, gaps)[i].start == Padding(gaps, i + 1) + CodeLength(fs, i)
    ensures EndOfLocs(Locs(fs, gaps)) == Padding(gaps, |gaps|) + CodeLength(fs, |fs|)
    decreases |fs|
  {
    if fs != [] {
      var n := |fs| - 1;
      LocsStart(fs[..n], gaps[..n], i);
      SumsOfPrefix(fs, gaps, n, n);
      if i < n {
        SumsOfPrefix(fs, gaps, n, i);
        SumsOfPrefix(fs, gaps, n, i + 1);
      }
    }
  }

  /** Where all functions lie. */
  ghost predicate Placed(fs: seq<Compiled>, gaps: seq<nat>, locs: seq<FunctionLoc>)
    requires |gaps| == |fs|
  {
    && |locs| == |fs|
    && (forall i :: 0 <= i < |locs| ==> locs[i].start == Padding(gaps, i + 1) + CodeLength(fs, i) && locs[i].length == fs[i].length)
    && (forall i, j :: 0 <= i < j < |locs| ==> locs[i].start + locs[i].length <= locs[j].start)
  }

  lemma LocsPlaced(fs: seq<Compiled>, gaps: seq<nat>)
    requires |gaps| == |fs|
    ensures Placed(fs, gaps, Locs(fs, gaps))
  {
    hide Locs, Padding, CodeLength;
    var locs := Locs(fs, gaps);
    forall i | 0 <= i < |locs| ensures locs[i].start == Padding(gaps, i + 1) + CodeLength(fs, i) {
      LocsStart(fs, gaps, i);
    }
    forall i, j | 0 <= i < j < |locs| ensures locs[i].start + locs[i].length <= locs[j].start {
      LocsApart(fs, gaps, i, j);
    }
  }

  // ---------------------------------------------------------------- the trap table

  function Positions(start: nat, infos: seq<TrapInfo>): (r: seq<nat>)
    ensures |r| == |infos| && forall j :: 0 <= j < |infos| ==> r[j] == start + infos[j].offset
  {
    seq(|infos|, j requires 0 <= j < |infos| => start + infos[j].offset)
  }

  function Codes(infos: seq<TrapInfo>): (r: seq<Trap>)
    ensures |r| == |infos| && forall j :: 0 <= j < |infos| ==> r[j] == infos[j].trap
  {
    seq(|infos|, j requires 0 <= j < |infos| => infos[j].trap)
  }

  /** The offsets and codes of all traps of the text, function by function. */
  function TrapOffsets(fs: seq<Compiled>, gaps: seq<nat>): seq<nat>
    requires |gaps| == |fs|
    decreases |fs|
  {
    if fs == [] then [] else
      var n := |fs| - 1;
      TrapOffsets(fs[..n], gaps[..n]) + Positions(Locs(fs, gaps)[n].start, fs[n].traps)
  }

  function TrapCodes(fs: seq<Compiled>): seq<Trap>
    decreases |fs|
  {
    if fs == [] then [] else TrapCodes(fs[..|fs| - 1]) + Codes(fs[|fs| - 1].traps)
  }

  /** Some function records trap `t` at text offset `o`. */
  ghost predicate Records(fs: seq<Compiled>, gaps: seq<nat>, o: nat, t: Trap)
    requires |gaps| == |fs|
  {
    exists i :: 0 <= i < |fs| && RecordsBy(fs, gaps, i, o, t)
  }

  /** Function `i` records it. */
  ghost predicate RecordsBy(fs: seq<Compiled>, gaps: seq<nat>, i: nat, o: nat, t: Trap)
    requires i < |fs| == |gaps|
  {
    RecordsIn(Padding(gaps, i + 1) + CodeLength(fs, i), fs[i].traps, o, t)
  }

  predicate Increasing(s: seq<nat>) {
    forall i, j :: 0 <= i < j < |s| ==> s[i] < s[j]
  }

  predicate AllTrapsOk(fs: seq<Compiled>) {
    forall i :: 0 <= i < |fs| ==> TrapsOk(fs[i])
  }

  ghost predicate RecordsIn(start: nat, infos: seq<TrapInfo>, o: nat, t: Trap) {
    exists j :: 0 <= j < |infos| && o == start + infos[j].offset && infos[j].trap == t
  }

  lemma RecordsPrefix(fs: seq<Compiled>, gaps: seq<nat>, o: nat, t: Trap)
    requires |gaps| == |fs| > 0
    ensures
      var n := |fs| - 1;
      Records(fs, gaps, o, t) <==> Records(fs[..n], gaps[..n], o, t) || RecordsIn(Locs(fs, gaps)[n].start, fs[n].traps, o, t)
  {
    hide RecordsIn, RecordsBy, Locs;
    var n := |fs| - 1;
    RecordsByLast(fs, gaps, o, t);
    if i: nat :| i < n && RecordsBy(fs, gaps, i, o, t) {
      RecordsByPrefix(fs, gaps, i, o, t);
    }
    if i: nat :| i < n && RecordsBy(fs[..n], gaps[..n], i, o, t) {
      RecordsByPrefix(fs, gaps, i, o, t);
    }
  }

  lemma RecordsByPrefix(fs: seq<Compiled>, gaps: seq<nat>, i: nat, o: nat, t: Trap)
    requires i + 1 < |fs| == |gaps|
    ensures RecordsBy(fs[..|fs| - 1], gaps[..|fs| - 1], i, o, t) <==> RecordsBy(fs, gaps, i, o, t)
  {
    hide RecordsIn;
    SumsOfPrefix(fs, gaps, |fs| - 1, i);
    SumsOfPrefix(fs, gaps, |fs| - 1, i + 1);
  }

  lemma RecordsByLast(fs: seq<Compiled>, gaps: seq<nat>, o: nat, t: Trap)
    requires |gaps| == |fs| > 0
    ensures
      var n := |fs| - 1;
      RecordsBy(fs, gaps, n, o, t) <==> RecordsIn(Locs(fs, gaps)[n].start, fs[n].traps, o, t)
  {
    hide RecordsIn, Locs;
    LocsStart(fs, gaps, |fs| - 1);
  }

  lemma {:induction false} TableBelowEnd(fs: seq<Compiled>, gaps: seq<nat>)
    requires |gaps| == |fs| && AllTrapsOk(fs)
    ensures |TrapOffsets(fs, gaps)| == |TrapCodes(fs)|
    ensures forall k :: 0 <= k < |TrapOffsets(fs, gaps)| ==> TrapOffsets(fs, gaps)[k] < EndOfLocs(Locs(fs, gaps))
    ensures Increasing(TrapOffsets(fs, gaps))
    decreases |fs|
  {
    if fs != [] {
      var n := |fs| - 1;
      assert forall i :: 0 <= i < n ==> fs[..n][i] == fs[i];
      TableBelowEnd(fs[..n], gaps[..n]);
      assert TrapsOk(fs[n]);
      var start := Locs(fs, gaps)[n].start;
      assert start >= EndOfLocs(Locs(fs[..n], gaps[..n]));
      IncreasingConcat(TrapOffsets(fs[..n], gaps[..n]), Positions(start, fs[n].traps), start, start + fs[n].length);
    }
  }

  lemma IncreasingConcat(a: seq<nat>, b: seq<nat>, lo: nat, hi: nat)
    requires Increasing(a) && Increasing(b) && (forall k :: 0 <= k < |a| ==> a[k] < lo) && (forall k :: 0 <= k < |b| ==> lo <= b[k] < hi)
    requires lo <= hi
    ensures Increasing(a + b) && forall k :: 0 <= k < |a + b| ==> (a + b)[k] < hi
  {
  }

  /** The table holds exactly the recorded traps. */
  lemma {:induction false} TableExact(fs: seq<Compiled>, gaps: seq<nat>, o: nat, t: Trap)
    requires |gaps| == |fs| && |TrapOffsets(fs, gaps)| == |TrapCodes(fs)| && AllTrapsOk(fs)
    ensures Records(fs, gaps, o, t) <==> exists k :: 0 <= k < |TrapOffsets(fs, gaps)| && TrapOffsets(fs, gaps)[k] == o && TrapCodes(fs)[k] == t
    decreases |fs|
  {
    if fs != [] {
      var n := |fs| - 1;
      assert forall i :: 0 <= i < n ==> fs[..n][i] == fs[i];
      TableBelowEnd(fs[..n], gaps[..n]);
      TableExact(fs[..n], gaps[..n], o, t);
      RecordsPrefix(fs, gaps, o, t);
      var start := Locs(fs, gaps)[n].start;
      ConcatFinds(TrapOffsets(fs[..n], gaps[..n]), Positions(start, fs[n].traps), TrapCodes(fs[..n]), Codes(fs[n].traps), o, t);
      FoundIn(start, fs[n].traps, o, t);
    }
  }

  lemma FoundIn(start: nat, infos: seq<TrapInfo>, o: nat, t: Trap)
    ensures RecordsIn(start, infos, o, t)
            <==> exists k :: 0 <= k < |Positions(start, infos)| && Positions(start, infos)[k] == o && Codes(infos)[k] == t
  {
    if j :| 0 <= j < |infos| && o == start + infos[j].offset && infos[j].trap == t {
      assert Positions(start, infos)[j] == o && Codes(infos)[j] == t;
    }
    if k :| 0 <= k < |Positions(start, infos)| && Positions(start, infos)[k] == o && Codes(infos)[k] == t {
      assert o == start + infos[k].offset && infos[k].trap == t;
    }
  }

  lemma ConcatFinds(a: seq<nat>, b: seq<nat>, c: seq<Trap>, d: seq<Trap>, o: nat, t: Trap)
    requires |a| == |c| && |b| == |d|
    ensures (exists k :: 0 <= k < |a + b| && (a + b)[k] == o && (c + d)[k] == t)
            <==> (exists k :: 0 <= k < |a| && a[k] == o && c[k] == t) || (exists k :: 0 <= k < |b| && b[k] == o && d[k] == t)
  {
    if k :| 0 <= k < |a + b| && (a + b)[k] == o && (c + d)[k] == t {
      if k < |a| {
        assert a[k] == o && c[k] == t;
      } else {
        assert b[k - |a|] == o && d[k - |a|] == t;
      }
    }
    if k :| 0 <= k < |a| && a[k] == o && c[k] == t {
      assert (a + b)[k] == o && (c + d)[k] == t;
    }
    if k :| 0 <= k < |b| && b[k] == o && d[k] == t {
      assert (a + b)[|a| + k] == o && (c + d)[|a| + k] == t;
    }
  }

  // ---------------------------------------------------------------- building the table

  class TrapsBuilder {
    var offsets: seq<nat>
    var traps: seq<Trap>
    var lastOffset: nat

    constructor ()
      ensures offsets == [] && traps == [] && lastOffset == 0
    {
      offsets, traps, lastOffset := [], [], 0;
    }

    /** Appends the traps of a function. That they come in order is asserted for each. */
    method PushTraps(func: FunctionLoc, infos: seq<TrapInfo>)
      requires lastOffset <= func.start && forall i, j :: 0 <= i < j < |infos| ==> infos[i].offset <= infos[j].offset
      modifies this
      ensures offsets == old(offsets) + Positions(func.start, infos) && traps == old(traps) + Codes(infos)
      ensures lastOffset == func.start + func.length
    {
      var j := 0;
      while j < |infos|
        invariant 0 <= j <= |infos|
        invariant offsets == old(offsets) + Positions(func.start, infos)[..j] && traps == old(traps) + Codes(infos)[..j]
        invariant lastOffset <= func.start || (j > 0 && lastOffset == func.start + infos[j - 1].offset)
      {
        var pos := func.start + infos[j].offset;
        assert pos >= lastOffset;
        offsets := offsets + [pos];
        traps := traps + [infos[j].trap];
        lastOffset := pos;
        j := j + 1;
      }
      assert Positions(func.start, infos)[..j] == Positions(func.start, infos) && Codes(infos)[..j] == Codes(infos);
      lastOffset := func.start + func.length;
    }
  }

  /** The part of linking that lays out the functions and collects their traps. */
  method LayOut(fs: seq<Compiled>, gaps: seq<nat>) returns (locs: seq<FunctionLoc>, offsets: seq<nat>, traps: seq<Trap>)
    requires |gaps| == |fs| && AllTrapsOk(fs)
    ensures locs == Locs(fs, gaps) && offsets == TrapOffsets(fs, gaps) && traps == TrapCodes(fs)
  {
    var builder := new TrapsBuilder();
    locs := [];
    var end := 0;
    var i := 0;
    while i < |fs|
      invariant 0 <= i <= |fs| && fresh(builder)
      invariant locs == Locs(fs[..i], gaps[..i]) && end == EndOfLocs(locs) && builder.lastOffset == end
      invariant builder.offsets == TrapOffsets(fs[..i], gaps[..i]) && builder.traps == TrapCodes(fs[..i])
    {
      assert fs[..i + 1][..i] == fs[..i] && gaps[..i + 1][..i] == gaps[..i];
      assert TrapsOk(fs[i]);
      var loc := FunctionLoc(end + gaps[i], fs[i].length);
      end := loc.start + loc.length;
      builder.PushTraps(loc, fs[i].traps);
      locs := locs + [loc];
      i := i + 1;
    }
    assert fs[..i] == fs && gaps[..i] == gaps;
    offsets, traps := builder.offsets, builder.traps;
  }

  // ---------------------------------------------------------------- lookup in one text

  /** Binary search for the trap at a text offset. */
  method LookupTrapCode(offsets: seq<nat>, traps: seq<Trap>, o: nat) returns (r: Option<Trap>)
    requires |offsets| == |traps| && Increasing(offsets)
    ensures forall t: Trap :: r == Some(t) <==> exists k :: 0 <= k < |offsets| && offsets[k] == o && traps[k] == t
  {
    var lo, hi := 0, |offsets|;
    while lo < hi
      invariant 0 <= lo <= hi <= |offsets|
      invariant forall k :: 0 <= k < lo ==> offsets[k] < o
      invariant forall k :: hi <= k < |offsets| ==> offsets[k] > o
    {
      var mid := (lo + hi) / 2;
      if offsets[mid] == o {
        assert forall k :: 0 <= k < |offsets| && offsets[k] == o ==> k == mid;
        return Some(traps[mid]);
      } else if offsets[mid] < o {
        lo := mid + 1;
      } else {
        hi := mid;
      }
    }
    return None;
  }

  // ---------------------------------------------------------------- code regions

  /** A registered text: where it lies, what was linked into it, and its trap table. */
  datatype Code = Code(start: nat, length: nat, fs: seq<Compiled>, gaps: seq<nat>, trapOffsets: seq<nat>, traps: seq<Trap>)

  /** The text holds all functions, whose traps are recorded in order, and the table is theirs. */
  predicate CodeOk(c: Code) {
    && |c.gaps| == |c.fs| && AllTrapsOk(c.fs) && EndOfLocs(Locs(c.fs, c.gaps)) <= c.length
    && c.trapOffsets == TrapOffsets(c.fs, c.gaps) && c.traps == TrapCodes(c.fs)
  }

  predicate Contains(c: Code, pc: nat) {
    c.start <= pc < c.start + c.length
  }

  predicate Apart(c: Code, d: Code) {
    c.start + c.length <= d.start || d.start + d.length <= c.start
  }

  /** Some function of the text records trap `t` at address `pc`. */
  ghost predicate RecordsAt(c: Code, pc: nat, t: Trap) {
    |c.gaps| == |c.fs| && c.start <= pc && Records(c.fs, c.gaps, pc - c.start, t)
  }

  /** The trap table of a text answers for exactly the recorded traps. */
  method TrapInCode(c: Code, o: nat) returns (r: Option<Trap>)
    requires CodeOk(c)
    ensures forall t: Trap :: r == Some(t) <==> RecordsAt(c, c.start + o, t)
  {
    TableBelowEnd(c.fs, c.gaps);
    r := LookupTrapCode(c.trapOffsets, c.traps, o);
    hide TrapOffsets, TrapCodes, Records, Locs;
    forall t: Trap ensures r == Some(t) <==> RecordsAt(c, c.start + o, t) {
      TableExact(c.fs, c.gaps, o, t);
    }
  }

  /** A recorded trap lies inside the text. */
  lemma RecordsInside(c: Code, pc: nat, t: Trap)
    requires CodeOk(c) && RecordsAt(c, pc, t)
    ensures Contains(c, pc)
  {
    TableBelowEnd(c.fs, c.gaps);
    TableExact(c.fs, c.gaps, pc - c.start, t);
  }

  predicate RegionOk(end: nat, c: Code) {
    CodeOk(c) && c.length > 0 && end == c.start + c.length - 1
  }

  /** The regions are in order and do not overlap. */
  ghost predicate RegionsOk(regions: map<nat, Code>) {
    && (forall e :: e in regions ==> RegionOk(e, regions[e]))
    && (forall d, e :: d in regions && e in regions && d != e ==> Apart(regions[d], regions[e]))
  }

  lemma OneRegion(regions: map<nat, Code>, d: nat, e: nat, pc: nat)
    requires RegionsOk(regions) && d in regions && e in regions && Contains(regions[d], pc) && Contains(regions[e], pc)
    ensures d == e
  {
    hide CodeOk;
  }

  /** The region that contains an address is the one that ends first from there on. */
  lemma FirstEnd(regions: map<nat, Code>, best: nat, e: nat, pc: nat)
    requires RegionsOk(regions) && best in regions && e in regions && pc <= best && Contains(regions[e], pc)
    requires forall x :: x in regions && pc <= x ==> best <= x
    ensures best == e
  {
    hide CodeOk;
    assert RegionOk(e, regions[e]) && RegionOk(best, regions[best]);
    assert best <= e;
  }

  lemma RegionAdded(regions: map<nat, Code>, c: Code)
    requires RegionsOk(regions) && CodeOk(c) && c.length > 0 && forall e :: e in regions ==> Apart(c, regions[e])
    ensures c.start + c.length - 1 !in regions && RegionsOk(regions[c.start + c.length - 1 := c])
  {
    hide CodeOk;
    var end := c.start + c.length - 1;
    if end in regions {
      assert Apart(c, regions[end]) && RegionOk(end, regions[end]);
    }
  }

  /** The global registry: regions by the address of their last byte. */
  class CodeRegistry {
    var regions: map<nat, Code>

    ghost predicate Valid()
      reads this
    {
      RegionsOk(regions)
    }

    constructor ()
      ensures Valid() && regions == map[]
    {
      regions := map[];
    }

    /** Registers a text that overlaps no registered one; an empty text is ignored. */
    method RegisterCode(c: Code)
      requires Valid() && CodeOk(c) && forall e :: e in regions ==> Apart(c, regions[e])
      modifies this
      ensures Valid()
      ensures regions == if c.length == 0 then old(regions) else old(regions)[c.start + c.length - 1 := c]
      ensures c.length > 0 ==> c.start + c.length - 1 !in old(regions)
    {
      hide CodeOk, RegionsOk;
      if c.length == 0 {
        return;
      }
      var end := c.start + c.length - 1;
      RegionAdded(regions, c);
      regions := regions[end := c];
    }

    /** The region with the least last address from `pc` on, if it starts at or before `pc`. */
    method LookupCode(pc: nat) returns (r: Option<(Code, nat)>)
      requires Valid()
      ensures r.Some? ==> exists e :: e in regions && regions[e] == r.value.0 && Contains(regions[e], pc) && r.value.1 == pc - regions[e].start
      ensures r.None? ==> forall e :: e in regions ==> !Contains(regions[e], pc)
    {
      hide CodeOk;
      var keys := regions.Keys;
      var best: Option<nat> := None;
      while keys != {}
        invariant keys <= regions.Keys
        invariant best.Some? ==> best.value in regions && pc <= best.value
        invariant forall e :: e in regions && e !in keys && pc <= e ==> best.Some? && best.value <= e
        decreases keys
      {
        var e :| e in keys;
        keys := keys - {e};
        if pc <= e && (best.None? || e < best.value) {
          best := Some(e);
        }
      }
      if best.None? {
        assert forall e :: e in regions ==> RegionOk(e, regions[e]);
        return None;
      }
      assert RegionOk(best.value, regions[best.value]);
      if pc < regions[best.value].start {
        forall e | e in regions ensures !Contains(regions[e], pc) {
          if Contains(regions[e], pc) {
            FirstEnd(regions, best.value, e, pc);
          }
        }
        return None;
      }
      return Some((regions[best.value], pc - regions[best.value].start));
    }

    /** An address has trap `t` exactly if some function of some registered text records `t` there. */
    method TrapAt(pc: nat) returns (r: Option<Trap>)
      requires Valid()
      ensures forall t: Trap :: r == Some(t) <==> exists e :: e in regions && RecordsAt(regions[e], pc, t)
    {
      hide CodeOk, RecordsAt;
      assert forall e :: e in regions ==> RegionOk(e, regions[e]);
      var found := LookupCode(pc);
      if found.None? {
        forall e, t: Trap | e in regions && RecordsAt(regions[e], pc, t) ensures false {
          RecordsInside(regions[e], pc, t);
        }
        return None;
      }
      var (c, o) := found.value;
      ghost var e0 :| e0 in regions && regions[e0] == c && Contains(c, pc);
      r := TrapInCode(c, o);
      hide RegionsOk;
      forall t: Trap ensures r == Some(t) <==> exists e :: e in regions && RecordsAt(regions[e], pc, t) {
        if RecordsAt(c, pc, t) {
          assert RecordsAt(regions[e0], pc, t);
        }
        if e :| e in regions && RecordsAt(regions[e], pc, t) {
          RecordsInside(regions[e], pc, t);
          OneRegion(regions, e, e0, pc);
        }
      }
    }
  }
}
