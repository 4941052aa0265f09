/** Initialising a `VMContext` (`src/runtime/instance.rs`): func-ref numbers are a bijection onto the func-ref slots, and
    after initialisation every slot, read back from the bytes, holds the record meant for it. */
module VmContextInit {
  import opened WasmTypes
  import opened TrapTables
  import opened Linking
  import opened VmContextLayout

  // ---------------------------------------------------------------- escaping functions

  /** Numbers given to some of the functions: each of `0..n` to exactly one. */
  ghost predicate Numbered(refs: seq<Option<nat>>, n: nat) {
    && (forall i :: 0 <= i < |refs| && refs[i].Some? ==> refs[i].value < n)
    && (forall i, j :: 0 <= i < j < |refs| && refs[i].Some? && refs[j].Some? ==> refs[i].value != refs[j].value)
    && (forall k :: 0 <= k < n ==> exists i :: 0 <= i < |refs| && refs[i] == Some(k))
  }

  class FunctionTable {
    var funcRefs: seq<Option<nat>>
    var numEscaped: nat

    ghost predicate Valid()
      reads this
    {
      Numbered(funcRefs, numEscaped)
    }

    constructor (functions: nat)
      ensures Valid() && |funcRefs| == functions && forall i :: 0 <= i < functions ==> funcRefs[i] == None
    {
      funcRefs := seq(functions, _ => None);
      numEscaped := 0;
    }

    /** Marks a function as escaping: it gets the next number unless it has one. */
    method FlagFuncAsEscaped(f: nat)
      requires Valid() && f < |funcRefs|
      modifies this
      ensures Valid() && |funcRefs| == |old(funcRefs)| && funcRefs[f].Some?
      ensures forall i :: 0 <= i < |funcRefs| && i != f ==> funcRefs[i] == old(funcRefs)[i]
      ensures old(funcRefs)[f].Some? ==> funcRefs == old(funcRefs) && numEscaped == old(numEscaped)
      ensures old(funcRefs)[f].None? ==> funcRefs[f] == Some(old(numEscaped)) && numEscaped == old(numEscaped) + 1
    {
      if funcRefs[f].Some? {
        return;
      }
      NextNumber(funcRefs, numEscaped, f);
      funcRefs := funcRefs[f := Some(numEscaped)];
      numEscaped := numEscaped + 1;
    }
  }

  lemma NextNumber(refs: seq<Option<nat>>, n: nat, f: nat)
    requires Numbered(refs, n) && f < |refs| && refs[f].None?
    ensures Numbered(refs[f := Some(n)], n + 1)
  {
    var refs' := refs[f := Some(n)];
    forall k | 0 <= k < n + 1 ensures exists i :: 0 <= i < |refs'| && refs'[i] == Some(k) {
      if k < n {
        var i :| 0 <= i < |refs| && refs[i] == Some(k);
        assert refs'[i] == Some(k);
      } else {
        assert refs'[f] == Some(k);
      }
    }
  }

  // ---------------------------------------------------------------- bytes

  datatype Record =
    | MagicRecord | BuiltinsRecord | TypeIdsRecord
    | FuncRefRecord(arrayCall: nat, wasmCall: nat, vmctx: nat, typeIndex: nat)
    | FunctionImportRecord(wasmCall: nat, arrayCall: nat, vmctx: nat)
    | TableImportRecord(from: nat) | MemoryImportRecord(from: nat) | GlobalImportRecord(from: nat)
    | TableRecord(table: nat) | MemoryRecord(memory: nat) | GlobalRecord(value: nat)

  /** A byte of the context: the `k`-th byte of a record, or not written yet. */
  datatype Cell = Blank | Part(record: Record, k: nat)

  /** Reading the slot gives the record. */
  ghost predicate Holds(bytes: seq<Cell>, o: Offsets, s: Slot, r: Record) {
    && OffsetOf(o, s) + WidthOf(o, s) <= |bytes|
    && forall k :: 0 <= k < WidthOf(o, s) ==> bytes[OffsetOf(o, s) + k] == Part(r, k)
  }

  ghost predicate AllHold(bytes: seq<Cell>, o: Offsets, done: map<Slot, Record>) {
    forall s :: s in done ==> ValidSlot(o, s) && Holds(bytes, o, s, done[s])
  }

  /** Bytes outside `[at, at + width)` are as before. */
  predicate OnlyRange(before: seq<Cell>, after: seq<Cell>, at: nat, width: nat) {
    |after| == |before| && forall j :: 0 <= j < |before| && !(at <= j < at + width) ==> after[j] == before[j]
  }

  lemma OtherSlots(o: Offsets, before: seq<Cell>, after: seq<Cell>, s: Slot, r: Record, done: map<Slot, Record>)
    requires LayoutOk(o) && ValidSlot(o, s) && AllHold(before, o, done)
    requires OnlyRange(before, after, OffsetOf(o, s), WidthOf(o, s)) && Holds(after, o, s, r)
    ensures AllHold(after, o, done[s := r])
  {
    hide LayoutOk, OffsetOf, WidthOf, ValidSlot;
    forall t | t in done[s := r] ensures ValidSlot(o, t) && Holds(after, o, t, done[s := r][t]) {
      if t != s {
        SlotsApart(o, s, t);
        assert Holds(before, o, t, done[t]);
      }
    }
  }

  lemma HoldsWritten(bytes: seq<Cell>, o: Offsets, s: Slot, r: Record)
    requires OffsetOf(o, s) + WidthOf(o, s) <= |bytes|
    requires forall j :: OffsetOf(o, s) <= j < OffsetOf(o, s) + WidthOf(o, s) ==> bytes[j] == Part(r, j - OffsetOf(o, s))
    ensures Holds(bytes, o, s, r)
  {
    hide OffsetOf, WidthOf;
  }

  class OwnedVMContext {
    var bytes: array<Cell>

    constructor (size: nat)
      ensures fresh(bytes) && bytes.Length == size
    {
      bytes := new Cell[size](_ => Blank);
    }

    /** Writes the bytes of a record, and no others. */
    method WriteBytes(at: nat, width: nat, r: Record)
      requires at + width <= bytes.Length
      modifies bytes
      ensures OnlyRange(old(bytes[..]), bytes[..], at, width)
      ensures forall j :: at <= j < at + width ==> bytes[j] == Part(r, j - at)
    {
      var k := 0;
      while k < width
        invariant 0 <= k <= width
        invariant forall j :: at <= j < at + k ==> bytes[j] == Part(r, j - at)
        invariant OnlyRange(old(bytes[..]), bytes[..], at, width)
      {
        bytes[at + k] := Part(r, k);
        k := k + 1;
      }
    }

    /** Writes a record into its slot, byte by byte; other slots keep what they hold. */
    method WriteSlot(o: Offsets, s: Slot, r: Record, ghost done: map<Slot, Record>)
      requires LayoutOk(o) && ValidSlot(o, s) && bytes.Length == o.size && AllHold(bytes[..], o, done)
      modifies bytes
      ensures AllHold(bytes[..], o, done[s := r])
    {
      SlotsApart(o, s, s);
      hide LayoutOk, ValidSlot, AllHold, OffsetOf, WidthOf;
      var at, width := OffsetOf(o, s), WidthOf(o, s);
      ghost var before := bytes[..];
      WriteBytes(at, width, r);
      HoldsWritten(bytes[..], o, s, r);
      OtherSlots(o, before, bytes[..], s, r, done);
    }

    /** Copies records into the first slots of a group. */
    method WriteGroup(o: Offsets, group: nat, records: seq<Record>, ghost done: map<Slot, Record>)
      returns (ghost done': map<Slot, Record>)
      requires LayoutOk(o) && 1 <= group < 9 && |records| == Groups(o)[group].count
      requires bytes.Length == o.size && AllHold(bytes[..], o, done)
      modifies bytes
      ensures AllHold(bytes[..], o, done') && Extended(done, done', group, records, |records|)
    {
      hide LayoutOk, AllHold, Groups;
      done' := done;
      var i := 0;
      while i < |records|
        invariant 0 <= i <= |records| && bytes.Length == o.size && AllHold(bytes[..], o, done')
        invariant Extended(done, done', group, records, i)
      {
        SlotAtIs(group, i);
        WriteSlot(o, SlotAt(group, i), records[i], done');
        done' := done'[SlotAt(group, i) := records[i]];
        ExtendedOnce(group, records, i);
        i := i + 1;
      }
    }
  }

  function SlotAt(group: nat, i: nat): Slot
    requires 1 <= group < 9
  {
    match group
    case 1 => FuncRefSlot(i)
    case 2 => FunctionImportSlot(i)
    case 3 => TableImportSlot(i)
    case 4 => MemoryImportSlot(i)
    case 5 => GlobalImportSlot(i)
    case 6 => TableSlot(i)
    case 7 => MemorySlot(i)
    case _ => GlobalSlot(i)
  }

  lemma SlotAtIs(group: nat, i: nat)
    requires 1 <= group < 9
    ensures GroupNumber(SlotAt(group, i)) == group && IndexIn(SlotAt(group, i)) == i
  {
  }

  lemma ExtendedOnce(group: nat, records: seq<Record>, i: nat)
    requires 1 <= group < 9
    ensures forall j :: 0 <= j < i ==> SlotAt(group, j) != SlotAt(group, i)
    ensures GroupNumber(SlotAt(group, i)) == group
  {
  }

  /** `done'` has the first `n` records of a group in addition, and other groups as before. */
  predicate Extended(done: map<Slot, Record>, done': map<Slot, Record>, group: nat, records: seq<Record>, n: nat) {
    && 1 <= group < 9 && n <= |records|
    && (forall s :: s in done && GroupNumber(s) != group ==> s in done' && done'[s] == done[s])
    && (forall i :: 0 <= i < n ==> SlotAt(group, i) in done' && done'[SlotAt(group, i)] == records[i])
  }

  // ---------------------------------------------------------------- what an instance is made of

  datatype FuncImport = FuncImport(wasmCall: nat, arrayCall: nat, vmctx: nat)

  /** The module's functions with their numbers, types and code, the imports, and the definitions of the instance. */
  datatype Setup = Setup(imported: nat, refs: seq<Option<nat>>, typeIndices: seq<nat>, infos: seq<FunctionInfo>, codeBase: nat, self: nat,
                         funcImports: seq<FuncImport>, tableImports: seq<nat>, memoryImports: seq<nat>, globalImports: seq<nat>,
                         tables: seq<nat>, memories: seq<nat>, globals: seq<nat>)

  /** The module's numbers are in order, escaping functions have trampolines, and there is one import and one definition per slot. */
  ghost predicate SetupOk(m: Setup, o: Offsets) {
    && LayoutOk(o) && Numbered(m.refs, o.counts.escapedFuncs)
    && m.imported <= |m.refs| == |m.typeIndices| && |m.infos| == |m.refs| - m.imported
    && (forall f :: m.imported <= f < |m.refs| && m.refs[f].Some? ==> m.infos[f - m.imported].hostToWasmTrampoline.Some?)
    && |m.funcImports| == m.imported == o.counts.importedFuncs && |m.tableImports| == o.counts.importedTables
    && |m.memoryImports| == o.counts.importedMemories && |m.globalImports| == o.counts.importedGlobals
    && |m.tables| == o.counts.tables && |m.memories| == o.counts.memories && |m.globals| == o.counts.globals
  }

  function FunctionImports(imports: seq<FuncImport>): (r: seq<Record>)
    ensures |r| == |imports|
    ensures forall i :: 0 <= i < |imports| ==> r[i] == FunctionImportRecord(imports[i].wasmCall, imports[i].arrayCall, imports[i].vmctx)
  {
    seq(|imports|, i requires 0 <= i < |imports| => FunctionImportRecord(imports[i].wasmCall, imports[i].arrayCall, imports[i].vmctx))
  }

  function RecordSeq(xs: seq<nat>, f: nat -> Record): (r: seq<Record>)
    ensures |r| == |xs| && forall i :: 0 <= i < |xs| ==> r[i] == f(xs[i])
  {
    seq(|xs|, i requires 0 <= i < |xs| => f(xs[i]))
  }

  /** The records of a group of slots other than func-refs. */
  function RecordsOf(m: Setup, group: nat): seq<Record>
    requires 2 <= group < 9
  {
    match group
    case 2 => FunctionImports(m.funcImports)
    case 3 => RecordSeq(m.tableImports, (x: nat) => TableImportRecord(x))
    case 4 => RecordSeq(m.memoryImports, (x: nat) => MemoryImportRecord(x))
    case 5 => RecordSeq(m.globalImports, (x: nat) => GlobalImportRecord(x))
    case 6 => RecordSeq(m.tables, (x: nat) => TableRecord(x))
    case 7 => RecordSeq(m.memories, (x: nat) => MemoryRecord(x))
    case _ => RecordSeq(m.globals, (x: nat) => GlobalRecord(x))
  }

  lemma RecordsCount(m: Setup, o: Offsets, group: nat)
    requires SetupOk(m, o) && 2 <= group < 9
    ensures |RecordsOf(m, group)| == Groups(o)[group].count
  {
    hide LayoutOk, Numbered;
    assert group in {2, 3, 4, 5, 6, 7, 8};
  }

  // ---------------------------------------------------------------- initialisation

  /** Every escaping function's func-ref is in the slot of its number: an import's own addresses and context, or
      addresses in the module's code with the module's context. */
  ghost predicate FuncRefsDone(m: Setup, o: Offsets, done: map<Slot, Record>, n: nat)
    requires SetupOk(m, o) && n <= |m.refs|
  {
    && (forall f :: 0 <= f < n && m.refs[f].Some? ==> FuncRefSlot(m.refs[f].value) in done)
    && (forall f :: 0 <= f < n && m.refs[f].Some? && f < m.imported ==>
          done[FuncRefSlot(m.refs[f].value)]
          == FuncRefRecord(arrayCall := m.funcImports[f].arrayCall, wasmCall := m.funcImports[f].wasmCall,
                           vmctx := m.funcImports[f].vmctx, typeIndex := m.typeIndices[f]))
    && (forall f :: 0 <= f < n && m.refs[f].Some? && m.imported <= f ==>
          done[FuncRefSlot(m.refs[f].value)]
          == FuncRefRecord(arrayCall := m.codeBase + m.infos[f - m.imported].hostToWasmTrampoline.value.start,
                           wasmCall := m.codeBase + m.infos[f - m.imported].wasmFuncLoc.start,
                           vmctx := m.self, typeIndex := m.typeIndices[f]))
  }

  ghost predicate StaticsDone(done: map<Slot, Record>) {
    && StaticSlot(Magic) in done && done[StaticSlot(Magic)] == MagicRecord
    && StaticSlot(BuiltinFunctions) in done && done[StaticSlot(BuiltinFunctions)] == BuiltinsRecord
    && StaticSlot(TypeIds) in done && done[StaticSlot(TypeIds)] == TypeIdsRecord
  }

  lemma FuncRefAdded(m: Setup, o: Offsets, done: map<Slot, Record>, f: nat, r: Record)
    requires SetupOk(m, o) && f < |m.refs| && FuncRefsDone(m, o, done, f) && StaticsDone(done)
    requires m.refs[f].Some? && f < m.imported ==>
               r == FuncRefRecord(m.funcImports[f].arrayCall, m.funcImports[f].wasmCall, m.funcImports[f].vmctx, m.typeIndices[f])
    requires m.refs[f].Some? && m.imported <= f ==>
               r == FuncRefRecord(m.codeBase + m.infos[f - m.imported].hostToWasmTrampoline.value.start,
                                  m.codeBase + m.infos[f - m.imported].wasmFuncLoc.start, m.self, m.typeIndices[f])
    ensures
      var done' := if m.refs[f].Some? then done[FuncRefSlot(m.refs[f].value) := r] else done;
      FuncRefsDone(m, o, done', f + 1) && StaticsDone(done')
  {
    hide LayoutOk;
  }

  method InitializeFuncRefs(ctx: OwnedVMContext, o: Offsets, m: Setup, ghost done: map<Slot, Record>) returns (ghost done': map<Slot, Record>)
    requires SetupOk(m, o) && ctx.bytes.Length == o.size && AllHold(ctx.bytes[..], o, done) && StaticsDone(done)
    modifies ctx.bytes
    ensures AllHold(ctx.bytes[..], o, done') && StaticsDone(done') && FuncRefsDone(m, o, done', |m.refs|)
  {
    hide LayoutOk, AllHold, FuncRefsDone, StaticsDone;
    done' := done;
    NoFuncRefs(m, o, done);
    var f := 0;
    while f < |m.refs|
      invariant 0 <= f <= |m.refs| && ctx.bytes.Length == o.size && AllHold(ctx.bytes[..], o, done')
      invariant StaticsDone(done') && FuncRefsDone(m, o, done', f)
    {
      if m.refs[f].Some? {
        var s := FuncRefSlot(m.refs[f].value);
        assert ValidSlot(o, s);
        var r;
        if f < m.imported {
          var import_ := m.funcImports[f];
          r := FuncRefRecord(import_.arrayCall, import_.wasmCall, import_.vmctx, m.typeIndices[f]);
        } else {
          var info := m.infos[f - m.imported];
          r := FuncRefRecord(m.codeBase + info.hostToWasmTrampoline.value.start, m.codeBase + info.wasmFuncLoc.start, m.self,
                             m.typeIndices[f]);
        }
        ctx.WriteSlot(o, s, r, done');
        FuncRefAdded(m, o, done', f, r);
        done' := done'[s := r];
      } else {
        FuncRefAdded(m, o, done', f, MagicRecord);
      }
      f := f + 1;
    }
  }

  lemma NoFuncRefs(m: Setup, o: Offsets, done: map<Slot, Record>)
    requires SetupOk(m, o)
    ensures FuncRefsDone(m, o, done, 0)
  {
  }

  /** All groups from the second up to `n` are in their slots. */
  ghost predicate GroupsDone(m: Setup, done: map<Slot, Record>, n: nat)
    requires n <= 9
  {
    forall g, i :: 2 <= g < n && 0 <= i < |RecordsOf(m, g)| ==> SlotAt(g, i) in done && done[SlotAt(g, i)] == RecordsOf(m, g)[i]
  }

  lemma GroupAdded(m: Setup, o: Offsets, done: map<Slot, Record>, done': map<Slot, Record>, g: nat)
    requires SetupOk(m, o) && 2 <= g < 9 && StaticsDone(done) && FuncRefsDone(m, o, done, |m.refs|) && GroupsDone(m, done, g)
    requires Extended(done, done', g, RecordsOf(m, g), |RecordsOf(m, g)|)
    ensures StaticsDone(done') && FuncRefsDone(m, o, done', |m.refs|) && GroupsDone(m, done', g + 1)
  {
    hide LayoutOk, Numbered, RecordsOf, SlotAt;
    forall h, i | 2 <= h < g + 1 && 0 <= i < |RecordsOf(m, h)|
      ensures SlotAt(h, i) in done' && done'[SlotAt(h, i)] == RecordsOf(m, h)[i]
    {
      SlotAtIs(h, i);
    }
  }

  /** What is read back from an initialised context, slot by slot and field by field. */
  ghost predicate Initialised(bytes: seq<Cell>, o: Offsets, m: Setup)
    requires SetupOk(m, o)
  {
    && Holds(bytes, o, StaticSlot(Magic), MagicRecord) && Holds(bytes, o, StaticSlot(BuiltinFunctions), BuiltinsRecord)
    && Holds(bytes, o, StaticSlot(TypeIds), TypeIdsRecord)
    && (forall f :: 0 <= f < |m.refs| && m.refs[f].Some? && f < m.imported ==>
          Holds(bytes, o, FuncRefSlot(m.refs[f].value),
                FuncRefRecord(arrayCall := m.funcImports[f].arrayCall, wasmCall := m.funcImports[f].wasmCall,
                              vmctx := m.funcImports[f].vmctx, typeIndex := m.typeIndices[f])))
    && (forall f :: 0 <= f < |m.refs| && m.refs[f].Some? && m.imported <= f ==>
          Holds(bytes, o, FuncRefSlot(m.refs[f].value),
                FuncRefRecord(arrayCall := m.codeBase + m.infos[f - m.imported].hostToWasmTrampoline.value.start,
                              wasmCall := m.codeBase + m.infos[f - m.imported].wasmFuncLoc.start,
                              vmctx := m.self, typeIndex := m.typeIndices[f])))
    && (forall i :: 0 <= i < |m.funcImports| ==>
          Holds(bytes, o, FunctionImportSlot(i),
                FunctionImportRecord(wasmCall := m.funcImports[i].wasmCall, arrayCall := m.funcImports[i].arrayCall,
                                     vmctx := m.funcImports[i].vmctx)))
    && (forall i :: 0 <= i < |m.tableImports| ==> Holds(bytes, o, TableImportSlot(i), TableImportRecord(m.tableImports[i])))
    && (forall i :: 0 <= i < |m.memoryImports| ==> Holds(bytes, o, MemoryImportSlot(i), MemoryImportRecord(m.memoryImports[i])))
    && (forall i :: 0 <= i < |m.globalImports| ==> Holds(bytes, o, GlobalImportSlot(i), GlobalImportRecord(m.globalImports[i])))
    && (forall i :: 0 <= i < |m.tables| ==> Holds(bytes, o, TableSlot(i), TableRecord(m.tables[i])))
    && (forall i :: 0 <= i < |m.memories| ==> Holds(bytes, o, MemorySlot(i), MemoryRecord(m.memories[i])))
    && (forall i :: 0 <= i < |m.globals| ==> Holds(bytes, o, GlobalSlot(i), GlobalRecord(m.globals[i])))
  }

  /** A slot that has a width reads back as one record at most. */
  lemma HoldsOnce(bytes: seq<Cell>, o: Offsets, s: Slot, r: Record, r': Record)
    requires Holds(bytes, o, s, r) && Holds(bytes, o, s, r') && WidthOf(o, s) > 0
    ensures r == r'
  {
    hide OffsetOf, WidthOf;
    forall k | 0 <= k < WidthOf(o, s) ensures Part(r, k) == Part(r', k) {
      assert bytes[OffsetOf(o, s) + k] == Part(r, k);
    }
    assert Part(r, 0) == Part(r', 0);
  }

  lemma GroupHeld(bytes: seq<Cell>, o: Offsets, m: Setup, done: map<Slot, Record>, g: nat)
    requires AllHold(bytes, o, done) && GroupsDone(m, done, 9) && 2 <= g < 9
    ensures forall i :: 0 <= i < |RecordsOf(m, g)| ==> Holds(bytes, o, SlotAt(g, i), RecordsOf(m, g)[i])
  {
    hide RecordsOf, SlotAt, Holds;
    forall i | 0 <= i < |RecordsOf(m, g)| ensures Holds(bytes, o, SlotAt(g, i), RecordsOf(m, g)[i]) {
      assert SlotAt(g, i) in done && done[SlotAt(g, i)] == RecordsOf(m, g)[i];
    }
  }

  lemma GroupsHeld(bytes: seq<Cell>, o: Offsets, m: Setup, done: map<Slot, Record>)
    requires AllHold(bytes, o, done) && GroupsDone(m, done, 9)
    ensures forall i :: 0 <= i < |m.funcImports| ==>
              Holds(bytes, o, FunctionImportSlot(i),
                    FunctionImportRecord(m.funcImports[i].wasmCall, m.funcImports[i].arrayCall, m.funcImports[i].vmctx))
    ensures forall i :: 0 <= i < |m.tableImports| ==> Holds(bytes, o, TableImportSlot(i), TableImportRecord(m.tableImports[i]))
    ensures forall i :: 0 <= i < |m.memoryImports| ==> Holds(bytes, o, MemoryImportSlot(i), MemoryImportRecord(m.memoryImports[i]))
    ensures forall i :: 0 <= i < |m.globalImports| ==> Holds(bytes, o, GlobalImportSlot(i), GlobalImportRecord(m.globalImports[i]))
    ensures forall i :: 0 <= i < |m.tables| ==> Holds(bytes, o, TableSlot(i), TableRecord(m.tables[i]))
    ensures forall i :: 0 <= i < |m.memories| ==> Holds(bytes, o, MemorySlot(i), MemoryRecord(m.memories[i]))
    ensures forall i :: 0 <= i < |m.globals| ==> Holds(bytes, o, GlobalSlot(i), GlobalRecord(m.globals[i]))
  {
    hide Holds, AllHold, GroupsDone, FunctionImports, RecordSeq;
    GroupHeld(bytes, o, m, done, 2);
    assert forall i :: 0 <= i < |m.funcImports| ==> SlotAt(2, i) == FunctionImportSlot(i);
    GroupHeld(bytes, o, m, done, 3);
    assert forall i :: 0 <= i < |m.tableImports| ==> SlotAt(3, i) == TableImportSlot(i);
    GroupHeld(bytes, o, m, done, 4);
    assert forall i :: 0 <= i < |m.memoryImports| ==> SlotAt(4, i) == MemoryImportSlot(i);
    GroupHeld(bytes, o, m, done, 5);
    assert forall i :: 0 <= i < |m.globalImports| ==> SlotAt(5, i) == GlobalImportSlot(i);
    GroupHeld(bytes, o, m, done, 6);
    assert forall i :: 0 <= i < |m.tables| ==> SlotAt(6, i) == TableSlot(i);
    GroupHeld(bytes, o, m, done, 7);
    assert forall i :: 0 <= i < |m.memories| ==> SlotAt(7, i) == MemorySlot(i);
    GroupHeld(bytes, o, m, done, 8);
    assert forall i :: 0 <= i < |m.globals| ==> SlotAt(8, i) == GlobalSlot(i);
  }

  lemma ReadBack(bytes: seq<Cell>, o: Offsets, m: Setup, done: map<Slot, Record>)
    requires SetupOk(m, o) && AllHold(bytes, o, done) && StaticsDone(done) && FuncRefsDone(m, o, done, |m.refs|) && GroupsDone(m, done, 9)
    ensures Initialised(bytes, o, m)
  {
    hide LayoutOk, Numbered, Holds, GroupsDone;
    GroupsHeld(bytes, o, m, done);
    forall f | 0 <= f < |m.refs| && m.refs[f].Some?
      ensures FuncRefSlot(m.refs[f].value) in done && Holds(bytes, o, FuncRefSlot(m.refs[f].value), done[FuncRefSlot(m.refs[f].value)])
    {
      assert FuncRefSlot(m.refs[f].value) in done;
    }
  }

  /** Initialises a context: afterwards every slot reads back as the record meant for it. */
  method InitializeVmctx(o: Offsets, m: Setup) returns (ctx: OwnedVMContext)
    requires SetupOk(m, o)
    ensures fresh(ctx) && ctx.bytes.Length == o.size && Initialised(ctx.bytes[..], o, m)
  {
    hide LayoutOk, Numbered, Initialised, RecordsOf, FuncRefsDone, GroupsDone, StaticsDone, Extended, SetupOk;
    Ready(m, o);
    ctx := new OwnedVMContext(o.size);
    ghost var done: map<Slot, Record> := map[];
    ctx.WriteSlot(o, StaticSlot(Magic), MagicRecord, done);
    done := done[StaticSlot(Magic) := MagicRecord];
    ctx.WriteSlot(o, StaticSlot(BuiltinFunctions), BuiltinsRecord, done);
    done := done[StaticSlot(BuiltinFunctions) := BuiltinsRecord];
    ctx.WriteSlot(o, StaticSlot(TypeIds), TypeIdsRecord, done);
    done := done[StaticSlot(TypeIds) := TypeIdsRecord];
    assert StaticsDone(done) by { ThreeStatics(done); }
    hide AllHold;
    done := InitializeFuncRefs(ctx, o, m, done);
    NoGroups(m, done);
    var g := 2;
    while g < 9
      invariant 2 <= g <= 9 && fresh(ctx) && fresh(ctx.bytes) && ctx.bytes.Length == o.size && AllHold(ctx.bytes[..], o, done)
      invariant StaticsDone(done) && FuncRefsDone(m, o, done, |m.refs|) && GroupsDone(m, done, g)
    {
      RecordsCount(m, o, g);
      ghost var before := done;
      done := ctx.WriteGroup(o, g, RecordsOf(m, g), done);
      GroupAdded(m, o, before, done, g);
      g := g + 1;
    }
    ReadBack(ctx.bytes[..], o, m, done);
  }

  lemma Ready(m: Setup, o: Offsets)
    requires SetupOk(m, o)
    ensures LayoutOk(o)
  {
  }

  lemma ThreeStatics(done: map<Slot, Record>)
    requires StaticSlot(Magic) in done && done[StaticSlot(Magic)] == MagicRecord
    requires StaticSlot(BuiltinFunctions) in done && done[StaticSlot(BuiltinFunctions)] == BuiltinsRecord
    requires StaticSlot(TypeIds) in done && done[StaticSlot(TypeIds)] == TypeIdsRecord
    ensures StaticsDone(done)
  {
  }

  lemma NoGroups(m: Setup, done: map<Slot, Record>)
    ensures GroupsDone(m, done, 2)
  {
  }

  // ---------------------------------------------------------------- from linking to a running instance

  /** The functions that have a func-ref number are those compiled with a trampoline. */
  predicate SameEscapes(mi: ModuleInfo, refs: seq<Option<nat>>) {
    |refs| == |mi.escaping| && mi.imported <= |refs| && forall f :: 0 <= f < |refs| ==> (refs[f].Some? <==> mi.escaping[f])
  }

  /** The two offsets are those of the code compiled for defined function `d` and for its trampoline. */
  ghost predicate OwnCodeAt(u: Unlinked, locs: seq<FunctionLoc>, d: nat, wasm: nat, trampoline: nat)
    requires |locs| == |u.outputs|
  {
    && (exists i :: 0 <= i < |u.outputs| && u.outputs[i].key == KeyOf(WasmJob(d)) && wasm == locs[i].start)
    && (exists i :: 0 <= i < |u.outputs| && u.outputs[i].key == KeyOf(TrampolineJob(d)) && trampoline == locs[i].start)
  }

  /** The func-ref of defined function `d`, as read back, points to the code compiled for it and to its own instance. */
  ghost predicate PointsToOwnCode(bytes: seq<Cell>, o: Offsets, u: Unlinked, locs: seq<FunctionLoc>, m: Setup, d: nat)
    requires |locs| == |u.outputs| && m.imported + d < |m.refs| == |m.typeIndices| && m.refs[m.imported + d].Some?
  {
    exists wasm: nat, trampoline: nat ::
      && OwnCodeAt(u, locs, d, wasm, trampoline)
      && Holds(bytes, o, FuncRefSlot(m.refs[m.imported + d].value),
               FuncRefRecord(arrayCall := m.codeBase + trampoline, wasmCall := m.codeBase + wasm,
                             vmctx := m.self, typeIndex := m.typeIndices[m.imported + d]))
  }

  /** One import and one definition per counted slot. */
  predicate OnePerSlot(m: Setup, c: Counts) {
    && |m.funcImports| == m.imported == c.importedFuncs && |m.tableImports| == c.importedTables
    && |m.memoryImports| == c.importedMemories && |m.globalImports| == c.importedGlobals
    && |m.tables| == c.tables && |m.memories| == c.memories && |m.globals| == c.globals
  }

  /** What linking and numbering give is all that initialisation demands: in particular every trampoline it expects is there. */
  lemma SetupFromLink(mi: ModuleInfo, u: Unlinked, locs: seq<FunctionLoc>, m: Setup, o: Offsets)
    requires LayoutOk(o) && OnePerSlot(m, o.counts) && |m.typeIndices| == |m.refs| && m.imported == mi.imported
    requires SameEscapes(mi, m.refs) && Numbered(m.refs, o.counts.escapedFuncs)
    requires |locs| == |u.outputs| && |m.infos| == Defined(mi) && forall d :: 0 <= d < |m.infos| ==> InfoOk(mi, u, locs, d, m.infos[d])
    ensures SetupOk(m, o)
    ensures forall d :: 0 <= d < Defined(mi) && Escapes(mi, d) ==>
              && m.refs[m.imported + d].Some? && m.infos[d].hostToWasmTrampoline.Some?
              && OwnCodeAt(u, locs, d, m.infos[d].wasmFuncLoc.start, m.infos[d].hostToWasmTrampoline.value.start)
  {
    hide LayoutOk, Numbered, KeyOf, InfoOk, OwnCodeAt;
    forall f | m.imported <= f < |m.refs| && m.refs[f].Some? ensures m.infos[f - m.imported].hostToWasmTrampoline.Some? {
      InfoEscapes(mi, u, locs, f - m.imported, m.infos[f - m.imported]);
    }
    forall d | 0 <= d < Defined(mi) && Escapes(mi, d)
      ensures m.infos[d].hostToWasmTrampoline.Some?
      ensures OwnCodeAt(u, locs, d, m.infos[d].wasmFuncLoc.start, m.infos[d].hostToWasmTrampoline.value.start)
    {
      InfoPoints(mi, u, locs, d, m.infos[d]);
    }
  }

  lemma InfoEscapes(mi: ModuleInfo, u: Unlinked, locs: seq<FunctionLoc>, d: nat, info: FunctionInfo)
    requires |locs| == |u.outputs| && d < Defined(mi) && InfoOk(mi, u, locs, d, info)
    ensures info.hostToWasmTrampoline.Some? <==> Escapes(mi, d)
  {
    hide KeyOf;
  }

  lemma InfoPoints(mi: ModuleInfo, u: Unlinked, locs: seq<FunctionLoc>, d: nat, info: FunctionInfo)
    requires |locs| == |u.outputs| && d < Defined(mi) && Escapes(mi, d) && InfoOk(mi, u, locs, d, info)
    ensures info.hostToWasmTrampoline.Some?
    ensures OwnCodeAt(u, locs, d, info.wasmFuncLoc.start, info.hostToWasmTrampoline.value.start)
  {
    hide KeyOf;
    var i :| 0 <= i < |u.outputs| && u.outputs[i].key == KeyOf(WasmJob(d)) && info.wasmFuncLoc == locs[i];
    var j :| 0 <= j < |u.outputs| && u.outputs[j].key == KeyOf(TrampolineJob(d)) && info.hostToWasmTrampoline.value == locs[j];
  }

  lemma RefPoints(bytes: seq<Cell>, o: Offsets, u: Unlinked, locs: seq<FunctionLoc>, m: Setup, d: nat)
    requires SetupOk(m, o) && Initialised(bytes, o, m) && |locs| == |u.outputs| && m.imported + d < |m.refs|
    requires m.refs[m.imported + d].Some? && m.infos[d].hostToWasmTrampoline.Some?
    requires OwnCodeAt(u, locs, d, m.infos[d].wasmFuncLoc.start, m.infos[d].hostToWasmTrampoline.value.start)
    ensures PointsToOwnCode(bytes, o, u, locs, m, d)
  {
    hide LayoutOk, Numbered, Holds, OwnCodeAt;
    assert m.infos[m.imported + d - m.imported] == m.infos[d];
  }

  /** From compiled outputs and numbered functions to an initialised context: it is linked and laid out, every slot reads back as
      its record, and the func-ref of each escaping defined function points to the code compiled for it. */
  method Instantiate(mi: ModuleInfo, u: Unlinked, gaps: seq<nat>, table: FunctionTable, given: Setup, sizes: Sizes)
    returns (ctx: OwnedVMContext, ghost o: Offsets, ghost m: Setup, ghost locs: seq<FunctionLoc>)
    requires LinkReady(mi, u) && |gaps| == |u.outputs| && AllTrapsOk(CodesOf(u.outputs))
    requires forall i, j :: 0 <= i < |u.outputs| && 0 <= j < |u.outputs[i].code.relocs| ==> RelocOk(mi, u.outputs, u.outputs[i].code.relocs[j].target)
    requires table.Valid() && SameEscapes(mi, table.funcRefs) && given.refs == table.funcRefs && given.imported == mi.imported
    requires |given.typeIndices| == |given.refs| && |given.funcImports| == given.imported
    requires TotalSize(CountsOf(given, table.numEscaped), sizes) < U32
    ensures fresh(ctx) && m == given.(infos := m.infos) && SetupOk(m, o) && o.size == TotalSize(CountsOf(given, table.numEscaped), sizes)
    ensures ctx.bytes.Length == o.size && Initialised(ctx.bytes[..], o, m) && |locs| == |u.outputs|
    ensures forall d :: 0 <= d < Defined(mi) && Escapes(mi, d) ==>
              m.refs[m.imported + d].Some? && PointsToOwnCode(ctx.bytes[..], o, u, locs, m, d)
  {
    hide LinkReady, RelocOk, InfoOk, LayoutOk, Numbered, Initialised, TotalSize, PointsToOwnCode, OwnCodeAt;
    var starts, infos, _, _, _ := LinkAndFinish(mi, u, gaps);
    var offsets := ForModule(CountsOf(given, table.numEscaped), sizes);
    var setup := given.(infos := infos);
    SetupFromLink(mi, u, starts, setup, offsets);
    ctx := InitializeVmctx(offsets, setup);
    o, m, locs := offsets, setup, starts;
    forall d | 0 <= d < Defined(mi) && Escapes(mi, d) ensures PointsToOwnCode(ctx.bytes[..], o, u, locs, m, d) {
      RefPoints(ctx.bytes[..], o, u, locs, m, d);
    }
  }

  /** How many slots the layout has to provide. */
  function CountsOf(m: Setup, escaped: nat): Counts {
    Counts(escaped, m.imported, |m.tableImports|, |m.memoryImports|, |m.globalImports|, |m.tables|, |m.memories|, |m.globals|)
  }
}
