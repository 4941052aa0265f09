/** The layout of a `VMContext` (`src/runtime/vmoffsets.rs`) and its initialisation
    (`src/runtime/instance.rs`): slots do not overlap, and after initialisation each holds its record. */
module VmContextLayout {

  /** How many slots of each kind a module has. */
  datatype Counts = Counts(escapedFuncs: nat, importedFuncs: nat, importedTables: nat, importedMemories: nat, importedGlobals: nat,
                           tables: nat, memories: nat, globals: nat)

  /** The sizes of the records, in bytes. */
  datatype Sizes = Sizes(ptr: nat, funcRef: nat, functionImport: nat, tableImport: nat, memoryImport: nat, globalImport: nat,
                         table: nat, memory: nat, global: nat)

  datatype Offsets = Offsets(counts: Counts, sizes: Sizes, funcRefs: nat, importedFunctions: nat, importedTables: nat,
                             importedMemories: nat, importedGlobals: nat, tables: nat, memories: nat, globals: nat, size: nat)

  datatype Static = Magic | BuiltinFunctions | TypeIds | StackLimit | LastWasmExitFp | LastWasmExitPc | LastWasmEntryFp

  datatype Slot =
    | StaticSlot(field: Static)
    | FuncRefSlot(i: nat)
    | FunctionImportSlot(i: nat)
    | TableImportSlot(i: nat)
    | MemoryImportSlot(i: nat)
    | GlobalImportSlot(i: nat)
    | TableSlot(i: nat)
    | MemorySlot(i: nat)
    | GlobalSlot(i: nat)

  const U32: nat := 0x1_0000_0000

  // ---------------------------------------------------------------- computing the layout

  function StaticNumber(f: Static): nat {
    match f
    case Magic => 0
    case BuiltinFunctions => 1
    case TypeIds => 2
    case StackLimit => 3
    case LastWasmExitFp => 4
    case LastWasmExitPc => 5
    case LastWasmEntryFp => 6
  }

  /** The end of the statically known part. */
  function StaticSize(s: Sizes): nat {
    7 * s.ptr
  }

  function Bytes(width: nat, count: nat): nat {
    width * count
  }

  /** All slots together. */
  function TotalSize(c: Counts, s: Sizes): nat {
    StaticSize(s) + Bytes(s.funcRef, c.escapedFuncs) + Bytes(s.functionImport, c.importedFuncs) + Bytes(s.tableImport, c.importedTables)
    + Bytes(s.memoryImport, c.importedMemories) + Bytes(s.globalImport, c.importedGlobals) + Bytes(s.table, c.tables) + Bytes(s.memory, c.memories)
    + Bytes(s.global, c.globals)
  }

  /** The groups of slots follow each other without gaps. */
  predicate LayoutOk(o: Offsets) {
    && o.funcRefs == StaticSize(o.sizes)
    && o.importedFunctions == o.funcRefs + Bytes(o.sizes.funcRef, o.counts.escapedFuncs)
    && o.importedTables == o.importedFunctions + Bytes(o.sizes.functionImport, o.counts.importedFuncs)
    && o.importedMemories == o.importedTables + Bytes(o.sizes.tableImport, o.counts.importedTables)
    && o.importedGlobals == o.importedMemories + Bytes(o.sizes.memoryImport, o.counts.importedMemories)
    && o.tables == o.importedGlobals + Bytes(o.sizes.globalImport, o.counts.importedGlobals)
    && o.memories == o.tables + Bytes(o.sizes.table, o.counts.tables)
    && o.globals == o.memories + Bytes(o.sizes.memory, o.counts.memories)
    && o.size == o.globals + Bytes(o.sizes.global, o.counts.globals)
  }

  /** Takes the next `n` bytes; the running offset must stay within 32 bits. */
  method MemberOffset(offset: nat, n: nat) returns (at: nat, offset': nat)
    requires offset + n < U32
    ensures at == offset && offset' == offset + n
  {
    at := offset;
    offset' := offset + n;
  }

  method ForModule(c: Counts, s: Sizes) returns (o: Offsets)
    requires TotalSize(c, s) < U32
    ensures o.counts == c && o.sizes == s && LayoutOk(o) && o.size == TotalSize(c, s)
  {
    var offset := StaticSize(s);
    var funcRefs, importedFunctions, importedTables, importedMemories: nat;
    var importedGlobals, tables, memories, globals: nat;
    funcRefs, offset := MemberOffset(offset, Bytes(s.funcRef, c.escapedFuncs));
    importedFunctions, offset := MemberOffset(offset, Bytes(s.functionImport, c.importedFuncs));
    importedTables, offset := MemberOffset(offset, Bytes(s.tableImport, c.importedTables));
    importedMemories, offset := MemberOffset(offset, Bytes(s.memoryImport, c.importedMemories));
    importedGlobals, offset := MemberOffset(offset, Bytes(s.globalImport, c.importedGlobals));
    tables, offset := MemberOffset(offset, Bytes(s.table, c.tables));
    memories, offset := MemberOffset(offset, Bytes(s.memory, c.memories));
    globals, offset := MemberOffset(offset, Bytes(s.global, c.globals));
    o := Offsets(c, s, funcRefs, importedFunctions, importedTables, importedMemories, importedGlobals, tables, memories, globals, offset);
  }

  // ---------------------------------------------------------------- slots

  /** A group of slots: where it begins, how many slots it has, how large they are. */
  datatype Group = Group(begin: nat, count: nat, width: nat)

  function EndOf(g: Group): nat {
    g.begin + Bytes(g.width, g.count)
  }

  /** The groups in order. */
  function Groups(o: Offsets): (r: seq<Group>)
    ensures |r| == 9
  {
    [Group(0, 7, o.sizes.ptr),
     Group(o.funcRefs, o.counts.escapedFuncs, o.sizes.funcRef),
     Group(o.importedFunctions, o.counts.importedFuncs, o.sizes.functionImport),
     Group(o.importedTables, o.counts.importedTables, o.sizes.tableImport),
     Group(o.importedMemories, o.counts.importedMemories, o.sizes.memoryImport),
     Group(o.importedGlobals, o.counts.importedGlobals, o.sizes.globalImport),
     Group(o.tables, o.counts.tables, o.sizes.table),
     Group(o.memories, o.counts.memories, o.sizes.memory),
     Group(o.globals, o.counts.globals, o.sizes.global)]
  }

  function GroupNumber(s: Slot): (k: nat)
    ensures k < 9
  {
    match s
    case StaticSlot(_) => 0
    case FuncRefSlot(_) => 1
    case FunctionImportSlot(_) => 2
    case TableImportSlot(_) => 3
    case MemoryImportSlot(_) => 4
    case GlobalImportSlot(_) => 5
    case TableSlot(_) => 6
    case MemorySlot(_) => 7
    case GlobalSlot(_) => 8
  }

  function IndexIn(s: Slot): nat {
    match s
    case StaticSlot(f) => StaticNumber(f)
    case FuncRefSlot(i) => i
    case FunctionImportSlot(i) => i
    case TableImportSlot(i) => i
    case MemoryImportSlot(i) => i
    case GlobalImportSlot(i) => i
    case TableSlot(i) => i
    case MemorySlot(i) => i
    case GlobalSlot(i) => i
  }

  function GroupOf(o: Offsets, s: Slot): Group {
    Groups(o)[GroupNumber(s)]
  }

  predicate ValidSlot(o: Offsets, s: Slot) {
    IndexIn(s) < GroupOf(o, s).count
  }

  /** What the slot accessors compute. */
  function OffsetOf(o: Offsets, s: Slot): nat {
    GroupOf(o, s).begin + Bytes(GroupOf(o, s).width, IndexIn(s))
  }

  function WidthOf(o: Offsets, s: Slot): nat {
    GroupOf(o, s).width
  }

  lemma InGroup(width: nat, i: nat, j: nat)
    requires i < j
    ensures Bytes(width, i) + width <= Bytes(width, j)
  {
    assert width * j == width * i + width + width * (j - i - 1);
  }

  lemma GroupsChained(o: Offsets, k: nat)
    requires LayoutOk(o) && k < 9
    ensures EndOf(Groups(o)[k]) == if k < 8 then Groups(o)[k + 1].begin else o.size
  {
    assert Bytes(o.sizes.ptr, 7) == StaticSize(o.sizes);
    hide Bytes;
    assert k in {0, 1, 2, 3, 4, 5, 6, 7, 8};
  }

  lemma {:induction false} GroupsFollow(o: Offsets, k: nat, l: nat)
    requires LayoutOk(o) && k < l <= 9
    ensures EndOf(Groups(o)[k]) <= if l < 9 then Groups(o)[l].begin else o.size
    decreases l - k
  {
    hide LayoutOk, Groups, Bytes;
    GroupsChained(o, k);
    if k + 1 < l {
      GroupsFollow(o, k + 1, l);
    }
  }

  /** A slot lies within its group. */
  lemma SlotInGroup(o: Offsets, s: Slot)
    requires ValidSlot(o, s)
    ensures GroupOf(o, s).begin <= OffsetOf(o, s) && OffsetOf(o, s) + WidthOf(o, s) <= EndOf(GroupOf(o, s))
  {
    hide Groups, Bytes, GroupNumber, IndexIn;
    InGroup(WidthOf(o, s), IndexIn(s), GroupOf(o, s).count);
  }

  lemma SlotsApartInGroup(o: Offsets, s: Slot, t: Slot)
    requires GroupNumber(s) == GroupNumber(t) && IndexIn(s) < IndexIn(t)
    ensures OffsetOf(o, s) + WidthOf(o, s) <= OffsetOf(o, t)
  {
    hide Groups, Bytes, GroupNumber, IndexIn;
    InGroup(WidthOf(o, s), IndexIn(s), IndexIn(t));
  }

  /** Every slot is inside the context, and different slots do not overlap. */
  lemma SlotsApart(o: Offsets, s: Slot, t: Slot)
    requires LayoutOk(o) && ValidSlot(o, s) && ValidSlot(o, t)
    ensures OffsetOf(o, s) + WidthOf(o, s) <= o.size
    ensures s != t ==> OffsetOf(o, s) + WidthOf(o, s) <= OffsetOf(o, t) || OffsetOf(o, t) + WidthOf(o, t) <= OffsetOf(o, s)
  {
    hide LayoutOk, Groups, EndOf, GroupNumber, IndexIn, OffsetOf, WidthOf;
    var k, l := GroupNumber(s), GroupNumber(t);
    SlotInGroup(o, s);
    SlotInGroup(o, t);
    GroupsFollow(o, k, 9);
    if k < l {
      GroupsFollow(o, k, l);
    } else if l < k {
      GroupsFollow(o, l, k);
    } else if IndexIn(s) < IndexIn(t) {
      SlotsApartInGroup(o, s, t);
    } else if IndexIn(t) < IndexIn(s) {
      SlotsApartInGroup(o, t, s);
    } else {
      SameGroup(s, t);
    }
  }

  lemma SameGroup(s: Slot, t: Slot)
    requires GroupNumber(s) == GroupNumber(t) && IndexIn(s) == IndexIn(t)
    ensures s == t
  {
  }

  /** Where each accessor finds its slot: its group's begin plus as many records as come before. */
  lemma SlotOffsets(o: Offsets, i: nat)
    ensures OffsetOf(o, FuncRefSlot(i)) == o.funcRefs + i * o.sizes.funcRef
    ensures OffsetOf(o, FunctionImportSlot(i)) == o.importedFunctions + i * o.sizes.functionImport
    ensures OffsetOf(o, TableImportSlot(i)) == o.importedTables + i * o.sizes.tableImport
    ensures OffsetOf(o, MemoryImportSlot(i)) == o.importedMemories + i * o.sizes.memoryImport
    ensures OffsetOf(o, GlobalImportSlot(i)) == o.importedGlobals + i * o.sizes.globalImport
    ensures OffsetOf(o, TableSlot(i)) == o.tables + i * o.sizes.table
    ensures OffsetOf(o, MemorySlot(i)) == o.memories + i * o.sizes.memory
    ensures OffsetOf(o, GlobalSlot(i)) == o.globals + i * o.sizes.global
  {
    hide Bytes;
    forall width: nat ensures Bytes(width, i) == i * width {
      BytesOf(width, i);
    }
  }

  /** The static fields follow each other, one pointer apart, and the func-refs come right after them. */
  lemma StaticOffsets(o: Offsets)
    requires LayoutOk(o)
    ensures OffsetOf(o, StaticSlot(Magic)) == 0
    ensures OffsetOf(o, StaticSlot(BuiltinFunctions)) == OffsetOf(o, StaticSlot(Magic)) + o.sizes.ptr
    ensures OffsetOf(o, StaticSlot(TypeIds)) == OffsetOf(o, StaticSlot(BuiltinFunctions)) + o.sizes.ptr
    ensures OffsetOf(o, StaticSlot(StackLimit)) == OffsetOf(o, StaticSlot(TypeIds)) + o.sizes.ptr
    ensures OffsetOf(o, StaticSlot(LastWasmExitFp)) == OffsetOf(o, StaticSlot(StackLimit)) + o.sizes.ptr
    ensures OffsetOf(o, StaticSlot(LastWasmExitPc)) == OffsetOf(o, StaticSlot(LastWasmExitFp)) + o.sizes.ptr
    ensures OffsetOf(o, StaticSlot(LastWasmEntryFp)) == OffsetOf(o, StaticSlot(LastWasmExitPc)) + o.sizes.ptr
    ensures o.funcRefs == OffsetOf(o, StaticSlot(LastWasmEntryFp)) + o.sizes.ptr
  {
    hide Bytes;
    forall k: nat ensures Bytes(o.sizes.ptr, k) == k * o.sizes.ptr {
      BytesOf(o.sizes.ptr, k);
    }
  }

  lemma BytesOf(width: nat, count: nat)
    ensures Bytes(width, count) == count * width
  {
  }
}
