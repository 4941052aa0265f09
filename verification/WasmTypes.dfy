/** The Wasm type grammar of `src/translate/types.rs`, generic in the kind of type
    reference it contains, with the two traversals every registry operation is
    built from: `Trace*` lists the references of a type in visiting order and
    `Map*` rewrites each of them. */
module WasmTypes {

  datatype Option<+T> = None | Some(value: T)

  /** Where a type reference points: an engine-wide index, an index of the current
      module, or a position in the containing recursion group. */
  datatype TypeIndex = Shared(shared: nat) | Module(interned: nat) | RecGroup(relative: nat)

  datatype HeapKind<+I> =
    | Extern | NoExtern
    | Func | ConcreteFunc(func: I) | NoFunc
    | Any | Eq | I31
    | Array | ConcreteArray(arr: I)
    | Struct | ConcreteStruct(struct: I)
    | NoneRef
    | Exn | NoExn
    | Cont | NoCont

  datatype HeapType<+I> = HeapType(isShared: bool, kind: HeapKind<I>)

  datatype RefType<+I> = RefType(nullable: bool, heap: HeapType<I>)

  datatype ValType<+I> = I32 | I64 | F32 | F64 | V128 | Ref(ref: RefType<I>)

  datatype StorageType<+I> = I8 | I16 | Val(val: ValType<I>)

  datatype FieldType<+I> = FieldType(mutable: bool, element: StorageType<I>)

  datatype CompositeKind<+I> =
    | FuncType(params: seq<ValType<I>>, results: seq<ValType<I>>)
    | ArrayType(field: FieldType<I>)
    | StructType(fields: seq<FieldType<I>>)

  datatype CompositeType<+I> = CompositeType(inner: CompositeKind<I>, isShared: bool)

  datatype SubType<+I> = SubType(isFinal: bool, supertype: Option<I>, composite: CompositeType<I>)

  // ---------------------------------------------------------------- trace

  function TraceHeap<I>(h: HeapType<I>): seq<I> {
    match h.kind
    case ConcreteFunc(i) => [i]
    case ConcreteArray(i) => [i]
    case ConcreteStruct(i) => [i]
    case _ => []
  }

  function TraceVal<I>(v: ValType<I>): seq<I> {
    if v.Ref? then TraceHeap(v.ref.heap) else []
  }

  function TraceField<I>(f: FieldType<I>): seq<I> {
    if f.element.Val? then TraceVal(f.element.val) else []
  }

  function TraceVals<I>(vs: seq<ValType<I>>): seq<I> {
    if vs == [] then [] else TraceVal(vs[0]) + TraceVals(vs[1..])
  }

  function TraceFields<I>(fs: seq<FieldType<I>>): seq<I> {
    if fs == [] then [] else TraceField(fs[0]) + TraceFields(fs[1..])
  }

  function TraceComposite<I>(c: CompositeKind<I>): seq<I> {
    match c
    case FuncType(params, results) => TraceVals(params) + TraceVals(results)
    case ArrayType(field) => TraceField(field)
    case StructType(fields) => TraceFields(fields)
  }

  function TraceSuper<I>(s: Option<I>): seq<I> {
    match s
    case None => []
    case Some(i) => [i]
  }

  function TraceSub<I>(t: SubType<I>): seq<I> {
    TraceSuper(t.supertype) + TraceComposite(t.composite.inner)
  }

  function TraceGroup<I>(ts: seq<SubType<I>>): seq<I> {
    if ts == [] then [] else TraceSub(ts[0]) + TraceGroup(ts[1..])
  }

  // ---------------------------------------------------------------- trace_mut

  function MapHeap<I, J>(h: HeapType<I>, f: I -> J): HeapType<J> {
    HeapType(h.isShared,
             match h.kind
             case Extern => Extern
             case NoExtern => NoExtern
             case Func => Func
             case ConcreteFunc(i) => ConcreteFunc(f(i))
             case NoFunc => NoFunc
             case Any => Any
             case Eq => Eq
             case I31 => I31
             case Array => Array
             case ConcreteArray(i) => ConcreteArray(f(i))
             case Struct => Struct
             case ConcreteStruct(i) => ConcreteStruct(f(i))
             case NoneRef => NoneRef
             case Exn => Exn
             case NoExn => NoExn
             case Cont => Cont
             case NoCont => NoCont)
  }

  function MapVal<I, J>(v: ValType<I>, f: I -> J): ValType<J> {
    match v
    case I32 => I32
    case I64 => I64
    case F32 => F32
    case F64 => F64
    case V128 => V128
    case Ref(r) => Ref(RefType(r.nullable, MapHeap(r.heap, f)))
  }

  function MapField<I, J>(t: FieldType<I>, f: I -> J): FieldType<J> {
    FieldType(t.mutable,
              match t.element
              case I8 => I8
              case I16 => I16
              case Val(v) => Val(MapVal(v, f)))
  }

  function MapVals<I, J>(vs: seq<ValType<I>>, f: I -> J): seq<ValType<J>> {
    if vs == [] then [] else [MapVal(vs[0], f)] + MapVals(vs[1..], f)
  }

  function MapFields<I, J>(fs: seq<FieldType<I>>, f: I -> J): seq<FieldType<J>> {
    if fs == [] then [] else [MapField(fs[0], f)] + MapFields(fs[1..], f)
  }

  function MapComposite<I, J>(c: CompositeKind<I>, f: I -> J): CompositeKind<J> {
    match c
    case FuncType(params, results) => FuncType(MapVals(params, f), MapVals(results, f))
    case ArrayType(field) => ArrayType(MapField(field, f))
    case StructType(fields) => StructType(MapFields(fields, f))
  }

  function MapSuper<I, J>(s: Option<I>, f: I -> J): Option<J> {
    match s
    case None => None
    case Some(i) => Some(f(i))
  }

  function MapSub<I, J>(t: SubType<I>, f: I -> J): SubType<J> {
    SubType(t.isFinal, MapSuper(t.supertype, f),
            CompositeType(MapComposite(t.composite.inner, f), t.composite.isShared))
  }

  /** Rewrites every type of a group; element-wise, in order. */
  function MapGroup<I, J>(ts: seq<SubType<I>>, f: I -> J): (r: seq<SubType<J>>)
    ensures |r| == |ts|
    ensures forall k :: 0 <= k < |ts| ==> r[k] == MapSub(ts[k], f)
  {
    if ts == [] then [] else [MapSub(ts[0], f)] + MapGroup(ts[1..], f)
  }

  function Apply<I, J>(s: seq<I>, f: I -> J): (r: seq<J>)
    ensures |r| == |s|
    ensures forall k :: 0 <= k < |s| ==> r[k] == f(s[k])
  {
    seq(|s|, i requires 0 <= i < |s| => f(s[i]))
  }

  lemma ApplyConcat<I, J>(s: seq<I>, t: seq<I>, f: I -> J)
    ensures Apply(s + t, f) == Apply(s, f) + Apply(t, f)
  {
  }

  // ------------------------------------------------- tracing a rewritten type

  lemma {:induction false} TraceMapVals<I, J>(vs: seq<ValType<I>>, f: I -> J)
    ensures TraceVals(MapVals(vs, f)) == Apply(TraceVals(vs), f)
  {
    if vs != [] {
      TraceMapVals(vs[1..], f);
      assert MapVals(vs, f)[1..] == MapVals(vs[1..], f);
      ApplyConcat(TraceVal(vs[0]), TraceVals(vs[1..]), f);
      assert TraceVal(MapVal(vs[0], f)) == Apply(TraceVal(vs[0]), f);
    }
  }

  lemma {:induction false} TraceMapFields<I, J>(fs: seq<FieldType<I>>, f: I -> J)
    ensures TraceFields(MapFields(fs, f)) == Apply(TraceFields(fs), f)
  {
    if fs != [] {
      TraceMapFields(fs[1..], f);
      assert MapFields(fs, f)[1..] == MapFields(fs[1..], f);
      ApplyConcat(TraceField(fs[0]), TraceFields(fs[1..]), f);
      assert TraceField(MapField(fs[0], f)) == Apply(TraceField(fs[0]), f);
    }
  }

  lemma TraceMapComposite<I, J>(c: CompositeKind<I>, f: I -> J)
    ensures TraceComposite(MapComposite(c, f)) == Apply(TraceComposite(c), f)
  {
    match c
    case FuncType(params, results) =>
      TraceMapVals(params, f);
      TraceMapVals(results, f);
      ApplyConcat(TraceVals(params), TraceVals(results), f);
    case ArrayType(field) =>
      assert TraceField(MapField(field, f)) == Apply(TraceField(field), f);
    case StructType(fields) =>
      TraceMapFields(fields, f);
  }

  lemma TraceMapSub<I, J>(t: SubType<I>, f: I -> J)
    ensures TraceSub(MapSub(t, f)) == Apply(TraceSub(t), f)
  {
    TraceMapComposite(t.composite.inner, f);
    ApplyConcat(TraceSuper(t.supertype), TraceComposite(t.composite.inner), f);
    assert TraceSuper(MapSuper(t.supertype, f)) == Apply(TraceSuper(t.supertype), f);
  }

  /** Rewriting a group rewrites its trace, edge by edge. */
  lemma {:induction false} TraceMapGroup<I, J>(ts: seq<SubType<I>>, f: I -> J)
    ensures TraceGroup(MapGroup(ts, f)) == Apply(TraceGroup(ts), f)
  {
    if ts != [] {
      TraceMapGroup(ts[1..], f);
      assert MapGroup(ts, f)[1..] == MapGroup(ts[1..], f);
      TraceMapSub(ts[0], f);
      ApplyConcat(TraceSub(ts[0]), TraceGroup(ts[1..]), f);
    }
  }

  lemma {:induction false} TraceSubInGroup<I>(ts: seq<SubType<I>>, k: nat)
    requires k < |ts|
    ensures forall x :: x in TraceSub(ts[k]) ==> x in TraceGroup(ts)
  {
    if k > 0 {
      TraceSubInGroup(ts[1..], k - 1);
    }
  }

  // ------------------------------------------- two rewrites are one rewrite

  ghost predicate Composes<I, J, K>(s: seq<I>, f: I -> J, g: J -> K, h: I -> K) {
    forall x :: x in s ==> g(f(x)) == h(x)
  }

  lemma MapMapVal<I, J, K>(v: ValType<I>, f: I -> J, g: J -> K, h: I -> K)
    requires Composes(TraceVal(v), f, g, h)
    ensures MapVal(MapVal(v, f), g) == MapVal(v, h)
  {
  }

  lemma MapMapField<I, J, K>(t: FieldType<I>, f: I -> J, g: J -> K, h: I -> K)
    requires Composes(TraceField(t), f, g, h)
    ensures MapField(MapField(t, f), g) == MapField(t, h)
  {
    if t.element.Val? {
      MapMapVal(t.element.val, f, g, h);
    }
  }

  lemma {:induction false} MapMapVals<I, J, K>(vs: seq<ValType<I>>, f: I -> J, g: J -> K, h: I -> K)
    requires Composes(TraceVals(vs), f, g, h)
    ensures MapVals(MapVals(vs, f), g) == MapVals(vs, h)
  {
    hide MapVal;
    if vs != [] {
      MapMapVals(vs[1..], f, g, h);
      assert MapVals(vs, f)[1..] == MapVals(vs[1..], f);
      MapMapVal(vs[0], f, g, h);
    }
  }

  lemma {:induction false} MapMapFields<I, J, K>(fs: seq<FieldType<I>>, f: I -> J, g: J -> K, h: I -> K)
    requires Composes(TraceFields(fs), f, g, h)
    ensures MapFields(MapFields(fs, f), g) == MapFields(fs, h)
  {
    hide MapField, TraceField;
    if fs != [] {
      MapMapFields(fs[1..], f, g, h);
      assert MapFields(fs, f)[1..] == MapFields(fs[1..], f);
      MapMapField(fs[0], f, g, h);
    }
  }

  lemma MapMapComposite<I, J, K>(c: CompositeKind<I>, f: I -> J, g: J -> K, h: I -> K)
    requires Composes(TraceComposite(c), f, g, h)
    ensures MapComposite(MapComposite(c, f), g) == MapComposite(c, h)
  {
    hide MapVals, MapFields, MapField, TraceVals, TraceFields, TraceField;
    match c
    case FuncType(params, results) =>
      MapMapVals(params, f, g, h);
      MapMapVals(results, f, g, h);
    case ArrayType(field) =>
      MapMapField(field, f, g, h);
    case StructType(fields) =>
      MapMapFields(fields, f, g, h);
  }

  lemma MapMapSub<I, J, K>(t: SubType<I>, f: I -> J, g: J -> K, h: I -> K)
    requires Composes(TraceSub(t), f, g, h)
    ensures MapSub(MapSub(t, f), g) == MapSub(t, h)
  {
    hide MapComposite, TraceComposite;
    MapMapComposite(t.composite.inner, f, g, h);
    if t.supertype.Some? {
      assert t.supertype.value in TraceSub(t);
    }
  }

  lemma {:induction false} MapMapGroup<I, J, K>(ts: seq<SubType<I>>, f: I -> J, g: J -> K, h: I -> K)
    requires Composes(TraceGroup(ts), f, g, h)
    ensures MapGroup(MapGroup(ts, f), g) == MapGroup(ts, h)
  {
    forall k | 0 <= k < |ts|
      ensures MapGroup(MapGroup(ts, f), g)[k] == MapGroup(ts, h)[k]
    {
      TraceSubInGroup(ts, k);
      MapMapSub(ts[k], f, g, h);
    }
  }

  /** A rewrite is determined by what it does to the references that occur. */
  lemma MapGroupCongruent<I, J>(ts: seq<SubType<I>>, f: I -> J, g: I -> J)
    requires forall x :: x in TraceGroup(ts) ==> f(x) == g(x)
    ensures MapGroup(ts, f) == MapGroup(ts, g)
  {
    var id := (x: I) => x;
    MapMapGroup(ts, id, f, f);
    MapMapGroup(ts, id, f, g);
  }

  // ------------------------------------------- an injective rewrite is injective

  ghost predicate Separates<I, J>(f: I -> J, s: seq<I>, t: seq<I>) {
    forall x, y :: x in s && y in t && f(x) == f(y) ==> x == y
  }

  lemma MapValInjective<I, J>(v: ValType<I>, w: ValType<I>, f: I -> J)
    requires MapVal(v, f) == MapVal(w, f)
    requires Separates(f, TraceVal(v), TraceVal(w))
    ensures v == w
  {
    if v.Ref? {
      match v.ref.heap.kind
      case ConcreteFunc(i) => assert i in TraceVal(v) && w.ref.heap.kind.func in TraceVal(w);
      case ConcreteArray(i) => assert i in TraceVal(v) && w.ref.heap.kind.arr in TraceVal(w);
      case ConcreteStruct(i) => assert i in TraceVal(v) && w.ref.heap.kind.struct in TraceVal(w);
      case _ => assert v.ref.heap.kind == w.ref.heap.kind;
    }
  }

  lemma MapFieldInjective<I, J>(v: FieldType<I>, w: FieldType<I>, f: I -> J)
    requires MapField(v, f) == MapField(w, f)
    requires Separates(f, TraceField(v), TraceField(w))
    ensures v == w
  {
    if v.element.Val? {
      MapValInjective(v.element.val, w.element.val, f);
    }
  }

  lemma {:induction false} MapValsInjective<I, J>(vs: seq<ValType<I>>, ws: seq<ValType<I>>, f: I -> J)
    requires MapVals(vs, f) == MapVals(ws, f)
    requires Separates(f, TraceVals(vs), TraceVals(ws))
    ensures vs == ws
  {
    if vs != [] && ws != [] {
      assert MapVals(vs, f)[0] == MapVals(ws, f)[0];
      assert MapVals(vs, f)[1..] == MapVals(vs[1..], f);
      assert MapVals(ws, f)[1..] == MapVals(ws[1..], f);
      MapValsInjective(vs[1..], ws[1..], f);
      MapValInjective(vs[0], ws[0], f);
      assert vs == [vs[0]] + vs[1..] && ws == [ws[0]] + ws[1..];
    }
  }

  lemma {:induction false} MapFieldsInjective<I, J>(vs: seq<FieldType<I>>, ws: seq<FieldType<I>>, f: I -> J)
    requires MapFields(vs, f) == MapFields(ws, f)
    requires Separates(f, TraceFields(vs), TraceFields(ws))
    ensures vs == ws
  {
    if vs != [] && ws != [] {
      assert MapFields(vs, f)[0] == MapFields(ws, f)[0];
      assert MapFields(vs, f)[1..] == MapFields(vs[1..], f);
      assert MapFields(ws, f)[1..] == MapFields(ws[1..], f);
      MapFieldsInjective(vs[1..], ws[1..], f);
      MapFieldInjective(vs[0], ws[0], f);
      assert vs == [vs[0]] + vs[1..] && ws == [ws[0]] + ws[1..];
    }
  }

  lemma MapCompositeInjective<I, J>(c: CompositeKind<I>, d: CompositeKind<I>, f: I -> J)
    requires MapComposite(c, f) == MapComposite(d, f)
    requires Separates(f, TraceComposite(c), TraceComposite(d))
    ensures c == d
  {
    match c
    case FuncType(params, results) =>
      MapValsInjective(params, d.params, f);
      MapValsInjective(results, d.results, f);
    case ArrayType(field) =>
      MapFieldInjective(field, d.field, f);
    case StructType(fields) =>
      MapFieldsInjective(fields, d.fields, f);
  }

  lemma MapSubInjective<I, J>(t: SubType<I>, u: SubType<I>, f: I -> J)
    requires MapSub(t, f) == MapSub(u, f)
    requires Separates(f, TraceSub(t), TraceSub(u))
    ensures t == u
  {
    MapCompositeInjective(t.composite.inner, u.composite.inner, f);
    if t.supertype.Some? {
      assert t.supertype.value in TraceSub(t) && u.supertype.value in TraceSub(u);
    }
  }

  /** Two groups with the same image under a rewrite that tells their references apart are equal. */
  lemma MapGroupInjective<I, J>(ts: seq<SubType<I>>, us: seq<SubType<I>>, f: I -> J)
    requires MapGroup(ts, f) == MapGroup(us, f)
    requires Separates(f, TraceGroup(ts), TraceGroup(us))
    ensures ts == us
  {
    forall k | 0 <= k < |ts| ensures ts[k] == us[k] {
      TraceSubInGroup(ts, k);
      TraceSubInGroup(us, k);
      assert MapGroup(ts, f)[k] == MapGroup(us, f)[k];
      MapSubInjective(ts[k], us[k], f);
    }
  }
}
