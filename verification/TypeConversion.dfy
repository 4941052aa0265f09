/** Conversion of validated types to the crate's own (`src/translate/type_convert.rs`). A concrete heap
    type is looked up to tell functions, arrays and structs apart; a type that is reserved but not
    yet defined hits a `todo!()`, which is `Panic` here. */
module TypeConversion {
  import opened WasmTypes
  import opened Cfg

  /** A reference of a validated type. Canonicalised types refer to each other by `Id`. */
  datatype SrcIndex = ModuleIndex(index: nat) | Id(id: nat) | GroupIndex(pos: nat)

  datatype AbstractHeap =
    | AFunc | AExtern | AAny | ANone | ANoExtern | ANoFunc | AEq | AStruct | AArray | AI31 | AExn | ANoExn | ACont | ANoCont

  datatype SrcHeap = Concrete(ref: SrcIndex) | Abstract(isShared: bool, kind: AbstractHeap)

  datatype SrcVal = SI32 | SI64 | SF32 | SF64 | SV128 | SRef(nullable: bool, heap: SrcHeap)

  datatype SrcStorage = SI8 | SI16 | SVal(val: SrcVal)

  datatype SrcField = SrcField(mutable: bool, element: SrcStorage)

  datatype SrcComposite =
    | SFunc(params: seq<SrcVal>, results: seq<SrcVal>)
    | SArray(field: SrcField)
    | SStruct(fields: seq<SrcField>)
    | SCont

  datatype SrcSub = SrcSub(isFinal: bool, supertype: Option<SrcIndex>, inner: SrcComposite, isShared: bool)

  /** What references are looked up in: the types defined so far, the index reserved for
      each validated type, and the module's type index space. */
  datatype Context = Context(wasmTypes: seq<SubType<TypeIndex>>, seen: map<nat, nat>, moduleTypes: seq<nat>)

  // ---------------------------------------------------------------- lookup

  function LookupTypeIndex(c: Context, x: SrcIndex): Checked<nat> {
    match x
    case ModuleIndex(i) => if i < |c.moduleTypes| then Ok(c.moduleTypes[i]) else Panic
    case Id(id) => if id in c.seen then Ok(c.seen[id]) else Panic
    case GroupIndex(_) => Panic
  }

  function ConcreteKind(inner: CompositeKind<TypeIndex>, i: nat): HeapKind<TypeIndex> {
    match inner
    case FuncType(_, _) => ConcreteFunc(Module(i))
    case ArrayType(_) => ConcreteArray(Module(i))
    case StructType(_) => ConcreteStruct(Module(i))
  }

  function LookupHeapType(c: Context, x: SrcIndex): Checked<HeapType<TypeIndex>> {
    var i :- LookupTypeIndex(c, x);
    if i < |c.wasmTypes|
    then Ok(HeapType(c.wasmTypes[i].composite.isShared, ConcreteKind(c.wasmTypes[i].composite.inner, i)))
    else Panic
  }

  // ---------------------------------------------------------------- conversion

  function ConvertAbstract(k: AbstractHeap): HeapKind<TypeIndex> {
    match k
    case AFunc => HeapKind.Func
    case AExtern => Extern
    case AAny => Any
    case ANone => NoneRef
    case ANoExtern => NoExtern
    case ANoFunc => NoFunc
    case AEq => Eq
    case AStruct => Struct
    case AArray => Array
    case AI31 => I31
    case AExn => Exn
    case ANoExn => NoExn
    case ACont => Cont
    case ANoCont => NoCont
  }

  function ConvertHeap(c: Context, h: SrcHeap): Checked<HeapType<TypeIndex>> {
    match h
    case Concrete(x) => LookupHeapType(c, x)
    case Abstract(isShared, k) => Ok(HeapType(isShared, ConvertAbstract(k)))
  }

  function ConvertVal(c: Context, v: SrcVal): Checked<ValType<TypeIndex>> {
    match v
    case SI32 => Ok(I32)
    case SI64 => Ok(I64)
    case SF32 => Ok(F32)
    case SF64 => Ok(F64)
    case SV128 => Ok(V128)
    case SRef(nullable, h) => (var heap :- ConvertHeap(c, h); Ok(Ref(RefType(nullable, heap))))
  }

  function ConvertVals(c: Context, vs: seq<SrcVal>): Checked<seq<ValType<TypeIndex>>> {
    if vs == [] then Ok([]) else
      var v :- ConvertVal(c, vs[0]);
      var rest :- ConvertVals(c, vs[1..]);
      Ok([v] + rest)
  }

  function ConvertField(c: Context, f: SrcField): Checked<FieldType<TypeIndex>> {
    match f.element
    case SI8 => Ok(FieldType(f.mutable, I8))
    case SI16 => Ok(FieldType(f.mutable, I16))
    case SVal(s) => (var v :- ConvertVal(c, s); Ok(FieldType(f.mutable, Val(v))))
  }

  function ConvertFields(c: Context, fs: seq<SrcField>): Checked<seq<FieldType<TypeIndex>>> {
    if fs == [] then Ok([]) else
      var f :- ConvertField(c, fs[0]);
      var rest :- ConvertFields(c, fs[1..]);
      Ok([f] + rest)
  }

  function ConvertComposite(c: Context, s: SrcComposite): Checked<CompositeKind<TypeIndex>> {
    match s
    case SFunc(ps, rs) => (var params :- ConvertVals(c, ps); var results :- ConvertVals(c, rs); Ok(FuncType(params, results)))
    case SArray(f) => (var field :- ConvertField(c, f); Ok(ArrayType(field)))
    case SStruct(fs) => (var fields :- ConvertFields(c, fs); Ok(StructType(fields)))
    case SCont => Panic
  }

  function ConvertSuper(c: Context, s: Option<SrcIndex>): Checked<Option<TypeIndex>> {
    match s
    case None => Ok(None)
    case Some(x) => (var i :- LookupTypeIndex(c, x); Ok(Some(Module(i))))
  }

  function ConvertSub(c: Context, s: SrcSub): Checked<SubType<TypeIndex>> {
    var super :- ConvertSuper(c, s.supertype);
    var inner :- ConvertComposite(c, s.inner);
    Ok(SubType(s.isFinal, super, CompositeType(inner, s.isShared)))
  }

  // ---------------------------------------------------------------- references

  function ValRefs(v: SrcVal): seq<SrcIndex> {
    if v.SRef? && v.heap.Concrete? then [v.heap.ref] else []
  }

  function ValsRefs(vs: seq<SrcVal>): seq<SrcIndex> {
    if vs == [] then [] else ValRefs(vs[0]) + ValsRefs(vs[1..])
  }

  function FieldRefs(f: SrcField): seq<SrcIndex> {
    if f.element.SVal? then ValRefs(f.element.val) else []
  }

  function FieldsRefs(fs: seq<SrcField>): seq<SrcIndex> {
    if fs == [] then [] else FieldRefs(fs[0]) + FieldsRefs(fs[1..])
  }

  /** The concrete heap types mentioned, in order. */
  function HeapRefs(s: SrcComposite): seq<SrcIndex> {
    match s
    case SFunc(ps, rs) => ValsRefs(ps) + ValsRefs(rs)
    case SArray(f) => FieldRefs(f)
    case SStruct(fs) => FieldsRefs(fs)
    case SCont => []
  }

  /** The reference is to a type that is already defined. */
  predicate Resolves(c: Context, x: SrcIndex) {
    LookupTypeIndex(c, x).Ok? && LookupTypeIndex(c, x).value < |c.wasmTypes|
  }

  predicate AllResolve(c: Context, xs: seq<SrcIndex>) {
    forall i :: 0 <= i < |xs| ==> Resolves(c, xs[i])
  }

  function Resolved(c: Context, xs: seq<SrcIndex>): (r: seq<TypeIndex>)
    requires AllResolve(c, xs)
    ensures |r| == |xs| && forall i :: 0 <= i < |xs| ==> r[i] == Module(LookupTypeIndex(c, xs[i]).value)
  {
    seq(|xs|, i requires 0 <= i < |xs| => Module(LookupTypeIndex(c, xs[i]).value))
  }

  lemma ResolveConcat(c: Context, a: seq<SrcIndex>, b: seq<SrcIndex>)
    ensures AllResolve(c, a + b) <==> AllResolve(c, a) && AllResolve(c, b)
    ensures AllResolve(c, a + b) ==> Resolved(c, a + b) == Resolved(c, a) + Resolved(c, b)
  {
    hide Resolves;
    if AllResolve(c, a + b) {
      forall i | 0 <= i < |a| ensures Resolves(c, a[i]) { assert a[i] == (a + b)[i]; }
      forall i | 0 <= i < |b| ensures Resolves(c, b[i]) { assert b[i] == (a + b)[|a| + i]; }
    }
  }

  lemma ConvertValExact(c: Context, v: SrcVal)
    ensures ConvertVal(c, v).Ok? <==> AllResolve(c, ValRefs(v))
    ensures ConvertVal(c, v).Ok? ==> TraceVal(ConvertVal(c, v).value) == Resolved(c, ValRefs(v))
  {
    if v.SRef? && v.heap.Concrete? {
      assert ValRefs(v)[0] == v.heap.ref;
    }
  }

  lemma {:induction false} ConvertValsExact(c: Context, vs: seq<SrcVal>)
    ensures ConvertVals(c, vs).Ok? <==> AllResolve(c, ValsRefs(vs))
    ensures ConvertVals(c, vs).Ok? ==> TraceVals(ConvertVals(c, vs).value) == Resolved(c, ValsRefs(vs))
  {
    hide AllResolve, Resolved, ConvertVal, TraceVal, ValRefs;
    if vs == [] {
      NothingToResolve(c);
    } else {
      ConvertValExact(c, vs[0]);
      ConvertValsExact(c, vs[1..]);
      ResolveConcat(c, ValRefs(vs[0]), ValsRefs(vs[1..]));
      if ConvertVals(c, vs).Ok? {
        var v, rest := ConvertVal(c, vs[0]).value, ConvertVals(c, vs[1..]).value;
        assert ([v] + rest)[1..] == rest;
      }
    }
  }

  lemma NothingToResolve(c: Context)
    ensures AllResolve(c, []) && Resolved(c, []) == []
  {
  }

  lemma ConvertFieldExact(c: Context, f: SrcField)
    ensures ConvertField(c, f).Ok? <==> AllResolve(c, FieldRefs(f))
    ensures ConvertField(c, f).Ok? ==> TraceField(ConvertField(c, f).value) == Resolved(c, FieldRefs(f))
  {
    if f.element.SVal? {
      ConvertValExact(c, f.element.val);
    }
  }

  lemma {:induction false} ConvertFieldsExact(c: Context, fs: seq<SrcField>)
    ensures ConvertFields(c, fs).Ok? <==> AllResolve(c, FieldsRefs(fs))
    ensures ConvertFields(c, fs).Ok? ==> TraceFields(ConvertFields(c, fs).value) == Resolved(c, FieldsRefs(fs))
  {
    hide AllResolve, Resolved, ConvertField, TraceField, FieldRefs;
    if fs == [] {
      NothingToResolve(c);
    } else {
      ConvertFieldExact(c, fs[0]);
      ConvertFieldsExact(c, fs[1..]);
      ResolveConcat(c, FieldRefs(fs[0]), FieldsRefs(fs[1..]));
      if ConvertFields(c, fs).Ok? {
        var f, rest := ConvertField(c, fs[0]).value, ConvertFields(c, fs[1..]).value;
        assert ([f] + rest)[1..] == rest;
      }
    }
  }

  /** A composite type is converted exactly if it is not a continuation and all concrete heap types it
      mentions are defined; the references of the result are theirs, in order. */
  lemma ConvertCompositeExact(c: Context, s: SrcComposite)
    ensures ConvertComposite(c, s).Ok? <==> !s.SCont? && AllResolve(c, HeapRefs(s))
    ensures ConvertComposite(c, s).Ok? ==> TraceComposite(ConvertComposite(c, s).value) == Resolved(c, HeapRefs(s))
  {
    hide AllResolve, Resolved, ConvertVals, ConvertFields, ConvertField, TraceVals, TraceFields, TraceField, ValsRefs, FieldsRefs,
         FieldRefs;
    match s
    case SFunc(ps, rs) =>
      ConvertValsExact(c, ps);
      ConvertValsExact(c, rs);
      ResolveConcat(c, ValsRefs(ps), ValsRefs(rs));
    case SArray(f) => ConvertFieldExact(c, f);
    case SStruct(fs) => ConvertFieldsExact(c, fs);
    case SCont =>
  }

  /** A type is converted exactly if its supertype is known, it is not a continuation, and its concrete heap types are defined. */
  predicate Convertible(c: Context, s: SrcSub) {
    && (s.supertype.Some? ==> LookupTypeIndex(c, s.supertype.value).Ok?)
    && !s.inner.SCont? && AllResolve(c, HeapRefs(s.inner))
  }

  lemma ConvertSubExact(c: Context, s: SrcSub)
    ensures ConvertSub(c, s).Ok? <==> Convertible(c, s)
    ensures ConvertSub(c, s).Ok? ==>
              TraceSub(ConvertSub(c, s).value)
              == (if s.supertype.Some? then [Module(LookupTypeIndex(c, s.supertype.value).value)] else [])
                 + Resolved(c, HeapRefs(s.inner))
  {
    hide AllResolve, Resolved, ConvertComposite, TraceComposite, HeapRefs;
    ConvertCompositeExact(c, s.inner);
  }

  // ---------------------------------------------------------------- reading back

  /** The validated type that a converted one stands for; `back` names the validated type at each index. */
  function BackIndex(back: map<nat, nat>, x: TypeIndex): SrcIndex {
    if x.Module? && x.interned in back then Id(back[x.interned]) else GroupIndex(0)
  }

  function BackHeap(back: map<nat, nat>, h: HeapType<TypeIndex>): SrcHeap {
    match h.kind
    case ConcreteFunc(x) => Concrete(BackIndex(back, x))
    case ConcreteArray(x) => Concrete(BackIndex(back, x))
    case ConcreteStruct(x) => Concrete(BackIndex(back, x))
    case Extern => Abstract(h.isShared, AExtern)
    case NoExtern => Abstract(h.isShared, ANoExtern)
    case Func => Abstract(h.isShared, AFunc)
    case NoFunc => Abstract(h.isShared, ANoFunc)
    case Any => Abstract(h.isShared, AAny)
    case Eq => Abstract(h.isShared, AEq)
    case I31 => Abstract(h.isShared, AI31)
    case Array => Abstract(h.isShared, AArray)
    case Struct => Abstract(h.isShared, AStruct)
    case NoneRef => Abstract(h.isShared, ANone)
    case Exn => Abstract(h.isShared, AExn)
    case NoExn => Abstract(h.isShared, ANoExn)
    case Cont => Abstract(h.isShared, ACont)
    case NoCont => Abstract(h.isShared, ANoCont)
  }

  function BackVal(back: map<nat, nat>, v: ValType<TypeIndex>): SrcVal {
    match v
    case I32 => SI32
    case I64 => SI64
    case F32 => SF32
    case F64 => SF64
    case V128 => SV128
    case Ref(r) => SRef(r.nullable, BackHeap(back, r.heap))
  }

  function BackVals(back: map<nat, nat>, vs: seq<ValType<TypeIndex>>): seq<SrcVal> {
    if vs == [] then [] else [BackVal(back, vs[0])] + BackVals(back, vs[1..])
  }

  function BackField(back: map<nat, nat>, f: FieldType<TypeIndex>): SrcField {
    match f.element
    case I8 => SrcField(f.mutable, SI8)
    case I16 => SrcField(f.mutable, SI16)
    case Val(v) => SrcField(f.mutable, SVal(BackVal(back, v)))
  }

  function BackFields(back: map<nat, nat>, fs: seq<FieldType<TypeIndex>>): seq<SrcField> {
    if fs == [] then [] else [BackField(back, fs[0])] + BackFields(back, fs[1..])
  }

  function BackComposite(back: map<nat, nat>, t: CompositeKind<TypeIndex>): SrcComposite {
    match t
    case FuncType(ps, rs) => SFunc(BackVals(back, ps), BackVals(back, rs))
    case ArrayType(f) => SArray(BackField(back, f))
    case StructType(fs) => SStruct(BackFields(back, fs))
  }

  function BackSub(back: map<nat, nat>, t: SubType<TypeIndex>): SrcSub {
    SrcSub(t.isFinal, if t.supertype.Some? then Some(BackIndex(back, t.supertype.value)) else None,
           BackComposite(back, t.composite.inner), t.composite.isShared)
  }

  /** `back` names every type that has an index. */
  ghost predicate Inverts(back: map<nat, nat>, seen: map<nat, nat>) {
    forall id :: id in seen ==> seen[id] in back && back[seen[id]] == id
  }

  /** All references are canonical, as the validator's are. */
  predicate Canonical(xs: seq<SrcIndex>) {
    forall i :: 0 <= i < |xs| ==> xs[i].Id?
  }

  predicate CanonicalSub(s: SrcSub) {
    (s.supertype.Some? ==> s.supertype.value.Id?) && Canonical(HeapRefs(s.inner))
  }

  lemma CanonicalConcat(a: seq<SrcIndex>, b: seq<SrcIndex>)
    requires Canonical(a + b)
    ensures Canonical(a) && Canonical(b)
  {
    forall i | 0 <= i < |a| ensures a[i].Id? { assert a[i] == (a + b)[i]; }
    forall i | 0 <= i < |b| ensures b[i].Id? { assert b[i] == (a + b)[|a| + i]; }
  }

  /** A concrete heap type says what the type it refers to is, and whether that is shared. */
  predicate HeapKindOk(types: seq<SubType<TypeIndex>>, h: HeapType<TypeIndex>) {
    match h.kind
    case ConcreteFunc(x) => x.Module? && x.interned < |types| && types[x.interned].composite.inner.FuncType?
                            && h.isShared == types[x.interned].composite.isShared
    case ConcreteArray(x) => x.Module? && x.interned < |types| && types[x.interned].composite.inner.ArrayType?
                             && h.isShared == types[x.interned].composite.isShared
    case ConcreteStruct(x) => x.Module? && x.interned < |types| && types[x.interned].composite.inner.StructType?
                              && h.isShared == types[x.interned].composite.isShared
    case _ => true
  }

  predicate ValKindOk(types: seq<SubType<TypeIndex>>, v: ValType<TypeIndex>) {
    v.Ref? ==> HeapKindOk(types, v.ref.heap)
  }

  predicate FieldKindOk(types: seq<SubType<TypeIndex>>, f: FieldType<TypeIndex>) {
    f.element.Val? ==> ValKindOk(types, f.element.val)
  }

  /** So do all concrete heap types of a type. */
  predicate KindsOk(types: seq<SubType<TypeIndex>>, t: SubType<TypeIndex>) {
    match t.composite.inner
    case FuncType(ps, rs) =>
      (forall i :: 0 <= i < |ps| ==> ValKindOk(types, ps[i])) && (forall i :: 0 <= i < |rs| ==> ValKindOk(types, rs[i]))
    case ArrayType(f) => FieldKindOk(types, f)
    case StructType(fs) => forall i :: 0 <= i < |fs| ==> FieldKindOk(types, fs[i])
  }

  lemma ValRoundTrip(c: Context, back: map<nat, nat>, v: SrcVal)
    requires Inverts(back, c.seen) && Canonical(ValRefs(v)) && ConvertVal(c, v).Ok?
    ensures BackVal(back, ConvertVal(c, v).value) == v && ValKindOk(c.wasmTypes, ConvertVal(c, v).value)
  {
    if v.SRef? && v.heap.Concrete? {
      assert ValRefs(v)[0] == v.heap.ref;
    }
  }

  lemma {:induction false} ValsRoundTrip(c: Context, back: map<nat, nat>, vs: seq<SrcVal>)
    requires Inverts(back, c.seen) && Canonical(ValsRefs(vs)) && ConvertVals(c, vs).Ok?
    ensures BackVals(back, ConvertVals(c, vs).value) == vs
    ensures forall i :: 0 <= i < |ConvertVals(c, vs).value| ==> ValKindOk(c.wasmTypes, ConvertVals(c, vs).value[i])
  {
    hide Inverts, Canonical, ConvertVal, BackVal, ValRefs, ValKindOk;
    if vs != [] {
      CanonicalConcat(ValRefs(vs[0]), ValsRefs(vs[1..]));
      ValRoundTrip(c, back, vs[0]);
      ValsRoundTrip(c, back, vs[1..]);
      var v, rest := ConvertVal(c, vs[0]).value, ConvertVals(c, vs[1..]).value;
      assert ([v] + rest)[1..] == rest;
    }
  }

  lemma FieldRoundTrip(c: Context, back: map<nat, nat>, f: SrcField)
    requires Inverts(back, c.seen) && Canonical(FieldRefs(f)) && ConvertField(c, f).Ok?
    ensures BackField(back, ConvertField(c, f).value) == f && FieldKindOk(c.wasmTypes, ConvertField(c, f).value)
  {
    hide Inverts, Canonical, ConvertVal, BackVal, ValRefs, ValKindOk;
    if f.element.SVal? {
      ValRoundTrip(c, back, f.element.val);
    }
  }

  lemma {:induction false} FieldsRoundTrip(c: Context, back: map<nat, nat>, fs: seq<SrcField>)
    requires Inverts(back, c.seen) && Canonical(FieldsRefs(fs)) && ConvertFields(c, fs).Ok?
    ensures BackFields(back, ConvertFields(c, fs).value) == fs
    ensures forall i :: 0 <= i < |ConvertFields(c, fs).value| ==> FieldKindOk(c.wasmTypes, ConvertFields(c, fs).value[i])
  {
    hide Inverts, Canonical, ConvertField, BackField, FieldRefs, FieldKindOk;
    if fs != [] {
      CanonicalConcat(FieldRefs(fs[0]), FieldsRefs(fs[1..]));
      FieldRoundTrip(c, back, fs[0]);
      FieldsRoundTrip(c, back, fs[1..]);
      var f, rest := ConvertField(c, fs[0]).value, ConvertFields(c, fs[1..]).value;
      assert ([f] + rest)[1..] == rest;
    }
  }

  /** Nothing of a type is lost or changed by its conversion: read back, it is the validated type; and every
      concrete heap type has the kind and the sharedness of the type it refers to. */
  lemma SubRoundTrip(c: Context, back: map<nat, nat>, s: SrcSub)
    requires Inverts(back, c.seen) && CanonicalSub(s) && ConvertSub(c, s).Ok?
    ensures BackSub(back, ConvertSub(c, s).value) == s && KindsOk(c.wasmTypes, ConvertSub(c, s).value)
  {
    hide Canonical, ConvertVals, ConvertField, ConvertFields, BackVals, BackField, BackFields, ValsRefs, FieldRefs, FieldsRefs,
         ValKindOk, FieldKindOk;
    match s.inner
    case SFunc(ps, rs) =>
      CanonicalConcat(ValsRefs(ps), ValsRefs(rs));
      ValsRoundTrip(c, back, ps);
      ValsRoundTrip(c, back, rs);
    case SArray(f) => FieldRoundTrip(c, back, f);
    case SStruct(fs) => FieldsRoundTrip(c, back, fs);
    case SCont =>
  }

  lemma ValKindGrows(types: seq<SubType<TypeIndex>>, types': seq<SubType<TypeIndex>>, v: ValType<TypeIndex>)
    requires types <= types' && ValKindOk(types, v)
    ensures ValKindOk(types', v)
  {
  }

  /** Types that are defined later do not change that. */
  lemma KindsGrow(types: seq<SubType<TypeIndex>>, types': seq<SubType<TypeIndex>>, t: SubType<TypeIndex>)
    requires types <= types' && KindsOk(types, t)
    ensures KindsOk(types', t)
  {
    hide ValKindOk;
    forall v | ValKindOk(types, v) ensures ValKindOk(types', v) {
      ValKindGrows(types, types', v);
    }
  }
}
