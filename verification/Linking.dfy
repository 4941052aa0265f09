/** Compilation jobs, their keys, and the tables linking builds from the outputs
    (`src/compile/mod.rs`, `src/compile/compile_key.rs`): for every module, each defined function is located, has
    a trampoline exactly if it escapes, and each relocation names the output of its callee. */
module Linking {
  import opened WasmTypes
  import opened TrapTables

  // ---------------------------------------------------------------- keys

  /** A 32-bit namespace, whose upper three bits are the kind of output, and an index. */
  datatype CompileKey = CompileKey(namespace: nat, index: nat)

  const KIND_UNIT: nat := 0x2000_0000

  const WASM_FUNCTION_KIND: nat := 0
  const ARRAY_TO_WASM_TRAMPOLINE_KIND: nat := 2 * KIND_UNIT
  const WASM_TO_BUILTIN_TRAMPOLINE_KIND: nat := 4 * KIND_UNIT

  /** The namespace with all but its upper three bits masked out. */
  function Kind(k: CompileKey): nat {
    k.namespace / KIND_UNIT * KIND_UNIT
  }

  /** What is compiled: a defined function, its trampoline for host callers, or the trampoline to a builtin. */
  datatype Job = WasmJob(func: nat) | TrampolineJob(func: nat) | BuiltinJob(builtin: nat)

  function KeyOf(j: Job): CompileKey {
    match j
    case WasmJob(d) => CompileKey(WASM_FUNCTION_KIND, d)
    case TrampolineJob(d) => CompileKey(ARRAY_TO_WASM_TRAMPOLINE_KIND, d)
    case BuiltinJob(b) => CompileKey(WASM_TO_BUILTIN_TRAMPOLINE_KIND, b)
  }

  /** Keys tell jobs apart, and their kind is the job's. */
  lemma KeyInjective(a: Job, b: Job)
    ensures KeyOf(a) == KeyOf(b) ==> a == b
    ensures Kind(KeyOf(a)) == Kind(KeyOf(b)) <==> (a.WasmJob? <==> b.WasmJob?) && (a.TrampolineJob? <==> b.TrampolineJob?)
    ensures Kind(KeyOf(a)) == KeyOf(a).namespace
  {
  }

  // ---------------------------------------------------------------- jobs

  /** The functions of a module, imported ones first; whether each may be called by the host. */
  datatype ModuleInfo = ModuleInfo(imported: nat, escaping: seq<bool>)

  function Defined(mi: ModuleInfo): nat {
    if mi.imported <= |mi.escaping| then |mi.escaping| - mi.imported else 0
  }

  predicate Escapes(mi: ModuleInfo, d: nat)
    requires d < Defined(mi)
  {
    mi.escaping[mi.imported + d]
  }

  /** The jobs for the first `n` defined functions. */
  function Jobs(mi: ModuleInfo, n: nat): seq<Job>
    requires n <= Defined(mi)
  {
    if n == 0 then [] else
      Jobs(mi, n - 1) + [WasmJob(n - 1)] + if Escapes(mi, n - 1) then [TrampolineJob(n - 1)] else []
  }

  predicate NoRepeats<T(==)>(s: seq<T>) {
    forall i, j :: 0 <= i < j < |s| ==> s[i] != s[j]
  }

  lemma {:induction false} JobsExact(mi: ModuleInfo, n: nat)
    requires n <= Defined(mi)
    ensures forall j :: j in Jobs(mi, n) <==> (j.WasmJob? && j.func < n) || (j.TrampolineJob? && j.func < n && Escapes(mi, j.func))
    ensures NoRepeats(Jobs(mi, n))
  {
    if n > 0 {
      JobsExact(mi, n - 1);
      var a := Jobs(mi, n - 1);
      var b := [WasmJob(n - 1)] + if Escapes(mi, n - 1) then [TrampolineJob(n - 1)] else [];
      assert Jobs(mi, n) == a + b;
      forall i, j | 0 <= i < j < |a + b| ensures (a + b)[i] != (a + b)[j] {
        if i < |a| {
          assert (a + b)[i] in a;
        }
      }
    }
  }

  method FromModule(mi: ModuleInfo) returns (jobs: seq<Job>)
    requires mi.imported <= |mi.escaping|
    ensures jobs == Jobs(mi, Defined(mi))
  {
    jobs := [];
    var d := 0;
    while d < Defined(mi)
      invariant 0 <= d <= Defined(mi) && jobs == Jobs(mi, d)
    {
      jobs := jobs + [WasmJob(d)];
      if mi.escaping[mi.imported + d] {
        jobs := jobs + [TrampolineJob(d)];
      }
      d := d + 1;
    }
  }

  // ---------------------------------------------------------------- compiling

  datatype Output = Output(key: CompileKey, code: Compiled)

  /** The compiler's answer for each job; none where it reports an error. */
  type Compiler = Job -> Option<Compiled>

  predicate AllCompile(compiler: Compiler, jobs: seq<Job>) {
    forall i :: 0 <= i < |jobs| ==> compiler(jobs[i]).Some?
  }

  function Outputs(compiler: Compiler, jobs: seq<Job>): (r: seq<Output>)
    requires AllCompile(compiler, jobs)
    ensures |r| == |jobs| && forall i :: 0 <= i < |jobs| ==> r[i] == Output(KeyOf(jobs[i]), compiler(jobs[i]).value)
  {
    seq(|jobs|, i requires 0 <= i < |jobs| => Output(KeyOf(jobs[i]), compiler(jobs[i]).value))
  }

  method CompileAll(compiler: Compiler, jobs: seq<Job>) returns (r: Option<seq<Output>>)
    ensures r.Some? <==> AllCompile(compiler, jobs)
    ensures r.Some? ==> r.value == Outputs(compiler, jobs)
  {
    var outputs: seq<Output> := [];
    var i := 0;
    while i < |jobs|
      invariant 0 <= i <= |jobs| && AllCompile(compiler, jobs[..i]) && outputs == Outputs(compiler, jobs[..i])
    {
      var code := compiler(jobs[i]);
      if code.None? {
        assert !AllCompile(compiler, jobs);
        return None;
      }
      assert jobs[..i + 1] == jobs[..i] + [jobs[i]];
      outputs := outputs + [Output(KeyOf(jobs[i]), code.value)];
      i := i + 1;
    }
    assert jobs[..i] == jobs;
    return Some(outputs);
  }

  // ---------------------------------------------------------------- builtins

  predicate IsBuiltinTarget(outputs: seq<Output>, i: nat, j: nat, b: nat)
    requires i < |outputs| && j < |outputs[i].code.relocs|
  {
    outputs[i].code.relocs[j].target == BuiltinTarget(b)
  }

  /** Some output refers to builtin `b`. */
  ghost predicate Requires(outputs: seq<Output>, b: nat) {
    exists i, j :: 0 <= i < |outputs| && 0 <= j < |outputs[i].code.relocs| && IsBuiltinTarget(outputs, i, j, b)
  }

  /** The builtins that the outputs refer to, each once. */
  method RequiredBuiltins(outputs: seq<Output>) returns (jobs: seq<Job>)
    ensures NoRepeats(jobs) && forall k :: 0 <= k < |jobs| ==> jobs[k].BuiltinJob? && Requires(outputs, jobs[k].builtin)
    ensures forall b: nat :: Requires(outputs, b) ==> BuiltinJob(b) in jobs
  {
    jobs := [];
    var i := 0;
    while i < |outputs|
      invariant 0 <= i <= |outputs| && NoRepeats(jobs)
      invariant forall k :: 0 <= k < |jobs| ==> jobs[k].BuiltinJob? && Requires(outputs, jobs[k].builtin)
      invariant forall x, y, b :: 0 <= x < i && 0 <= y < |outputs[x].code.relocs| && IsBuiltinTarget(outputs, x, y, b) ==> BuiltinJob(b) in jobs
    {
      var relocs := outputs[i].code.relocs;
      var j := 0;
      while j < |relocs|
        invariant 0 <= j <= |relocs| && NoRepeats(jobs)
        invariant forall k :: 0 <= k < |jobs| ==> jobs[k].BuiltinJob? && Requires(outputs, jobs[k].builtin)
        invariant forall x, y, b :: 0 <= x < i && 0 <= y < |outputs[x].code.relocs| && IsBuiltinTarget(outputs, x, y, b) ==> BuiltinJob(b) in jobs
        invariant forall y, b :: 0 <= y < j && IsBuiltinTarget(outputs, i, y, b) ==> BuiltinJob(b) in jobs
      {
        if relocs[j].target.BuiltinTarget? && BuiltinJob(relocs[j].target.builtin) !in jobs {
          assert IsBuiltinTarget(outputs, i, j, relocs[j].target.builtin);
          jobs := jobs + [BuiltinJob(relocs[j].target.builtin)];
        }
        j := j + 1;
      }
      i := i + 1;
    }
  }

  // ---------------------------------------------------------------- indices

  datatype Unlinked = Unlinked(indices: map<nat, map<CompileKey, nat>>, outputs: seq<Output>)

  predicate HasIndex(indices: map<nat, map<CompileKey, nat>>, kind: nat, key: CompileKey, i: nat) {
    kind in indices && key in indices[kind] && indices[kind][key] == i
  }

  /** The bucket of one kind of output. */
  function BucketIn(indices: map<nat, map<CompileKey, nat>>, kind: nat): (r: map<CompileKey, nat>)
    ensures forall key :: key in r <==> kind in indices && key in indices[kind]
    ensures forall key :: key in r ==> r[key] == indices[kind][key]
  {
    if kind in indices then indices[kind] else map[]
  }

  /** The index finds every output under its kind and key, and nothing else. */
  ghost predicate IndexOk(u: Unlinked) {
    && (forall i :: 0 <= i < |u.outputs| ==> HasIndex(u.indices, Kind(u.outputs[i].key), u.outputs[i].key, i))
    && (forall kind, key, i: nat :: HasIndex(u.indices, kind, key, i) ==> i < |u.outputs| && u.outputs[i].key == key && Kind(key) == kind)
  }

  method IndexOutputs(outputs: seq<Output>) returns (u: Unlinked)
    requires forall i, j :: 0 <= i < j < |outputs| ==> outputs[i].key != outputs[j].key
    ensures u.outputs == outputs && IndexOk(u)
  {
    hide Kind;
    var indices: map<nat, map<CompileKey, nat>> := map[];
    var i := 0;
    while i < |outputs|
      invariant 0 <= i <= |outputs| && IndexOk(Unlinked(indices, outputs[..i]))
    {
      var key := outputs[i].key;
      var kind := Kind(key);
      var bucket := BucketIn(indices, kind);
      ghost var before := indices;
      indices := indices[kind := bucket[key := i]];
      IndexAdded(outputs, i, before, indices);
      i := i + 1;
    }
    assert outputs[..i] == outputs;
    u := Unlinked(indices, outputs);
  }

  lemma IndexAdded(outputs: seq<Output>, i: nat, a: map<nat, map<CompileKey, nat>>, b: map<nat, map<CompileKey, nat>>)
    requires i < |outputs| && (forall x, y :: 0 <= x < y < |outputs| ==> outputs[x].key != outputs[y].key)
    requires IndexOk(Unlinked(a, outputs[..i]))
    requires
      var kind := Kind(outputs[i].key);
      b == a[kind := BucketIn(a, kind)[outputs[i].key := i]]
    ensures IndexOk(Unlinked(b, outputs[..i + 1]))
  {
    var added := Kind(outputs[i].key);
    assert b[added] == BucketIn(a, added)[outputs[i].key := i] && forall kind :: kind in a && kind != added ==> b[kind] == a[kind];
    forall k | 0 <= k < i + 1 ensures HasIndex(b, Kind(outputs[k].key), outputs[k].key, k) {
      if k < i {
        assert outputs[..i][k] == outputs[k];
        assert HasIndex(a, Kind(outputs[k].key), outputs[k].key, k);
      }
    }
    forall kind, key, k: nat | HasIndex(b, kind, key, k)
      ensures k < i + 1 && outputs[..i + 1][k].key == key && Kind(key) == kind
    {
      if kind != added || key != outputs[i].key {
        assert kind == added ==> key in BucketIn(a, added) && BucketIn(a, added)[key] == k;
        assert HasIndex(a, kind, key, k);
        assert outputs[..i][k].key == key;
      }
    }
  }

  /** Some output has the key. */
  ghost predicate Found(outputs: seq<Output>, key: CompileKey) {
    exists i :: 0 <= i < |outputs| && outputs[i].key == key
  }

  /** What linking is given: exactly one output for every job of the module, and trampolines to builtins besides. */
  ghost predicate LinkReady(mi: ModuleInfo, u: Unlinked) {
    && mi.imported <= |mi.escaping| && IndexOk(u)
    && (forall i :: 0 <= i < |u.outputs| ==> u.outputs[i].key.namespace == Kind(u.outputs[i].key))
    && (forall d: nat :: d < Defined(mi) ==> Found(u.outputs, KeyOf(WasmJob(d))))
    && (forall d: nat :: Found(u.outputs, KeyOf(WasmJob(d))) ==> d < Defined(mi))
    && (forall d: nat :: Found(u.outputs, KeyOf(TrampolineJob(d))) <==> d < Defined(mi) && Escapes(mi, d))
  }

  /** Every output is what the compiler made of the job its key names. */
  ghost predicate Faithful(compiler: Compiler, outputs: seq<Output>) {
    forall i :: 0 <= i < |outputs| ==> IsMade(compiler, outputs[i])
  }

  ghost predicate IsMade(compiler: Compiler, o: Output) {
    exists j :: Made(compiler, o, j)
  }

  predicate Made(compiler: Compiler, o: Output, j: Job) {
    o.key == KeyOf(j) && compiler(j) == Some(o.code)
  }

  lemma OutputsKeys(compiler: Compiler, jobs: seq<Job>)
    requires AllCompile(compiler, jobs) && NoRepeats(jobs)
    ensures forall i, j :: 0 <= i < j < |jobs| ==> Outputs(compiler, jobs)[i].key != Outputs(compiler, jobs)[j].key
    ensures forall j :: Found(Outputs(compiler, jobs), KeyOf(j)) <==> j in jobs
    ensures Faithful(compiler, Outputs(compiler, jobs))
    ensures forall i :: 0 <= i < |jobs| ==> Outputs(compiler, jobs)[i].key.namespace == Kind(Outputs(compiler, jobs)[i].key)
  {
    var outputs := Outputs(compiler, jobs);
    forall i | 0 <= i < |jobs| ensures outputs[i].key.namespace == Kind(outputs[i].key) {
      KeyInjective(jobs[i], jobs[i]);
    }
    forall i | 0 <= i < |outputs| ensures IsMade(compiler, outputs[i]) {
      assert Made(compiler, outputs[i], jobs[i]);
    }
    forall i, j | 0 <= i < j < |jobs| ensures outputs[i].key != outputs[j].key {
      KeyInjective(jobs[i], jobs[j]);
    }
    forall j ensures Found(outputs, KeyOf(j)) <==> j in jobs {
      if Found(outputs, KeyOf(j)) {
        var i :| 0 <= i < |outputs| && outputs[i].key == KeyOf(j);
        KeyInjective(jobs[i], j);
      }
      if j in jobs {
        var i :| 0 <= i < |jobs| && jobs[i] == j;
        assert outputs[i].key == KeyOf(j);
      }
    }
  }

  lemma AllJobs(mi: ModuleInfo, builtins: seq<Job>)
    requires mi.imported <= |mi.escaping| && NoRepeats(builtins) && forall k :: 0 <= k < |builtins| ==> builtins[k].BuiltinJob?
    ensures NoRepeats(Jobs(mi, Defined(mi)) + builtins)
  {
    JobsExact(mi, Defined(mi));
    var a := Jobs(mi, Defined(mi));
    forall i, j | 0 <= i < j < |a + builtins| ensures (a + builtins)[i] != (a + builtins)[j] {
      if i < |a| <= j {
        assert a[i] in a && (a + builtins)[j] == builtins[j - |a|];
      }
    }
  }

  lemma ReadyFrom(compiler: Compiler, mi: ModuleInfo, builtins: seq<Job>, u: Unlinked)
    requires mi.imported <= |mi.escaping| && NoRepeats(builtins) && forall k :: 0 <= k < |builtins| ==> builtins[k].BuiltinJob?
    requires AllCompile(compiler, Jobs(mi, Defined(mi)) + builtins) && u.outputs == Outputs(compiler, Jobs(mi, Defined(mi)) + builtins)
    requires IndexOk(u)
    ensures LinkReady(mi, u) && Faithful(compiler, u.outputs)
    ensures forall b: nat :: BuiltinJob(b) in builtins ==> Found(u.outputs, KeyOf(BuiltinJob(b)))
  {
    hide KeyOf, IndexOk, Jobs, Kind;
    var jobs := Jobs(mi, Defined(mi)) + builtins;
    AllJobs(mi, builtins);
    OutputsKeys(compiler, jobs);
    JobsExact(mi, Defined(mi));
    forall b: nat | BuiltinJob(b) in builtins ensures Found(u.outputs, KeyOf(BuiltinJob(b))) {
      assert BuiltinJob(b) in jobs;
    }
    forall d: nat | d < Defined(mi) ensures Found(u.outputs, KeyOf(WasmJob(d))) {
      assert WasmJob(d) in jobs;
    }
    forall d: nat | Found(u.outputs, KeyOf(WasmJob(d))) ensures d < Defined(mi) {
      assert WasmJob(d) in jobs;
    }
    forall d: nat ensures Found(u.outputs, KeyOf(TrampolineJob(d))) <==> d < Defined(mi) && Escapes(mi, d) {
      assert TrampolineJob(d) in jobs <==> TrampolineJob(d) in Jobs(mi, Defined(mi));
    }
  }

  lemma SomeFails(compiler: Compiler, jobs: seq<Job>) returns (j: Job)
    requires !AllCompile(compiler, jobs)
    ensures j in jobs && compiler(j).None?
  {
    var i :| 0 <= i < |jobs| && compiler(jobs[i]).None?;
    j := jobs[i];
  }

  /** Compiles all jobs, then trampolines to the builtins they refer to; an error of the compiler is passed on. */
  method Compile(compiler: Compiler, mi: ModuleInfo) returns (r: Option<Unlinked>)
    requires mi.imported <= |mi.escaping|
    ensures r.None? ==>
              || (exists j :: j in Jobs(mi, Defined(mi)) && compiler(j).None?)
              || (AllCompile(compiler, Jobs(mi, Defined(mi)))
                  && exists b: nat :: Requires(Outputs(compiler, Jobs(mi, Defined(mi))), b) && compiler(BuiltinJob(b)).None?)
    ensures r.Some? ==> LinkReady(mi, r.value) && Faithful(compiler, r.value.outputs)
    ensures r.Some? ==> |Jobs(mi, Defined(mi))| <= |r.value.outputs|
    ensures r.Some? ==>
              forall b: nat :: Requires(r.value.outputs[..|Jobs(mi, Defined(mi))|], b) ==> Found(r.value.outputs, KeyOf(BuiltinJob(b)))
  {
    hide IndexOk, LinkReady, Faithful, KeyOf, Jobs;
    var jobs := FromModule(mi);
    var first := CompileAll(compiler, jobs);
    if first.None? {
      ghost var j := SomeFails(compiler, jobs);
      return None;
    }
    var builtins := RequiredBuiltins(first.value);
    var second := CompileAll(compiler, builtins);
    if second.None? {
      ghost var j := SomeFails(compiler, builtins);
      assert Requires(first.value, j.builtin) && compiler(BuiltinJob(j.builtin)).None?;
      return None;
    }
    var outputs := first.value + second.value;
    assert AllCompile(compiler, jobs + builtins);
    assert outputs == Outputs(compiler, jobs + builtins);
    AllJobs(mi, builtins);
    OutputsKeys(compiler, jobs + builtins);
    var u := IndexOutputs(outputs);
    ReadyFrom(compiler, mi, builtins, u);
    assert outputs[..|jobs|] == first.value;
    r := Some(u);
  }

  // ---------------------------------------------------------------- linking

  datatype FunctionInfo = FunctionInfo(wasmFuncLoc: FunctionLoc, hostToWasmTrampoline: Option<FunctionLoc>)

  /** The relocation's callee is a defined function, or a builtin that has a trampoline. */
  ghost predicate RelocOk(mi: ModuleInfo, outputs: seq<Output>, target: RelocTarget) {
    match target
    case WasmTarget(f) => mi.imported <= f < |mi.escaping|
    case BuiltinTarget(b) => Found(outputs, KeyOf(BuiltinJob(b)))
  }

  lemma Indexed(u: Unlinked, key: CompileKey)
    requires IndexOk(u) && Found(u.outputs, key)
    ensures Kind(key) in u.indices && key in u.indices[Kind(key)]
    ensures u.indices[Kind(key)][key] < |u.outputs| && u.outputs[u.indices[Kind(key)][key]].key == key
  {
    hide Kind;
    var i :| 0 <= i < |u.outputs| && u.outputs[i].key == key;
    assert HasIndex(u.indices, Kind(u.outputs[i].key), u.outputs[i].key, i);
  }

  /** The output that a relocation is resolved to is its callee's. */
  method ResolveReloc(mi: ModuleInfo, u: Unlinked, target: RelocTarget) returns (i: nat)
    requires LinkReady(mi, u) && RelocOk(mi, u.outputs, target)
    ensures i < |u.outputs|
    ensures forall d: nat :: target == WasmTarget(mi.imported + d) ==> u.outputs[i].key == KeyOf(WasmJob(d))
    ensures forall b: nat :: target == BuiltinTarget(b) ==> u.outputs[i].key == KeyOf(BuiltinJob(b))
  {
    match target {
      case WasmTarget(f) =>
        Indexed(u, KeyOf(WasmJob(f - mi.imported)));
        KeyInjective(WasmJob(f - mi.imported), WasmJob(f - mi.imported));
        i := u.indices[WASM_FUNCTION_KIND][CompileKey(WASM_FUNCTION_KIND, f - mi.imported)];
      case BuiltinTarget(b) =>
        Indexed(u, KeyOf(BuiltinJob(b)));
        KeyInjective(BuiltinJob(b), BuiltinJob(b));
        i := u.indices[WASM_TO_BUILTIN_TRAMPOLINE_KIND][CompileKey(WASM_TO_BUILTIN_TRAMPOLINE_KIND, b)];
    }
  }

  function CodesOf(outputs: seq<Output>): (r: seq<Compiled>)
    ensures |r| == |outputs| && forall i :: 0 <= i < |outputs| ==> r[i] == outputs[i].code
  {
    seq(|outputs|, i requires 0 <= i < |outputs| => outputs[i].code)
  }

  /** The info of defined function `d` locates its output, and its trampoline's output exactly if it escapes. */
  ghost predicate InfoOk(mi: ModuleInfo, u: Unlinked, locs: seq<FunctionLoc>, d: nat, info: FunctionInfo)
    requires |locs| == |u.outputs| && d < Defined(mi)
  {
    && (exists i :: 0 <= i < |u.outputs| && u.outputs[i].key == KeyOf(WasmJob(d)) && info.wasmFuncLoc == locs[i])
    && (info.hostToWasmTrampoline.Some? <==> Escapes(mi, d))
    && (info.hostToWasmTrampoline.Some? ==>
          exists i :: 0 <= i < |u.outputs| && u.outputs[i].key == KeyOf(TrampolineJob(d)) && info.hostToWasmTrampoline.value == locs[i])
  }

  lemma BucketExact(mi: ModuleInfo, u: Unlinked)
    requires LinkReady(mi, u)
    ensures
      var bucket := BucketIn(u.indices, WASM_FUNCTION_KIND);
      && (forall d: nat :: d < Defined(mi) ==> KeyOf(WasmJob(d)) in bucket)
      && (forall k :: k in bucket ==> k.index < Defined(mi) && k == KeyOf(WasmJob(k.index)))
      && (forall k :: k in bucket ==> bucket[k] < |u.outputs| && u.outputs[bucket[k]].key == k)
    ensures
      var bucket := BucketIn(u.indices, ARRAY_TO_WASM_TRAMPOLINE_KIND);
      && (forall d: nat :: KeyOf(TrampolineJob(d)) in bucket <==> d < Defined(mi) && Escapes(mi, d))
      && (forall k :: k in bucket ==> bucket[k] < |u.outputs| && u.outputs[bucket[k]].key == k)
  {
    var bucket := BucketIn(u.indices, WASM_FUNCTION_KIND);
    forall d: nat | d < Defined(mi) ensures KeyOf(WasmJob(d)) in bucket {
      Indexed(u, KeyOf(WasmJob(d)));
    }
    forall k | k in bucket ensures k.index < Defined(mi) && k == KeyOf(WasmJob(k.index)) {
      assert HasIndex(u.indices, WASM_FUNCTION_KIND, k, bucket[k]);
      assert u.outputs[bucket[k]].key.namespace == Kind(u.outputs[bucket[k]].key);
      assert k == KeyOf(WasmJob(k.index));
      assert Found(u.outputs, KeyOf(WasmJob(k.index)));
    }
    var other := BucketIn(u.indices, ARRAY_TO_WASM_TRAMPOLINE_KIND);
    forall d: nat ensures KeyOf(TrampolineJob(d)) in other <==> d < Defined(mi) && Escapes(mi, d) {
      if d < Defined(mi) && Escapes(mi, d) {
        Indexed(u, KeyOf(TrampolineJob(d)));
      }
      if KeyOf(TrampolineJob(d)) in other {
        assert HasIndex(u.indices, ARRAY_TO_WASM_TRAMPOLINE_KIND, KeyOf(TrampolineJob(d)), other[KeyOf(TrampolineJob(d))]);
      }
    }
    forall k | k in bucket ensures bucket[k] < |u.outputs| && u.outputs[bucket[k]].key == k {
      assert HasIndex(u.indices, WASM_FUNCTION_KIND, k, bucket[k]);
    }
    forall k | k in other ensures other[k] < |u.outputs| && u.outputs[other[k]].key == k {
      assert HasIndex(u.indices, ARRAY_TO_WASM_TRAMPOLINE_KIND, k, other[k]);
    }
  }

  /** The next key in order. Keys of one bucket differ in their index only. */
  method SmallestKey(bucket: map<CompileKey, nat>) returns (k: CompileKey)
    requires bucket != map[]
    ensures k in bucket && forall x :: x in bucket ==> k.index <= x.index
  {
    k :| k in bucket;
    var keys := bucket.Keys - {k};
    while keys != {}
      invariant keys <= bucket.Keys && k in bucket && forall x :: x in bucket && x !in keys ==> k.index <= x.index
      decreases keys
    {
      var x :| x in keys;
      keys := keys - {x};
      if x.index < k.index {
        k := x;
      }
    }
  }

  lemma InfoFrom(mi: ModuleInfo, u: Unlinked, locs: seq<FunctionLoc>, d: nat, i: nat, t: Option<nat>, info: FunctionInfo)
    requires |locs| == |u.outputs| && d < Defined(mi) && i < |u.outputs| && u.outputs[i].key == KeyOf(WasmJob(d))
    requires t.Some? <==> Escapes(mi, d)
    requires t.Some? ==> t.value < |u.outputs| && u.outputs[t.value].key == KeyOf(TrampolineJob(d))
    requires info == FunctionInfo(locs[i], if t.Some? then Some(locs[t.value]) else None)
    ensures InfoOk(mi, u, locs, d, info)
  {
    hide KeyOf;
  }

  /** The functions' bucket from index `n` on, in order of keys. */
  ghost predicate Remaining(mi: ModuleInfo, outputs: seq<Output>, functions: map<CompileKey, nat>, n: nat) {
    && (forall d: nat :: n <= d < Defined(mi) ==> KeyOf(WasmJob(d)) in functions)
    && (forall k :: k in functions ==> n <= k.index < Defined(mi) && k == KeyOf(WasmJob(k.index)))
    && (forall k :: k in functions ==> functions[k] < |outputs| && outputs[functions[k]].key == k)
  }

  lemma NextRemaining(mi: ModuleInfo, outputs: seq<Output>, functions: map<CompileKey, nat>, n: nat, key: CompileKey)
    requires Remaining(mi, outputs, functions, n) && key in functions && forall x :: x in functions ==> key.index <= x.index
    ensures key == KeyOf(WasmJob(n)) && n < Defined(mi) && Remaining(mi, outputs, functions - {key}, n + 1)
  {
    assert KeyOf(WasmJob(n)) in functions;
  }

  lemma NoneRemaining(mi: ModuleInfo, outputs: seq<Output>, n: nat)
    requires Remaining(mi, outputs, map[], n)
    ensures n >= Defined(mi)
  {
    var none: map<CompileKey, nat> := map[];
    assert KeyOf(WasmJob(n)) !in none;
  }

  ghost predicate TrampolinesOk(mi: ModuleInfo, outputs: seq<Output>, trampolines: map<CompileKey, nat>) {
    && (forall d: nat :: KeyOf(TrampolineJob(d)) in trampolines <==> d < Defined(mi) && Escapes(mi, d))
    && (forall k :: k in trampolines ==> trampolines[k] < |outputs| && outputs[trampolines[k]].key == k)
  }

  lemma BucketsOk(mi: ModuleInfo, u: Unlinked)
    requires LinkReady(mi, u)
    ensures Remaining(mi, u.outputs, BucketIn(u.indices, WASM_FUNCTION_KIND), 0)
    ensures TrampolinesOk(mi, u.outputs, BucketIn(u.indices, ARRAY_TO_WASM_TRAMPOLINE_KIND))
  {
    hide LinkReady, KeyOf;
    BucketExact(mi, u);
  }

  method InfoFor(mi: ModuleInfo, u: Unlinked, locs: seq<FunctionLoc>, d: nat, index: nat, trampolines: map<CompileKey, nat>)
    returns (info: FunctionInfo)
    requires |locs| == |u.outputs| && TrampolinesOk(mi, u.outputs, trampolines)
    requires d < Defined(mi) && index < |u.outputs| && u.outputs[index].key == KeyOf(WasmJob(d))
    ensures InfoOk(mi, u, locs, d, info)
  {
    hide InfoOk;
    var key := CompileKey(ARRAY_TO_WASM_TRAMPOLINE_KIND, d);
    assert key == KeyOf(TrampolineJob(d));
    var t := if key in trampolines then Some(trampolines[key]) else None;
    info := FunctionInfo(locs[index], if t.Some? then Some(locs[t.value]) else None);
    InfoFrom(mi, u, locs, d, index, t, info);
  }

  /** The table of functions: the outputs of functions in order of their keys, each with its trampoline if there is one. */
  method FunctionTable(mi: ModuleInfo, u: Unlinked, locs: seq<FunctionLoc>) returns (funcs: seq<FunctionInfo>)
    requires LinkReady(mi, u) && |locs| == |u.outputs|
    ensures |funcs| == Defined(mi) && forall d :: 0 <= d < |funcs| ==> InfoOk(mi, u, locs, d, funcs[d])
  {
    hide InfoOk, LinkReady, Remaining, TrampolinesOk, KeyOf;
    funcs := [];
    var functions := BucketIn(u.indices, WASM_FUNCTION_KIND);
    var trampolines := BucketIn(u.indices, ARRAY_TO_WASM_TRAMPOLINE_KIND);
    BucketsOk(mi, u);
    while functions != map[]
      invariant |funcs| <= Defined(mi) && forall d :: 0 <= d < |funcs| ==> InfoOk(mi, u, locs, d, funcs[d])
      invariant Remaining(mi, u.outputs, functions, |funcs|)
      decreases |functions|
    {
      var key := SmallestKey(functions);
      RemainingAt(mi, u.outputs, functions, |funcs|, key);
      NextRemaining(mi, u.outputs, functions, |funcs|, key);
      var info := InfoFor(mi, u, locs, |funcs|, functions[key], trampolines);
      funcs := funcs + [info];
      functions := functions - {key};
    }
    NoneRemaining(mi, u.outputs, |funcs|);
  }

  lemma RemainingAt(mi: ModuleInfo, outputs: seq<Output>, functions: map<CompileKey, nat>, n: nat, key: CompileKey)
    requires Remaining(mi, outputs, functions, n) && key in functions
    ensures functions[key] < |outputs| && outputs[functions[key]].key == key
  {
  }

  /** Links the outputs: where each lies, the functions' table, what each relocation is resolved to, and the trap table. */
  method LinkAndFinish(mi: ModuleInfo, u: Unlinked, gaps: seq<nat>)
    returns (locs: seq<FunctionLoc>, funcs: seq<FunctionInfo>, targets: seq<seq<nat>>, offsets: seq<nat>, traps: seq<Trap>)
    requires LinkReady(mi, u) && |gaps| == |u.outputs| && AllTrapsOk(CodesOf(u.outputs))
    requires forall i, j :: 0 <= i < |u.outputs| && 0 <= j < |u.outputs[i].code.relocs| ==> RelocOk(mi, u.outputs, u.outputs[i].code.relocs[j].target)
    ensures locs == Locs(CodesOf(u.outputs), gaps)
    ensures Placed(CodesOf(u.outputs), gaps, locs)
    ensures |funcs| == Defined(mi) && forall d :: 0 <= d < |funcs| ==> InfoOk(mi, u, locs, d, funcs[d])
    ensures |targets| == |u.outputs|
    ensures forall i :: 0 <= i < |targets| ==> TargetsOk(mi, u, u.outputs[i].code.relocs, targets[i])
    ensures offsets == TrapOffsets(CodesOf(u.outputs), gaps) && traps == TrapCodes(CodesOf(u.outputs))
  {
    hide LinkReady, InfoOk, RelocOk, TargetsOk, Placed, CodesOf, Locs;
    locs, offsets, traps := LayOut(CodesOf(u.outputs), gaps);
    LocsPlaced(CodesOf(u.outputs), gaps);
    targets := ResolveOutputs(mi, u);
    funcs := FunctionTable(mi, u, locs);
  }

  method ResolveOutputs(mi: ModuleInfo, u: Unlinked) returns (targets: seq<seq<nat>>)
    requires LinkReady(mi, u)
    requires forall i, j :: 0 <= i < |u.outputs| && 0 <= j < |u.outputs[i].code.relocs| ==> RelocOk(mi, u.outputs, u.outputs[i].code.relocs[j].target)
    ensures |targets| == |u.outputs| && forall i :: 0 <= i < |targets| ==> TargetsOk(mi, u, u.outputs[i].code.relocs, targets[i])
  {
    hide LinkReady, RelocOk, TargetsOk;
    targets := [];
    var i := 0;
    while i < |u.outputs|
      invariant 0 <= i <= |u.outputs| && |targets| == i
      invariant forall x :: 0 <= x < i ==> TargetsOk(mi, u, u.outputs[x].code.relocs, targets[x])
    {
      var resolved := ResolveAll(mi, u, u.outputs[i].code.relocs);
      targets := targets + [resolved];
      i := i + 1;
    }
  }

  /** Each relocation is resolved to its callee's output: that of the defined function, after the imported ones, which it
      names, or the trampoline to the builtin it names. */
  ghost predicate TargetsOk(mi: ModuleInfo, u: Unlinked, relocs: seq<Relocation>, targets: seq<nat>) {
    && |targets| == |relocs| && (forall j :: 0 <= j < |targets| ==> targets[j] < |u.outputs|)
    && (forall j, d: nat :: 0 <= j < |relocs| && relocs[j].target == WasmTarget(mi.imported + d) ==>
          u.outputs[targets[j]].key == KeyOf(WasmJob(d)))
    && (forall j, b: nat :: 0 <= j < |relocs| && relocs[j].target == BuiltinTarget(b) ==>
          u.outputs[targets[j]].key == KeyOf(BuiltinJob(b)))
  }

  lemma MadeFor(compiler: Compiler, outputs: seq<Output>, i: nat, j: Job)
    requires Faithful(compiler, outputs) && i < |outputs| && outputs[i].key == KeyOf(j)
    ensures compiler(j) == Some(outputs[i].code)
  {
    assert IsMade(compiler, outputs[i]);
    var j' :| Made(compiler, outputs[i], j');
    KeyInjective(j, j');
  }

  /** The code that a relocation is resolved to is what the compiler made of its callee. */
  lemma TargetIsCallee(compiler: Compiler, mi: ModuleInfo, u: Unlinked, relocs: seq<Relocation>, targets: seq<nat>, j: nat)
    requires Faithful(compiler, u.outputs) && TargetsOk(mi, u, relocs, targets) && j < |relocs|
    ensures forall d: nat :: relocs[j].target == WasmTarget(mi.imported + d) ==> compiler(WasmJob(d)) == Some(u.outputs[targets[j]].code)
    ensures forall b: nat :: relocs[j].target == BuiltinTarget(b) ==> compiler(BuiltinJob(b)) == Some(u.outputs[targets[j]].code)
  {
    hide KeyOf, Faithful;
    forall d: nat | relocs[j].target == WasmTarget(mi.imported + d) ensures compiler(WasmJob(d)) == Some(u.outputs[targets[j]].code) {
      MadeFor(compiler, u.outputs, targets[j], WasmJob(d));
    }
    forall b: nat | relocs[j].target == BuiltinTarget(b) ensures compiler(BuiltinJob(b)) == Some(u.outputs[targets[j]].code) {
      MadeFor(compiler, u.outputs, targets[j], BuiltinJob(b));
    }
  }

  method ResolveAll(mi: ModuleInfo, u: Unlinked, relocs: seq<Relocation>) returns (targets: seq<nat>)
    requires LinkReady(mi, u) && forall j :: 0 <= j < |relocs| ==> RelocOk(mi, u.outputs, relocs[j].target)
    ensures TargetsOk(mi, u, relocs, targets)
  {
    hide LinkReady, RelocOk, KeyOf;
    targets := [];
    var j := 0;
    while j < |relocs|
      invariant 0 <= j <= |relocs| && |targets| == j
      invariant TargetsOk(mi, u, relocs[..j], targets)
    {
      var i := ResolveReloc(mi, u, relocs[j].target);
      targets := targets + [i];
      j := j + 1;
    }
  }
}
