/** The translation preserves meaning: a valid body and the function it is translated to return the
    same values, trap or run forever together, and neither ever gets stuck. */
module Simulation {
  import opened Cfg
  import opened Validation
  import opened Translation
  import opened TranslationInvariant
  import opened LiveSteps
  import opened TranslationRuns
  import opened ValueFreshness
  import opened ValueStack
  import opened WasmMachine
  import opened Traces
  import opened SimulationRelation
  import opened BranchSimulation
  import opened StraightSimulation
  import opened ControlSimulation
  import opened JumpSimulation
  import opened TableSimulation
  import opened IfSimulation

  // ---------------------------------------------------------------- one step

  /** After the last operator the function returns what the machine returns. */
  lemma LastSim(tr: Trace, g: Func, m: Machine, c: Config)
    requires Sim(tr, g, m, c) && m.pc == |tr.ops|
    ensures Matches(tr, g, m, c, 1)
  {
    hide AllSteps, AllStates, Inv, Fresh, IsUnreachable, Step;
    SimState(tr, g, m, c);
    var v, t := tr.vs[m.pc], tr.ts[m.pc];
    LiveFacts(v, t);
    RunOne(g, c);
    assert g == Terminate(t.f, ReturnTerm(t.stack)).value;
    LastStep(t, g, c);
  }

  lemma LastStep(t: TState, g: Func, c: Config)
    requires Terminate(t.f, ReturnTerm(t.stack)) == Ok(g) && c.block == t.f.cur && IsBlock(t.f, t.f.cur)
    requires c.pos == |t.f.blocks[t.f.cur].body| && Defined(c.env, t.stack)
    ensures Step(g, c) == Done(Returned(GetAll(c.env, t.stack)))
  {
  }

  lemma OneStep(tr: Trace, g: Func, m: Machine, c: Config) returns (s: nat)
    requires Sim(tr, g, m, c)
    ensures Matches(tr, g, m, c, s)
  {
    hide Sim, Matches;
    SimShape(tr, g, m, c);
    s := 1;
    if m.pc == |tr.ops| {
      LastSim(tr, g, m, c);
    } else if IsStraight(tr.ops[m.pc]) {
      s := StraightSim(tr, g, m, c);
    } else {
      match tr.ops[m.pc] {
        case UnreachableOp => TrapSim(tr, g, m, c);
        case BlockOp(_) => BlockSim(tr, g, m, c); s := 0;
        case LoopOp(_) => LoopSim(tr, g, m, c);
        case IfOp(_) => IfSim(tr, g, m, c);
        case ElseOp => ElseSim(tr, g, m, c);
        case EndOp => EndSim(tr, g, m, c);
        case Br(_) => BrSim(tr, g, m, c);
        case BrIf(_) => BrIfSim(tr, g, m, c);
        case BrTableOp(_, _) => s := BrTableSim(tr, g, m, c);
        case ReturnOp => ReturnSim(tr, g, m, c);
      }
    }
  }

  // ---------------------------------------------------------------- runs

  /** After `n` steps of the machine and `s` of the function they are related, or both are done alike;
      `s` grows without bound with `n`. */
  ghost predicate InStep(tr: Trace, g: Func, m: Machine, c: Config, n: nat, s: nat) {
    var x, y := MRun(tr.ops, MRunning(m), n), Run(g, Running(c), s);
    && !x.MStuck?
    && (x.MRunning? ==> y.Running? && Sim(tr, g, x.m, y.c) && n + m.pc <= s * (|tr.ops| + 1) + x.m.pc)
    && (x.MDone? ==> y == Done(x.r))
  }

  lemma {:induction false} Lockstep(tr: Trace, g: Func, m: Machine, c: Config, n: nat) returns (s: nat)
    requires Sim(tr, g, m, c)
    ensures InStep(tr, g, m, c, n, s)
    decreases n
  {
    hide Sim, MStep, Step;
    s := 0;
    if n > 0 {
      var a := OneStep(tr, g, m, c);
      var x, y := MStep(tr.ops, m), Run(g, Running(c), a);
      if x.MRunning? {
        var b := Lockstep(tr, g, x.m, y.c, n - 1);
        s := a + b;
        RunCompose(g, Running(c), a, b);
        SimPc(tr, g, m, c);
        Progress(|tr.ops|, a, b, m.pc, x.m.pc);
      } else {
        s := a;
        MRunStays(tr.ops, x, n - 1);
      }
    }
  }

  lemma MRunStays(ops: seq<Op>, s: MState, n: nat)
    requires !s.MRunning?
    ensures MRun(ops, s, n) == s
  {
  }

  lemma SimPc(tr: Trace, g: Func, m: Machine, c: Config)
    requires Sim(tr, g, m, c)
    ensures m.pc <= |tr.ops|
  {
    hide AllSteps, AllStates, Placed, LabelsOk, Finish;
  }

  lemma Progress(len: nat, a: nat, b: nat, pc: nat, pc': nat)
    requires pc <= len && (a == 0 ==> pc' > pc)
    ensures 1 + pc <= a * (len + 1) + pc'
    ensures (a + b) * (len + 1) == a * (len + 1) + b * (len + 1)
  {
    if a > 0 {
      assert a * (len + 1) == (a - 1) * (len + 1) + (len + 1);
    }
  }

  // ---------------------------------------------------------------- the theorem

  function Entry(locals: seq<Word>): State {
    Running(Config(ENTRY, 0, map[], locals))
  }

  /** The function a body is translated to. */
  ghost function Translated(results: seq<ValType>, ops: seq<Op>): Checked<Func> {
    match TransAll(InitialState(|results|), ops)
    case Panic => Panic
    case Ok(t) => Finish(t)
  }

  lemma StartsRelated(locals: seq<Word>, results: seq<ValType>, ops: seq<Op>) returns (tr: Trace, g: Func)
    requires ValidBody(|locals|, results, ops)
    ensures tr.ops == ops && Translated(results, ops) == Ok(g)
    ensures Sim(tr, g, Start(|results|, locals).m, Entry(locals).c)
  {
    hide Inv, Fresh, Validate, TransOp, Finish, AllSteps, AllStates, ValidateAll, TransAll, Placed, LabelsOk, Initial, InitialState;
    var v, t := Initial(|locals|, results), InitialState(|results|);
    InitialKeeps(|locals|, results);
    InitialFresh(|results|);
    InitialIs(|locals|, results);
    tr := TraceFrom(v, t, ops);
    BodyTranslates(|locals|, results, ops);
    g := Finish(tr.ts[|ops|]).value;
    InitialPlaced(|results|, locals);
    InitialLabels(tr, |locals|, results);
  }

  lemma InitialIs(locals: nat, results: seq<ValType>)
    ensures InitialState(|results|).ctrl == [BlockFrame(1, 0, |results|, 0, false)]
    ensures Initial(locals, results).locals == locals
  {
  }

  lemma InitialPlaced(results: nat, locals: seq<Word>)
    ensures Placed(InitialState(results), [], Entry(locals).c)
  {
    var t := InitialState(results);
    assert View([], t.ctrl) == [];
  }

  lemma InitialLabels(tr: Trace, locals: nat, results: seq<ValType>)
    requires |tr.ts| == |tr.vs| == |tr.ops| + 1 && tr.vs[0] == Initial(locals, results) && tr.ts[0] == InitialState(|results|)
    ensures LabelsOk(tr, 0, [RLabel(Nothing, |results|, 0)])
  {
  }

  /** The machine on the body, and the translated function, deliver `r`. */
  ghost predicate BodyYields(results: seq<ValType>, ops: seq<Op>, locals: seq<Word>, r: Result) {
    exists n: nat :: MRun(ops, Start(|results|, locals), n) == MDone(r)
  }

  ghost predicate FuncYields(g: Func, locals: seq<Word>, r: Result) {
    exists s: nat :: Run(g, Entry(locals), s) == Done(r)
  }

  lemma Settled(g: Func, x: State, k: nat, s: nat)
    requires k <= s && !Run(g, x, k).Running?
    ensures Run(g, x, s) == Run(g, x, k)
  {
    RunCompose(g, x, k, s - k);
    RunStays(g, Run(g, x, k), s - k);
  }

  lemma TooFewSteps(len: nat, s: nat, k: nat, pc: nat)
    requires s <= k && pc <= len
    ensures s * (len + 1) + pc < k * (len + 1) + len + 1
  {
    assert k * (len + 1) == s * (len + 1) + (k - s) * (len + 1);
    assert (k - s) * (len + 1) >= 0;
  }

  /** If the function stops within `k` steps, so does the machine, alike. */
  lemma FuncStops(tr: Trace, g: Func, m: Machine, c: Config, k: nat)
    requires Sim(tr, g, m, c) && !Run(g, Running(c), k).Running?
    ensures exists n: nat :: MRun(tr.ops, MRunning(m), n).MDone? && Run(g, Running(c), k) == Done(MRun(tr.ops, MRunning(m), n).r)
  {
    hide Sim, Step, MStep;
    var n := k * (|tr.ops| + 1) + |tr.ops| + 1;
    var s := Lockstep(tr, g, m, c, n);
    var x := MRun(tr.ops, MRunning(m), n);
    if x.MRunning? {
      SimPc(tr, g, x.m, Run(g, Running(c), s).c);
      if s <= k {
        TooFewSteps(|tr.ops|, s, k, x.m.pc);
        assert false;
      } else {
        Settled(g, Running(c), k, s);
        assert false;
      }
    } else if s <= k {
      Settled(g, Running(c), s, k);
    } else {
      Settled(g, Running(c), k, s);
    }
  }

  /** Translation preserves meaning, for every valid body and all values of its locals. */
  lemma PreservesMeaning(locals: seq<Word>, results: seq<ValType>, ops: seq<Op>)
    requires ValidBody(|locals|, results, ops)
    ensures Translated(results, ops).Ok?
    ensures forall r :: BodyYields(results, ops, locals, r) <==> FuncYields(Translated(results, ops).value, locals, r)
    ensures forall n: nat :: !MRun(ops, Start(|results|, locals), n).MStuck?
    ensures forall s: nat :: !Run(Translated(results, ops).value, Entry(locals), s).Stuck?
  {
    hide Sim, Step, MStep, Translated, Run, MRun;
    var tr, g := StartsRelated(locals, results, ops);
    var m, c := Start(|results|, locals).m, Entry(locals).c;
    forall n: nat ensures !MRun(ops, Start(|results|, locals), n).MStuck? {
      var s := Lockstep(tr, g, m, c, n);
    }
    forall s: nat ensures !Run(g, Entry(locals), s).Stuck? {
      if !Run(g, Entry(locals), s).Running? {
        FuncStops(tr, g, m, c, s);
      }
    }
    forall r ensures BodyYields(results, ops, locals, r) <==> FuncYields(g, locals, r) {
      if BodyYields(results, ops, locals, r) {
        var n: nat :| MRun(ops, Start(|results|, locals), n) == MDone(r);
        var s := Lockstep(tr, g, m, c, n);
      }
      if FuncYields(g, locals, r) {
        var s: nat :| Run(g, Entry(locals), s) == Done(r);
        FuncStops(tr, g, m, c, s);
      }
    }
  }
}
