/** Straight-line operators: the machine and the translated function compute the same operands. */
module StraightSimulation {
  import opened Cfg
  import opened Validation
  import opened Translation
  import opened TranslationInvariant
  import opened LiveSteps
  import opened ValueFreshness
  import opened ValueStack
  import opened WasmMachine
  import opened Traces
  import opened Landing
  import opened SimulationRelation
  import opened BranchSimulation

  /** One step of the machine is `s` steps of the function; without any, the machine moves forward. */
  ghost predicate Matches(tr: Trace, g: Func, m: Machine, c: Config, s: nat) {
    var x, y := MStep(tr.ops, m), Run(g, Running(c), s);
    if x.MRunning? then y.Running? && Sim(tr, g, x.m, y.c) && (s == 0 ==> x.m.pc > m.pc)
    else x.MDone? && y == Done(x.r)
  }

  // ---------------------------------------------------------------- the next operator

  lemma NextLabels(tr: Trace, k: nat, labels: seq<RLabel>)
    requires Valid(tr) && k < |tr.ops| && tr.ts[k].reachable && LabelsOk(tr, k, labels)
    requires |tr.ts[k + 1].ctrl| == |tr.ts[k].ctrl| && !tr.ops[k].ElseOp?
    ensures LabelsOk(tr, k + 1, labels)
  {
    hide AllSteps, AllStates, LabelsOk, Kept, Alike;
    AllRealAt(tr, k);
    forall j | 0 <= j < |tr.ts[k].ctrl| ensures Alike(tr.ts[k].ctrl[j], tr.ts[k + 1].ctrl[j]) {
      assert Open(tr, k, k + 1, j) && NoElseAt(tr, k, k + 1, j);
      Between(tr, k, k + 1, j);
      KeptAlike(tr.ts[k], tr.ts[k + 1], j);
    }
    LabelsLength(tr, k, labels);
    LabelsForward(tr, k, k + 1, labels);
    assert labels[..|labels|] == labels;
  }

  lemma LabelsLength(tr: Trace, k: nat, labels: seq<RLabel>)
    requires k < |tr.ts| == |tr.vs| == |tr.ops| + 1 && LabelsOk(tr, k, labels)
    ensures |labels| == |tr.ts[k].ctrl|
  {
    hide LabelOk;
  }

  /** Falling through to the next operator, inside the same frames. */
  lemma FallsThrough(tr: Trace, g: Func, m: Machine, c: Config, stack: seq<Word>, locals: seq<Word>, c': Config)
    requires Sim(tr, g, m, c) && m.pc < |tr.ops| && !tr.ops[m.pc].ElseOp?
    requires |tr.ts[m.pc + 1].ctrl| == |tr.ts[m.pc].ctrl|
    requires Placed(tr.ts[m.pc + 1], stack, c') && c'.locals == locals && |locals| == |m.locals|
    ensures Sim(tr, g, Machine(m.pc + 1, stack, m.labels, locals), c')
  {
    hide AllSteps, AllStates, LabelsOk, Placed, Finish;
    SimState(tr, g, m, c);
    NextLabels(tr, m.pc, m.labels);
    SameLocals(tr, m.pc);
    SameLocals(tr, m.pc + 1);
  }

  lemma RunOne(g: Func, c: Config)
    ensures Run(g, Running(c), 1) == Step(g, c)
  {
    hide Step;
    assert Run(g, Step(g, c), 0) == Step(g, c);
  }

  lemma RunNone(g: Func, c: Config)
    ensures Run(g, Running(c), 0) == Running(c)
  {
  }

  /** An instruction emitted at the place of control is the next one to run. */
  lemma RunsInst(tr: Trace, g: Func, k: nat, c: Config, inst: Inst)
    requires IsFinal(tr, g) && k < |tr.ops| && IsBlock(tr.ts[k].f, tr.ts[k].f.cur)
    requires c.block == tr.ts[k].f.cur && c.pos == |tr.ts[k].f.blocks[tr.ts[k].f.cur].body|
    requires IsBlock(tr.ts[k + 1].f, tr.ts[k].f.cur)
    requires tr.ts[k + 1].f.blocks[tr.ts[k].f.cur].body == tr.ts[k].f.blocks[tr.ts[k].f.cur].body + [inst]
    ensures Step(g, c) == StepInst(c, inst)
  {
    hide AllSteps, AllStates, Finish, StepInst, StepTerm;
    GrowingInFinal(tr, g, k + 1, tr.ts[k].f.cur);
  }

  // ---------------------------------------------------------------- operands

  /** The operands near the top of the stack. */
  lemma TopOperand(t: TState, stack: seq<Word>, c: Config, i: nat)
    requires Placed(t, stack, c) && FloorOf(t.ctrl) + i < |t.stack|
    ensures i < |stack| && 0 <= |t.stack| - 1 - i < |t.stack| && stack[|stack| - 1 - i] == Get(c.env, t.stack[|t.stack| - 1 - i])
    ensures t.stack[|t.stack| - 1 - i] in c.env
  {
    hide Stacked, View, Get, FloorOf;
    StackedNonNegative(|t.stack|, t.ctrl);
    ViewTop(t.stack, t.ctrl, i + 1);
    var w := View(t.stack, t.ctrl);
    assert w[|w| - 1 - i..][0] == t.stack[|t.stack| - 1 - i..][0];
  }

  lemma StackedNonNegative(size: int, ctrl: seq<Frame>)
    requires Stacked(size, ctrl)
    ensures 0 <= FloorOf(ctrl)
  {
  }

  lemma TopOperands(t: TState, stack: seq<Word>, c: Config, n: nat)
    requires Placed(t, stack, c) && FloorOf(t.ctrl) + n <= |t.stack|
    ensures n <= |stack| && n <= |t.stack| && stack[|stack| - n..] == GetAll(c.env, t.stack[|t.stack| - n..])
    ensures Defined(c.env, t.stack[|t.stack| - n..])
  {
    hide Stacked, View, GetAll, FloorOf, Defined;
    StackedNonNegative(|t.stack|, t.ctrl);
    ViewTop(t.stack, t.ctrl, n);
    var w := View(t.stack, t.ctrl);
    GetAllTake(c.env, w, |w| - n);
    GetAllSize(c.env, w);
  }

  lemma GetAllSize(env: map<Value, Word>, vs: seq<Value>)
    ensures |GetAll(env, vs)| == |vs|
  {
  }

  lemma Undisturbed(env: map<Value, Word>, vs: seq<Value>, v: Value, w: Word)
    requires v !in vs
    ensures GetAll(env[v := w], vs) == GetAll(env, vs)
  {
  }

  lemma ViewBounded(stack: seq<Value>, ctrl: seq<Frame>, v: Value)
    requires Stacked(|stack|, ctrl) && Bounded(stack, v)
    ensures v !in View(stack, ctrl)
  {
    if v in View(stack, ctrl) {
      ViewElems(stack, ctrl, v);
    }
  }

  /** Popping operands off the stack. */
  lemma PoppedView(t: TState, stack: seq<Word>, c: Config, n: nat)
    requires Placed(t, stack, c) && FloorOf(t.ctrl) + n <= |t.stack|
    ensures n <= |stack| && n <= |t.stack| && Stacked(|t.stack| - n, t.ctrl)
    ensures GetAll(c.env, View(t.stack[..|t.stack| - n], t.ctrl)) == stack[..|stack| - n]
    ensures Defined(c.env, View(t.stack[..|t.stack| - n], t.ctrl))
  {
    hide Stacked, View, GetAll, FloorOf, Defined;
    StackedNonNegative(|t.stack|, t.ctrl);
    ViewPop(t.stack, t.ctrl, n);
    var w := View(t.stack, t.ctrl);
    GetAllTake(c.env, w, |w| - n);
    GetAllSize(c.env, w);
  }

  /** An instruction that pops `n` operands and pushes its result `w`. */
  lemma PushPlaced(t: TState, stack: seq<Word>, c: Config, n: nat, inst: Inst, w: Word)
    requires Placed(t, stack, c) && FloorOf(t.ctrl) + n <= |t.stack| && Bounded(t.stack, t.f.nextValue)
    requires PushResult(t, n, inst).Ok?
    ensures n <= |stack|
    ensures Placed(PushResult(t, n, inst).value, stack[..|stack| - n] + [w],
                   c.(pos := c.pos + 1, env := c.env[t.f.nextValue := w]))
    ensures
      var t' := PushResult(t, n, inst).value;
      t'.ctrl == t.ctrl && IsBlock(t'.f, t.f.cur) && t'.f.blocks[t.f.cur].body == t.f.blocks[t.f.cur].body + [inst]
  {
    hide Stacked, View, GetAll, FloorOf, Bounded;
    PoppedView(t, stack, c, n);
    var rest, v := t.stack[..|t.stack| - n], t.f.nextValue;
    ViewPush(rest, t.ctrl, [v]);
    PrefixBounded(t.stack, |t.stack| - n, v);
    ViewBounded(rest, t.ctrl, v);
    var env' := c.env[v := w];
    GetAllConcat(env', View(rest, t.ctrl), [v]);
    Undisturbed(c.env, View(rest, t.ctrl), v, w);
    GetOne(env', v);
  }

  lemma PrefixBounded(stack: seq<Value>, n: nat, v: Value)
    requires n <= |stack| && Bounded(stack, v)
    ensures Bounded(stack[..n], v)
  {
  }

  lemma GetOne(env: map<Value, Word>, v: Value)
    ensures GetAll(env, [v]) == [Get(env, v)]
  {
  }

  lemma FreshBounded(t: TState)
    requires Fresh(t)
    ensures Bounded(t.stack, t.f.nextValue)
  {
    hide Bounded, FrameFresh, ParamsOk;
  }

  /** How many operands a straight-line operator finds above the innermost frame. */
  lemma StraightFacts(tr: Trace, g: Func, m: Machine, c: Config)
    requires Sim(tr, g, m, c) && m.pc < |tr.ops| && IsStraight(tr.ops[m.pc])
    ensures |tr.ts| == |tr.vs| == |tr.ops| + 1
    ensures
      var t, op := tr.ts[m.pc], tr.ops[m.pc];
      && TransLive(t, op) == Ok(tr.ts[m.pc + 1]) && FloorOf(t.ctrl) + Pops(op) <= |t.stack| && Bounded(t.stack, t.f.nextValue)
      && Placed(t, m.stack, c) && |tr.ts[m.pc + 1].ctrl| == |t.ctrl|
      && (op.LocalGet? || op.LocalSet? || op.LocalTee? ==> op.local < |m.locals|)
  {
    hide AllSteps, AllStates, Inv, Fresh, LabelsOk, Stacked, View, Finish, Validate, TransDead, TransLive, IsUnreachable, GetAll, Bounded;
    var v, t, op := tr.vs[m.pc], tr.ts[m.pc], tr.ops[m.pc];
    SimState(tr, g, m, c);
    StateAt(tr, m.pc);
    StepFrom(tr, m.pc);
    LiveFacts(v, t);
    ValidStraight(v, op);
    ArgsAvailable(v, t, Pops(op));
    FreshBounded(t);
    ValidLocal(v, op);
  }

  lemma ValidLocal(v: VState, op: Op)
    requires Validate(v, op).Just?
    ensures op.LocalGet? || op.LocalSet? || op.LocalTee? ==> op.local < v.locals
  {
  }

  // ---------------------------------------------------------------- the operators

  /** An operator that pops `n` operands and pushes what its instruction computes. */
  lemma PushSim(tr: Trace, g: Func, m: Machine, c: Config, n: nat, inst: Inst, w: Word)
    requires Sim(tr, g, m, c) && m.pc < |tr.ops| && IsStraight(tr.ops[m.pc])
    requires TransLive(tr.ts[m.pc], tr.ops[m.pc]) == PushResult(tr.ts[m.pc], n, inst) && Pops(tr.ops[m.pc]) == n
    requires n <= |m.stack| ==> MStep(tr.ops, m) == MRunning(m.(pc := m.pc + 1, stack := m.stack[..|m.stack| - n] + [w]))
    requires StepInst(c, inst) == Advance(c, tr.ts[m.pc].f.nextValue, w)
    ensures Matches(tr, g, m, c, 1)
  {
    hide TransLive, MStep, StepInst, PushResult, Placed, Step, Run, FloorOf, LabelsOk, AllSteps, AllStates, Finish, Bounded;
    StraightFacts(tr, g, m, c);
    var t := tr.ts[m.pc];
    PushPlaced(t, m.stack, c, n, inst, w);
    PlacedAt(t, m.stack, c);
    RunsInst(tr, g, m.pc, c, inst);
    RunOne(g, c);
    var c' := c.(pos := c.pos + 1, env := c.env[t.f.nextValue := w]);
    FallsThrough(tr, g, m, c, m.stack[..|m.stack| - n] + [w], m.locals, c');
  }

  lemma PlacedAt(t: TState, stack: seq<Word>, c: Config)
    requires Placed(t, stack, c)
    ensures t.reachable && c.block == t.f.cur && IsBlock(t.f, t.f.cur) && c.pos == |t.f.blocks[t.f.cur].body|
  {
    hide Stacked, View;
  }

  lemma ConstSim(tr: Trace, g: Func, m: Machine, c: Config)
    requires Sim(tr, g, m, c) && m.pc < |tr.ops| && tr.ops[m.pc].Const?
    ensures Matches(tr, g, m, c, 1)
  {
    hide Sim, Matches, PushResult;
    SimShape(tr, g, m, c);
    var t, n := tr.ts[m.pc], tr.ops[m.pc].n;
    assert TransLive(t, tr.ops[m.pc]) == PushResult(t, 0, Iconst(t.f.nextValue, n));
    PushSim(tr, g, m, c, 0, Iconst(t.f.nextValue, n), n);
  }

  lemma LocalGetSim(tr: Trace, g: Func, m: Machine, c: Config)
    requires Sim(tr, g, m, c) && m.pc < |tr.ops| && tr.ops[m.pc].LocalGet?
    ensures Matches(tr, g, m, c, 1)
  {
    hide Sim, Matches, PushResult, Placed, FloorOf;
    SimShape(tr, g, m, c);
    StraightFacts(tr, g, m, c);
    SimLocals(tr, g, m, c);
    var t, i := tr.ts[m.pc], tr.ops[m.pc].local;
    assert TransLive(t, tr.ops[m.pc]) == PushResult(t, 0, UseVar(t.f.nextValue, i));
    PushSim(tr, g, m, c, 0, UseVar(t.f.nextValue, i), m.locals[i]);
  }

  lemma SimLocals(tr: Trace, g: Func, m: Machine, c: Config)
    requires Sim(tr, g, m, c)
    ensures c.locals == m.locals
  {
    hide AllSteps, AllStates, Placed, LabelsOk, Finish;
  }

  lemma AddSim(tr: Trace, g: Func, m: Machine, c: Config)
    requires Sim(tr, g, m, c) && m.pc < |tr.ops| && tr.ops[m.pc].Add?
    ensures Matches(tr, g, m, c, 1)
  {
    hide Sim, Matches, PushResult, Placed, FloorOf, Get, Add32;
    SimShape(tr, g, m, c);
    StraightFacts(tr, g, m, c);
    var t := tr.ts[m.pc];
    TopOperand(t, m.stack, c, 0);
    TopOperand(t, m.stack, c, 1);
    var args := PeekN(t.stack, 2).value;
    var inst := Iadd(t.f.nextValue, args[0], args[1]);
    assert TransLive(t, tr.ops[m.pc]) == PushResult(t, 2, inst);
    PushSim(tr, g, m, c, 2, inst, Add32(Operand(m, 1), Operand(m, 0)));
  }

  lemma SelectSim(tr: Trace, g: Func, m: Machine, c: Config)
    requires Sim(tr, g, m, c) && m.pc < |tr.ops| && tr.ops[m.pc].Select?
    ensures Matches(tr, g, m, c, 1)
  {
    hide Sim, Matches, PushResult, Placed, FloorOf, Get;
    SimShape(tr, g, m, c);
    StraightFacts(tr, g, m, c);
    var t := tr.ts[m.pc];
    TopOperand(t, m.stack, c, 0);
    TopOperand(t, m.stack, c, 1);
    TopOperand(t, m.stack, c, 2);
    var args := PeekN(t.stack, 3).value;
    var inst := SelectInst(t.f.nextValue, args[2], args[0], args[1]);
    assert TransLive(t, tr.ops[m.pc]) == PushResult(t, 3, inst);
    PushSim(tr, g, m, c, 3, inst, if Operand(m, 0) != 0 then Operand(m, 2) else Operand(m, 1));
  }

  lemma NopDropSim(tr: Trace, g: Func, m: Machine, c: Config)
    requires Sim(tr, g, m, c) && m.pc < |tr.ops| && (tr.ops[m.pc].Nop? || tr.ops[m.pc].Drop?)
    ensures Matches(tr, g, m, c, 0)
  {
    hide AllSteps, AllStates, Finish, LabelsOk, Placed, FloorOf;
    SimShape(tr, g, m, c);
    StraightFacts(tr, g, m, c);
    var t := tr.ts[m.pc];
    var n := Pops(tr.ops[m.pc]);
    PlacedAt(t, m.stack, c);
    assert t.stack[..|t.stack|] == t.stack;
    DropPlaced(t, m.stack, c, n, tr.ts[m.pc + 1]);
    FallsThrough(tr, g, m, c, m.stack[..|m.stack| - n], m.locals, c);
    RunNone(g, c);
    assert m.stack[..|m.stack| - n] + [] == m.stack[..|m.stack| - n];
  }

  lemma DropPlaced(t: TState, stack: seq<Word>, c: Config, n: nat, t': TState)
    requires Placed(t, stack, c) && FloorOf(t.ctrl) + n <= |t.stack| && n <= |t.stack|
    requires t'.ctrl == t.ctrl && t'.reachable && t'.f == t.f && t'.stack == t.stack[..|t.stack| - n]
    ensures n <= |stack| && Placed(t', stack[..|stack| - n], c)
  {
    hide Stacked, View, GetAll, FloorOf;
    PoppedView(t, stack, c, n);
  }

  lemma LocalPlaced(t: TState, stack: seq<Word>, c: Config, i: nat, keep: bool, c': Config)
    requires Placed(t, stack, c) && FloorOf(t.ctrl) + 1 <= |t.stack| && TransLocalSet(t, i, keep).Ok?
    requires c'.block == c.block && c'.pos == c.pos + 1 && c'.env == c.env
    ensures |stack| >= 1 && Placed(TransLocalSet(t, i, keep).value, if keep then stack else stack[..|stack| - 1], c')
    ensures
      var t' := TransLocalSet(t, i, keep).value;
      && 1 <= |t.stack| && t'.ctrl == t.ctrl && IsBlock(t'.f, t.f.cur)
      && t'.f.blocks[t.f.cur].body == t.f.blocks[t.f.cur].body + [DefVar(i, t.stack[|t.stack| - 1])]
  {
    hide Stacked, View, GetAll, FloorOf;
    PoppedView(t, stack, c, 1);
  }

  lemma LocalSetSim(tr: Trace, g: Func, m: Machine, c: Config)
    requires Sim(tr, g, m, c) && m.pc < |tr.ops| && (tr.ops[m.pc].LocalSet? || tr.ops[m.pc].LocalTee?)
    ensures Matches(tr, g, m, c, 1)
  {
    hide Sim, Placed, FloorOf, Get, Step, Run, Finish, TransLocalSet, AllSteps, AllStates;
    SimShape(tr, g, m, c);
    SimLocals(tr, g, m, c);
    StraightFacts(tr, g, m, c);
    var t, op := tr.ts[m.pc], tr.ops[m.pc];
    var i, keep := op.local, op.LocalTee?;
    TopOperand(t, m.stack, c, 0);
    var w := Operand(m, 0);
    var c' := c.(pos := c.pos + 1, locals := c.locals[i := w]);
    LocalPlaced(t, m.stack, c, i, keep, c');
    PlacedAt(t, m.stack, c);
    IsFinalOf(tr, g, m, c);
    RunsInst(tr, g, m.pc, c, DefVar(i, t.stack[|t.stack| - 1]));
    RunOne(g, c);
    var stack := if keep then m.stack else m.stack[..|m.stack| - 1];
    FallsThrough(tr, g, m, c, stack, m.locals[i := w], c');
    assert m.stack == m.stack[..|m.stack| - 1] + [w];
    assert m.stack[..|m.stack| - 1] + [] == m.stack[..|m.stack| - 1];
  }

  lemma IsFinalOf(tr: Trace, g: Func, m: Machine, c: Config)
    requires Sim(tr, g, m, c)
    ensures IsFinal(tr, g)
  {
    hide AllSteps, AllStates, Placed, LabelsOk, Finish;
  }

  lemma StraightSim(tr: Trace, g: Func, m: Machine, c: Config) returns (s: nat)
    requires Sim(tr, g, m, c) && m.pc < |tr.ops| && IsStraight(tr.ops[m.pc])
    ensures Matches(tr, g, m, c, s)
  {
    hide Sim, Matches;
    s := 1;
    match tr.ops[m.pc] {
      case Nop => NopDropSim(tr, g, m, c); s := 0;
      case Drop => NopDropSim(tr, g, m, c); s := 0;
      case Const(_) => ConstSim(tr, g, m, c);
      case Add => AddSim(tr, g, m, c);
      case Select => SelectSim(tr, g, m, c);
      case LocalGet(_) => LocalGetSim(tr, g, m, c);
      case LocalSet(_) => LocalSetSim(tr, g, m, c);
      case LocalTee(_) => LocalSetSim(tr, g, m, c);
    }
  }
}
