/** A branch taken by the machine is the jump the translated function takes. */
module BranchSimulation {
  import opened Cfg
  import opened Validation
  import opened Translation
  import opened TranslationInvariant
  import opened LiveSteps
  import opened TranslationRuns
  import opened ValueFreshness
  import opened ValueStack
  import opened WasmMachine
  import opened Traces
  import opened Landing
  import opened SimulationRelation

  /** What a branch to frame `i` keeps of the operands. */
  lemma KeptOperands(v: VState, t: TState, i: nat, env: map<Value, Word>)
    requires Inv(v, t) && t.reachable && i < |t.ctrl| && Stacked(|t.stack|, t.ctrl) && Defined(env, View(t.stack, t.ctrl))
    ensures 0 <= BaseSize(t.ctrl[i]) <= |t.stack| && Stacked(BaseSize(t.ctrl[i]), t.ctrl[..i]) && i < |v.ctrls|
    ensures
      var h, all := v.ctrls[i].height, GetAll(env, View(t.stack, t.ctrl));
      h <= |all| && all[..h] == GetAll(env, View(t.stack[..BaseSize(t.ctrl[i])], t.ctrl[..i]))
    ensures Defined(env, View(t.stack[..BaseSize(t.ctrl[i])], t.ctrl[..i]))
  {
    hide Inv, Stacked, View, GetAll, Defined;
    InvShape(v, t);
    AllReal(v, t);
    ViewBelow(t.stack, t.ctrl, i);
    ViewHeight(v, t, i);
    GetAllTake(env, View(t.stack, t.ctrl), v.ctrls[i].height);
  }

  lemma SimState(tr: Trace, g: Func, m: Machine, c: Config)
    requires Sim(tr, g, m, c)
    ensures m.pc <= |tr.ops| && Inv(tr.vs[m.pc], tr.ts[m.pc]) && Fresh(tr.ts[m.pc]) && tr.ts[m.pc].reachable
    ensures |tr.vs[m.pc].ctrls| == |tr.ts[m.pc].ctrl| == |m.labels|
    ensures m.stack == GetAll(c.env, View(tr.ts[m.pc].stack, tr.ts[m.pc].ctrl)) && |m.stack| == tr.vs[m.pc].opds
  {
    hide AllSteps, AllStates, Inv, Fresh, LabelOk, Stacked, View;
    StateAt(tr, m.pc);
    InvView(tr.vs[m.pc], tr.ts[m.pc]);
  }

  lemma FreshFrame(t: TState, i: nat)
    requires Fresh(t) && i < |t.ctrl| && IsReal(t.ctrl[i])
    ensures FrameFresh(t, t.ctrl[i]) && ParamsOk(t.f)
  {
    hide FrameFresh, ParamsOk;
  }

  lemma TargetParams(v: VState, t: TState, i: nat)
    requires Inv(v, t) && t.reachable && i < |t.ctrl|
    ensures IsBlock(t.f, BrDestination(t.ctrl[i])) && |t.f.blocks[BrDestination(t.ctrl[i])].params| == BrArity(t.ctrl[i])
    ensures IsReal(t.ctrl[i]) && IsBlock(t.f, t.ctrl[i].destination)
  {
    hide Inv;
    TargetsDiffer(v, t, i, i);
    DestinationExists(v, t, i);
  }

  /** Entering the target of a branch to frame `i` with values `ws`, when the branch continues at `n`. */
  lemma EntersTarget(tr: Trace, g: Func, m: Machine, c: Config, i: nat, n: nat, ws: seq<Word>)
    requires Sim(tr, g, m, c) && i < |m.labels| && n <= |tr.ops| && Landed(tr.ts[m.pc], tr.ts[n], i)
    requires i < |tr.ts[m.pc].ctrl| && |ws| == BrArity(tr.ts[m.pc].ctrl[i]) && |tr.ts[n].ctrl| <= |m.labels|
    requires LabelsOk(tr, n, m.labels[..|tr.ts[n].ctrl|])
    ensures m.labels[i].height <= |m.stack|
    ensures
      var r := Enter(g, BrDestination(tr.ts[m.pc].ctrl[i]), ws, c.env, c.locals);
      && r.Running?
      && Sim(tr, g, Machine(n, m.stack[..m.labels[i].height] + ws, m.labels[..|tr.ts[n].ctrl|], m.locals), r.c)
  {
    hide AllSteps, AllStates, Inv, Fresh, LabelsOk, Stacked, View, Landed, FrameFresh, ParamsOk, Enter, Finish, GetAll;
    var v, t := tr.vs[m.pc], tr.ts[m.pc];
    SimState(tr, g, m, c);
    TargetParams(v, t, i);
    FreshFrame(t, i);
    GrowingInFinal(tr, g, m.pc, BrDestination(t.ctrl[i]));
    KeptOperands(v, t, i, c.env);
    Arrive(t, tr.ts[n], i, g, c.env, c.locals, ws);
    LabelHeight(tr, m, i);
    SameLocals(tr, m.pc);
    SameLocals(tr, n);
  }

  lemma LabelHeight(tr: Trace, m: Machine, i: nat)
    requires m.pc < |tr.ts| == |tr.vs| == |tr.ops| + 1 && LabelsOk(tr, m.pc, m.labels) && i < |m.labels|
    ensures |tr.ts[m.pc].ctrl| == |tr.vs[m.pc].ctrls| == |m.labels| && LabelOk(tr, m.pc, i, m.labels[i])
    ensures m.labels[i].height == tr.vs[m.pc].ctrls[i].height && m.labels[i].arity == BrArity(tr.ts[m.pc].ctrl[i])
  {
    hide LoopSince;
    assert LabelOk(tr, m.pc, i, m.labels[i]);
  }

  /** The operator at `k` records its branch to frame `i` and changes no nesting. */
  ghost predicate MarksExit(tr: Trace, k: nat, i: nat)
    requires k < |tr.ops| && |tr.ts| == |tr.ops| + 1
  {
    && |tr.ts[k + 1].ctrl| == |tr.ts[k].ctrl| && i < |tr.ts[k].ctrl|
    && (!tr.ts[k].ctrl[i].LoopFrame? ==> ExitBranched(tr.ts[k + 1].ctrl[i]))
  }

  lemma ExitStays(t: TState, t': TState, i: nat)
    requires Kept(t, t', i) && ExitBranched(t.ctrl[i])
    ensures Continuing(t', i)
  {
  }

  /** A branch out of a block or `if` continues after the `end` found by scanning. */
  lemma BranchOut(tr: Trace, g: Func, m: Machine, c: Config, d: nat)
    requires Sim(tr, g, m, c) && m.pc < |tr.ops| && d < |m.labels|
    requires MarksExit(tr, m.pc, |m.labels| - 1 - d) && m.labels[|m.labels| - 1 - d].start.Nothing?
    ensures
      var i, n := |m.labels| - 1 - d, EndFrom(tr.ops, m.pc + 1, d) + 1;
      && n <= |tr.ops| && Landed(tr.ts[m.pc], tr.ts[n], i) && |tr.ts[n].ctrl| == i
      && LabelsOk(tr, n, m.labels[..i])
  {
    hide AllSteps, AllStates, Inv, Fresh, LabelsOk, Stacked, View, Kept, Continuing, Finish, Placed, Validate, TransOp, Landed;
    var k, i := m.pc, |m.labels| - 1 - d;
    SimState(tr, g, m, c);
    LabelHeight(tr, m, i);
    FindEnd(tr, k + 1, i, d);
    var e := EndFrom(tr.ops, k + 1, d);
    TargetParams(tr.vs[k], tr.ts[k], i);
    StateAt(tr, k);
    StepFrom(tr, k);
    StillReal(tr, k, i);
    Between(tr, k + 1, e, i);
    ExitStays(tr.ts[k + 1], tr.ts[e], i);
    assert Open(tr, k, e, i);
    LandsForward(tr, k, i, e);
    LandedAlike(tr.ts[k], tr.ts[e + 1], i);
    LabelsForward(tr, k, e + 1, m.labels);
  }

  lemma LandedAlike(t: TState, t': TState, i: nat)
    requires Landed(t, t', i)
    ensures i < |t.ctrl| && |t'.ctrl| == (if t.ctrl[i].LoopFrame? then i + 1 else i)
    ensures forall j :: 0 <= j < |t'.ctrl| ==> Alike(t.ctrl[j], t'.ctrl[j])
  {
    hide Alike;
  }

  lemma StillReal(tr: Trace, k: nat, i: nat)
    requires Valid(tr) && k < |tr.ops| && i < |tr.ts[k].ctrl| && i < |tr.ts[k + 1].ctrl| && IsReal(tr.ts[k].ctrl[i])
    ensures IsReal(tr.ts[k + 1].ctrl[i])
  {
    hide AllSteps, AllStates, Kept;
    assert Open(tr, k, k + 1, i);
    Between(tr, k, k + 1, i);
    KeptReal(tr.ts[k], tr.ts[k + 1], i);
  }

  /** A branch to a loop continues at its start. */
  lemma BranchBack(tr: Trace, g: Func, m: Machine, c: Config, i: nat)
    requires Sim(tr, g, m, c) && i < |m.labels| && m.labels[i].start.Just?
    ensures
      var n := m.labels[i].start.it;
      && n <= |tr.ops| && Landed(tr.ts[m.pc], tr.ts[n], i) && |tr.ts[n].ctrl| == i + 1
      && LabelsOk(tr, n, m.labels[..i + 1])
  {
    hide AllSteps, AllStates, Inv, Fresh, LabelsOk, Stacked, View, Finish, Placed, Landed, LoopSince;
    LabelHeight(tr, m, i);
    SimState(tr, g, m, c);
    var s := m.labels[i].start.it;
    LoopSinceBound(tr, s, m.pc, i);
    LandsBack(tr, s, m.pc, i);
    LandedAlike(tr.ts[m.pc], tr.ts[s], i);
    LabelsBack(tr, s, m.pc, i, m.labels);
  }

  lemma LoopSinceBound(tr: Trace, s: nat, k: nat, i: nat)
    requires k < |tr.ts| == |tr.ops| + 1 && LoopSince(tr, s, k, i)
    ensures s <= k
  {
  }

  /** A branch `d` levels out, taken with the operands of `m0`, which are those of `m` or all but the top one. */
  lemma BranchTaken(tr: Trace, g: Func, m: Machine, c: Config, m0: Machine, d: nat, ws: seq<Word>)
    requires Sim(tr, g, m, c) && m.pc < |tr.ops| && d < |m.labels| && MarksExit(tr, m.pc, |m.labels| - 1 - d)
    requires m0 == m.(stack := m0.stack) && m0.stack <= m.stack
    requires
      var l := m.labels[|m.labels| - 1 - d];
      l.height + l.arity <= |m0.stack| && ws == m0.stack[|m0.stack| - l.arity..]
    ensures |tr.ts[m.pc].ctrl| == |m.labels|
    ensures
      var s := TakeBranch(tr.ops, m0, d);
      var r := Enter(g, BrDestination(FrameAt(tr.ts[m.pc].ctrl, d)), ws, c.env, c.locals);
      s.MRunning? && r.Running? && Sim(tr, g, s.m, r.c)
  {
    hide Sim, Landed, LabelsOk, Enter, EndFrom;
    var i := |m.labels| - 1 - d;
    var h := m.labels[i].height;
    SimShape(tr, g, m, c);
    LabelHeight(tr, m, i);
    assert m0.stack[..h] == m.stack[..h];
    if m.labels[i].start.Just? {
      BranchBack(tr, g, m, c, i);
      EntersTarget(tr, g, m, c, i, m.labels[i].start.it, ws);
    } else {
      BranchOut(tr, g, m, c, d);
      EntersTarget(tr, g, m, c, i, EndFrom(tr.ops, m.pc + 1, d) + 1, ws);
    }
  }

  lemma SimShape(tr: Trace, g: Func, m: Machine, c: Config)
    requires Sim(tr, g, m, c)
    ensures m.pc <= |tr.ops| && |tr.ts| == |tr.vs| == |tr.ops| + 1 && LabelsOk(tr, m.pc, m.labels)
    ensures |m.labels| == |tr.ts[m.pc].ctrl| == |tr.vs[m.pc].ctrls|
  {
    hide AllSteps, AllStates, Placed, LabelOk, Finish;
  }
}
