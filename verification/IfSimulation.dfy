/** `if`: both outcomes of the condition continue where the machine does, whether the `else`
    block was made at once, by patching the branch later, or not at all. */
module IfSimulation {
  import opened Cfg
  import opened Validation
  import opened Translation
  import opened TranslationInvariant
  import opened LiveSteps
  import opened CloseSteps
  import opened BuilderGrowth
  import opened FrameStability
  import opened ValueFreshness
  import opened ValueStack
  import opened WasmMachine
  import opened Traces
  import opened Landing
  import opened SimulationRelation
  import opened BranchSimulation
  import opened StraightSimulation
  import opened ControlSimulation
  import opened JumpSimulation

  // ---------------------------------------------------------------- the if

  /** Where the false branch goes when the `if` is translated. */
  function FalseTarget(t: TState, bt: BlockType): Block {
    if bt.params == bt.results then |t.f.blocks| + 1 else |t.f.blocks| + 2
  }

  function HeadTerm(t: TState, bt: BlockType, els: Block): Term
    requires 1 + |bt.params| <= |t.stack|
  {
    var s := |t.stack| - 1;
    Brif(t.stack[s], |t.f.blocks|, [], els, t.stack[s - |bt.params|..s])
  }

  function NewIf(t: TState, bt: BlockType): Frame
    requires 1 + |bt.params| <= |t.stack|
  {
    IfFrame(|t.f.blocks| + 1, |bt.params|, |bt.results|, |t.stack| - 1, false,
            if bt.params == bt.results then NoElse(t.f.cur, |t.f.blocks| + 1) else WithElse(|t.f.blocks| + 2), bt, true, Nothing)
  }

  lemma IfShape(t: TState, bt: BlockType)
    requires TransIf(t, bt).Ok? && t.reachable && IsBlock(t.f, t.f.cur)
    ensures 1 + |bt.params| <= |t.stack|
    ensures
      var t', s := TransIf(t, bt).value, |t.stack| - 1;
      && EndsWith(t, t', HeadTerm(t, bt, FalseTarget(t, bt)))
      && t'.f.cur == |t.f.blocks| && IsBlock(t'.f, t'.f.cur) && t'.f.blocks[t'.f.cur].body == [] && t'.f.blocks[t'.f.cur].params == []
      && t'.reachable && t'.ctrl == t.ctrl + [NewIf(t, bt)] && t'.stack == t.stack[..s] + t.stack[s - |bt.params|..s]
      && |t'.f.blocks| > FalseTarget(t, bt)
  {
    hide TermOk;
    var s := |t.stack| - 1;
    assert t.stack[..s][s - |bt.params|..] == t.stack[s - |bt.params|..s];
  }

  /** The `if` at `k` up to the `else` or `end` of its first branch at `e`. */
  lemma IfOpenTo(tr: Trace, k: nat, e: nat)
    requires Complete(tr) && k < |tr.ops| && tr.ops[k].IfOp? && tr.ts[k].reachable && e == ElseFrom(tr.ops, k + 1, 0)
    ensures |tr.ts[k + 1].ctrl| == |tr.ts[k].ctrl| + 1
    ensures k < e < |tr.ops| && (tr.ops[e].EndOp? || tr.ops[e].ElseOp?) && |tr.ts[e].ctrl| == |tr.ts[k].ctrl| + 1
    ensures Open(tr, k + 1, e, |tr.ts[k].ctrl|) && NoElseAt(tr, k + 1, e, |tr.ts[k].ctrl|)
  {
    hide AllSteps, AllStates, Validate, TransOp, Open, NoElseAt;
    StepFrom(tr, k);
    FindElse(tr, k + 1, |tr.ts[k].ctrl|, 0);
  }

  /** The frame of the `if` as it is at `e`. */
  lemma IfFrameAt(tr: Trace, k: nat, e: nat)
    requires Valid(tr) && k < e < |tr.ops| && |tr.ts[k + 1].ctrl| == |tr.ts[k].ctrl| + 1 == |tr.ts[e].ctrl|
    requires Open(tr, k + 1, e, |tr.ts[k].ctrl|) && NoElseAt(tr, k + 1, e, |tr.ts[k].ctrl|)
    requires IsReal(TopFrame(tr.ts[k + 1])) && TopFrame(tr.ts[k + 1]).IfFrame? && TopFrame(tr.ts[k + 1]).consequentEnds.Nothing?
    ensures
      var t, fr, fr' := tr.ts[k + 1], TopFrame(tr.ts[k + 1]), TopFrame(tr.ts[e]);
      && Kept(t, tr.ts[e], |tr.ts[k].ctrl|) && SameBranch(fr, fr') && IsReal(fr')
      && fr' == fr.(exitBranched := fr'.exitBranched)
      && 0 <= fr.origSize <= |t.stack| && fr.origSize <= |tr.ts[e].stack|
      && tr.ts[e].stack[..fr.origSize] == t.stack[..fr.origSize]
  {
    hide AllSteps, AllStates;
    Between(tr, k + 1, e, |tr.ts[k].ctrl|);
  }

  // ---------------------------------------------------------------- else

  /** What the `else` of an `if` entered in reachable code does to its head and its `else` block. */
  lemma ElseMakes(v: VState, t: TState)
    requires Inv(v, t) && t.ctrl != [] && IsReal(TopFrame(t)) && Validate(v, ElseOp).Just? && TransOp(t, ElseOp).Ok?
    ensures
      var fr, t' := TopFrame(t), TransOp(t, ElseOp).value;
      && fr.IfFrame? && IsBlock(t'.f, t'.f.cur) && t'.f.blocks[t'.f.cur].body == [] && |t'.f.blocks[t'.f.cur].params| == fr.numParams
      && (fr.elseData.WithElse? ==> t'.f.cur == fr.elseData.elseBlock)
      && (fr.elseData.NoElse? ==>
            && t'.f.cur == |t.f.blocks| && IsBlock(t.f, fr.elseData.branch) && IsBlock(t'.f, fr.elseData.branch)
            && t.f.blocks[fr.elseData.branch].term.Just? && t.f.blocks[fr.elseData.branch].term.it.Brif?
            && t'.f.blocks[fr.elseData.branch].term == Just(t.f.blocks[fr.elseData.branch].term.it.(els := t'.f.cur))
            && t'.f.blocks[fr.elseData.branch].body == t.f.blocks[fr.elseData.branch].body)
  {
    hide Inv, Validate, TransLive, TransDead, IsUnreachable;
    ElseShape(v, t);
    TopFacts(v, t);
    if t.reachable {
      LiveFacts(v, t);
    }
    var fr := TopFrame(t);
    if fr.elseData.NoElse? {
      if t.reachable { HeadNotCur(v, t); }
      ElseMakesPatched(t);
    } else {
      ElseMakesReady(t);
    }
    OpIsElse(t);
  }

  lemma OpIsElse(t: TState)
    ensures TransLive(t, ElseOp) == TransElse(t) && TransDead(t, ElseOp) == DeadElse(t)
  {
    hide TransElse, DeadElse;
  }

  lemma ElseMakesReady(t: TState)
    requires t.ctrl != [] && TopFrame(t).IfFrame? && TopFrame(t).elseData.WithElse? && TopFrame(t).consequentEnds.Nothing?
    requires TopFrame(t).headReachable && FrameOk(t.f, TopFrame(t)) && IsBlock(t.f, t.f.cur)
    ensures
      var r, els := if t.reachable then TransElse(t) else DeadElse(t), TopFrame(t).elseData.elseBlock;
      r.Ok? ==> r.value.f.cur == els && IsBlock(r.value.f, els) && r.value.f.blocks[els].body == []
                && |r.value.f.blocks[els].params| == TopFrame(t).numParams
  {
    hide TermOk, PredExcept, HasPred;
  }

  lemma ElseMakesPatched(t: TState)
    requires t.ctrl != [] && TopFrame(t).IfFrame? && TopFrame(t).elseData.NoElse? && TopFrame(t).consequentEnds.Nothing?
    requires TopFrame(t).headReachable && FrameOk(t.f, TopFrame(t)) && IsBlock(t.f, t.f.cur)
    requires |TopFrame(t).bt.params| == TopFrame(t).numParams && (t.reachable ==> TopFrame(t).elseData.branch != t.f.cur)
    ensures
      var r, p, els := if t.reachable then TransElse(t) else DeadElse(t), TopFrame(t).elseData.branch, |t.f.blocks|;
      && HeadOk(t.f, p, TopFrame(t).destination, TopFrame(t).numParams)
      && (r.Ok? ==>
            && r.value.f.cur == els && IsBlock(r.value.f, els) && r.value.f.blocks[els].body == []
            && |r.value.f.blocks[els].params| == TopFrame(t).numParams && IsBlock(r.value.f, p)
            && r.value.f.blocks[p].body == t.f.blocks[p].body
            && r.value.f.blocks[p].term == Just(t.f.blocks[p].term.it.(els := els)))
  {
    hide PredExcept, TermOk, ArgsOk;
    var fr := TopFrame(t);
    var p := fr.elseData.branch;
    assert HeadOk(t.f, p, fr.destination, fr.numParams);
    if t.reachable && TransElse(t).Ok? {
      var f1 := CreateBlock(t.f, |fr.bt.params|);
      var f2 := Terminate(f1, Jump(fr.destination, PeekN(t.stack, |fr.bt.params|).value)).value;
      PatchMakes(t.f, f2, fr);
    }
    if !t.reachable && DeadElse(t).Ok? {
      PatchMakes(t.f, CreateBlock(t.f, |fr.bt.params|), fr);
    }
  }

  lemma PatchMakes(f: Func, f2: Func, fr: Frame)
    requires fr.IfFrame? && fr.elseData.NoElse? && fr.elseData.placeholder == fr.destination
    requires HeadOk(f, fr.elseData.branch, fr.destination, fr.numParams)
    requires |f2.blocks| == |f.blocks| + 1 && f2.blocks[fr.elseData.branch] == f.blocks[fr.elseData.branch]
    ensures
      var p := fr.elseData.branch;
      PatchElse(f2, fr).Ok? ==>
        var h := PatchElse(f2, fr).value.0;
        && PatchElse(f2, fr).value.1 == |f.blocks| && |h.blocks| == |f2.blocks| && h.blocks[p].body == f.blocks[p].body
        && h.blocks[p].term == Just(f.blocks[p].term.it.(els := |f.blocks|))
        && h.blocks[|f.blocks|].params == f2.blocks[|f.blocks|].params && h.blocks[|f.blocks|].body == f2.blocks[|f.blocks|].body
  {
    hide ArgsOk;
  }

  // ---------------------------------------------------------------- the head in the final function

  /** A block is not the head of a pending `if` once the only frame it was the head of has had its `else` or ended. */
  lemma NoLongerHead(v: VState, t: TState, t': TState, p: Block)
    requires Inv(v, t) && t.ctrl != [] && IsReal(TopFrame(t)) && Exempt(TopFrame(t)) == p != RESERVED
    requires |t'.ctrl| <= |t.ctrl| && (forall j :: 0 <= j < |t.ctrl| - 1 && j < |t'.ctrl| ==> t'.ctrl[j] == t.ctrl[j])
    requires |t'.ctrl| == |t.ctrl| ==> Exempt(TopFrame(t')) == RESERVED
    ensures !PendingHead(t', p)
  {
    hide Inv, Exempt;
    forall j | 0 <= j < |t'.ctrl| && IsReal(t'.ctrl[j]) ensures Exempt(t'.ctrl[j]) != p {
      if j < |t.ctrl| - 1 && Exempt(t'.ctrl[j]) == p {
        HeadsDiffer(v, t, j, |t.ctrl| - 1);
        assert false;
      }
    }
  }

  /** The `if` may lack an `else` and does: its branch stays as it was. */
  lemma HeadWithoutElse(tr: Trace, g: Func, k: nat, e: nat)
    requires IsFinal(tr, g) && k < e < |tr.ops| && tr.ops[e].EndOp?
    requires |tr.ts[k + 1].ctrl| == |tr.ts[k].ctrl| + 1 == |tr.ts[e].ctrl|
    requires Open(tr, k + 1, e, |tr.ts[k].ctrl|) && NoElseAt(tr, k + 1, e, |tr.ts[k].ctrl|)
    requires IsReal(TopFrame(tr.ts[k + 1])) && Exempt(TopFrame(tr.ts[k + 1])) == tr.ts[k].f.cur != RESERVED
    requires IsBlock(tr.ts[k + 1].f, tr.ts[k].f.cur) && Filled(tr.ts[k + 1].f, tr.ts[k].f.cur)
    ensures
      var p := tr.ts[k].f.cur;
      && IsBlock(g, p) && g.blocks[p].term == tr.ts[k + 1].f.blocks[p].term && g.blocks[p].body == tr.ts[k + 1].f.blocks[p].body
  {
    hide AllSteps, AllStates, Finish, Inv, Fresh, Validate, TransOp, Grown, PendingHead, Exempt, Open, NoElseAt;
    var p, v, t, t' := tr.ts[k].f.cur, tr.vs[e], tr.ts[e], tr.ts[e + 1];
    HeadKept(tr, k + 1, e, |tr.ts[k].ctrl|, p);
    StateAt(tr, e);
    StepFrom(tr, e);
    EndReduces(v, t);
    NoLongerHead(v, t, t', p);
    OpGrown(t, EndOp);
    GrownKeeps(t.f, t'.f, RESERVED, p);
    FrozenInFinal(tr, g, e + 1, p);
  }

  /** The `if` may lack an `else` and has one: its branch was patched. */
  lemma HeadPatched(tr: Trace, g: Func, k: nat, e: nat)
    requires IsFinal(tr, g) && k < e < |tr.ops| && tr.ops[e].ElseOp?
    requires |tr.ts[k + 1].ctrl| == |tr.ts[k].ctrl| + 1 == |tr.ts[e].ctrl|
    requires Open(tr, k + 1, e, |tr.ts[k].ctrl|) && NoElseAt(tr, k + 1, e, |tr.ts[k].ctrl|)
    requires IsReal(TopFrame(tr.ts[k + 1])) && Exempt(TopFrame(tr.ts[k + 1])) == tr.ts[k].f.cur != RESERVED
    requires IsBlock(tr.ts[k + 1].f, tr.ts[k].f.cur) && Filled(tr.ts[k + 1].f, tr.ts[k].f.cur)
    requires tr.ts[k + 1].f.blocks[tr.ts[k].f.cur].term.it.Brif?
    ensures
      var p := tr.ts[k].f.cur;
      && IsBlock(g, p) && g.blocks[p].body == tr.ts[k + 1].f.blocks[p].body
      && g.blocks[p].term == Just(tr.ts[k + 1].f.blocks[p].term.it.(els := tr.ts[e + 1].f.cur))
  {
    hide AllSteps, AllStates, Finish, Inv, Fresh, Validate, TransOp, PendingHead, Open, NoElseAt;
    var p, v, t, t' := tr.ts[k].f.cur, tr.vs[e], tr.ts[e], tr.ts[e + 1];
    HeadKept(tr, k + 1, e, |tr.ts[k].ctrl|, p);
    StateAt(tr, e);
    StepFrom(tr, e);
    ElseMakes(v, t);
    ElseReduces(v, t);
    NoLongerHead(v, t, t', p);
    FrozenInFinal(tr, g, e + 1, p);
  }

  /** The `if` must have an `else`: its branch is final at once. */
  lemma HeadReady(tr: Trace, g: Func, k: nat)
    requires IsFinal(tr, g) && k < |tr.ops| && tr.ops[k].IfOp? && tr.ts[k].reachable
    requires |tr.ts[k + 1].ctrl| == |tr.ts[k].ctrl| + 1 && Exempt(TopFrame(tr.ts[k + 1])) == RESERVED
    requires IsBlock(tr.ts[k].f, tr.ts[k].f.cur)
    requires IsBlock(tr.ts[k + 1].f, tr.ts[k].f.cur) && Filled(tr.ts[k + 1].f, tr.ts[k].f.cur)
    ensures
      var p := tr.ts[k].f.cur;
      && IsBlock(g, p) && g.blocks[p].term == tr.ts[k + 1].f.blocks[p].term && g.blocks[p].body == tr.ts[k + 1].f.blocks[p].body
  {
    hide AllSteps, AllStates, Finish, Inv, Fresh, Validate, TransOp, Kept, Exempt;
    var v, t, t', p := tr.vs[k], tr.ts[k], tr.ts[k + 1], tr.ts[k].f.cur;
    StateAt(tr, k);
    StepFrom(tr, k);
    LiveFacts(v, t);
    forall i | 0 <= i < |t'.ctrl| && IsReal(t'.ctrl[i]) ensures Exempt(t'.ctrl[i]) != p {
      if i < |t.ctrl| {
        OldReal(v, t, tr.ops[k], i);
        assert Open(tr, k, k + 1, i);
        Between(tr, k, k + 1, i);
        KeptPending(t, t', i);
        if Exempt(t.ctrl[i]) == p {
          assert PendingHead(t, p);
          HeadsFilled(v, t, p);
          assert false;
        }
      }
    }
    FrozenInFinal(tr, g, k + 1, p);
  }

  /** Where the false branch goes in the end. */
  function FinalFalse(tr: Trace, k: nat, e: nat): Block
    requires k < e < |tr.ops| && |tr.ts| == |tr.ops| + 1
  {
    if tr.ops[e].ElseOp? then tr.ts[e + 1].f.cur else |tr.ts[k].f.blocks| + 1
  }

  /** An `if` that must have an `else` has one. */
  lemma MustHaveElse(tr: Trace, k: nat, e: nat)
    requires Valid(tr) && k < e < |tr.ops| && |tr.ts[k + 1].ctrl| == |tr.ts[k].ctrl| + 1 == |tr.ts[e].ctrl|
    requires Open(tr, k + 1, e, |tr.ts[k].ctrl|) && NoElseAt(tr, k + 1, e, |tr.ts[k].ctrl|)
    requires IsReal(TopFrame(tr.ts[k + 1])) && TopFrame(tr.ts[k + 1]).IfFrame? && TopFrame(tr.ts[k + 1]).consequentEnds.Nothing?
    requires TopFrame(tr.ts[k + 1]).elseData.WithElse? && (tr.ops[e].EndOp? || tr.ops[e].ElseOp?)
    ensures tr.ops[e].ElseOp? && tr.ts[e + 1].f.cur == TopFrame(tr.ts[k + 1]).elseData.elseBlock
  {
    hide AllSteps, AllStates, Inv, Fresh, Validate, TransOp, Kept, Open, NoElseAt, SameBranch;
    IfFrameAt(tr, k, e);
    StateAt(tr, e);
    StepFrom(tr, e);
    if tr.ops[e].EndOp? {
      EndArity(tr.vs[e], tr.ts[e]);
      assert false;
    } else {
      ElseMakes(tr.vs[e], tr.ts[e]);
    }
  }

  lemma IfHead(tr: Trace, g: Func, m: Machine, c: Config, e: nat)
    requires Sim(tr, g, m, c) && m.pc < |tr.ops| && tr.ops[m.pc].IfOp? && e == ElseFrom(tr.ops, m.pc + 1, 0)
    requires 1 + |tr.ops[m.pc].bt.params| <= |tr.ts[m.pc].stack|
    ensures m.pc < e < |tr.ops|
    ensures Step(g, c) == StepTerm(g, c, HeadTerm(tr.ts[m.pc], tr.ops[m.pc].bt, FinalFalse(tr, m.pc, e)))
  {
    hide AllSteps, AllStates, Finish, Inv, Fresh, Validate, TransIf, PendingHead, Open, NoElseAt, Placed, LabelsOk, Closed, StepTerm;
    LiveAt(tr, g, m, c);
    var k := m.pc;
    var t, bt := tr.ts[k], tr.ops[k].bt;
    IfShape(t, bt);
    IfOpenTo(tr, k, e);
    PlacedAt(t, m.stack, c);
    IsABlock(t.f, t.f.cur);
    if bt.params != bt.results {
      HeadReady(tr, g, k);
      MustHaveElse(tr, k, e);
    } else if tr.ops[e].EndOp? {
      HeadWithoutElse(tr, g, k, e);
    } else {
      HeadPatched(tr, g, k, e);
    }
  }

  // ---------------------------------------------------------------- the outcomes

  lemma ThenPlaced(t: TState, stack: seq<Word>, c: Config, bt: BlockType, c': Config)
    requires Placed(t, stack, c) && FloorOf(t.ctrl) + 1 + |bt.params| <= |t.stack| && TransIf(t, bt).Ok?
    requires c' == Config(|t.f.blocks|, 0, c.env, c.locals)
    ensures |stack| >= 1 && Placed(TransIf(t, bt).value, stack[..|stack| - 1], c')
  {
    hide Stacked, View, GetAll, FloorOf, TransIf;
    IfShape(t, bt);
    PoppedView(t, stack, c, 1);
    var s := t.stack[..|t.stack| - 1];
    assert s[|s| - |bt.params|..] == t.stack[|s| - |bt.params|..|s|];
    ViewIf(s, t.ctrl, NewIf(t, bt), |bt.params|);
  }

  function IfLabel(m: Machine, bt: BlockType): RLabel
    requires 1 + |bt.params| <= |m.stack|
  {
    RLabel(Nothing, |bt.results|, |m.stack| - 1 - |bt.params|)
  }

  /** The label of the `if` belongs to its frame. */
  lemma IfLabels(tr: Trace, g: Func, m: Machine, c: Config)
    requires Sim(tr, g, m, c) && m.pc < |tr.ops| && tr.ops[m.pc].IfOp?
    ensures
      var bt := tr.ops[m.pc].bt;
      && 1 + |bt.params| <= |m.stack| && 1 + |bt.params| <= |tr.ts[m.pc].stack|
      && FloorOf(tr.ts[m.pc].ctrl) + 1 + |bt.params| <= |tr.ts[m.pc].stack|
      && LabelsOk(tr, m.pc + 1, m.labels + [IfLabel(m, bt)])
  {
    hide AllSteps, AllStates, Finish, LabelsOk, Placed, FloorOf, Inv, Fresh, Validate, Closed, TransIf;
    LiveAt(tr, g, m, c);
    var v, t, bt := tr.vs[m.pc], tr.ts[m.pc], tr.ops[m.pc].bt;
    ValidIf(v, bt);
    ArgsAbove(v, t, 1 + |bt.params|);
    IfShape(t, bt);
    OldLabels(tr, m.pc, m.labels, IfLabel(m, bt));
  }

  /** The condition holds. */
  lemma ThenSim(tr: Trace, g: Func, m: Machine, c: Config, e: nat)
    requires Sim(tr, g, m, c) && m.pc < |tr.ops| && tr.ops[m.pc].IfOp? && e == ElseFrom(tr.ops, m.pc + 1, 0)
    requires m.stack != [] && Operand(m, 0) != 0
    ensures Matches(tr, g, m, c, 1)
  {
    hide AllSteps, AllStates, Finish, LabelsOk, Placed, FloorOf, Inv, Fresh, Validate, Closed, TransIf, Step, Run, Enter, Get, GetAll,
         ElseFrom;
    LiveAt(tr, g, m, c);
    var k := m.pc;
    var t, bt, t' := tr.ts[k], tr.ops[k].bt, tr.ts[k + 1];
    IfLabels(tr, g, m, c);
    IfHead(tr, g, m, c, e);
    IfShape(t, bt);
    TopOperand(t, m.stack, c, 0);
    RunOne(g, c);
    GrowingInFinal(tr, g, k + 1, |t.f.blocks|);
    EnterPlain(g, |t.f.blocks|, c.env, c.locals);
    NoArguments(c.env);
    var c' := Config(|t.f.blocks|, 0, c.env, c.locals);
    ThenPlaced(t, m.stack, c, bt, c');
    SameLocals(tr, k);
    SameLocals(tr, k + 1);
  }

  /** Parameters of blocks made after state `k` are younger than its values. */
  lemma {:induction false} NewSince(tr: Trace, k: nat, n: nat, b: Block)
    requires Valid(tr) && k <= n <= |tr.ops| && IsBlock(tr.ts[n].f, b) && !IsBlock(tr.ts[k].f, b)
    ensures NewParams(tr.ts[n].f.blocks[b].params, tr.ts[k].f.nextValue, tr.ts[n].f.nextValue)
    decreases n - k
  {
    hide AllSteps, AllStates, Validate, TransOp, NewParams;
    if k < n {
      StepFrom(tr, n - 1);
      OpGrown(tr.ts[n - 1], tr.ops[n - 1]);
      NextGrows(tr, k, n - 1);
      var f, f' := tr.ts[n - 1].f, tr.ts[n].f;
      if IsBlock(f, b) {
        NewSince(tr, k, n - 1, b);
        GrownKeeps(f, f', PatchedBlock(tr.ts[n - 1], tr.ops[n - 1]), b);
      }
      NewParamsWider(f'.blocks[b].params, tr.ts[k].f.nextValue, f.nextValue, f'.nextValue);
    }
  }

  lemma NewParamsWider(ps: seq<Value>, a: Value, b: Value, c: Value)
    requires a <= b <= c
    ensures NewParams(ps, b, c) || NewParams(ps, a, b) ==> NewParams(ps, a, c)
  {
  }

  lemma {:induction false} NextGrows(tr: Trace, k: nat, n: nat)
    requires Valid(tr) && k <= n <= |tr.ops|
    ensures tr.ts[k].f.nextValue <= tr.ts[n].f.nextValue && |tr.ts[k].f.blocks| <= |tr.ts[n].f.blocks|
    decreases n - k
  {
    hide AllSteps, AllStates, Validate, TransOp;
    if k < n {
      NextGrows(tr, k, n - 1);
      StepFrom(tr, n - 1);
      OpGrown(tr.ts[n - 1], tr.ops[n - 1]);
    }
  }

  /** The stack and frames at the start of the `else` branch are those at the `if`. */
  ghost predicate AtElse(t: TState, t': TState, bt: BlockType)
    requires 1 + |bt.params| <= |t.stack|
  {
    && t'.reachable && |t'.ctrl| == |t.ctrl| + 1 && t'.stack == t.stack[..|t.stack| - 1]
    && IsBlock(t'.f, t'.f.cur) && t'.f.blocks[t'.f.cur].body == [] && |t'.f.blocks[t'.f.cur].params| == |bt.params|
    && SameBounds(t.ctrl, t'.ctrl[..|t.ctrl|])
    && BaseSize(TopFrame(t')) == Floor(TopFrame(t')) == |t.stack| - 1 - |bt.params|
    && NewParams(t'.f.blocks[t'.f.cur].params, t.f.nextValue, t'.f.nextValue)
  }

  /** Entering the `else` block does not disturb the operands. */
  lemma ElsePlaced(t: TState, t': TState, stack: seq<Word>, c: Config, bt: BlockType, g: Func, ws: seq<Word>)
    requires Placed(t, stack, c) && FloorOf(t.ctrl) + 1 + |bt.params| <= |t.stack| && Bounded(t.stack, t.f.nextValue)
    requires 1 + |bt.params| <= |t.stack| && AtElse(t, t', bt) && |ws| == |bt.params|
    requires IsBlock(g, t'.f.cur) && g.blocks[t'.f.cur].params == t'.f.blocks[t'.f.cur].params
    ensures |stack| >= 1
    ensures
      var r := Enter(g, t'.f.cur, ws, c.env, c.locals);
      r.Running? && r.c.locals == c.locals && Placed(t', stack[..|stack| - 1], r.c)
  {
    hide Stacked, View, GetAll, FloorOf, SameBounds, BindAll, BaseSize, Floor;
    PoppedView(t, stack, c, 1);
    var s, ps, n := t'.stack, t'.f.blocks[t'.f.cur].params, |t.ctrl|;
    ViewSame(s, t.ctrl, t'.ctrl[..n]);
    BoundsFloor(t.ctrl, t'.ctrl[..n]);
    ViewOpen(s, t'.ctrl[..n], TopFrame(t'), |bt.params|);
    assert t'.ctrl[..n] + [TopFrame(t')] == t'.ctrl;
    ViewNotIn(s, t.ctrl, ps);
    BindAllKeeps(c.env, ps, ws, View(s, t.ctrl));
    forall k | 0 <= k < |View(s, t.ctrl)| ensures View(s, t.ctrl)[k] in BindAll(c.env, ps, ws) {
      BindDefines(c.env, ps, ws, View(s, t.ctrl)[k]);
    }
  }

  lemma BoundsFloor(a: seq<Frame>, b: seq<Frame>)
    requires SameBounds(a, b)
    ensures FloorOf(a) == FloorOf(b)
  {
  }

  lemma ElseReached(tr: Trace, k: nat, e: nat)
    requires Complete(tr) && k < |tr.ops| && tr.ops[k].IfOp? && tr.ts[k].reachable && e == ElseFrom(tr.ops, k + 1, 0)
    requires e < |tr.ops| && tr.ops[e].ElseOp? && 1 + |tr.ops[k].bt.params| <= |tr.ts[k].stack|
    ensures AtElse(tr.ts[k], tr.ts[e + 1], tr.ops[k].bt)
  {
    hide AllSteps, AllStates, Inv, Fresh, Validate, TransLive, TransDead, IsUnreachable, Open, NoElseAt, ElseFrom, Kept;
    var t, bt, u, t' := tr.ts[k], tr.ops[k].bt, tr.ts[e], tr.ts[e + 1];
    StateAt(tr, k);
    StepFrom(tr, k);
    LiveFacts(tr.vs[k], t);
    IfIsTrans(t, bt);
    IfShape(t, bt);
    IfOpenTo(tr, k, e);
    IfFrameAt(tr, k, e);
    StateAt(tr, e);
    StepFrom(tr, e);
    ElseMakes(tr.vs[e], u);
    ElseReduces(tr.vs[e], u);
    assert t'.stack == t.stack[..|t.stack| - 1];
    OuterBounds(tr, k, e);
    NextGrows(tr, k, e);
    NewSince(tr, k, e + 1, t'.f.cur);
  }

  lemma IfIsTrans(t: TState, bt: BlockType)
    ensures TransLive(t, IfOp(bt)) == TransIf(t, bt)
  {
    hide TransIf;
  }

  lemma OuterBounds(tr: Trace, k: nat, e: nat)
    requires Valid(tr) && k < e < |tr.ops| && tr.ops[k].IfOp? && tr.ops[e].ElseOp? && tr.ts[k].reachable
    requires |tr.ts[k + 1].ctrl| == |tr.ts[k].ctrl| + 1 == |tr.ts[e].ctrl| == |tr.ts[e + 1].ctrl|
    requires Kept(tr.ts[k + 1], tr.ts[e], |tr.ts[k].ctrl|)
    requires tr.ts[k + 1].ctrl[..|tr.ts[k].ctrl|] == tr.ts[k].ctrl
    requires tr.ts[e + 1].ctrl[..|tr.ts[k].ctrl|] == tr.ts[e].ctrl[..|tr.ts[k].ctrl|]
    ensures SameBounds(tr.ts[k].ctrl, tr.ts[e + 1].ctrl[..|tr.ts[k].ctrl|])
  {
    hide AllSteps, AllStates, Kept, Alike;
    var n := |tr.ts[k].ctrl|;
    KeptAlike(tr.ts[k + 1], tr.ts[e], n);
    AlikeBounds(tr.ts[k + 1].ctrl, tr.ts[e].ctrl, n);
  }

  /** Labels are as before after an `else`. */
  lemma ElseLabels(tr: Trace, e: nat, labels: seq<RLabel>)
    requires Valid(tr) && e < |tr.ops| && tr.ops[e].ElseOp? && LabelsOk(tr, e, labels)
    requires tr.ts[e].ctrl != [] && IsReal(TopFrame(tr.ts[e]))
    ensures LabelsOk(tr, e + 1, labels)
  {
    hide AllSteps, AllStates, Inv, Fresh, Validate, TransOp;
    var v, t, t' := tr.vs[e], tr.ts[e], tr.ts[e + 1];
    StateAt(tr, e);
    StateAt(tr, e + 1);
    StepFrom(tr, e);
    InvValid(v, t);
    ValidElse(v);
    ElseReduces(v, t);
    forall i | 0 <= i < |labels| ensures LabelOk(tr, e + 1, i, labels[i]) {
      assert LabelOk(tr, e, i, labels[i]);
    }
  }

  lemma InvValid(v: VState, t: TState)
    requires Inv(v, t)
    ensures VOk(v)
  {
    hide At, Ordered, RealPrefix, Closed, VOk, CursorOk;
  }

  lemma IfLabelsAtElse(tr: Trace, k: nat, e: nat, labels: seq<RLabel>)
    requires Complete(tr) && k < |tr.ops| && tr.ops[k].IfOp? && tr.ts[k].reachable && e == ElseFrom(tr.ops, k + 1, 0)
    requires e < |tr.ops| && tr.ops[e].ElseOp? && LabelsOk(tr, k + 1, labels)
    ensures LabelsOk(tr, e + 1, labels)
  {
    hide AllSteps, AllStates, Inv, Fresh, Validate, TransLive, TransDead, IsUnreachable, ElseFrom, Kept, LabelsOk, Alike, SameBranch;
    var t, bt := tr.ts[k], tr.ops[k].bt;
    StateAt(tr, k);
    StepFrom(tr, k);
    LiveFacts(tr.vs[k], t);
    IfIsTrans(t, bt);
    IfShape(t, bt);
    IfOpenTo(tr, k, e);
    IfFrameAt(tr, k, e);
    var n := |t.ctrl|;
    KeptAlike(tr.ts[k + 1], tr.ts[e], n);
    LabelsLength(tr, k + 1, labels);
    LabelsForward(tr, k + 1, e, labels);
    assert labels[..n + 1] == labels;
    ElseLabels(tr, e, labels);
  }

  lemma SecondOperandsOf(t: TState, stack: seq<Word>, c: Config, bt: BlockType)
    requires Placed(t, stack, c) && FloorOf(t.ctrl) + 1 + |bt.params| <= |t.stack| && 1 + |bt.params| <= |t.stack|
    ensures 1 + |bt.params| <= |stack| && stack[|stack| - 1] == Get(c.env, t.stack[|t.stack| - 1]) && t.stack[|t.stack| - 1] in c.env
    ensures Defined(c.env, t.stack[|t.stack| - 1 - |bt.params|..|t.stack| - 1])
    ensures GetAll(c.env, t.stack[|t.stack| - 1 - |bt.params|..|t.stack| - 1])
            == stack[|stack| - 1 - |bt.params|..|stack| - 1]
  {
    hide Placed, FloorOf, Get, GetAll;
    SecondOperands(t, stack, c, |bt.params|);
  }

  /** The condition fails and there is an `else`. */
  lemma FalseElseSim(tr: Trace, g: Func, m: Machine, c: Config, e: nat)
    requires Sim(tr, g, m, c) && m.pc < |tr.ops| && tr.ops[m.pc].IfOp? && e == ElseFrom(tr.ops, m.pc + 1, 0)
    requires m.stack != [] && Operand(m, 0) == 0 && e < |tr.ops| && tr.ops[e].ElseOp?
    ensures Matches(tr, g, m, c, 1)
  {
    hide AllSteps, AllStates, Finish, LabelsOk, Placed, FloorOf, Inv, Fresh, Validate, Closed, TransLive, Step, Run, Enter, Get, GetAll,
         ElseFrom, AtElse, Bounded;
    LiveAt(tr, g, m, c);
    var k := m.pc;
    var t, bt, t' := tr.ts[k], tr.ops[k].bt, tr.ts[e + 1];
    IfLabels(tr, g, m, c);
    IfHead(tr, g, m, c, e);
    SecondOperandsOf(t, m.stack, c, bt);
    RunOne(g, c);
    ElseReached(tr, k, e);
    ElseCurrentBlock(t, t', bt);
    GrowingInFinal(tr, g, e + 1, t'.f.cur);
    FreshBounded(t);
    ElsePlaced(t, t', m.stack, c, bt, g, GetAll(c.env, t.stack[|t.stack| - 1 - |bt.params|..|t.stack| - 1]));
    IfLabelsAtElse(tr, k, e, m.labels + [IfLabel(m, bt)]);
    SameLocals(tr, k);
    SameLocals(tr, e + 1);
  }

  lemma ElseCurrentBlock(t: TState, t': TState, bt: BlockType)
    requires 1 + |bt.params| <= |t.stack| && AtElse(t, t', bt)
    ensures IsBlock(t'.f, t'.f.cur)
  {
  }

  /** The first branch ends with the `if`: what follows is reachable from the head. */
  lemma EndContinues(tr: Trace, k: nat, e: nat)
    requires Complete(tr) && k < |tr.ops| && tr.ops[k].IfOp? && tr.ts[k].reachable && e == ElseFrom(tr.ops, k + 1, 0)
    requires e < |tr.ops| && tr.ops[e].EndOp? && 1 + |tr.ops[k].bt.params| <= |tr.ts[k].stack|
    ensures |tr.ts[k + 1].ctrl| == |tr.ts[k].ctrl| + 1 && TopFrame(tr.ts[k + 1]) == NewIf(tr.ts[k], tr.ops[k].bt)
    ensures Landed(tr.ts[k + 1], tr.ts[e + 1], |tr.ts[k].ctrl|) && Open(tr, k + 1, e, |tr.ts[k].ctrl|)
    ensures tr.ts[k + 1].reachable && tr.ts[k + 1].ctrl[..|tr.ts[k].ctrl|] == tr.ts[k].ctrl
    ensures |tr.ts[k].stack| - 1 <= |tr.ts[k + 1].stack|
    ensures tr.ts[k + 1].stack[..|tr.ts[k].stack| - 1] == tr.ts[k].stack[..|tr.ts[k].stack| - 1]
  {
    hide AllSteps, AllStates, Inv, Fresh, Validate, TransLive, TransDead, IsUnreachable, NoElseAt, ElseFrom, Kept, SameBranch, Landed;
    var t, bt := tr.ts[k], tr.ops[k].bt;
    StateAt(tr, k);
    StateAt(tr, k + 1);
    StepFrom(tr, k);
    LiveFacts(tr.vs[k], t);
    IfIsTrans(t, bt);
    IfShape(t, bt);
    IfOpenTo(tr, k, e);
    IfFrameAt(tr, k, e);
    TargetParams(tr.vs[k + 1], tr.ts[k + 1], |t.ctrl|);
    LandsForward(tr, k + 1, |t.ctrl|, e);
  }

  lemma SkippedPlaced(v: VState, t: TState, u: TState, t': TState, stack: seq<Word>, c: Config, bt: BlockType, g: Func)
    requires Placed(t, stack, c) && FloorOf(t.ctrl) + 1 + |bt.params| <= |t.stack| && 1 + |bt.params| <= |t.stack|
    requires Inv(v, u) && Fresh(u) && u.reachable && |u.ctrl| == |t.ctrl| + 1 && TopFrame(u) == NewIf(t, bt) && u.ctrl[..|t.ctrl|] == t.ctrl
    requires |t.stack| - 1 <= |u.stack| && u.stack[..|t.stack| - 1] == t.stack[..|t.stack| - 1]
    requires Landed(u, t', |t.ctrl|) && |bt.params| == |bt.results|
    requires
      var b := |t.f.blocks| + 1;
      IsBlock(g, b) && IsBlock(u.f, b) && g.blocks[b].params == u.f.blocks[b].params
    ensures |stack| >= 1
    ensures
      var ws := GetAll(c.env, t.stack[|t.stack| - 1 - |bt.params|..|t.stack| - 1]);
      var r := Enter(g, |t.f.blocks| + 1, ws, c.env, c.locals);
      r.Running? && r.c.locals == c.locals && Placed(t', stack[..|stack| - 1], r.c)
  {
    hide Stacked, View, GetAll, FloorOf, Inv, Fresh, Enter, FrameFresh, ParamsOk, Landed;
    var i, n, k := |t.ctrl|, |bt.params|, |t.stack| - 1;
    SecondOperandsOf(t, stack, c, bt);
    PoppedView(t, stack, c, 1 + n);
    var ws := GetAll(c.env, t.stack[k - n..k]);
    FreshFrame(u, i);
    InvView(v, u);
    TargetParams(v, u, i);
    GetAllSize(c.env, t.stack[k - n..k]);
    assert u.stack[..k - n] == u.stack[..k][..k - n];
    assert t.stack[..k - n] == t.stack[..k][..k - n];
    Arrive(u, t', i, g, c.env, c.locals, ws);
    assert stack[..|stack| - 1 - n] + stack[|stack| - 1 - n..|stack| - 1] == stack[..|stack| - 1];
  }

  /** The condition fails and there is no `else`. */
  lemma FalseEndSim(tr: Trace, g: Func, m: Machine, c: Config, e: nat)
    requires Sim(tr, g, m, c) && m.pc < |tr.ops| && tr.ops[m.pc].IfOp? && e == ElseFrom(tr.ops, m.pc + 1, 0)
    requires m.stack != [] && Operand(m, 0) == 0 && e < |tr.ops| && tr.ops[e].EndOp?
    ensures Matches(tr, g, m, c, 1)
  {
    hide AllSteps, AllStates, Finish, LabelsOk, Placed, FloorOf, Inv, Fresh, Validate, Closed, TransLive, Step, Run, Enter, Get, GetAll,
         ElseFrom, Landed, Alike;
    LiveAt(tr, g, m, c);
    var k := m.pc;
    var t, bt, u, t' := tr.ts[k], tr.ops[k].bt, tr.ts[k + 1], tr.ts[e + 1];
    IfLabels(tr, g, m, c);
    IfHead(tr, g, m, c, e);
    SecondOperandsOf(t, m.stack, c, bt);
    RunOne(g, c);
    EndContinues(tr, k, e);
    NoElseMeansSame(tr, k, e);
    StateAt(tr, k + 1);
    DestinationExists(tr.vs[k + 1], u, |t.ctrl|);
    GrowingInFinal(tr, g, k + 1, |t.f.blocks| + 1);
    SkippedPlaced(tr.vs[k + 1], t, u, t', m.stack, c, bt, g);
    LandedAlike(u, t', |t.ctrl|);
    var labels := m.labels + [IfLabel(m, bt)];
    LabelsLength(tr, k + 1, labels);
    LabelsForward(tr, k + 1, e + 1, labels);
    assert labels[..|t.ctrl|] == m.labels;
    SameLocals(tr, k);
    SameLocals(tr, e + 1);
  }

  /** Without an `else`, the results are the parameters. */
  lemma NoElseMeansSame(tr: Trace, k: nat, e: nat)
    requires Complete(tr) && k < |tr.ops| && tr.ops[k].IfOp? && tr.ts[k].reachable && e == ElseFrom(tr.ops, k + 1, 0)
    requires e < |tr.ops| && tr.ops[e].EndOp? && 1 + |tr.ops[k].bt.params| <= |tr.ts[k].stack|
    requires |tr.ts[k + 1].ctrl| == |tr.ts[k].ctrl| + 1 && TopFrame(tr.ts[k + 1]) == NewIf(tr.ts[k], tr.ops[k].bt)
    ensures tr.ops[k].bt.params == tr.ops[k].bt.results
  {
    hide AllSteps, AllStates, ElseFrom, Open, NoElseAt;
    if tr.ops[k].bt.params != tr.ops[k].bt.results {
      IfOpenTo(tr, k, e);
      MustHaveElse(tr, k, e);
    }
  }

  lemma IfSim(tr: Trace, g: Func, m: Machine, c: Config)
    requires Sim(tr, g, m, c) && m.pc < |tr.ops| && tr.ops[m.pc].IfOp?
    ensures Matches(tr, g, m, c, 1)
  {
    hide Sim, Matches, ElseFrom, Inv, Fresh, Validate, TransLive, Placed, Closed;
    LiveAt(tr, g, m, c);
    IfLabels(tr, g, m, c);
    var e := ElseFrom(tr.ops, m.pc + 1, 0);
    IsFinalOf(tr, g, m, c);
    IfOpenTo(tr, m.pc, e);
    if Operand(m, 0) != 0 {
      ThenSim(tr, g, m, c, e);
    } else if tr.ops[e].ElseOp? {
      FalseElseSim(tr, g, m, c, e);
    } else {
      FalseEndSim(tr, g, m, c, e);
    }
  }
}
