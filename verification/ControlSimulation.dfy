/** Control operators that stay within straight-line order or leave the function: blocks, loops, ends, returns, traps. */
module ControlSimulation {
  import opened Cfg
  import opened Validation
  import opened Translation
  import opened TranslationInvariant
  import opened LiveSteps
  import OpenSteps
  import opened BuilderGrowth
  import opened ValueFreshness
  import opened ValueStack
  import opened WasmMachine
  import opened Traces
  import opened Landing
  import opened SimulationRelation
  import opened BranchSimulation
  import opened StraightSimulation

  // ---------------------------------------------------------------- final branches

  /** The block that was current ends with `term`. */
  ghost predicate EndsWith(t: TState, t': TState, term: Term) {
    && IsBlock(t.f, t.f.cur) && IsBlock(t'.f, t.f.cur)
    && t'.f.blocks[t.f.cur].term == Just(term) && t'.f.blocks[t.f.cur].body == t.f.blocks[t.f.cur].body
  }

  lemma TerminatedThen(t: TState, f0: Func, term: Term, t': TState, x: Block)
    requires IsBlock(t.f, t.f.cur) && IsBlock(f0, t.f.cur) && f0.cur == t.f.cur && f0.blocks[t.f.cur].body == t.f.blocks[t.f.cur].body
    requires Terminate(f0, term).Ok? && Grown(Terminate(f0, term).value, t'.f, x) && x != t.f.cur
    ensures EndsWith(t, t', term)
  {
    hide Grown;
    GrownKeeps(Terminate(f0, term).value, t'.f, x, t.f.cur);
  }

  lemma HeadsFilled(v: VState, t: TState, b: Block)
    requires Inv(v, t) && PendingHead(t, b) && b != RESERVED
    ensures IsBlock(t.f, b) && Filled(t.f, b)
  {
    hide PredExcept, Ordered, RealPrefix, Closed, CursorOk;
    var i :| 0 <= i < |t.ctrl| && IsReal(t.ctrl[i]) && Exempt(t.ctrl[i]) == b;
    assert At(v, t, i);
    HeadAt(t.f, t.ctrl[i]);
  }

  /** The block that was current is not the head of a pending `if`, unless the operator is that `if`. */
  lemma CurNoHead(tr: Trace, k: nat)
    requires Valid(tr) && k < |tr.ops| && tr.ts[k].reachable && !tr.ops[k].IfOp?
    ensures !PendingHead(tr.ts[k + 1], tr.ts[k].f.cur)
  {
    hide AllSteps, AllStates, Inv, Fresh, Validate, TransOp, Kept, Exempt;
    var v, t, t', b := tr.vs[k], tr.ts[k], tr.ts[k + 1], tr.ts[k].f.cur;
    StateAt(tr, k);
    StepFrom(tr, k);
    LiveFacts(v, t);
    IsABlock(t.f, b);
    forall i | 0 <= i < |t'.ctrl| && IsReal(t'.ctrl[i]) ensures Exempt(t'.ctrl[i]) != b {
      if i < |t.ctrl| {
        OldReal(v, t, tr.ops[k], i);
        assert Open(tr, k, k + 1, i);
        Between(tr, k, k + 1, i);
        KeptPending(t, t', i);
        if Exempt(t.ctrl[i]) == b {
          assert PendingHead(t, b);
          HeadsFilled(v, t, b);
          assert false;
        }
      } else {
        OpenedNoHead(v, t, tr.ops[k]);
      }
    }
  }

  lemma KeptPending(t: TState, t': TState, i: nat)
    requires Kept(t, t', i)
    ensures Exempt(t'.ctrl[i]) in [RESERVED, Exempt(t.ctrl[i])]
  {
  }

  lemma OpenedNoHead(v: VState, t: TState, op: Op)
    requires Inv(v, t) && t.reachable && (op.BlockOp? || op.LoopOp?) && TransOp(t, op).Ok?
    ensures |TransOp(t, op).value.ctrl| == |t.ctrl| + 1 && Exempt(TopFrame(TransOp(t, op).value)) == RESERVED
  {
    hide Inv, Terminate, CreateBlock, SwitchTo, IsUnreachable;
    LiveFacts(v, t);
  }

  /** The final branch of the block at the place of control is the next thing to run. */
  lemma RunsTerm(tr: Trace, g: Func, m: Machine, c: Config, term: Term)
    requires Sim(tr, g, m, c) && m.pc < |tr.ops| && !tr.ops[m.pc].IfOp? && EndsWith(tr.ts[m.pc], tr.ts[m.pc + 1], term)
    ensures Step(g, c) == StepTerm(g, c, term)
  {
    hide AllSteps, AllStates, Finish, StepInst, StepTerm, Placed, LabelsOk, PendingHead;
    var t, k := tr.ts[m.pc], m.pc;
    PlacedAt(t, m.stack, c);
    CurNoHead(tr, k);
    FrozenInFinal(tr, g, k + 1, t.f.cur);
  }

  /** The operator at the place of control is translated as reachable code. */
  lemma LiveAt(tr: Trace, g: Func, m: Machine, c: Config)
    requires Sim(tr, g, m, c) && m.pc < |tr.ops|
    ensures |tr.ts| == |tr.vs| == |tr.ops| + 1
    ensures
      var v, t, op := tr.vs[m.pc], tr.ts[m.pc], tr.ops[m.pc];
      && Inv(v, t) && Fresh(t) && t.reachable && t.ctrl != [] && v.ctrls != [] && !Top(v).unreachable && VOk(v)
      && TransLive(t, op) == Ok(tr.ts[m.pc + 1]) && Validate(v, op) == Just(tr.vs[m.pc + 1])
      && IsBlock(t.f, t.f.cur) && !Filled(t.f, t.f.cur) && Placed(t, m.stack, c)
      && |m.stack| == v.opds && |m.labels| == |t.ctrl| == |v.ctrls| && Closed(t.f)
  {
    hide AllSteps, AllStates, Inv, Fresh, LabelsOk, Stacked, View, Finish, Validate, TransDead, TransLive, IsUnreachable, GetAll;
    SimState(tr, g, m, c);
    StateAt(tr, m.pc);
    StepFrom(tr, m.pc);
    LiveFacts(tr.vs[m.pc], tr.ts[m.pc]);
    InvClosed(tr.vs[m.pc], tr.ts[m.pc]);
  }

  // ---------------------------------------------------------------- leaving the function

  lemma TrapSim(tr: Trace, g: Func, m: Machine, c: Config)
    requires Sim(tr, g, m, c) && m.pc < |tr.ops| && tr.ops[m.pc].UnreachableOp?
    ensures Matches(tr, g, m, c, 1)
  {
    hide Sim, Placed, Step, Run, Inv, Fresh, Validate, Grown, VOk;
    LiveAt(tr, g, m, c);
    var t, t' := tr.ts[m.pc], tr.ts[m.pc + 1];
    GrownSelf(t'.f);
    TerminatedThen(t, t.f, TrapTerm, t', RESERVED);
    RunsTerm(tr, g, m, c, TrapTerm);
    RunOne(g, c);
  }

  lemma ReturnSim(tr: Trace, g: Func, m: Machine, c: Config)
    requires Sim(tr, g, m, c) && m.pc < |tr.ops| && tr.ops[m.pc].ReturnOp?
    ensures Matches(tr, g, m, c, 1)
  {
    hide Sim, Placed, Step, Run, Inv, Fresh, Validate, Grown, FloorOf, Terminate, GetAll;
    LiveAt(tr, g, m, c);
    var v, t, t' := tr.vs[m.pc], tr.ts[m.pc], tr.ts[m.pc + 1];
    ValidReturn(v);
    OuterArity(v, t);
    var n := t.ctrl[0].numResults;
    ArgsAbove(v, t, n);
    var term := ReturnTerm(PeekN(t.stack, n).value);
    GrownSelf(t'.f);
    TerminatedThen(t, t.f, term, t', RESERVED);
    RunsTerm(tr, g, m, c, term);
    RunOne(g, c);
    TopOperands(t, m.stack, c, n);
    OuterLabel(tr, g, m, c);
  }

  lemma ArgsAbove(v: VState, t: TState, n: nat)
    requires Inv(v, t) && t.reachable && t.ctrl != [] && v.ctrls != [] && Top(v).height + n <= v.opds
    ensures n <= |t.stack| && FloorOf(t.ctrl) + n <= |t.stack|
  {
    hide Inv;
    ArgsAvailable(v, t, n);
  }

  lemma OuterLabel(tr: Trace, g: Func, m: Machine, c: Config)
    requires Sim(tr, g, m, c) && m.labels != []
    ensures |tr.ts[m.pc].ctrl| == |m.labels| && m.labels[0].arity == tr.ts[m.pc].ctrl[0].numResults
  {
    hide AllSteps, AllStates, Placed, LabelsOk, Finish, Inv, Fresh;
    SimShape(tr, g, m, c);
    LabelHeight(tr, m, 0);
    SimState(tr, g, m, c);
    OuterIsBlock(tr, m.pc);
  }

  /** The outermost frame is the function's block. */
  lemma OuterIsBlock(tr: Trace, k: nat)
    requires Complete(tr) && k <= |tr.ops| && tr.ts[k].ctrl != []
    ensures tr.ts[k].ctrl[0].BlockFrame?
  {
    hide AllSteps, AllStates, Validate, TransOp;
    forall j | 0 <= j <= k ensures |tr.ts[j].ctrl| > 0 {
      if j < |tr.ops| {
        StepFrom(tr, j);
      }
    }
    Between(tr, 0, k, 0);
  }

  // ---------------------------------------------------------------- blocks and loops

  lemma OldLabels(tr: Trace, k: nat, labels: seq<RLabel>, l: RLabel)
    requires Valid(tr) && k < |tr.ops| && tr.ts[k].reachable && LabelsOk(tr, k, labels)
    requires |tr.ts[k + 1].ctrl| == |tr.ts[k].ctrl| + 1 == |tr.vs[k + 1].ctrls| && Opening(tr.ops[k])
    requires LabelOk(tr, k + 1, |tr.ts[k].ctrl|, l)
    ensures LabelsOk(tr, k + 1, labels + [l])
  {
    hide AllSteps, AllStates, LabelOk, Kept, Alike, LoopSince;
    AllRealAt(tr, k);
    LabelsLength(tr, k, labels);
    forall j | 0 <= j < |labels| ensures LabelOk(tr, k + 1, j, labels[j]) {
      assert LabelOk(tr, k, j, labels[j]);
      forall i | 0 <= i <= j ensures Alike(tr.ts[k].ctrl[i], tr.ts[k + 1].ctrl[i]) {
        assert Open(tr, k, k + 1, i) && NoElseAt(tr, k, k + 1, i);
        Between(tr, k, k + 1, i);
        KeptAlike(tr.ts[k], tr.ts[k + 1], i);
      }
      StillSince(tr, k, j, labels[j]);
      LabelMoves(tr, k, k + 1, j, labels[j]);
    }
  }

  lemma StillSince(tr: Trace, k: nat, j: nat, l: RLabel)
    requires |tr.ts| == |tr.vs| == |tr.ops| + 1 && k < |tr.ops| && j < |tr.ts[k].ctrl| == |tr.vs[k].ctrls|
    requires LabelOk(tr, k, j, l) && j < |tr.ts[k + 1].ctrl|
    ensures l.start.Just? ==> LoopSince(tr, l.start.it, k + 1, j)
  {
  }

  lemma BlockPlaced(t: TState, stack: seq<Word>, c: Config, bt: BlockType)
    requires Placed(t, stack, c) && TransBlock(t, bt).Ok? && FloorOf(t.ctrl) + |bt.params| <= |t.stack|
    ensures Placed(TransBlock(t, bt).value, stack, c)
  {
    hide Stacked, View, GetAll, FloorOf;
    var t' := TransBlock(t, bt).value;
    ViewOpen(t.stack, t.ctrl, t'.ctrl[|t.ctrl|], |bt.params|);
  }

  lemma BlockSim(tr: Trace, g: Func, m: Machine, c: Config)
    requires Sim(tr, g, m, c) && m.pc < |tr.ops| && tr.ops[m.pc].BlockOp?
    ensures Matches(tr, g, m, c, 0)
  {
    hide AllSteps, AllStates, Finish, LabelsOk, Placed, FloorOf, Inv, Fresh, Validate, CreateBlock, Closed;
    LiveAt(tr, g, m, c);
    var v, t, bt := tr.vs[m.pc], tr.ts[m.pc], tr.ops[m.pc].bt;
    ValidEnter(v, BlockOp(bt));
    ArgsAbove(v, t, |bt.params|);
    BlockPlaced(t, m.stack, c, bt);
    OldLabels(tr, m.pc, m.labels, RLabel(Nothing, |bt.results|, |m.stack| - |bt.params|));
    SameLocals(tr, m.pc);
    SameLocals(tr, m.pc + 1);
    RunNone(g, c);
  }

  lemma LoopEndsWith(t: TState, bt: BlockType)
    requires TransLoop(t, bt).Ok? && IsBlock(t.f, t.f.cur) && !Filled(t.f, t.f.cur) && Closed(t.f)
    ensures |bt.params| <= |t.stack|
    ensures EndsWith(t, TransLoop(t, bt).value, Jump(|t.f.blocks|, t.stack[|t.stack| - |bt.params|..]))
  {
    hide Terminate, CreateBlock, SwitchTo, Closed, Extends, HasPred, PredExcept;
    OpenSteps.LoopBuilds(t.f, |bt.params|, |bt.results|, PeekN(t.stack, |bt.params|).value);
  }

  /** The start of a loop is where a branch to it continues. */
  lemma LandedSelf(t: TState)
    requires t.reachable && t.ctrl != [] && TopFrame(t).LoopFrame? && t.f.cur == TopFrame(t).header && IsBlock(t.f, t.f.cur)
    requires t.f.blocks[t.f.cur].body == [] && 0 <= TopFrame(t).origSize <= |t.stack|
    requires t.stack == t.stack[..TopFrame(t).origSize] + t.f.blocks[t.f.cur].params
    ensures Landed(t, t, |t.ctrl| - 1)
  {
  }

  lemma LoopPlaced(v: VState, t: TState, stack: seq<Word>, c: Config, bt: BlockType, g: Func)
    requires Placed(t, stack, c) && TransLoop(t, bt).Ok? && FloorOf(t.ctrl) + |bt.params| <= |t.stack|
    requires
      var t' := TransLoop(t, bt).value;
      && Inv(v, t') && Fresh(t') && t'.reachable && |t.f.blocks| < |g.blocks| && IsBlock(t'.f, |t.f.blocks|)
      && g.blocks[|t.f.blocks|].params == t'.f.blocks[|t.f.blocks|].params
    ensures |bt.params| <= |t.stack|
    ensures
      var r := Enter(g, |t.f.blocks|, GetAll(c.env, t.stack[|t.stack| - |bt.params|..]), c.env, c.locals);
      r.Running? && r.c.locals == c.locals && Placed(TransLoop(t, bt).value, stack, r.c)
  {
    hide Stacked, View, GetAll, FloorOf, Inv, Fresh, Enter, FrameFresh, ParamsOk, Landed, TransLoop;
    var t', np := TransLoop(t, bt).value, |bt.params|;
    PlacedAt(t, stack, c);
    LoopStarts(t, bt);
    var i := |t.ctrl|;
    assert t'.stack[..TopFrame(t').origSize] == t.stack[..TopFrame(t').origSize];
    LandedSelf(t');
    FreshFrame(t', i);
    InvView(v, t');
    TargetParams(v, t', i);
    TopOperands(t, stack, c, np);
    PoppedView(t, stack, c, np);
    GetAllSize(c.env, t.stack[|t.stack| - np..]);
    assert t'.ctrl[..i] == t.ctrl && t'.stack[..BaseSize(t'.ctrl[i])] == t.stack[..|t.stack| - np];
    Arrive(t', t', i, g, c.env, c.locals, GetAll(c.env, t.stack[|t.stack| - np..]));
    assert stack[..|stack| - np] + stack[|stack| - np..] == stack;
  }

  lemma LoopLabel(tr: Trace, k: nat)
    requires Valid(tr) && k < |tr.ops| && tr.ops[k].LoopOp? && tr.ts[k].reachable && |tr.ts[k + 1].ctrl| == |tr.ts[k].ctrl| + 1
    ensures LoopSince(tr, k + 1, k + 1, |tr.ts[k].ctrl|)
  {
    hide AllSteps, AllStates;
  }

  lemma LoopSim(tr: Trace, g: Func, m: Machine, c: Config)
    requires Sim(tr, g, m, c) && m.pc < |tr.ops| && tr.ops[m.pc].LoopOp?
    ensures Matches(tr, g, m, c, 1)
  {
    hide AllSteps, AllStates, Finish, LabelsOk, Placed, FloorOf, Inv, Fresh, Validate, Closed, TransLoop, Step, Run, Enter,
         LoopSince, GetAll;
    LiveAt(tr, g, m, c);
    var v, t, bt, t' := tr.vs[m.pc], tr.ts[m.pc], tr.ops[m.pc].bt, tr.ts[m.pc + 1];
    ValidEnter(v, LoopOp(bt));
    ArgsAbove(v, t, |bt.params|);
    TopOperands(t, m.stack, c, |bt.params|);
    LoopEndsWith(t, bt);
    var term := Jump(|t.f.blocks|, t.stack[|t.stack| - |bt.params|..]);
    RunsTerm(tr, g, m, c, term);
    RunOne(g, c);
    StateAt(tr, m.pc + 1);
    LoopStarts(t, bt);
    GrowingInFinal(tr, g, m.pc + 1, |t.f.blocks|);
    LoopPlaced(tr.vs[m.pc + 1], t, m.stack, c, bt, g);
    LoopLabel(tr, m.pc);
    OldLabels(tr, m.pc, m.labels, RLabel(Just(m.pc + 1), |bt.params|, |m.stack| - |bt.params|));
    SameLocals(tr, m.pc);
    SameLocals(tr, m.pc + 1);
  }
}
