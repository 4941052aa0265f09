/** Branches, `else` and `end`: the translated function jumps where the machine goes. */
module JumpSimulation {
  import opened Cfg
  import opened Validation
  import opened Translation
  import opened TranslationInvariant
  import opened LiveSteps
  import opened CloseSteps
  import opened TranslationRuns
  import opened BuilderGrowth
  import opened FrameStability
  import opened ValueFreshness
  import opened ValueStack
  import opened WasmMachine
  import opened Traces
  import opened Landing
  import opened SimulationRelation
  import opened BranchSimulation
  import opened StraightSimulation
  import opened ControlSimulation

  // ---------------------------------------------------------------- end

  /** Entering the block after a construct with the construct's results. */
  lemma ArriveAfter(v: VState, t: TState, t': TState, stack: seq<Word>, c: Config, g: Func, ws: seq<Word>)
    requires Inv(v, t) && Fresh(t) && t.ctrl != [] && v.ctrls != [] && Placed(t, stack, c) && EndedInto(t, t')
    requires
      var b := TopFrame(t).destination;
      IsBlock(g, b) && g.blocks[b].params == t.f.blocks[b].params && |ws| == |g.blocks[b].params|
    ensures Top(v).height <= |stack|
    ensures
      var r := Enter(g, TopFrame(t).destination, ws, c.env, c.locals);
      r.Running? && r.c.locals == c.locals && Placed(t', stack[..Top(v).height] + ws, r.c)
  {
    var i, b := |t.ctrl| - 1, TopFrame(t).destination;
    var s, ps := t.stack[..BaseSize(TopFrame(t))], t.f.blocks[TopFrame(t).destination].params;
    hide Inv, Stacked, View, GetAll, ParamsOk, Fresh, BindAll, BelowAll;
    InvShape(v, t);
    KeptOperands(v, t, i, c.env);
    LiveTop(v, t);
    FreshFrame(t, i);
    ParamsAt(t.f, b);
    ViewPush(s, t.ctrl[..i], ps);
    ViewNotIn(s, t.ctrl[..i], ps);
    BindAllGets(c.env, ps, ws, View(s, t.ctrl[..i]));
  }

  lemma ParamsAt(f: Func, b: Block)
    requires ParamsOk(f) && IsBlock(f, b)
    ensures forall i, j :: 0 <= i < j < |f.blocks[b].params| ==> f.blocks[b].params[i] < f.blocks[b].params[j]
  {
    assert NewParams(f.blocks[b].params, 0, f.nextValue);
  }

  lemma EndEndsWith(v: VState, t: TState)
    requires TransEnd(t).Ok? && Inv(v, t) && t.reachable && t.ctrl != [] && IsBlock(t.f, t.f.cur)
    ensures TopFrame(t).numResults <= |t.stack|
    ensures EndsWith(t, TransEnd(t).value, Jump(TopFrame(t).destination, t.stack[|t.stack| - TopFrame(t).numResults..]))
  {
    hide Inv, Terminate, CloseInto, Grown;
    var fr := TopFrame(t);
    var term := Jump(fr.destination, PeekN(t.stack, fr.numResults).value);
    var f1 := Terminate(t.f, term).value;
    CloseIntoGrown(f1, fr);
    IsABlock(t.f, t.f.cur);
    TerminatedThen(t, t.f, term, TransEnd(t).value, RESERVED);
  }

  lemma EndSim(tr: Trace, g: Func, m: Machine, c: Config)
    requires Sim(tr, g, m, c) && m.pc < |tr.ops| && tr.ops[m.pc].EndOp?
    ensures Matches(tr, g, m, c, 1)
  {
    hide AllSteps, AllStates, Finish, LabelsOk, Placed, FloorOf, Inv, Fresh, Validate, Closed, TransEnd, Step, Run, Enter,
         GetAll, EndedInto, Alike;
    LiveAt(tr, g, m, c);
    var k := m.pc;
    var v, t, t' := tr.vs[k], tr.ts[k], tr.ts[k + 1];
    var fr := TopFrame(t);
    ValidEnd(v);
    LiveTop(v, t);
    EndArity(v, t);
    EndEndsWith(v, t);
    var args := t.stack[|t.stack| - fr.numResults..];
    RunsTerm(tr, g, m, c, Jump(fr.destination, args));
    RunOne(g, c);
    EndLiveInto(v, t);
    EndedShape(t, t');
    DestinationParams(v, t);
    GrowingInFinal(tr, g, k, fr.destination);
    ArgsAbove(v, t, fr.numResults);
    TopOperands(t, m.stack, c, fr.numResults);
    ArriveAfter(v, t, t', m.stack, c, g, GetAll(c.env, args));
    assert m.stack[..Top(v).height] + m.stack[|m.stack| - fr.numResults..] == m.stack;
    LabelsLength(tr, k, m.labels);
    forall j | 0 <= j < |t'.ctrl| ensures Alike(t.ctrl[j], t'.ctrl[j]) {
      AlikeSelf(t.ctrl[j]);
    }
    LabelsForward(tr, k, k + 1, m.labels);
    SameLocals(tr, k);
    SameLocals(tr, k + 1);
  }

  lemma EndedShape(t: TState, t': TState)
    requires t.ctrl != [] && EndedInto(t, t')
    ensures t'.ctrl == t.ctrl[..|t.ctrl| - 1] && IsBlock(t.f, TopFrame(t).destination)
  {
  }

  lemma AlikeSelf(fr: Frame)
    ensures Alike(fr, fr)
  {
  }

  lemma DestinationParams(v: VState, t: TState)
    requires Inv(v, t) && t.ctrl != [] && IsReal(TopFrame(t))
    ensures IsBlock(t.f, TopFrame(t).destination)
    ensures |t.f.blocks[TopFrame(t).destination].params| == TopFrame(t).numResults
  {
    hide Inv;
    EndEdgeOk(v, t);
  }

  // ---------------------------------------------------------------- else

  lemma ElseEndsWith(v: VState, t: TState)
    requires TransElse(t).Ok? && Inv(v, t) && t.reachable && t.ctrl != [] && IsReal(TopFrame(t)) && Validate(v, ElseOp).Just?
    ensures TopFrame(t).numResults <= |t.stack|
    ensures EndsWith(t, TransElse(t).value, Jump(TopFrame(t).destination, t.stack[|t.stack| - TopFrame(t).numResults..]))
  {
    hide Inv, Validate, Terminate, Grown, CreateBlock, PatchElse, SwitchTo, FrameOk, ShapeOk;
    var fr, t' := TopFrame(t), TransElse(t).value;
    LiveFacts(v, t);
    ElseShape(v, t);
    TopFacts(v, t);
    IsABlock(t.f, t.f.cur);
    var term := Jump(fr.destination, PeekN(t.stack, fr.numResults).value);
    if fr.elseData.NoElse? {
      HeadNotCur(v, t);
      var f1 := CreateBlock(t.f, |fr.bt.params|);
      CreatedCur(t.f, |fr.bt.params|);
      var f2 := Terminate(f1, term).value;
      var f3 := PatchElse(f2, fr).value.0;
      var p := fr.elseData.branch;
      PatchGrown(f2, fr);
      SwitchGrown(f3, PatchElse(f2, fr).value.1);
      GrownAny(f3, t'.f, p);
      GrownCompose(f2, f3, t'.f, p);
      TerminatedThen(t, f1, term, t', p);
    } else {
      var f2 := Terminate(t.f, term).value;
      SwitchGrown(f2, fr.elseData.elseBlock);
      TerminatedThen(t, t.f, term, t', RESERVED);
    }
  }

  lemma CreatedCur(f: Func, n: nat)
    requires IsBlock(f, f.cur)
    ensures CreateBlock(f, n).cur == f.cur && IsBlock(CreateBlock(f, n), f.cur)
    ensures CreateBlock(f, n).blocks[f.cur] == f.blocks[f.cur]
  {
  }

  lemma HeadNotCur(v: VState, t: TState)
    requires Inv(v, t) && t.reachable && t.ctrl != [] && IsReal(TopFrame(t)) && TopFrame(t).IfFrame?
    requires TopFrame(t).elseData.NoElse? && TopFrame(t).consequentEnds.Nothing?
    ensures TopFrame(t).elseData.branch != t.f.cur
  {
    hide Inv, PredExcept;
    TopFacts(v, t);
    HeadFilled(t.f, TopFrame(t));
  }

  /** The first branch of the `if` is done: the machine goes past the end, where the function jumps. */
  lemma ElseSim(tr: Trace, g: Func, m: Machine, c: Config)
    requires Sim(tr, g, m, c) && m.pc < |tr.ops| && tr.ops[m.pc].ElseOp?
    ensures Matches(tr, g, m, c, 1)
  {
    hide AllSteps, AllStates, Finish, LabelsOk, Placed, FloorOf, Inv, Fresh, Validate, Closed, TransElse, Step, Run, Enter,
         GetAll, Landed, Continuing, TransOp;
    LiveAt(tr, g, m, c);
    var k := m.pc;
    var v, t, fr, i := tr.vs[k], tr.ts[k], TopFrame(tr.ts[k]), |tr.ts[k].ctrl| - 1;
    ValidElse(v);
    LiveTop(v, t);
    ElseShape(v, t);
    ElseEndsWith(v, t);
    var args := t.stack[|t.stack| - fr.numResults..];
    RunsTerm(tr, g, m, c, Jump(fr.destination, args));
    RunOne(g, c);
    StepFrom(tr, k);
    FindEnd(tr, k + 1, i, 0);
    var e := EndFrom(tr.ops, k + 1, 0);
    assert Open(tr, k, e, i);
    ElsedContinues(tr, k, e);
    DestinationParams(v, t);
    LandsForward(tr, k, i, e);
    LandedAlike(t, tr.ts[e + 1], i);
    LabelsLength(tr, k, m.labels);
    LabelsForward(tr, k, e + 1, m.labels);
    LabelHeight(tr, m, i);
    ShapeOf(v, t);
    ArgsAbove(v, t, fr.numResults);
    TopOperands(t, m.stack, c, fr.numResults);
    EntersTarget(tr, g, m, c, i, e + 1, GetAll(c.env, args));
    assert m.stack[..Top(v).height] + m.stack[|m.stack| - fr.numResults..] == m.stack;
  }

  lemma ShapeOf(v: VState, t: TState)
    requires Inv(v, t) && t.ctrl != [] && v.ctrls != [] && IsReal(TopFrame(t))
    ensures TopFrame(t).numResults == |Top(v).bt.results|
  {
    hide Inv;
    TopFacts(v, t);
  }

  /** The first branch ended reachable, so the code after the `if` is reachable. */
  lemma ElsedContinues(tr: Trace, k: nat, e: nat)
    requires Valid(tr) && k < e < |tr.ops| && tr.ops[k].ElseOp? && tr.ts[k].reachable && tr.ts[k].ctrl != []
    requires Open(tr, k, e, |tr.ts[k].ctrl| - 1)
    ensures Continuing(tr.ts[e], |tr.ts[k].ctrl| - 1)
  {
    hide AllSteps, AllStates, Inv, Fresh, Validate, TransOp, Kept;
    var v, t, i := tr.vs[k], tr.ts[k], |tr.ts[k].ctrl| - 1;
    StateAt(tr, k);
    StepFrom(tr, k);
    LiveTop(v, t);
    ElseReduces(v, t);
    ElseShape(v, t);
    assert Open(tr, k + 1, e, i);
    Between(tr, k + 1, e, i);
    KeptElsed(tr.ts[k + 1], tr.ts[e], i);
  }

  lemma KeptElsed(t: TState, t': TState, i: nat)
    requires Kept(t, t', i) && t.ctrl[i].IfFrame? && t.ctrl[i].headReachable && t.ctrl[i].consequentEnds == Just(true)
    ensures Continuing(t', i)
  {
  }

  // ---------------------------------------------------------------- br and br_if

  lemma BranchAvailable(tr: Trace, m: Machine, d: nat, n: nat)
    requires m.pc < |tr.ts| == |tr.vs| == |tr.ops| + 1 && LabelsOk(tr, m.pc, m.labels) && VOk(tr.vs[m.pc]) && d < |m.labels|
    requires |m.labels| == |tr.vs[m.pc].ctrls| && Top(tr.vs[m.pc]).height + n <= tr.vs[m.pc].opds
    ensures m.labels[|m.labels| - 1 - d].height + n <= tr.vs[m.pc].opds
  {
    hide LabelsOk;
    var i := |m.labels| - 1 - d;
    LabelHeight(tr, m, i);
    HeightsNested(tr.vs[m.pc], i, |m.labels| - 1);
  }

  lemma BrSim(tr: Trace, g: Func, m: Machine, c: Config)
    requires Sim(tr, g, m, c) && m.pc < |tr.ops| && tr.ops[m.pc].Br?
    ensures Matches(tr, g, m, c, 1)
  {
    hide Sim, LabelsOk, Placed, FloorOf, Inv, Fresh, Validate, Closed, Step, Run, Enter, GetAll, Terminate, Grown, TakeBranch;
    LiveAt(tr, g, m, c);
    SimShape(tr, g, m, c);
    var k, d := m.pc, tr.ops[m.pc].depth;
    var v, t, i := tr.vs[k], tr.ts[k], |m.labels| - 1 - d;
    ValidBr(v, d);
    TargetsDiffer(v, t, i, i);
    var n := BrArity(t.ctrl[i]);
    ArgsAbove(v, t, n);
    LabelHeight(tr, m, i);
    var args := t.stack[|t.stack| - n..];
    GrownSelf(tr.ts[k + 1].f);
    IsABlock(t.f, t.f.cur);
    TerminatedThen(t, t.f, Jump(BrDestination(t.ctrl[i]), args), tr.ts[k + 1], RESERVED);
    RunsTerm(tr, g, m, c, Jump(BrDestination(t.ctrl[i]), args));
    RunOne(g, c);
    TopOperands(t, m.stack, c, n);
    BranchAvailable(tr, m, d, n);
    BranchTaken(tr, g, m, c, m, d, GetAll(c.env, args));
  }

  /** A block without parameters is entered with the environment as it is. */
  lemma EnterPlain(g: Func, b: Block, env: map<Value, Word>, locals: seq<Word>)
    requires IsBlock(g, b) && g.blocks[b].params == []
    ensures Enter(g, b, [], env, locals) == Running(Config(b, 0, env, locals))
  {
  }

  lemma BrIfEndsWith(t: TState, d: nat)
    requires TransBrIf(t, d).Ok? && IsBlock(t.f, t.f.cur)
    ensures d < |t.ctrl| && 1 + BrArity(FrameAt(t.ctrl, d)) <= |t.stack|
    ensures
      var fr, n, t' := FrameAt(t.ctrl, d), |t.stack| - 1, TransBrIf(t, d).value;
      && EndsWith(t, t', Brif(t.stack[n], BrDestination(fr), t.stack[n - BrArity(fr)..n], |t.f.blocks|, []))
      && t'.f.cur == |t.f.blocks| && IsBlock(t'.f, t'.f.cur) && t'.f.blocks[t'.f.cur].body == [] && t'.f.blocks[t'.f.cur].params == []
      && t'.ctrl == Mark(t.ctrl, d) && t'.reachable && t'.stack == t.stack[..n]
  {
    hide TermOk;
    var fr, n := FrameAt(t.ctrl, d), |t.stack| - 1;
    assert t.stack[..n][n - BrArity(fr)..] == t.stack[n - BrArity(fr)..n];
  }

  lemma MarkBounds(ctrl: seq<Frame>, d: nat)
    requires d < |ctrl|
    ensures SameBounds(ctrl, Mark(ctrl, d))
    ensures !FrameAt(ctrl, d).LoopFrame? ==> ExitBranched(Mark(ctrl, d)[|ctrl| - 1 - d])
  {
  }

  /** The operands below the condition, at a block reached with the environment as it is. */
  lemma PlacedAfterCondition(t: TState, stack: seq<Word>, c: Config, t': TState, c': Config)
    requires Placed(t, stack, c) && FloorOf(t.ctrl) + 1 <= |t.stack|
    requires SameBounds(t.ctrl, t'.ctrl) && 1 <= |t.stack| && t'.stack == t.stack[..|t.stack| - 1] && t'.reachable
    requires c'.block == t'.f.cur && IsBlock(t'.f, t'.f.cur) && t'.f.blocks[t'.f.cur].body == [] && c'.pos == 0 && c'.env == c.env
    ensures |stack| >= 1 && Placed(t', stack[..|stack| - 1], c')
  {
    hide Stacked, View, GetAll, FloorOf, SameBounds;
    PoppedView(t, stack, c, 1);
    ViewSame(t'.stack, t.ctrl, t'.ctrl);
  }

  lemma SecondOperands(t: TState, stack: seq<Word>, c: Config, n: nat)
    requires Placed(t, stack, c) && FloorOf(t.ctrl) + 1 + n <= |t.stack| && 1 + n <= |t.stack|
    ensures 1 + n <= |stack|
    ensures stack[|stack| - 1 - n..|stack| - 1] == GetAll(c.env, t.stack[|t.stack| - 1 - n..|t.stack| - 1])
    ensures stack[|stack| - 1] == Get(c.env, t.stack[|t.stack| - 1]) && t.stack[|t.stack| - 1] in c.env
    ensures Defined(c.env, t.stack[|t.stack| - 1 - n..|t.stack| - 1])
  {
    hide Placed, GetAll, FloorOf, Get, Defined;
    TopOperands(t, stack, c, 1 + n);
    TopOperand(t, stack, c, 0);
    var vs := t.stack[|t.stack| - 1 - n..];
    GetAllTake(c.env, vs, n);
    assert vs[..n] == t.stack[|t.stack| - 1 - n..|t.stack| - 1];
    assert stack[|stack| - 1 - n..][..n] == stack[|stack| - 1 - n..|stack| - 1];
  }

  lemma BrIfSim(tr: Trace, g: Func, m: Machine, c: Config)
    requires Sim(tr, g, m, c) && m.pc < |tr.ops| && tr.ops[m.pc].BrIf?
    ensures Matches(tr, g, m, c, 1)
  {
    hide Sim, LabelsOk, Placed, FloorOf, Inv, Fresh, Validate, Closed, Step, Run, Enter, GetAll, TransBrIf, TakeBranch, Get, Mark,
         AllSteps, AllStates, Finish;
    LiveAt(tr, g, m, c);
    SimShape(tr, g, m, c);
    var k, d := m.pc, tr.ops[m.pc].depth;
    var v, t, t', i := tr.vs[k], tr.ts[k], tr.ts[k + 1], |m.labels| - 1 - d;
    ValidBrIf(v, d);
    TargetsDiffer(v, t, i, i);
    var n, s := BrArity(t.ctrl[i]), |t.stack| - 1;
    ArgsAbove(v, t, 1 + n);
    LabelHeight(tr, m, i);
    BrIfEndsWith(t, d);
    MarkBounds(t.ctrl, d);
    var term := Brif(t.stack[s], BrDestination(t.ctrl[i]), t.stack[s - n..s], |t.f.blocks|, []);
    RunsTerm(tr, g, m, c, term);
    RunOne(g, c);
    SecondOperands(t, m.stack, c, n);
    if Operand(m, 0) != 0 {
      var m0 := PopWord(m);
      BranchAvailable(tr, m, d, 1 + n);
      assert m0.stack[|m0.stack| - n..] == m.stack[|m.stack| - 1 - n..|m.stack| - 1];
      BranchTaken(tr, g, m, c, m0, d, GetAll(c.env, t.stack[s - n..s]));
    } else {
      IsFinalOf(tr, g, m, c);
      GrowingInFinal(tr, g, k + 1, |t.f.blocks|);
      EnterPlain(g, |t.f.blocks|, c.env, c.locals);
      NoArguments(c.env);
      var c' := Config(|t.f.blocks|, 0, c.env, c.locals);
      PlacedAfterCondition(t, m.stack, c, t', c');
      SimLocals(tr, g, m, c);
      FallsThrough(tr, g, m, c, m.stack[..|m.stack| - 1], m.locals, c');
      assert m.stack[..|m.stack| - 1] + [] == m.stack[..|m.stack| - 1];
    }
  }

  lemma NoArguments(env: map<Value, Word>)
    ensures GetAll(env, []) == []
  {
  }
}
