/** `br_table`: the jump table, directly or through split blocks, takes the branch to the selected depth. */
module TableSimulation {
  import opened Cfg
  import opened Validation
  import opened Translation
  import opened TranslationInvariant
  import opened LiveSteps
  import opened TableSteps
  import opened ValueFreshness
  import opened ValueStack
  import opened WasmMachine
  import opened Traces
  import opened SimulationRelation
  import opened BranchSimulation
  import opened StraightSimulation
  import opened ControlSimulation
  import opened JumpSimulation

  /** The depth that a selector chooses. */
  function Selected(targets: seq<nat>, default: nat, i: nat): nat {
    if i < |targets| then targets[i] else default
  }

  // ---------------------------------------------------------------- without arguments

  lemma DirectShape(t: TState, targets: seq<nat>, default: nat)
    requires TransBrTable(t, targets, default).Ok? && IsBlock(t.f, t.f.cur) && DepthsOk(t.ctrl, targets, default)
    requires MinDepth(targets, default) < |t.ctrl| && BrArity(FrameAt(t.ctrl, MinDepth(targets, default))) == 0
    ensures t.stack != []
    ensures
      var t' := TransBrTable(t, targets, default).value;
      && EndsWith(t, t', BrTable(t.stack[|t.stack| - 1], Destinations(t.ctrl, targets), BrDestination(FrameAt(t.ctrl, default))))
      && t'.ctrl == MarkAll(t.ctrl, targets + [default])
  {
    hide TermOk, MarkAll;
  }

  /** The depths the branches are recorded for. */
  lemma MarkedExit(ctrl: seq<Frame>, depths: seq<nat>, d: nat)
    requires (forall k :: 0 <= k < |depths| ==> depths[k] < |ctrl|) && d in depths
    ensures d < |ctrl| && (!FrameAt(ctrl, d).LoopFrame? ==> ExitBranched(MarkAll(ctrl, depths)[|ctrl| - 1 - d]))
  {
    hide MarkAll;
    MarkAllHits(ctrl, depths, |ctrl| - 1 - d);
  }

  /** The selector and the arguments are defined. */
  lemma SelectorDefined(tr: Trace, g: Func, m: Machine, c: Config, targets: seq<nat>, default: nat)
    requires Sim(tr, g, m, c) && m.pc < |tr.ops| && tr.ops[m.pc] == BrTableOp(targets, default)
    requires DepthsOk(tr.ts[m.pc].ctrl, targets, default)
    ensures
      var t, k, n := tr.ts[m.pc], |tr.ts[m.pc].stack| - 1, BrArity(FrameAt(tr.ts[m.pc].ctrl, default));
      0 <= n <= k && t.stack[k] in c.env && Defined(c.env, t.stack[k - n..k])
  {
    hide Sim, Placed, FloorOf, Inv, Fresh, Validate, Closed, TransBrTable, Arity, BrArity, Defined;
    LiveAt(tr, g, m, c);
    var v, t := tr.vs[m.pc], tr.ts[m.pc];
    ValidBrTable(v, targets, default);
    TargetsDiffer(v, t, 0, |t.ctrl| - 1 - default);
    var n := BrArity(FrameAt(t.ctrl, default));
    ArgsAbove(v, t, 1 + n);
    SecondOperands(t, m.stack, c, n);
  }

  /** Without arguments, one step from the jump table enters the target of the selected depth. */
  lemma DirectTable(tr: Trace, g: Func, m: Machine, c: Config, targets: seq<nat>, default: nat)
    requires Sim(tr, g, m, c) && m.pc < |tr.ops| && tr.ops[m.pc] == BrTableOp(targets, default)
    requires DepthsOk(tr.ts[m.pc].ctrl, targets, default) && BrArity(FrameAt(tr.ts[m.pc].ctrl, default)) == 0
    ensures tr.ts[m.pc].stack != []
    ensures
      var t := tr.ts[m.pc];
      var d := Selected(targets, default, Get(c.env, t.stack[|t.stack| - 1]));
      && Run(g, Running(c), 1) == Enter(g, BrDestination(FrameAt(t.ctrl, d)), [], c.env, c.locals)
      && |tr.ts[m.pc + 1].ctrl| == |t.ctrl|
      && (!FrameAt(t.ctrl, d).LoopFrame? ==> ExitBranched(tr.ts[m.pc + 1].ctrl[|t.ctrl| - 1 - d]))
  {
    hide Sim, LabelsOk, Placed, Inv, Fresh, Validate, Closed, Step, Run, Enter, TransBrTable, Get, MarkAll;
    LiveAt(tr, g, m, c);
    var v, t := tr.vs[m.pc], tr.ts[m.pc];
    TableArity(v, t, targets, default);
    SelectorDefined(tr, g, m, c, targets, default);
    DirectShape(t, targets, default);
    var term := BrTable(t.stack[|t.stack| - 1], Destinations(t.ctrl, targets), BrDestination(FrameAt(t.ctrl, default)));
    RunsTerm(tr, g, m, c, term);
    RunOne(g, c);
    var i := Get(c.env, t.stack[|t.stack| - 1]);
    var all := targets + [default];
    assert Selected(targets, default, i) == all[if i < |targets| then i else |targets|];
    MarkedExit(t.ctrl, all, Selected(targets, default, i));
  }

  // ---------------------------------------------------------------- with split blocks

  lemma SplitShape(t: TState, targets: seq<nat>, default: nat, n: nat)
    requires TransBrTable(t, targets, default).Ok? && IsBlock(t.f, t.f.cur) && !Filled(t.f, t.f.cur)
    requires DepthsOk(t.ctrl, targets, default) && n > 0 && 1 + n <= |t.stack|
    requires MinDepth(targets, default) < |t.ctrl| && BrArity(FrameAt(t.ctrl, MinDepth(targets, default))) == n
    requires forall i :: 0 <= i < |TableOrder(targets, default)| ==>
               TableOrder(targets, default)[i] < |t.ctrl| && EdgeOk(t.f, BrDestination(FrameAt(t.ctrl, TableOrder(targets, default)[i])), n)
    ensures
      var t', order, s := TransBrTable(t, targets, default).value, TableOrder(targets, default), |t.stack| - 1;
      && EndsWith(t, t', SplitTerm(|t.f.blocks|, t.stack[s], order, targets, default))
      && SplitsOk(t.f, t'.f, t.ctrl, order, t.stack[s - n..s], |order|)
      && t'.ctrl == MarkAll(t.ctrl, order)
  {
    hide CreateBlocks, Terminate, FillSplits, TableOrder, SplitTerm, MarkAll, SplitsOk, Extends, BranchTargets, EdgeOk;
    var order, s := TableOrder(targets, default), |t.stack| - 1;
    var val, rest := t.stack[s], t.stack[..s];
    assert rest[|rest| - n..] == t.stack[s - n..s];
    SplitBuilds(t.f, t.ctrl, val, order, targets, default, t.stack[s - n..s]);
    assert PeekN(rest, n).value == t.stack[s - n..s];
    SplitSize(t.f, TransBrTable(t, targets, default).value.f, t.ctrl, order, t.stack[s - n..s]);
  }

  lemma SplitSize(f: Func, g: Func, ctrl: seq<Frame>, order: seq<nat>, args: seq<Value>)
    requires forall i :: 0 <= i < |order| ==> order[i] < |ctrl|
    requires SplitsOk(f, g, ctrl, order, args, |order|)
    ensures |g.blocks| == |f.blocks| + |order|
  {
  }

  /** The table entry for a depth is the split block of that depth. */
  lemma SplitEntry(first: Block, val: Value, order: seq<nat>, targets: seq<nat>, default: nat, i: nat)
    requires default in order && forall j :: 0 <= j < |targets| ==> targets[j] in order
    ensures
      var term, d := SplitTerm(first, val, order, targets, default), Selected(targets, default, i);
      && d in order && term.BrTable? && term.c == val
      && (if i < |term.table| then term.table[i] else term.default) == first + IndexOf(order, d)
  {
  }

  /** Blocks made by an operator other than `if` are not heads of pending ifs. */
  lemma NewNoHead(tr: Trace, k: nat, b: Block)
    requires Valid(tr) && k < |tr.ops| && tr.ts[k].reachable && tr.ops[k].BrTableOp? && |tr.ts[k].f.blocks| <= b
    ensures !PendingHead(tr.ts[k + 1], b)
  {
    hide AllSteps, AllStates, Inv, Fresh, Validate, TransOp, Kept, Exempt;
    var v, t, t' := tr.vs[k], tr.ts[k], tr.ts[k + 1];
    StateAt(tr, k);
    StepFrom(tr, k);
    forall i | 0 <= i < |t'.ctrl| && IsReal(t'.ctrl[i]) ensures Exempt(t'.ctrl[i]) != b {
      OldReal(v, t, tr.ops[k], i);
      assert Open(tr, k, k + 1, i);
      Between(tr, k, k + 1, i);
      KeptPending(t, t', i);
      if Exempt(t.ctrl[i]) == b {
        assert PendingHead(t, b);
        HeadsFilled(v, t, b);
        assert false;
      }
    }
  }

  lemma SplitAt(f: Func, g: Func, ctrl: seq<Frame>, order: seq<nat>, args: seq<Value>, d: nat)
    requires (forall i :: 0 <= i < |order| ==> order[i] < |ctrl|) && d in order
    requires SplitsOk(f, g, ctrl, order, args, |order|)
    ensures
      var b := |f.blocks| + IndexOf(order, d);
      IsBlock(g, b) && g.blocks[b] == SplitBlock(ctrl, d, args)
  {
  }

  lemma RunTwo(g: Func, c: Config, c1: Config)
    requires Step(g, c) == Running(c1)
    ensures Run(g, Running(c), 2) == Step(g, c1)
  {
    hide Step;
    RunOne(g, c1);
    assert Run(g, Running(c), 2) == Run(g, Step(g, c), 1);
  }

  /** From a split block, one step enters the target of its depth with the arguments. */
  lemma SplitRuns(tr: Trace, g: Func, k: nat, order: seq<nat>, args: seq<Value>, d: nat, env: map<Value, Word>, locals: seq<Word>)
    requires IsFinal(tr, g) && k < |tr.ops| && tr.ts[k].reachable && tr.ops[k].BrTableOp? && d in order
    requires forall i :: 0 <= i < |order| ==> order[i] < |tr.ts[k].ctrl|
    requires SplitsOk(tr.ts[k].f, tr.ts[k + 1].f, tr.ts[k].ctrl, order, args, |order|) && Defined(env, args)
    ensures
      var b, t := |tr.ts[k].f.blocks| + IndexOf(order, d), tr.ts[k];
      && Enter(g, b, [], env, locals) == Running(Config(b, 0, env, locals))
      && Step(g, Config(b, 0, env, locals)) == Enter(g, BrDestination(FrameAt(t.ctrl, d)), GetAll(env, args), env, locals)
  {
    hide AllSteps, AllStates, Finish, SplitsOk, PendingHead, GetAll, IndexOf, Enter;
    var b, t := |tr.ts[k].f.blocks| + IndexOf(order, d), tr.ts[k];
    SplitAt(t.f, tr.ts[k + 1].f, t.ctrl, order, args, d);
    NewNoHead(tr, k, b);
    FrozenInFinal(tr, g, k + 1, b);
    EnterPlain(g, b, env, locals);
  }

  /** With arguments, two steps from the jump table, through the split block, do the same. */
  lemma SplitTable(tr: Trace, g: Func, m: Machine, c: Config, targets: seq<nat>, default: nat, n: nat)
    requires Sim(tr, g, m, c) && m.pc < |tr.ops| && tr.ops[m.pc] == BrTableOp(targets, default) && n > 0
    requires DepthsOk(tr.ts[m.pc].ctrl, targets, default) && BrArity(FrameAt(tr.ts[m.pc].ctrl, default)) == n
    ensures 1 + n <= |tr.ts[m.pc].stack|
    ensures
      var t, s := tr.ts[m.pc], |tr.ts[m.pc].stack| - 1;
      var d := Selected(targets, default, Get(c.env, t.stack[s]));
      && Run(g, Running(c), 2) == Enter(g, BrDestination(FrameAt(t.ctrl, d)), GetAll(c.env, t.stack[s - n..s]), c.env, c.locals)
      && |tr.ts[m.pc + 1].ctrl| == |t.ctrl|
      && (!FrameAt(t.ctrl, d).LoopFrame? ==> ExitBranched(tr.ts[m.pc + 1].ctrl[|t.ctrl| - 1 - d]))
  {
    hide Sim, LabelsOk, Placed, Inv, Fresh, Validate, Closed, Step, Run, Enter, TransBrTable, Get, GetAll, MarkAll, SplitTerm,
         TableOrder, SplitsOk, EdgeOk, IndexOf;
    LiveAt(tr, g, m, c);
    var v, t, order := tr.vs[m.pc], tr.ts[m.pc], TableOrder(targets, default);
    var s := |t.stack| - 1;
    TableArity(v, t, targets, default);
    SelectorDefined(tr, g, m, c, targets, default);
    OrderArity(t.ctrl, order, targets, default, n);
    AllEdgesOk(v, t, order, n);
    SplitShape(t, targets, default, n);
    var i := Get(c.env, t.stack[s]);
    var d := Selected(targets, default, i);
    var term := SplitTerm(|t.f.blocks|, t.stack[s], order, targets, default);
    RunsTerm(tr, g, m, c, term);
    SplitEntry(|t.f.blocks|, t.stack[s], order, targets, default, i);
    var b := |t.f.blocks| + IndexOf(order, d);
    IsFinalOf(tr, g, m, c);
    SplitRuns(tr, g, m.pc, order, t.stack[s - n..s], d, c.env, c.locals);
    RunTwo(g, c, Config(b, 0, c.env, c.locals));
    MarkedExit(t.ctrl, order, d);
  }

  /** What is on the stacks at a `br_table`. */
  lemma TableFacts(tr: Trace, g: Func, m: Machine, c: Config, targets: seq<nat>, default: nat)
    requires Sim(tr, g, m, c) && m.pc < |tr.ops| && tr.ops[m.pc] == BrTableOp(targets, default)
    ensures |tr.ts| == |tr.vs| == |tr.ops| + 1 && DepthsOk(tr.ts[m.pc].ctrl, targets, default)
    ensures |m.labels| == |tr.ts[m.pc].ctrl|
    ensures
      var t, k, n := tr.ts[m.pc], |tr.ts[m.pc].stack| - 1, BrArity(FrameAt(tr.ts[m.pc].ctrl, default));
      && 0 <= n <= k && 1 + n <= |m.stack|
      && m.stack[|m.stack| - 1 - n..|m.stack| - 1] == GetAll(c.env, t.stack[k - n..k])
      && m.stack[|m.stack| - 1] == Get(c.env, t.stack[k])
      && var d := Selected(targets, default, Get(c.env, t.stack[k]));
         d < |m.labels| && m.labels[|m.labels| - 1 - d].arity == n && m.labels[|m.labels| - 1 - d].height + 1 + n <= |m.stack|
  {
    hide Sim, LabelsOk, Placed, FloorOf, Inv, Fresh, Validate, Closed, GetAll, TransBrTable, Get, Arity, BrArity, Selected;
    LiveAt(tr, g, m, c);
    SimShape(tr, g, m, c);
    var v, t := tr.vs[m.pc], tr.ts[m.pc];
    TableArity(v, t, targets, default);
    ValidBrTable(v, targets, default);
    TargetsDiffer(v, t, 0, |t.ctrl| - 1 - default);
    var n := BrArity(FrameAt(t.ctrl, default));
    ArgsAbove(v, t, 1 + n);
    SecondOperands(t, m.stack, c, n);
    var d := Selected(targets, default, Get(c.env, t.stack[|t.stack| - 1]));
    SelectedArity(v, t, targets, default, Get(c.env, t.stack[|t.stack| - 1]));
    LabelHeight(tr, m, |m.labels| - 1 - d);
    BranchAvailable(tr, m, d, 1 + n);
  }

  /** For every target list, default and selector, the table enters the target of the selected depth with the
      same arguments as a direct branch to that depth. */
  lemma TableIsBranch(tr: Trace, g: Func, m: Machine, c: Config, targets: seq<nat>, default: nat) returns (s: nat)
    requires Sim(tr, g, m, c) && m.pc < |tr.ops| && tr.ops[m.pc] == BrTableOp(targets, default)
    requires DepthsOk(tr.ts[m.pc].ctrl, targets, default)
    ensures BrArity(FrameAt(tr.ts[m.pc].ctrl, default)) < |tr.ts[m.pc].stack| && s > 0
    ensures
      var t, k, n := tr.ts[m.pc], |tr.ts[m.pc].stack| - 1, BrArity(FrameAt(tr.ts[m.pc].ctrl, default));
      var d := Selected(targets, default, Get(c.env, t.stack[k]));
      && Run(g, Running(c), s) == Enter(g, BrDestination(FrameAt(t.ctrl, d)), GetAll(c.env, t.stack[k - n..k]), c.env, c.locals)
      && |tr.ts[m.pc + 1].ctrl| == |t.ctrl| && MarksExit(tr, m.pc, |t.ctrl| - 1 - d)
  {
    hide Sim, Run, Enter, GetAll, Get;
    SimShape(tr, g, m, c);
    var t, k, n := tr.ts[m.pc], |tr.ts[m.pc].stack| - 1, BrArity(FrameAt(tr.ts[m.pc].ctrl, default));
    if n == 0 {
      s := 1;
      DirectTable(tr, g, m, c, targets, default);
      assert t.stack[k - n..k] == [];
      NoArguments(c.env);
    } else {
      s := 2;
      SplitTable(tr, g, m, c, targets, default, n);
    }
  }

  lemma BrTableSim(tr: Trace, g: Func, m: Machine, c: Config) returns (s: nat)
    requires Sim(tr, g, m, c) && m.pc < |tr.ops| && tr.ops[m.pc].BrTableOp?
    ensures Matches(tr, g, m, c, s)
  {
    hide Sim, Run, Enter, GetAll, TakeBranch, Get, MarksExit, BrArity;
    SimShape(tr, g, m, c);
    var targets, default := tr.ops[m.pc].targets, tr.ops[m.pc].default;
    TableFacts(tr, g, m, c, targets, default);
    s := TableIsBranch(tr, g, m, c, targets, default);
    var t, k, n := tr.ts[m.pc], |tr.ts[m.pc].stack| - 1, BrArity(FrameAt(tr.ts[m.pc].ctrl, default));
    var d := Selected(targets, default, Get(c.env, t.stack[k]));
    var m0 := PopWord(m);
    assert m0.stack[|m0.stack| - n..] == m.stack[|m.stack| - 1 - n..|m.stack| - 1];
    BranchTaken(tr, g, m, c, m0, d, GetAll(c.env, t.stack[k - n..k]));
  }

  lemma SelectedArity(v: VState, t: TState, targets: seq<nat>, default: nat, i: nat)
    requires DepthsOk(t.ctrl, targets, default)
    requires forall j :: 0 <= j < |targets| ==> BrArity(FrameAt(t.ctrl, targets[j])) == BrArity(FrameAt(t.ctrl, default))
    ensures Selected(targets, default, i) < |t.ctrl|
    ensures BrArity(FrameAt(t.ctrl, Selected(targets, default, i))) == BrArity(FrameAt(t.ctrl, default))
  {
  }
}
