/** The translation of a whole body as the sequence of its states, and what holds between two of them. */
module Traces {
  import opened Cfg
  import opened Validation
  import opened Translation
  import opened TranslationInvariant
  import opened LiveSteps
  import opened CloseSteps
  import opened TranslationRuns
  import opened BuilderGrowth
  import opened FrameStability
  import opened ValueFreshness
  import opened WasmMachine

  /** The validator's and the translator's state before each operator, and at the end. */
  datatype Trace = Trace(ops: seq<Op>, vs: seq<VState>, ts: seq<TState>)

  ghost predicate StepAt(tr: Trace, k: nat)
    requires k < |tr.ops| && |tr.vs| == |tr.ts| == |tr.ops| + 1
  {
    Validate(tr.vs[k], tr.ops[k]) == Just(tr.vs[k + 1]) && TransOp(tr.ts[k], tr.ops[k]) == Ok(tr.ts[k + 1])
  }

  ghost predicate StateOk(v: VState, t: TState) {
    Inv(v, t) && Fresh(t)
  }

  ghost predicate AllSteps(tr: Trace)
    requires |tr.vs| == |tr.ts| == |tr.ops| + 1
  {
    forall k :: 0 <= k < |tr.ops| ==> StepAt(tr, k)
  }

  ghost predicate AllStates(tr: Trace)
    requires |tr.vs| == |tr.ts| == |tr.ops| + 1
  {
    forall k :: 0 <= k <= |tr.ops| ==> StateOk(tr.vs[k], tr.ts[k])
  }

  ghost predicate Valid(tr: Trace) {
    |tr.vs| == |tr.ts| == |tr.ops| + 1 && AllSteps(tr) && AllStates(tr)
  }

  /** A trace of a whole body, which closes the frame of the function at its very end. */
  ghost predicate Complete(tr: Trace) {
    && Valid(tr) && tr.vs[|tr.ops|].ctrls == []
    && |tr.ts[0].ctrl| == 1 && tr.ts[0].ctrl[0].BlockFrame? && IsReal(tr.ts[0].ctrl[0])
  }

  lemma {:induction false} TraceFrom(v: VState, t: TState, ops: seq<Op>) returns (tr: Trace)
    requires Inv(v, t) && Fresh(t) && ValidateAll(v, ops).Just?
    ensures Valid(tr) && tr.ops == ops && tr.vs[0] == v && tr.ts[0] == t
    ensures tr.vs[|ops|] == ValidateAll(v, ops).it && TransAll(t, ops) == Ok(tr.ts[|ops|])
    decreases |ops|
  {
    hide Inv, Fresh, Validate, TransOp;
    if ops == [] {
      tr := Trace(ops, [v], [t]);
    } else {
      StepKeeps(v, t, ops[0]);
      ValidInside(v, ops[0]);
      InvShape(v, t);
      StepFresh(v, t, ops[0]);
      var rest := TraceFrom(Validate(v, ops[0]).it, TransOp(t, ops[0]).value, ops[1..]);
      tr := Trace(ops, [v] + rest.vs, [t] + rest.ts);
      forall k | 0 <= k < |ops| ensures StepAt(tr, k) {
        if k > 0 {
          assert StepAt(rest, k - 1);
        }
      }
      forall k | 0 <= k <= |ops| ensures StateOk(tr.vs[k], tr.ts[k]) {
        if k > 0 {
          assert StateOk(rest.vs[k - 1], rest.ts[k - 1]);
        }
      }
    }
  }

  /** A state of the trace and the step from it. */
  lemma StateAt(tr: Trace, k: nat)
    requires Valid(tr) && k <= |tr.ops|
    ensures Inv(tr.vs[k], tr.ts[k]) && Fresh(tr.ts[k]) && |tr.vs[k].ctrls| == |tr.ts[k].ctrl|
  {
    hide Inv, Fresh;
    assert StateOk(tr.vs[k], tr.ts[k]);
    InvShape(tr.vs[k], tr.ts[k]);
  }

  lemma StepFrom(tr: Trace, k: nat)
    requires Valid(tr) && k < |tr.ops|
    ensures Validate(tr.vs[k], tr.ops[k]) == Just(tr.vs[k + 1]) && TransOp(tr.ts[k], tr.ops[k]) == Ok(tr.ts[k + 1])
    ensures tr.ts[k].ctrl != [] && tr.vs[k + 1].locals == tr.vs[k].locals
    ensures |tr.ts[k + 1].ctrl|
            == |tr.ts[k].ctrl| + (if Opening(tr.ops[k]) then 1 else if tr.ops[k].EndOp? then -1 else 0)
  {
    hide Inv, Fresh, Validate, TransOp;
    assert StepAt(tr, k);
    StateAt(tr, k);
    StateAt(tr, k + 1);
    NestingStep(tr.vs[k], tr.ops[k]);
  }

  lemma {:induction false} SameLocals(tr: Trace, k: nat)
    requires Valid(tr) && k <= |tr.ops|
    ensures tr.vs[k].locals == tr.vs[0].locals
  {
    hide AllSteps, AllStates;
    if k > 0 {
      SameLocals(tr, k - 1);
      StepFrom(tr, k - 1);
    }
  }

  // ---------------------------------------------------------------- open frames

  /** Frame `i` is open in every state from `j` to `k`. */
  ghost predicate Open(tr: Trace, j: nat, k: nat, i: nat)
    requires k < |tr.ts|
  {
    forall m :: j <= m <= k ==> |tr.ts[m].ctrl| > i
  }

  /** Frame `i` is not turned to its `else` from state `j` to `k`. */
  ghost predicate NoElseAt(tr: Trace, j: nat, k: nat, i: nat)
    requires k < |tr.ts| && k <= |tr.ops|
  {
    forall m :: j <= m < k ==> !(tr.ops[m].ElseOp? && |tr.ts[m].ctrl| == i + 1)
  }

  /** Frame `i` persists from `t` to `t'`, with the stack below its operands. */
  predicate Kept(t: TState, t': TState, i: nat) {
    && i < |t.ctrl| && i < |t'.ctrl|
    && (forall j :: 0 <= j <= i ==> Persists(t.ctrl[j], t'.ctrl[j]))
    && (forall j :: 0 <= j < i ==> SameBranch(t.ctrl[j], t'.ctrl[j]))
    && 0 <= Floor(t'.ctrl[i]) <= |t.stack| && Floor(t'.ctrl[i]) <= |t'.stack|
    && t'.stack[..Floor(t'.ctrl[i])] == t.stack[..Floor(t'.ctrl[i])]
  }

  lemma PersistsTrans(a: Frame, b: Frame, c: Frame)
    requires Persists(a, b) && Persists(b, c)
    ensures Persists(a, c) && (SameBranch(a, b) && SameBranch(b, c) ==> SameBranch(a, c))
  {
  }

  lemma KeptThenStable(t: TState, t': TState, t'': TState, i: nat)
    requires Kept(t, t', i) && Stable(t', t'', i) && 0 <= BaseSize(t.ctrl[i])
    ensures Kept(t, t'', i)
    ensures SameBranch(t.ctrl[i], t'.ctrl[i]) && SameBranch(t'.ctrl[i], t''.ctrl[i]) ==> SameBranch(t.ctrl[i], t''.ctrl[i])
  {
    hide Persists, SameBranch, Floor;
    forall j | 0 <= j <= i ensures Persists(t.ctrl[j], t''.ctrl[j]) {
      PersistsTrans(t.ctrl[j], t'.ctrl[j], t''.ctrl[j]);
    }
    forall j | 0 <= j < i ensures SameBranch(t.ctrl[j], t''.ctrl[j]) {
      PersistsTrans(t.ctrl[j], t'.ctrl[j], t''.ctrl[j]);
    }
    PersistsTrans(t.ctrl[i], t'.ctrl[i], t''.ctrl[i]);
    PersistsFloor(t'.ctrl[i], t''.ctrl[i]);
    PersistsFloor(t.ctrl[i], t'.ctrl[i]);
    var a, b := Floor(t'.ctrl[i]), Floor(t''.ctrl[i]);
    assert t''.stack[..b] == t''.stack[..a][..b];
    assert t'.stack[..b] == t'.stack[..a][..b];
    assert t.stack[..b] == t.stack[..a][..b];
  }

  lemma KeptSelf(tr: Trace, k: nat, i: nat)
    requires Valid(tr) && k <= |tr.ops| && i < |tr.ts[k].ctrl| && IsReal(tr.ts[k].ctrl[i])
    ensures Kept(tr.ts[k], tr.ts[k], i) && SameBranch(tr.ts[k].ctrl[i], tr.ts[k].ctrl[i])
    ensures 0 <= BaseSize(tr.ts[k].ctrl[i])
  {
    hide AllSteps, AllStates, Inv, Fresh;
    StateAt(tr, k);
    FloorBounds(tr.vs[k], tr.ts[k], i);
  }

  /** While a frame entered in reachable code stays open, it persists. */
  lemma {:induction false} Between(tr: Trace, j: nat, k: nat, i: nat)
    requires Valid(tr) && j <= k <= |tr.ops| && Open(tr, j, k, i) && IsReal(tr.ts[j].ctrl[i])
    ensures Kept(tr.ts[j], tr.ts[k], i) && IsReal(tr.ts[k].ctrl[i]) && 0 <= BaseSize(tr.ts[j].ctrl[i])
    ensures NoElseAt(tr, j, k, i) ==> SameBranch(tr.ts[j].ctrl[i], tr.ts[k].ctrl[i])
    decreases k - j
  {
    hide AllSteps, AllStates, Inv, Fresh, Kept, SameBranch, TransOp, Validate, Stable, BaseSize;
    KeptSelf(tr, j, i);
    if j < k {
      assert Open(tr, j, k - 1, i);
      Between(tr, j, k - 1, i);
      StateAt(tr, k - 1);
      StepFrom(tr, k - 1);
      StepStable(tr.vs[k - 1], tr.ts[k - 1], tr.ops[k - 1], i);
      KeptThenStable(tr.ts[j], tr.ts[k - 1], tr.ts[k], i);
      KeptReal(tr.ts[j], tr.ts[k], i);
    }
  }

  lemma KeptReal(t: TState, t': TState, i: nat)
    requires Kept(t, t', i)
    ensures i < |t.ctrl| && i < |t'.ctrl| && IsReal(t.ctrl[i]) == IsReal(t'.ctrl[i])
  {
  }

  // ---------------------------------------------------------------- matching positions

  /** The `end` found by scanning is where the frame closes. */
  lemma {:induction false} FindEnd(tr: Trace, k: nat, i: nat, d: nat)
    requires Complete(tr) && k <= |tr.ops| && |tr.ts[k].ctrl| == i + 1 + d
    ensures
      var e := EndFrom(tr.ops, k, d);
      && e < |tr.ops| && k <= e && tr.ops[e].EndOp? && |tr.ts[e].ctrl| == i + 1 && |tr.ts[e + 1].ctrl| == i
      && Open(tr, k, e, i)
    decreases |tr.ops| - k
  {
    hide AllSteps, AllStates, Inv, Fresh, TransOp, Validate;
    if k == |tr.ops| {
      StateAt(tr, k);
      assert false;
    } else {
      StepFrom(tr, k);
      if Opening(tr.ops[k]) {
        FindEnd(tr, k + 1, i, d + 1);
      } else if tr.ops[k].EndOp? {
        if d > 0 {
          FindEnd(tr, k + 1, i, d - 1);
        }
      } else {
        FindEnd(tr, k + 1, i, d);
      }
    }
  }

  /** The `else` or `end` found by scanning is where the branch of the `if` ends. */
  lemma {:induction false} FindElse(tr: Trace, k: nat, i: nat, d: nat)
    requires Complete(tr) && k <= |tr.ops| && |tr.ts[k].ctrl| == i + 1 + d
    ensures
      var e := ElseFrom(tr.ops, k, d);
      && e < |tr.ops| && k <= e && (tr.ops[e].EndOp? || tr.ops[e].ElseOp?) && |tr.ts[e].ctrl| == i + 1
      && Open(tr, k, e, i) && NoElseAt(tr, k, e, i)
    decreases |tr.ops| - k
  {
    hide AllSteps, AllStates, Inv, Fresh, TransOp, Validate;
    if k == |tr.ops| {
      StateAt(tr, k);
      assert false;
    } else {
      StepFrom(tr, k);
      if Opening(tr.ops[k]) {
        FindElse(tr, k + 1, i, d + 1);
      } else if tr.ops[k].EndOp? {
        if d > 0 {
          FindElse(tr, k + 1, i, d - 1);
        }
      } else if !(tr.ops[k].ElseOp? && d == 0) {
        FindElse(tr, k + 1, i, d);
      }
    }
  }

  // ---------------------------------------------------------------- the final function

  /** A block that ends in the branch of an `if` that may still get an `else`. */
  ghost predicate PendingHead(t: TState, b: Block) {
    exists i :: 0 <= i < |t.ctrl| && IsReal(t.ctrl[i]) && Exempt(t.ctrl[i]) == b
  }

  lemma PatchedIsPending(v: VState, t: TState, op: Op, b: Block)
    requires Inv(v, t) && t.ctrl != [] && Validate(v, op).Just? && PatchedBlock(t, op) == b && b != RESERVED
    ensures PendingHead(t, b) && op.ElseOp? && Exempt(TopFrame(t)) == b && IsReal(TopFrame(t))
  {
    hide Inv, Validate;
    if IsReal(TopFrame(t)) {
      ElseShape(v, t);
    } else {
      PlaceholderHead(v, t);
      assert false;
    }
  }

  lemma PlaceholderHead(v: VState, t: TState)
    requires Inv(v, t) && t.ctrl != [] && !IsReal(TopFrame(t))
    ensures TopFrame(t).IfFrame? ==> !TopFrame(t).headReachable
  {
    assert At(v, t, |t.ctrl| - 1);
  }

  lemma NewHead(t: TState, op: Op)
    requires TransLive(t, op).Ok? && Opening(op)
    ensures |TransLive(t, op).value.ctrl| == |t.ctrl| + 1
    ensures Exempt(TopFrame(TransLive(t, op).value)) in [RESERVED, t.f.cur]
  {
    hide TransBlock, TransLoop, TransIf;
    match op {
      case BlockOp(bt) => NewBlockHead(t, bt);
      case LoopOp(bt) => NewLoopHead(t, bt);
      case IfOp(bt) => NewIfHead(t, bt);
    }
  }

  lemma NewBlockHead(t: TState, bt: BlockType)
    requires TransBlock(t, bt).Ok?
    ensures |TransBlock(t, bt).value.ctrl| == |t.ctrl| + 1 && Exempt(TopFrame(TransBlock(t, bt).value)) == RESERVED
  {
  }

  lemma NewLoopHead(t: TState, bt: BlockType)
    requires TransLoop(t, bt).Ok?
    ensures |TransLoop(t, bt).value.ctrl| == |t.ctrl| + 1 && Exempt(TopFrame(TransLoop(t, bt).value)) == RESERVED
  {
    hide Terminate, CreateBlock, SwitchTo;
  }

  lemma NewIfHead(t: TState, bt: BlockType)
    requires TransIf(t, bt).Ok?
    ensures |TransIf(t, bt).value.ctrl| == |t.ctrl| + 1 && Exempt(TopFrame(TransIf(t, bt).value)) in [RESERVED, t.f.cur]
  {
    hide Terminate, CreateBlock, Seal, SwitchTo;
  }

  /** No finished block becomes the head of an `if`. */
  lemma StillNoHead(v: VState, t: TState, op: Op, b: Block)
    requires Inv(v, t) && t.ctrl != [] && Validate(v, op).Just? && TransOp(t, op).Ok?
    requires IsBlock(t.f, b) && Filled(t.f, b) && !PendingHead(t, b)
    ensures !PendingHead(TransOp(t, op).value, b)
  {
    hide Inv, Validate, TransOp, Stable;
    var t' := TransOp(t, op).value;
    forall i | 0 <= i < |t'.ctrl| && IsReal(t'.ctrl[i]) ensures Exempt(t'.ctrl[i]) != b {
      if i < |t.ctrl| {
        OldReal(v, t, op, i);
        StepStable(v, t, op, i);
        StablePersists(t, t', i);
        assert Exempt(t.ctrl[i]) != b;
      } else {
        NewFrameHead(v, t, op, i);
      }
    }
  }

  lemma StablePersists(t: TState, t': TState, i: nat)
    requires Stable(t, t', i)
    ensures i < |t.ctrl| && i < |t'.ctrl| && Persists(t.ctrl[i], t'.ctrl[i])
  {
  }

  lemma NewFrameHead(v: VState, t: TState, op: Op, i: nat)
    requires Inv(v, t) && t.ctrl != [] && Validate(v, op).Just? && TransOp(t, op).Ok?
    requires |t.ctrl| <= i < |TransOp(t, op).value.ctrl| && IsReal(TransOp(t, op).value.ctrl[i])
    ensures Exempt(TransOp(t, op).value.ctrl[i]) in [RESERVED, t.f.cur]
    ensures IsBlock(t.f, t.f.cur) && !Filled(t.f, t.f.cur)
  {
    hide Inv, Validate, TransLive, TransDead, IsUnreachable, Exempt;
    CtrlGrowth(v, t, op);
    NestingStep(v, op);
    StepKeeps(v, t, op);
    InvShape(v, t);
    InvShape(Validate(v, op).it, TransOp(t, op).value);
    if t.reachable {
      LiveFacts(v, t);
      NewHead(t, op);
    } else {
      DeadInside(v, t, op);
      assert false;
    }
  }

  /** A block that is finished and not the head of a pending `if` keeps its instructions and its final branch. */
  lemma {:induction false} Frozen(tr: Trace, k: nat, n: nat, b: Block)
    requires Valid(tr) && k <= n <= |tr.ops| && IsBlock(tr.ts[k].f, b) && Filled(tr.ts[k].f, b) && !PendingHead(tr.ts[k], b)
    ensures IsBlock(tr.ts[n].f, b) && !PendingHead(tr.ts[n], b)
    ensures tr.ts[n].f.blocks[b].params == tr.ts[k].f.blocks[b].params
    ensures tr.ts[n].f.blocks[b].body == tr.ts[k].f.blocks[b].body
    ensures tr.ts[n].f.blocks[b].term == tr.ts[k].f.blocks[b].term
    decreases n - k
  {
    hide AllSteps, AllStates, Inv, Fresh, PendingHead, TransOp, Validate, Grown;
    if k < n {
      Frozen(tr, k, n - 1, b);
      var v, t, op := tr.vs[n - 1], tr.ts[n - 1], tr.ops[n - 1];
      StateAt(tr, n - 1);
      StepFrom(tr, n - 1);
      OpGrown(t, op);
      StillNoHead(v, t, op, b);
      if PatchedBlock(t, op) == b {
        PatchedIsPending(v, t, op, b);
        assert false;
      }
      GrownKeeps(t.f, tr.ts[n].f, PatchedBlock(t, op), b);
    }
  }

  lemma GrownKeeps(f: Func, f': Func, x: Block, b: Block)
    requires Grown(f, f', x) && IsBlock(f, b)
    ensures IsBlock(f', b) && f'.blocks[b].params == f.blocks[b].params && f.blocks[b].body <= f'.blocks[b].body
    ensures Filled(f, b) ==> f'.blocks[b].body == f.blocks[b].body && Filled(f', b)
    ensures Filled(f, b) && b != x ==> f'.blocks[b].term == f.blocks[b].term
  {
    assert GrownBlock(f.blocks[b], f'.blocks[b], b != x);
  }

  /** Every block keeps its parameters and the instructions it has. */
  lemma {:induction false} Growing(tr: Trace, k: nat, n: nat, b: Block)
    requires Valid(tr) && k <= n <= |tr.ops| && IsBlock(tr.ts[k].f, b)
    ensures IsBlock(tr.ts[n].f, b) && tr.ts[n].f.blocks[b].params == tr.ts[k].f.blocks[b].params
    ensures tr.ts[k].f.blocks[b].body <= tr.ts[n].f.blocks[b].body
    decreases n - k
  {
    hide AllSteps, AllStates, TransOp, Validate, Grown;
    if k < n {
      Growing(tr, k, n - 1, b);
      StepFrom(tr, n - 1);
      OpGrown(tr.ts[n - 1], tr.ops[n - 1]);
      GrownKeeps(tr.ts[n - 1].f, tr.ts[n].f, PatchedBlock(tr.ts[n - 1], tr.ops[n - 1]), b);
    }
  }

  /** `g` is the function as translated to the end. */
  ghost predicate IsFinal(tr: Trace, g: Func) {
    Complete(tr) && Finish(tr.ts[|tr.ops|]) == Ok(g)
  }

  lemma FinishGrown(t: TState)
    ensures Finish(t).Ok? ==> Grown(t.f, Finish(t).value, RESERVED)
  {
    hide Grown, Terminate, IsUnreachable;
    GrownSelf(t.f);
    TerminateGrown(t.f, ReturnTerm(t.stack));
  }

  lemma FrozenInFinal(tr: Trace, g: Func, k: nat, b: Block)
    requires IsFinal(tr, g) && k <= |tr.ops| && IsBlock(tr.ts[k].f, b) && Filled(tr.ts[k].f, b) && !PendingHead(tr.ts[k], b)
    ensures IsBlock(g, b) && g.blocks[b].params == tr.ts[k].f.blocks[b].params
    ensures g.blocks[b].body == tr.ts[k].f.blocks[b].body && g.blocks[b].term == tr.ts[k].f.blocks[b].term
  {
    hide AllSteps, AllStates, PendingHead, Grown;
    Frozen(tr, k, |tr.ops|, b);
    FinishGrown(tr.ts[|tr.ops|]);
    GrownKeeps(tr.ts[|tr.ops|].f, g, RESERVED, b);
    IsABlock(tr.ts[|tr.ops|].f, b);
  }

  lemma IsABlock(f: Func, b: Block)
    requires IsBlock(f, b)
    ensures b != RESERVED
  {
  }

  lemma GrowingInFinal(tr: Trace, g: Func, k: nat, b: Block)
    requires IsFinal(tr, g) && k <= |tr.ops| && IsBlock(tr.ts[k].f, b)
    ensures IsBlock(g, b) && g.blocks[b].params == tr.ts[k].f.blocks[b].params
    ensures tr.ts[k].f.blocks[b].body <= g.blocks[b].body
  {
    hide AllSteps, AllStates, Grown;
    Growing(tr, k, |tr.ops|, b);
    FinishGrown(tr.ts[|tr.ops|]);
    GrownKeeps(tr.ts[|tr.ops|].f, g, RESERVED, b);
  }

  // ---------------------------------------------------------------- heads of pending ifs

  /** Different pending ifs have different heads. */
  lemma HeadsDiffer(v: VState, t: TState, i: nat, j: nat)
    requires Inv(v, t) && i < |t.ctrl| && j < |t.ctrl| && IsReal(t.ctrl[i]) && IsReal(t.ctrl[j])
    requires Exempt(t.ctrl[i]) == Exempt(t.ctrl[j]) != RESERVED
    ensures i == j
  {
    hide PredExcept;
    assert At(v, t, i) && At(v, t, j);
    HeadAt(t.f, t.ctrl[i]);
    HeadAt(t.f, t.ctrl[j]);
    HiIsMax(t.f, t.ctrl[i]);
    HiIsMax(t.f, t.ctrl[j]);
  }

  lemma HeadAt(f: Func, fr: Frame)
    requires FrameOk(f, fr) && Exempt(fr) != RESERVED
    ensures HeadOk(f, Exempt(fr), fr.destination, fr.numParams)
  {
    hide PredExcept;
  }

  /** The head of an `if` keeps its branch until its `else`. */
  lemma {:induction false} HeadKept(tr: Trace, j: nat, k: nat, i: nat, p: Block)
    requires Valid(tr) && j <= k <= |tr.ops| && Open(tr, j, k, i) && NoElseAt(tr, j, k, i)
    requires IsReal(tr.ts[j].ctrl[i]) && Exempt(tr.ts[j].ctrl[i]) == p != RESERVED
    requires IsBlock(tr.ts[j].f, p) && Filled(tr.ts[j].f, p)
    ensures i < |tr.ts[k].ctrl| && IsReal(tr.ts[k].ctrl[i]) && Exempt(tr.ts[k].ctrl[i]) == p
    ensures IsBlock(tr.ts[k].f, p) && tr.ts[k].f.blocks[p].term == tr.ts[j].f.blocks[p].term
    ensures tr.ts[k].f.blocks[p].body == tr.ts[j].f.blocks[p].body
    decreases k - j
  {
    hide AllSteps, AllStates, Inv, Fresh, Kept, Grown, TransOp, Validate;
    Between(tr, j, k, i);
    SamePending(tr.ts[j], tr.ts[k], i);
    if j < k {
      assert Open(tr, j, k - 1, i) && NoElseAt(tr, j, k - 1, i);
      HeadKept(tr, j, k - 1, i, p);
      var v, t, op := tr.vs[k - 1], tr.ts[k - 1], tr.ops[k - 1];
      StateAt(tr, k - 1);
      StepFrom(tr, k - 1);
      OpGrown(t, op);
      if PatchedBlock(t, op) == p {
        PatchedIsPending(v, t, op, p);
        HeadsDiffer(v, t, i, |t.ctrl| - 1);
        assert false;
      }
      GrownKeeps(t.f, tr.ts[k].f, PatchedBlock(t, op), p);
    }
  }

  lemma SamePending(t: TState, t': TState, i: nat)
    requires Kept(t, t', i) && SameBranch(t.ctrl[i], t'.ctrl[i])
    ensures Exempt(t'.ctrl[i]) == Exempt(t.ctrl[i])
  {
  }
}
