/** Every value is defined once: stack values were defined before, and the parameters of a pending
    block are younger than the values below its frame. */
module ValueFreshness {
  import opened Cfg
  import opened Validation
  import opened Translation
  import opened TranslationInvariant
  import opened LiveSteps
  import opened TranslationRuns
  import opened BuilderGrowth
  import opened FrameStability

  predicate BelowAll(s: seq<Value>, ps: seq<Value>) {
    forall i, j :: 0 <= i < |s| && 0 <= j < |ps| ==> s[i] < ps[j]
  }

  ghost predicate FrameFresh(t: TState, fr: Frame) {
    && 0 <= BaseSize(fr) <= |t.stack| && IsBlock(t.f, fr.destination)
    && BelowAll(t.stack[..BaseSize(fr)], t.f.blocks[fr.destination].params)
    && (fr.LoopFrame? ==> IsBlock(t.f, fr.header) && BelowAll(t.stack[..BaseSize(fr)], t.f.blocks[fr.header].params))
  }

  predicate Bounded(stack: seq<Value>, next: Value) {
    forall i :: 0 <= i < |stack| ==> stack[i] < next
  }

  ghost predicate ParamsOk(f: Func) {
    forall b :: IsBlock(f, b) ==> NewParams(f.blocks[b].params, 0, f.nextValue)
  }

  ghost predicate Fresh(t: TState) {
    && Bounded(t.stack, t.f.nextValue) && ParamsOk(t.f)
    && forall i :: 0 <= i < |t.ctrl| && IsReal(t.ctrl[i]) ==> FrameFresh(t, t.ctrl[i])
  }

  lemma GrownParams(f: Func, f': Func, x: Block)
    requires ParamsOk(f) && Grown(f, f', x)
    ensures ParamsOk(f')
  {
    forall b | IsBlock(f', b) ensures NewParams(f'.blocks[b].params, 0, f'.nextValue) {
      if IsBlock(f, b) {
        assert GrownBlock(f.blocks[b], f'.blocks[b], b != x);
        assert NewParams(f.blocks[b].params, 0, f.nextValue);
      }
    }
  }

  lemma GrownBounds(f: Func, f': Func, x: Block, b: Block)
    requires Grown(f, f', x) && IsBlock(f, b)
    ensures IsBlock(f', b) && f'.blocks[b].params == f.blocks[b].params && f.nextValue <= f'.nextValue
  {
    assert GrownBlock(f.blocks[b], f'.blocks[b], b != x);
  }

  lemma PersistsFresh(t: TState, t': TState, x: Block, i: nat)
    requires Stable(t, t', i) && Grown(t.f, t'.f, x) && FrameFresh(t, t.ctrl[i])
    ensures FrameFresh(t', t'.ctrl[i])
  {
    hide Grown, BelowAll;
    var a, b := t.ctrl[i], t'.ctrl[i];
    PersistsFloor(a, b);
    GrownBounds(t.f, t'.f, x, a.destination);
    if a.LoopFrame? {
      GrownBounds(t.f, t'.f, x, a.header);
    }
    assert t'.stack[..BaseSize(a)] == t'.stack[..Floor(a)][..BaseSize(a)];
    assert t.stack[..BaseSize(a)] == t.stack[..Floor(a)][..BaseSize(a)];
  }

  /** A new frame over new blocks. */
  lemma OpenedFresh(t: TState, t': TState, fr: Frame)
    requires Bounded(t.stack, t.f.nextValue) && Grown(t.f, t'.f, RESERVED)
    requires 0 <= BaseSize(fr) <= |t.stack| && BaseSize(fr) <= |t'.stack|
    requires t'.stack[..BaseSize(fr)] == t.stack[..BaseSize(fr)]
    requires |t.f.blocks| <= fr.destination < |t'.f.blocks|
    requires fr.LoopFrame? ==> |t.f.blocks| <= fr.header < |t'.f.blocks|
    ensures FrameFresh(t', fr)
  {
    var s := t'.stack[..BaseSize(fr)];
    assert Bounded(s, t.f.nextValue) by {
      assert forall i :: 0 <= i < |s| ==> s[i] == t.stack[i];
    }
  }

  // ---------------------------------------------------------------- where stack values come from

  ghost predicate Sourced(t: TState, t': TState, x: Value) {
    || x in t.stack || (x == t.f.nextValue && x < t'.f.nextValue)
    || exists b :: IsBlock(t'.f, b) && x in t'.f.blocks[b].params
  }

  ghost predicate AllSourced(t: TState, t': TState) {
    forall x :: x in t'.stack ==> Sourced(t, t', x)
  }

  lemma SourcedBounded(t: TState, t': TState)
    requires Fresh(t) && ParamsOk(t'.f) && t.f.nextValue <= t'.f.nextValue && AllSourced(t, t')
    ensures Bounded(t'.stack, t'.f.nextValue)
  {
    forall i | 0 <= i < |t'.stack| ensures t'.stack[i] < t'.f.nextValue {
      var x := t'.stack[i];
      assert x in t'.stack;
      if x !in t.stack && x != t.f.nextValue {
        var b :| IsBlock(t'.f, b) && x in t'.f.blocks[b].params;
        assert NewParams(t'.f.blocks[b].params, 0, t'.f.nextValue);
      }
    }
  }

  lemma PrefixSourced(t: TState, t': TState, n: nat)
    requires n <= |t.stack| && t'.stack == t.stack[..n]
    ensures AllSourced(t, t')
  {
  }

  lemma ParamsSourced(t: TState, t': TState, n: nat, b: Block)
    requires n <= |t.stack| && IsBlock(t'.f, b) && t'.stack == t.stack[..n] + t'.f.blocks[b].params
    ensures AllSourced(t, t')
  {
  }

  lemma PushSourced(t: TState, n: nat, i: Inst)
    requires PushResult(t, n, i).Ok?
    ensures AllSourced(t, PushResult(t, n, i).value)
  {
    var t' := PushResult(t, n, i).value;
    hide Sourced;
    forall x | x in t'.stack ensures Sourced(t, t', x) {
      assert x in t.stack || x == t.f.nextValue;
      NewIsSourced(t, t', x);
    }
  }

  lemma NewIsSourced(t: TState, t': TState, x: Value)
    requires x in t.stack || (x == t.f.nextValue && x < t'.f.nextValue)
    ensures Sourced(t, t', x)
  {
  }

  lemma StraightSourced(t: TState, op: Op)
    requires IsStraight(op) && TransLive(t, op).Ok?
    ensures AllSourced(t, TransLive(t, op).value)
  {
    hide PushResult, AllSourced, Emit;
    var t', s := TransLive(t, op).value, |t.stack|;
    var v := t.f.nextValue;
    assert t.stack[..s] == t.stack;
    match op {
      case Const(n) => PushSourced(t, 0, Iconst(v, n));
      case Add => PushSourced(t, 2, Iadd(v, PeekN(t.stack, 2).value[0], PeekN(t.stack, 2).value[1]));
      case Select =>
        var args := PeekN(t.stack, 3).value;
        PushSourced(t, 3, SelectInst(v, args[2], args[0], args[1]));
      case LocalGet(i) => PushSourced(t, 0, UseVar(v, i));
      case Nop => PrefixSourced(t, t', s);
      case Drop => PrefixSourced(t, t', s - 1);
      case LocalSet(_) => PrefixSourced(t, t', s - 1);
      case LocalTee(_) => PrefixSourced(t, t', s);
    }
  }

  lemma EndsSourced(t: TState, op: Op)
    requires (op.Br? || op.ReturnOp? || op.UnreachableOp? || op.BlockOp? || op.BrIf?) && TransLive(t, op).Ok?
    ensures AllSourced(t, TransLive(t, op).value)
  {
    hide Terminate, CreateBlock, Seal, SwitchTo;
  }

  lemma BrTableSourced(t: TState, targets: seq<nat>, default: nat)
    requires TransBrTable(t, targets, default).Ok?
    ensures AllSourced(t, TransBrTable(t, targets, default).value)
  {
    hide Terminate, CreateBlocks, FillSplits, TableOrder, SplitTerm, MarkAll;
  }

  lemma LoopSourced(t: TState, bt: BlockType)
    requires TransLoop(t, bt).Ok?
    ensures AllSourced(t, TransLoop(t, bt).value)
  {
    hide Terminate, CreateBlock;
    var t' := TransLoop(t, bt).value;
    ParamsSourced(t, t', |t.stack| - |bt.params|, |t.f.blocks|);
  }

  lemma IfSourced(t: TState, bt: BlockType)
    requires TransIf(t, bt).Ok?
    ensures AllSourced(t, TransIf(t, bt).value)
  {
    hide Terminate, CreateBlock, Seal, SwitchTo;
  }

  lemma AfterEndSourced(t: TState, f: Func, fr: Frame, ctrl: seq<Frame>)
    requires AfterEnd(f, t.stack, fr, ctrl).Ok?
    ensures AllSourced(t, AfterEnd(f, t.stack, fr, ctrl).value)
  {
    var n := if 0 <= BaseSize(fr) <= |t.stack| then BaseSize(fr) else |t.stack|;
    assert Truncate(t.stack, BaseSize(fr)) == t.stack[..n];
    ParamsSourced(t, AfterEnd(f, t.stack, fr, ctrl).value, n, f.cur);
  }

  lemma EndSourced(t: TState)
    ensures TransEnd(t).Ok? ==> AllSourced(t, TransEnd(t).value)
    ensures DeadEnd(t).Ok? ==> AllSourced(t, DeadEnd(t).value)
  {
    hide Terminate, CloseInto, Seal, AfterEnd, Sourced;
    if t.ctrl != [] {
      var fr, ctrl := TopFrame(t), t.ctrl[..|t.ctrl| - 1];
      var n := if 0 <= BaseSize(fr) <= |t.stack| then BaseSize(fr) else |t.stack|;
      assert Truncate(t.stack, BaseSize(fr)) == t.stack[..n];
      if TransEnd(t).Ok? {
        var f1 := Terminate(t.f, Jump(fr.destination, PeekN(t.stack, fr.numResults).value)).value;
        AfterEndSourced(t, CloseInto(f1, fr).value, fr, ctrl);
      }
      if DeadEnd(t).Ok? {
        if !fr.LoopFrame? && (ExitBranched(fr) || ReachableAnyway(fr)) {
          AfterEndSourced(t, CloseInto(t.f, fr).value, fr, ctrl);
        } else {
          PrefixSourced(t, DeadEnd(t).value, n);
        }
      }
    }
  }

  lemma ElseSourced(v: VState, t: TState)
    requires Inv(v, t) && t.ctrl != [] && Validate(v, ElseOp).Just? && TransOp(t, ElseOp).Ok?
    ensures AllSourced(t, TransOp(t, ElseOp).value)
  {
    hide Inv, Validate, TransOp, Sourced;
    var t' := TransOp(t, ElseOp).value;
    if IsReal(TopFrame(t)) {
      ElseReduces(v, t);
      PrefixSourced(t, t', TopFrame(t).origSize);
    } else {
      PlaceholderElse(v, t);
      assert t.stack[..|t.stack|] == t.stack;
      PrefixSourced(t, t', |t.stack|);
    }
  }

  lemma StepSourced(v: VState, t: TState, op: Op)
    requires Inv(v, t) && t.ctrl != [] && Validate(v, op).Just? && TransOp(t, op).Ok?
    ensures AllSourced(t, TransOp(t, op).value)
  {
    hide Inv, Validate, Sourced, IsUnreachable, TransEnd, DeadEnd, TransElse, DeadElse, TransLoop, TransIf, TransBrTable,
         TransConst, TransAdd, TransSelect, TransLocalGet, TransLocalSet, TransBr, TransBrIf, TransReturn, TransTrap, TransBlock;
    var t' := TransOp(t, op).value;
    if op.ElseOp? {
      ElseSourced(v, t);
    } else if op.EndOp? {
      EndSourced(t);
    } else if t.reachable {
      match op {
        case LoopOp(bt) => LoopSourced(t, bt);
        case IfOp(bt) => IfSourced(t, bt);
        case BrTableOp(targets, default) => BrTableSourced(t, targets, default);
        case _ => if IsStraight(op) { StraightSourced(t, op); } else { EndsSourced(t, op); }
      }
    } else {
      DeadInside(v, t, op);
      assert t.stack[..|t.stack|] == t.stack;
      PrefixSourced(t, t', |t.stack|);
    }
  }

  // ---------------------------------------------------------------- new frames

  /** The frame on top is new: its blocks are, and the stack below it is as before. */
  ghost predicate NewFrame(t: TState, t': TState) {
    && |t'.ctrl| == |t.ctrl| + 1
    && var fr := TopFrame(t');
       && |t.f.blocks| <= fr.destination < |t'.f.blocks|
       && (fr.LoopFrame? ==> |t.f.blocks| <= fr.header < |t'.f.blocks|)
       && 0 <= BaseSize(fr) <= |t.stack| && BaseSize(fr) <= |t'.stack|
       && t'.stack[..BaseSize(fr)] == t.stack[..BaseSize(fr)]
  }

  lemma NewBlockFrame(t: TState, bt: BlockType)
    requires TransBlock(t, bt).Ok?
    ensures NewFrame(t, TransBlock(t, bt).value)
  {
  }

  lemma NewLoopFrame(t: TState, bt: BlockType)
    requires TransLoop(t, bt).Ok?
    ensures NewFrame(t, TransLoop(t, bt).value)
  {
    hide TermOk;
    var t' := TransLoop(t, bt).value;
    var b := BaseSize(TopFrame(t'));
    assert t'.stack[..b] == t.stack[..b];
  }

  lemma NewIfFrame(t: TState, bt: BlockType)
    requires TransIf(t, bt).Ok?
    ensures NewFrame(t, TransIf(t, bt).value)
  {
    hide TermOk;
    var t' := TransIf(t, bt).value;
    var b := BaseSize(TopFrame(t'));
    assert t'.stack[..b] == t.stack[..b];
  }

  lemma NewFrameShape(t: TState, op: Op)
    requires (op.BlockOp? || op.LoopOp? || op.IfOp?) && TransLive(t, op).Ok?
    ensures NewFrame(t, TransLive(t, op).value)
  {
    hide NewFrame, TransBlock, TransLoop, TransIf;
    match op {
      case BlockOp(bt) => NewBlockFrame(t, bt);
      case LoopOp(bt) => NewLoopFrame(t, bt);
      case IfOp(bt) => NewIfFrame(t, bt);
    }
  }

  lemma NewFrameFresh(v: VState, t: TState, op: Op)
    requires Inv(v, t) && t.ctrl != [] && Validate(v, op).Just? && TransOp(t, op).Ok? && Fresh(t)
    requires |TransOp(t, op).value.ctrl| > |t.ctrl| && IsReal(TopFrame(TransOp(t, op).value))
    requires Grown(t.f, TransOp(t, op).value.f, PatchedBlock(t, op))
    ensures |TransOp(t, op).value.ctrl| == |t.ctrl| + 1
    ensures FrameFresh(TransOp(t, op).value, TopFrame(TransOp(t, op).value))
  {
    hide Inv, Validate, TransLive, TransDead, IsUnreachable, Grown, FrameFresh, Stable;
    var t' := TransOp(t, op).value;
    if op.ElseOp? {
      if IsReal(TopFrame(t)) { ElseReduces(v, t); } else { PlaceholderElse(v, t); }
      assert false;
    } else if op.EndOp? {
      EndReduces(v, t);
      assert false;
    } else if t.reachable {
      LiveInside(v, t, op);
      NewFrameShape(t, op);
      OpenedFresh(t, t', TopFrame(t'));
    } else {
      DeadInside(v, t, op);
      assert false;
    }
  }

  lemma StepFresh(v: VState, t: TState, op: Op)
    requires Inv(v, t) && t.ctrl != [] && Validate(v, op).Just? && TransOp(t, op).Ok? && Fresh(t)
    ensures Fresh(TransOp(t, op).value)
  {
    hide Inv, Validate, TransOp, Grown, FrameFresh, Stable, AllSourced, ParamsOk;
    var t', x := TransOp(t, op).value, PatchedBlock(t, op);
    OpGrown(t, op);
    GrownParams(t.f, t'.f, x);
    StepSourced(v, t, op);
    GrownNext(t.f, t'.f, x);
    SourcedBounded(t, t');
    forall i | 0 <= i < |t'.ctrl| && IsReal(t'.ctrl[i]) ensures FrameFresh(t', t'.ctrl[i]) {
      if i < |t.ctrl| {
        OldReal(v, t, op, i);
        StepStable(v, t, op, i);
        PersistsFresh(t, t', x, i);
      } else {
        CtrlGrowth(v, t, op);
        NewFrameFresh(v, t, op);
      }
    }
  }

  lemma GrownNext(f: Func, f': Func, x: Block)
    requires Grown(f, f', x)
    ensures f.nextValue <= f'.nextValue
  {
  }

  lemma CtrlGrowth(v: VState, t: TState, op: Op)
    requires Inv(v, t) && t.ctrl != [] && Validate(v, op).Just? && TransOp(t, op).Ok?
    ensures |TransOp(t, op).value.ctrl| <= |t.ctrl| + 1
  {
    hide Inv, Validate, TransOp;
    StepKeeps(v, t, op);
    InvShape(v, t);
    InvShape(Validate(v, op).it, TransOp(t, op).value);
    NestingStep(v, op);
  }

  /** How the depth of nesting changes. */
  lemma NestingStep(v: VState, op: Op)
    requires Validate(v, op).Just?
    ensures v.ctrls != []
    ensures |Validate(v, op).it.ctrls|
            == |v.ctrls| + (if op.BlockOp? || op.LoopOp? || op.IfOp? then 1 else if op.EndOp? then -1 else 0)
    ensures Validate(v, op).it.locals == v.locals
  {
  }

  /** A frame entered in unreachable code stays one. */
  lemma OldReal(v: VState, t: TState, op: Op, i: nat)
    requires Inv(v, t) && Validate(v, op).Just? && TransOp(t, op).Ok? && i < |t.ctrl| && i < |TransOp(t, op).value.ctrl|
    requires IsReal(TransOp(t, op).value.ctrl[i])
    ensures IsReal(t.ctrl[i])
  {
    hide Inv, Validate, TransLive, TransDead, IsUnreachable;
    var t' := TransOp(t, op).value;
    if op.ElseOp? {
      if IsReal(TopFrame(t)) { ElseReduces(v, t); } else { PlaceholderElse(v, t); }
    } else if op.EndOp? {
      EndReduces(v, t);
    } else if t.reachable {
      LiveInside(v, t, op);
    } else {
      DeadInside(v, t, op);
    }
  }

  lemma InitialFresh(results: nat)
    ensures Fresh(InitialState(results))
  {
  }
}
