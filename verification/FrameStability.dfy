/** While a frame stays open, its data and the values below it on the stack stay as they are. */
module FrameStability {
  import opened Cfg
  import opened Validation
  import opened Translation
  import opened TranslationInvariant
  import opened LiveSteps
  import TableSteps
  import opened CloseSteps
  import opened DeadSteps
  import opened TranslationRuns

  /** The same frame later: an exit flag may have been set, an `else` may have been met. */
  predicate Persists(a: Frame, b: Frame) {
    && a.destination == b.destination && a.numParams == b.numParams && a.numResults == b.numResults
    && a.origSize == b.origSize && (a.LoopFrame? <==> b.LoopFrame?) && (a.IfFrame? <==> b.IfFrame?)
    && (a.LoopFrame? ==> a.header == b.header) && (ExitBranched(a) ==> ExitBranched(b))
    && (a.IfFrame? ==>
          && a.elseData == b.elseData && a.bt == b.bt && a.headReachable == b.headReachable
          && (a.consequentEnds.Just? ==> b.consequentEnds == a.consequentEnds))
  }

  predicate SameBranch(a: Frame, b: Frame) {
    a.IfFrame? && b.IfFrame? ==> a.consequentEnds == b.consequentEnds
  }

  /** Frame `i` and those around it persist, and so does the stack below its operands. */
  predicate Stable(t: TState, t': TState, i: nat) {
    && i < |t.ctrl| && i < |t'.ctrl|
    && (forall j :: 0 <= j <= i ==> Persists(t.ctrl[j], t'.ctrl[j]))
    && (forall j :: 0 <= j < i ==> SameBranch(t.ctrl[j], t'.ctrl[j]))
    && 0 <= Floor(t.ctrl[i]) <= |t.stack| && Floor(t.ctrl[i]) <= |t'.stack|
    && t'.stack[..Floor(t.ctrl[i])] == t.stack[..Floor(t.ctrl[i])]
  }

  lemma PersistsFloor(a: Frame, b: Frame)
    requires Persists(a, b)
    ensures BaseSize(b) == BaseSize(a) && IsReal(a) == IsReal(b) && BrDestination(a) == BrDestination(b) && BrArity(a) == BrArity(b)
    ensures SameBranch(a, b) ==> Floor(a) == Floor(b)
    ensures BaseSize(a) <= Floor(b) <= Floor(a)
  {
  }

  /** The frames as after an operator that changes at most exit flags. */
  predicate Marked(ctrl: seq<Frame>, ctrl': seq<Frame>, n: nat) {
    && n <= |ctrl| && n <= |ctrl'|
    && forall j :: 0 <= j < n ==> ctrl'[j] == ctrl[j] || ctrl'[j] == SetBranched(ctrl[j])
  }

  lemma MarkedPersists(ctrl: seq<Frame>, ctrl': seq<Frame>, n: nat)
    requires Marked(ctrl, ctrl', n)
    ensures forall j :: 0 <= j < n ==> Persists(ctrl[j], ctrl'[j]) && SameBranch(ctrl[j], ctrl'[j])
  {
  }

  lemma {:induction false} MarkAllMarks(ctrl: seq<Frame>, depths: seq<nat>)
    requires forall k :: 0 <= k < |depths| ==> depths[k] < |ctrl|
    ensures Marked(ctrl, MarkAll(ctrl, depths), |ctrl|)
    decreases |depths|
  {
    if depths != [] {
      MarkAllMarks(ctrl, depths[..|depths| - 1]);
    }
  }

  /** What an operator other than `else` and `end` does to frames and stack. */
  predicate Inside(t: TState, t': TState, floor: int) {
    && Marked(t.ctrl, t'.ctrl, |t.ctrl|)
    && 0 <= floor <= |t.stack| && floor <= |t'.stack| && t'.stack[..floor] == t.stack[..floor]
  }

  lemma InsidePush(t: TState, n: nat, i: Inst, floor: nat)
    requires PushResult(t, n, i).Ok? && floor + n <= |t.stack|
    ensures Inside(t, PushResult(t, n, i).value, floor) && PushResult(t, n, i).value.ctrl == t.ctrl
  {
    hide EmitValue;
  }

  lemma InsideShrink(t: TState, t': TState, n: nat, floor: nat)
    requires t'.ctrl == t.ctrl && floor <= n <= |t.stack| && t'.stack == t.stack[..n]
    ensures Inside(t, t', floor)
  {
  }

  lemma InsideLocal(t: TState, i: nat, keep: bool, floor: nat)
    requires TransLocalSet(t, i, keep).Ok? && floor + 1 <= |t.stack|
    ensures Inside(t, TransLocalSet(t, i, keep).value, floor) && TransLocalSet(t, i, keep).value.ctrl == t.ctrl
  {
    hide Emit, Inside;
    assert t.stack[..|t.stack|] == t.stack;
    InsideShrink(t, TransLocalSet(t, i, keep).value, if keep then |t.stack| else |t.stack| - 1, floor);
  }

  lemma InsideStraight(t: TState, op: Op, floor: nat)
    requires IsStraight(op) && TransLive(t, op).Ok? && floor + Pops(op) <= |t.stack|
    ensures Inside(t, TransLive(t, op).value, floor)
    ensures |TransLive(t, op).value.ctrl| == |t.ctrl|
  {
    hide PushResult, TransLocalSet, Inside;
    var v, s := t.f.nextValue, |t.stack|;
    match op {
      case Const(n) => InsidePush(t, 0, Iconst(v, n), floor);
      case Add => InsidePush(t, 2, Iadd(v, PeekN(t.stack, 2).value[0], PeekN(t.stack, 2).value[1]), floor);
      case Select =>
        var args := PeekN(t.stack, 3).value;
        InsidePush(t, 3, SelectInst(v, args[2], args[0], args[1]), floor);
      case LocalGet(i) => InsidePush(t, 0, UseVar(v, i), floor);
      case Nop =>
        assert t.stack[..s] == t.stack;
        InsideShrink(t, t, s, floor);
      case Drop => InsideShrink(t, TransLive(t, Drop).value, s - 1, floor);
      case LocalSet(i) => InsideLocal(t, i, false, floor);
      case LocalTee(i) => InsideLocal(t, i, true, floor);
    }
  }

  lemma InsideEnds(t: TState, op: Op, floor: nat, n: nat)
    requires (op.Br? || op.ReturnOp? || op.UnreachableOp?) && TransLive(t, op).Ok? && floor + n <= |t.stack|
    requires op.Br? ==> op.depth < |t.ctrl| && n == BrArity(FrameAt(t.ctrl, op.depth))
    requires op.ReturnOp? && t.ctrl != [] ==> n == t.ctrl[0].numResults
    ensures Inside(t, TransLive(t, op).value, floor)
    ensures |TransLive(t, op).value.ctrl| == |t.ctrl|
  {
    hide Terminate;
  }

  lemma InsideBrIf(t: TState, d: nat, floor: nat)
    requires TransBrIf(t, d).Ok? && floor + 1 <= |t.stack|
    ensures Inside(t, TransBrIf(t, d).value, floor)
    ensures |TransBrIf(t, d).value.ctrl| == |t.ctrl|
  {
    hide Terminate, CreateBlock, Seal, SwitchTo;
  }

  lemma InsideBrTable(t: TState, targets: seq<nat>, default: nat, floor: nat, n: nat)
    requires TransBrTable(t, targets, default).Ok? && floor + 1 + n <= |t.stack|
    requires MinDepth(targets, default) < |t.ctrl| && n == BrArity(FrameAt(t.ctrl, MinDepth(targets, default)))
    ensures Inside(t, TransBrTable(t, targets, default).value, floor)
    ensures |TransBrTable(t, targets, default).value.ctrl| == |t.ctrl|
  {
    hide Terminate, CreateBlocks, FillSplits, TableOrder, SplitTerm, MarkAll;
    MarkAllMarks(t.ctrl, targets + [default]);
    MarkAllMarks(t.ctrl, TableOrder(targets, default));
  }

  lemma InsideOpens(t: TState, op: Op, floor: nat)
    requires (op.BlockOp? || op.LoopOp? || op.IfOp?) && TransLive(t, op).Ok?
    requires floor + |op.bt.params| + (if op.IfOp? then 1 else 0) <= |t.stack|
    ensures Inside(t, TransLive(t, op).value, floor)
    ensures |TransLive(t, op).value.ctrl| == |t.ctrl| + 1
  {
    hide Terminate, CreateBlock, Seal, SwitchTo;
  }

  lemma LiveInside(v: VState, t: TState, op: Op)
    requires Inv(v, t) && t.reachable && t.ctrl != [] && Validate(v, op).Just? && !op.ElseOp? && !op.EndOp?
    requires TransLive(t, op).Ok?
    ensures Inside(t, TransLive(t, op).value, Floor(TopFrame(t)))
    ensures |TransLive(t, op).value.ctrl| == |t.ctrl| + (if op.BlockOp? || op.LoopOp? || op.IfOp? then 1 else 0)
  {
    hide Inv, Validate, Inside, TransBr, TransBrIf, TransBrTable, TransReturn, TransTrap, TransBlock, TransLoop, TransIf,
         TransElse, TransEnd, Pops;
    LiveFacts(v, t);
    var floor := Floor(TopFrame(t));
    if IsStraight(op) {
      ValidStraight(v, op);
      ArgsAvailable(v, t, Pops(op));
      InsideStraight(t, op, floor);
    } else {
      match op {
        case UnreachableOp =>
          ArgsAvailable(v, t, 0);
          InsideEnds(t, op, floor, 0);
        case BlockOp(bt) =>
          ValidEnter(v, op);
          ArgsAvailable(v, t, |bt.params|);
          InsideOpens(t, op, floor);
        case LoopOp(bt) =>
          ValidEnter(v, op);
          ArgsAvailable(v, t, |bt.params|);
          InsideOpens(t, op, floor);
        case IfOp(bt) =>
          ValidIf(v, bt);
          ArgsAvailable(v, t, 1 + |bt.params|);
          InsideOpens(t, op, floor);
        case Br(d) =>
          ValidBr(v, d);
          TargetsDiffer(v, t, 0, |t.ctrl| - 1 - d);
          ArgsAvailable(v, t, BrArity(FrameAt(t.ctrl, d)));
          InsideEnds(t, op, floor, BrArity(FrameAt(t.ctrl, d)));
        case BrIf(d) =>
          ValidBrIf(v, d);
          ArgsAvailable(v, t, 1);
          InsideBrIf(t, d, floor);
        case BrTableOp(targets, default) =>
          TableSteps.TableArity(v, t, targets, default);
          InsideBrTable(t, targets, default, floor, BrArity(FrameAt(t.ctrl, default)));
        case ReturnOp =>
          ValidReturn(v);
          OuterArity(v, t);
          ArgsAvailable(v, t, t.ctrl[0].numResults);
          InsideEnds(t, op, floor, t.ctrl[0].numResults);
      }
    }
  }

  lemma FloorBounds(v: VState, t: TState, i: nat)
    requires Inv(v, t) && i < |t.ctrl| && IsReal(t.ctrl[i])
    ensures 0 <= BaseSize(t.ctrl[i]) <= Floor(t.ctrl[i]) <= |t.stack|
  {
    hide FrameOk, Ordered, RealPrefix, Closed, CursorOk;
    assert At(v, t, i);
  }

  lemma FloorsNest(v: VState, t: TState, i: nat)
    requires Inv(v, t) && i < |t.ctrl| && IsReal(TopFrame(t)) && IsReal(t.ctrl[i])
    ensures Floor(t.ctrl[i]) <= Floor(TopFrame(t))
    ensures i + 1 < |t.ctrl| ==> Floor(t.ctrl[i]) <= BaseSize(TopFrame(t))
  {
    hide Inv;
    TopFacts(v, t);
    if i + 1 < |t.ctrl| {
      OuterFacts(v, t, i);
    }
  }

  lemma InsideStable(v: VState, t: TState, t': TState, i: nat, floor: int)
    requires Inv(v, t) && i < |t.ctrl| && IsReal(t.ctrl[i]) && Floor(t.ctrl[i]) <= floor && Inside(t, t', floor)
    ensures Stable(t, t', i) && SameBranch(t.ctrl[i], t'.ctrl[i])
  {
    hide Inv, Floor, Persists, SameBranch;
    FloorBounds(v, t, i);
    MarkedPersists(t.ctrl, t'.ctrl, |t.ctrl|);
    assert t'.stack[..Floor(t.ctrl[i])] == t'.stack[..floor][..Floor(t.ctrl[i])];
    assert t.stack[..Floor(t.ctrl[i])] == t.stack[..floor][..Floor(t.ctrl[i])];
  }

  /** An `else` or `end` that leaves frame `i` open. */
  predicate Reduced(t: TState, t': TState, n: nat, floor: int) {
    && n <= |t.ctrl| && n <= |t'.ctrl| && (forall j :: 0 <= j < n ==> t'.ctrl[j] == t.ctrl[j])
    && 0 <= floor <= |t.stack| && floor <= |t'.stack| && t'.stack[..floor] == t.stack[..floor]
  }

  lemma ElseReduces(v: VState, t: TState)
    requires Inv(v, t) && t.ctrl != [] && IsReal(TopFrame(t)) && Validate(v, ElseOp).Just? && TransOp(t, ElseOp).Ok?
    ensures
      var t' := TransOp(t, ElseOp).value;
      && TopFrame(t).IfFrame? && TopFrame(t).consequentEnds.Nothing?
      && t'.ctrl == ReplaceTop(t.ctrl, Elsed(TopFrame(t), t.reachable))
      && 0 <= TopFrame(t).origSize <= |t.stack| && t'.stack == t.stack[..TopFrame(t).origSize] && t'.reachable
  {
    hide Inv, Validate, CreateBlock, Terminate, PatchElse, SwitchTo, IsUnreachable, FrameOk, ShapeOk;
    ElseShape(v, t);
    TopFacts(v, t);
  }

  lemma EndReduces(v: VState, t: TState)
    requires Inv(v, t) && t.ctrl != [] && Validate(v, EndOp).Just? && TransOp(t, EndOp).Ok?
    ensures
      var t' := TransOp(t, EndOp).value;
      && t'.ctrl == t.ctrl[..|t.ctrl| - 1]
      && (IsReal(TopFrame(t)) ==>
            && 0 <= BaseSize(TopFrame(t)) <= |t.stack| && BaseSize(TopFrame(t)) <= |t'.stack|
            && t'.stack[..BaseSize(TopFrame(t))] == t.stack[..BaseSize(TopFrame(t))])
      && (!IsReal(TopFrame(t)) ==> t' == t.(ctrl := t'.ctrl))
  {
    hide Inv, Validate, Terminate, CloseInto, Seal, IsUnreachable, FrameOk, ShapeOk;
    InvShape(v, t);
    if IsReal(TopFrame(t)) {
      TopFacts(v, t);
    } else if t.reachable {
      LiveTop(v, t);
    } else {
      EndPlaceholder(v, t);
    }
  }

  lemma ReducedStable(v: VState, t: TState, t': TState, i: nat, n: nat, floor: int)
    requires Inv(v, t) && i < n <= |t.ctrl| && IsReal(t.ctrl[i]) && Floor(t.ctrl[i]) <= floor && Reduced(t, t', n, floor)
    ensures Stable(t, t', i) && SameBranch(t.ctrl[i], t'.ctrl[i])
  {
    hide Inv, Floor;
    FloorBounds(v, t, i);
    assert t'.stack[..Floor(t.ctrl[i])] == t'.stack[..floor][..Floor(t.ctrl[i])];
    assert t.stack[..Floor(t.ctrl[i])] == t.stack[..floor][..Floor(t.ctrl[i])];
  }

  lemma ElseStable(v: VState, t: TState, i: nat)
    requires Inv(v, t) && i < |t.ctrl| && IsReal(t.ctrl[i]) && Validate(v, ElseOp).Just? && TransOp(t, ElseOp).Ok?
    ensures Stable(t, TransOp(t, ElseOp).value, i)
    ensures i + 1 < |t.ctrl| ==> SameBranch(t.ctrl[i], TransOp(t, ElseOp).value.ctrl[i])
  {
    hide Inv, Validate, TransOp, FrameOk, ShapeOk;
    var t' := TransOp(t, ElseOp).value;
    if IsReal(TopFrame(t)) {
      ElseReduces(v, t);
      FloorsNest(v, t, i);
      FloorBounds(v, t, |t.ctrl| - 1);
      if i + 1 < |t.ctrl| {
        ReducedStable(v, t, t', i, |t.ctrl| - 1, Floor(TopFrame(t)));
      } else {
        FloorBounds(v, t, i);
        assert forall j :: 0 <= j < i ==> t'.ctrl[j] == t.ctrl[j];
      }
    } else {
      PlaceholderElse(v, t);
      FloorBounds(v, t, i);
      assert t'.stack == t.stack;
      ReducedStable(v, t, t', i, |t.ctrl| - 1, |t.stack|);
    }
  }

  lemma PlaceholderElse(v: VState, t: TState)
    requires Inv(v, t) && t.ctrl != [] && !IsReal(TopFrame(t)) && Validate(v, ElseOp).Just? && TransOp(t, ElseOp).Ok?
    ensures !t.reachable
    ensures
      var t' := TransOp(t, ElseOp).value;
      && t'.f == t.f && t'.stack == t.stack && !t'.reachable && |t'.ctrl| == |t.ctrl|
      && !IsReal(TopFrame(t')) && forall j :: 0 <= j < |t.ctrl| - 1 ==> t'.ctrl[j] == t.ctrl[j]
  {
    hide Inv, Validate, PatchElse, SwitchTo, CreateBlock, IsUnreachable;
    if t.reachable {
      LiveTop(v, t);
    }
    ElsePlaceholder(v, t);
  }

  lemma EndStable(v: VState, t: TState, i: nat)
    requires Inv(v, t) && i + 1 < |t.ctrl| && IsReal(t.ctrl[i]) && Validate(v, EndOp).Just? && TransOp(t, EndOp).Ok?
    ensures Stable(t, TransOp(t, EndOp).value, i) && SameBranch(t.ctrl[i], TransOp(t, EndOp).value.ctrl[i])
  {
    hide Inv, Validate, TransOp, Stable, SameBranch, Floor, BaseSize;
    var t' := TransOp(t, EndOp).value;
    EndReduces(v, t);
    if IsReal(TopFrame(t)) {
      FloorsNest(v, t, i);
      ReducedStable(v, t, t', i, |t.ctrl| - 1, BaseSize(TopFrame(t)));
    } else {
      FloorBounds(v, t, i);
      ReducedStable(v, t, t', i, |t.ctrl| - 1, |t.stack|);
    }
  }

  /** What one operator does to a frame it does not close, and to the stack below it. */
  lemma StepStable(v: VState, t: TState, op: Op, i: nat)
    requires Inv(v, t) && i < |t.ctrl| && IsReal(t.ctrl[i]) && Validate(v, op).Just? && TransOp(t, op).Ok?
    requires i < |TransOp(t, op).value.ctrl|
    ensures Stable(t, TransOp(t, op).value, i)
    ensures !(op.ElseOp? && i + 1 == |t.ctrl|) ==> SameBranch(t.ctrl[i], TransOp(t, op).value.ctrl[i])
  {
    hide Inv, Validate, TransLive, TransDead, IsUnreachable, Stable, SameBranch, Floor, Inside;
    if op.ElseOp? {
      ElseStable(v, t, i);
    } else if op.EndOp? {
      EndReduces(v, t);
      EndStable(v, t, i);
    } else if t.reachable {
      LiveTop(v, t);
      LiveInside(v, t, op);
      FloorsNest(v, t, i);
      InsideStable(v, t, TransOp(t, op).value, i, Floor(TopFrame(t)));
    } else {
      DeadInside(v, t, op);
      FloorBounds(v, t, i);
      InsideStable(v, t, TransOp(t, op).value, i, |t.stack|);
    }
  }

  lemma DeadInside(v: VState, t: TState, op: Op)
    requires Inv(v, t) && !t.reachable && t.ctrl != [] && Validate(v, op).Just? && !op.ElseOp? && !op.EndOp?
    ensures TransDead(t, op).Ok?
    ensures
      var t' := TransDead(t, op).value;
      && Inside(t, t', |t.stack|) && t'.f == t.f && t'.stack == t.stack && !t'.reachable && |t'.ctrl| >= |t.ctrl|
      && (forall i :: |t.ctrl| <= i < |t'.ctrl| ==> !IsReal(t'.ctrl[i]))
  {
    hide Inv, Validate;
    if IsIgnored(op) {
      IgnoredKeeps(v, t, op);
    } else {
      EnterDead(v, t, op);
    }
  }
}
