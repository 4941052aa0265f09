/** Every operator, and so every valid function body, is translated without a failed assertion,
    and the translation invariant holds after every prefix of it. */
module TranslationRuns {
  import opened Cfg
  import opened Validation
  import opened Translation
  import opened TranslationInvariant
  import opened LiveSteps
  import opened OpenSteps
  import opened TableSteps
  import opened CloseSteps
  import opened DeadSteps

  // ---------------------------------------------------------------- one operator

  lemma LiveTop(v: VState, t: TState)
    requires Inv(v, t) && t.reachable && t.ctrl != []
    ensures IsReal(TopFrame(t))
  {
    hide At, Ordered, RealPrefix, Closed, VOk;
  }

  lemma ElseLive(v: VState, t: TState)
    requires Inv(v, t) && t.reachable && t.ctrl != [] && Validate(v, ElseOp).Just?
    ensures TransElse(t).Ok? && Inv(Validate(v, ElseOp).it, TransElse(t).value)
  {
    hide Inv, Validate, TransElse, DeadElse;
    LiveTop(v, t);
    ElseShape(v, t);
    if TopFrame(t).elseData.NoElse? {
      ElseNoElseLive(v, t);
    } else {
      ElseWithElse(v, t);
    }
  }

  lemma LiveStep(v: VState, t: TState, op: Op)
    requires Inv(v, t) && t.reachable && t.ctrl != [] && Validate(v, op).Just?
    ensures TransLive(t, op).Ok? && Inv(Validate(v, op).it, TransLive(t, op).value)
  {
    hide Inv, Validate, TransElse, TransEnd, TransBr, TransBrIf, TransBrTable, TransReturn, TransTrap, TransBlock, TransLoop,
         TransIf;
    if IsStraight(op) {
      StraightKeeps(v, t, op);
    } else {
      match op {
        case UnreachableOp => TrapKeeps(v, t);
        case BlockOp(bt) => BlockKeeps(v, t, bt);
        case LoopOp(bt) => LoopKeeps(v, t, bt);
        case IfOp(bt) =>
          if bt.params == bt.results { IfNoElseKeeps(v, t, bt); } else { IfWithElseKeeps(v, t, bt); }
        case ElseOp => ElseLive(v, t);
        case EndOp =>
          LiveTop(v, t);
          EndLive(v, t);
        case Br(d) => BrKeeps(v, t, d);
        case BrIf(d) => BrIfKeeps(v, t, d);
        case BrTableOp(targets, default) => BrTableKeeps(v, t, targets, default);
        case ReturnOp => ReturnKeeps(v, t);
      }
    }
  }

  lemma DeadStep(v: VState, t: TState, op: Op)
    requires Inv(v, t) && !t.reachable && t.ctrl != [] && Validate(v, op).Just?
    ensures TransDead(t, op).Ok? && Inv(Validate(v, op).it, TransDead(t, op).value)
  {
    hide Inv, Validate, DeadElse, DeadEnd, TransElse;
    if IsIgnored(op) {
      IgnoredKeeps(v, t, op);
    } else if op.ElseOp? {
      if !IsReal(TopFrame(t)) {
        ElsePlaceholder(v, t);
      } else {
        ElseShape(v, t);
        if TopFrame(t).elseData.NoElse? { ElseNoElseDead(v, t); } else { ElseWithElse(v, t); }
      }
    } else if op.EndOp? {
      if !IsReal(TopFrame(t)) {
        EndPlaceholder(v, t);
      } else if TopFrame(t).LoopFrame? {
        EndDeadLoop(v, t);
      } else {
        EndDead(v, t);
      }
    } else {
      EnterDead(v, t, op);
    }
  }

  lemma InvShape(v: VState, t: TState)
    requires Inv(v, t)
    ensures |v.ctrls| == |t.ctrl| && VOk(v)
  {
    hide At, Ordered, RealPrefix, Closed, VOk, CursorOk;
  }

  lemma ValidInside(v: VState, op: Op)
    requires Validate(v, op).Just?
    ensures v.ctrls != []
  {
  }

  /** A valid operator is translated without a failed assertion and keeps the invariant. */
  lemma StepKeeps(v: VState, t: TState, op: Op)
    requires Inv(v, t) && Validate(v, op).Just?
    ensures TransOp(t, op).Ok? && Inv(Validate(v, op).it, TransOp(t, op).value)
  {
    hide Inv, Validate, TransLive, TransDead, IsUnreachable;
    ValidInside(v, op);
    InvShape(v, t);
    if t.reachable {
      LiveFacts(v, t);
      LiveStep(v, t, op);
    } else {
      DeadStep(v, t, op);
    }
  }

  // ---------------------------------------------------------------- whole bodies

  lemma InitialKeeps(locals: nat, results: seq<ValType>)
    ensures Inv(Initial(locals, results), InitialState(|results|))
  {
    var v, t := Initial(locals, results), InitialState(|results|);
    assert forall p, b :: !Edge(t.f, p, b);
    assert !PredExcept(t.f, 1, RESERVED);
    assert DupUpTo(t.ctrl, 1) == 0;
    assert FrameOk(t.f, t.ctrl[0]);
    assert At(v, t, 0);
  }

  lemma {:induction false} RunKeeps(v: VState, t: TState, ops: seq<Op>)
    requires Inv(v, t) && ValidateAll(v, ops).Just?
    ensures TransAll(t, ops).Ok? && Inv(ValidateAll(v, ops).it, TransAll(t, ops).value)
    decreases |ops|
  {
    hide Inv, Validate, TransOp;
    if ops != [] {
      StepKeeps(v, t, ops[0]);
      RunKeeps(Validate(v, ops[0]).it, TransOp(t, ops[0]).value, ops[1..]);
    }
  }

  /** Every prefix of a valid body is translated without a failed assertion, to a state in agreement with validation. */
  lemma PrefixKeeps(locals: nat, results: seq<ValType>, ops: seq<Op>, n: nat)
    requires ValidateAll(Initial(locals, results), ops).Just? && n <= |ops|
    ensures
      var v, t := ValidateAll(Initial(locals, results), ops[..n]), TransAll(InitialState(|results|), ops[..n]);
      v.Just? && t.Ok? && Inv(v.it, t.value)
  {
    hide Inv, Validate, TransOp;
    assert ops == ops[..n] + ops[n..];
    ValidateConcat(Initial(locals, results), ops[..n], ops[n..]);
    InitialKeeps(locals, results);
    RunKeeps(Initial(locals, results), InitialState(|results|), ops[..n]);
  }

  /** The operators of a function body: valid, and closing the function's frame at the end. */
  predicate ValidBody(locals: nat, results: seq<ValType>, ops: seq<Op>) {
    ValidateAll(Initial(locals, results), ops).Just? && ValidateAll(Initial(locals, results), ops).it.ctrls == []
  }

  /** A valid body is translated to the end, including the final return. */
  lemma BodyTranslates(locals: nat, results: seq<ValType>, ops: seq<Op>)
    requires ValidBody(locals, results, ops)
    ensures TransAll(InitialState(|results|), ops).Ok?
    ensures Finish(TransAll(InitialState(|results|), ops).value).Ok?
  {
    hide Inv, Validate, TransOp;
    InitialKeeps(locals, results);
    RunKeeps(Initial(locals, results), InitialState(|results|), ops);
    var v, t := ValidateAll(Initial(locals, results), ops).it, TransAll(InitialState(|results|), ops).value;
    if t.reachable {
      LiveFacts(v, t);
    }
  }

  // ---------------------------------------------------------------- the value stack

  /** Every state reached on valid code: the stack is never below the floor of any frame entered in
      reachable code, and in reachable code its height above the innermost floor is the validator's. */
  lemma StackAgrees(locals: nat, results: seq<ValType>, ops: seq<Op>, n: nat)
    requires ValidateAll(Initial(locals, results), ops).Just? && n <= |ops|
    ensures
      var w, s := ValidateAll(Initial(locals, results), ops[..n]), TransAll(InitialState(|results|), ops[..n]);
      && w.Just? && s.Ok? && |w.it.ctrls| == |s.value.ctrl|
      && var v, t := w.it, s.value;
         && (forall i :: 0 <= i < |t.ctrl| && IsReal(t.ctrl[i]) ==> Floor(t.ctrl[i]) <= |t.stack|)
         && (t.reachable && t.ctrl != [] ==> |t.stack| - Floor(TopFrame(t)) == v.opds - Top(v).height)
  {
    hide Inv, Validate, TransOp, Initial, InitialState;
    PrefixKeeps(locals, results, ops, n);
    var v, t := ValidateAll(Initial(locals, results), ops[..n]).it, TransAll(InitialState(|results|), ops[..n]).value;
    InvShape(v, t);
    forall i | 0 <= i < |t.ctrl| && IsReal(t.ctrl[i]) ensures Floor(t.ctrl[i]) <= |t.stack| {
      FloorHolds(v, t, i);
    }
    if t.reachable && t.ctrl != [] {
      StackHeight(v, t);
    }
  }

  lemma FloorHolds(v: VState, t: TState, i: nat)
    requires Inv(v, t) && i < |t.ctrl| && IsReal(t.ctrl[i])
    ensures Floor(t.ctrl[i]) <= |t.stack|
  {
    hide FrameOk, ShapeOk;
    assert At(v, t, i);
  }

  /** In every state the stack is at or above the `original_stack_size` of every frame entered in reachable code, save for an `if` with
      parameters past its `else`. In reachable code it is at or above the innermost frame's exactly if it is not in an `else` branch
      that has consumed some of its parameters. */
  lemma OriginalSizeKept(v: VState, t: TState)
    requires Inv(v, t)
    ensures |v.ctrls| == |t.ctrl|
    ensures forall i :: 0 <= i < |t.ctrl| && IsReal(t.ctrl[i]) && !(v.ctrls[i].kind.ElseKind? && v.ctrls[i].bt.params != []) ==>
              t.ctrl[i].origSize <= |t.stack|
    ensures t.reachable && t.ctrl != [] ==>
              (TopFrame(t).origSize <= |t.stack|
               <==> !(Top(v).kind.ElseKind? && v.opds - Top(v).height < |Top(v).bt.params|))
  {
    hide Inv, FrameOk;
    InvShape(v, t);
    forall i | 0 <= i < |t.ctrl| && IsReal(t.ctrl[i]) && !(v.ctrls[i].kind.ElseKind? && v.ctrls[i].bt.params != [])
      ensures t.ctrl[i].origSize <= |t.stack|
    {
      FrameSize(v, t, i);
    }
    if t.reachable && t.ctrl != [] {
      LiveTop(v, t);
      TopFacts(v, t);
      StackHeight(v, t);
    }
  }

  lemma FrameSize(v: VState, t: TState, i: nat)
    requires Inv(v, t) && i < |t.ctrl| && IsReal(t.ctrl[i])
    ensures i < |v.ctrls| && ((v.ctrls[i].kind.ElseKind? && v.ctrls[i].bt.params != []) || t.ctrl[i].origSize <= |t.stack|)
  {
    hide FrameOk, Ordered, RealPrefix, Closed, CursorOk;
    assert At(v, t, i);
  }

  lemma LiveIsTrans(v: VState, t: TState, op: Op)
    requires Inv(v, t) && t.reachable && Validate(v, op).Just?
    ensures TransOp(t, op) == TransLive(t, op) && TransLive(t, op).Ok? && Inv(Validate(v, op).it, TransLive(t, op).value)
  {
    hide Inv, Validate, TransLive, TransDead, IsUnreachable;
    StepKeeps(v, t, op);
    LiveFacts(v, t);
  }

  lemma DropsElseParameter(t: TState, bt: BlockType)
    requires TransElse(t).Ok? && t.ctrl != [] && TopFrame(t).IfFrame? && TopFrame(t).headReachable
    requires TopFrame(t).bt == bt && |bt.params| == 1 && TopFrame(t).elseData.NoElse?
    requires |t.stack| == TopFrame(t).origSize + 1
    requires TransLive(TransElse(t).value, Drop).Ok?
    ensures
      var t' := TransLive(TransElse(t).value, Drop).value;
      t'.reachable && |t'.ctrl| == |t.ctrl| && |t'.stack| < TopFrame(t').origSize
  {
    hide Terminate, CreateBlock, PatchElse, SwitchTo;
  }

  lemma ExampleIf(t: TState, bt: BlockType)
    requires t.stack == [] && t.reachable && t.ctrl != [] && bt == BlockType([I32], [I32])
    requires TransConst(t, 7).Ok? && TransConst(TransConst(t, 7).value, 1).Ok?
    requires TransIf(TransConst(TransConst(t, 7).value, 1).value, bt).Ok?
    ensures
      var t' := TransIf(TransConst(TransConst(t, 7).value, 1).value, bt).value;
      && t'.reachable && |t'.ctrl| == |t.ctrl| + 1 && TopFrame(t').IfFrame? && TopFrame(t').headReachable
      && TopFrame(t').bt == bt && TopFrame(t').elseData.NoElse? && |t'.stack| == TopFrame(t').origSize + 1
  {
    hide Terminate, CreateBlock, Seal, SwitchTo, TransConst;
    ConstShape(t, 7);
    ConstShape(TransConst(t, 7).value, 1);
  }

  lemma ConstShape(t: TState, n: Word)
    ensures TransConst(t, n).Ok? ==>
              var t' := TransConst(t, n).value;
              t'.stack == t.stack + [t.f.nextValue] && t'.ctrl == t.ctrl && t'.reachable == t.reachable
  {
    hide EmitValue;
    assert t.stack[..|t.stack|] == t.stack;
  }

  /** An `else` branch that drops its parameter takes the stack below the recorded `original_stack_size`. */
  lemma BelowOriginalSize()
    ensures
      var ops := [Const(7), Const(1), IfOp(BlockType([I32], [I32])), ElseOp, Drop];
      && ValidateAll(Initial(0, []), ops).Just? && TransAll(InitialState(0), ops).Ok?
      && var t := TransAll(InitialState(0), ops).value;
         t.reachable && |t.ctrl| == 2 && |t.stack| < TopFrame(t).origSize
  {
    var bt := BlockType([I32], [I32]);
    var v0, t0 := Initial(0, []), InitialState(0);
    assert t0.reachable && t0.stack == [] && |t0.ctrl| == 1;
    InitialKeeps(0, []);
    hide Inv, TransOp, TransLive, InitialState, TransElse, TransIf, Validate, TransConst, Initial;
    var v1, v2, v3, v4 := ExampleState(1, 0), ExampleState(2, 0), ExampleState(1, 1), ExampleState(1, 2);
    ExampleValid();
    LiveIsTrans(v0, t0, Const(7));
    var t1 := TransLive(t0, Const(7)).value;
    TransLiveIs(t0, bt);
    LiveIsTrans(v1, t1, Const(1));
    var t2 := TransLive(t1, Const(1)).value;
    TransLiveIs(t1, bt);
    LiveIsTrans(v2, t2, IfOp(bt));
    var t3 := TransLive(t2, IfOp(bt)).value;
    TransLiveIs(t2, bt);
    ExampleIf(t0, bt);
    LiveIsTrans(v3, t3, ElseOp);
    var t4 := TransLive(t3, ElseOp).value;
    TransLiveIs(t3, bt);
    ElseReachable(t3);
    LiveIsTrans(v4, t4, Drop);
    DropsElseParameter(t3, bt);
    FiveSteps(v0, t0, Const(7), Const(1), IfOp(bt), ElseOp, Drop);
  }

  /** The validator's state with `n` operands: before the `if`, in its first branch, or in its second. */
  function ExampleState(n: nat, stage: nat): VState {
    var outer := VFrame(BlockKind, BlockType([], []), 0, false);
    VState(n, if stage == 0 then [outer]
              else [outer, VFrame(if stage == 1 then IfKind else ElseKind, BlockType([I32], [I32]), 0, false)], 0)
  }

  lemma ExampleValid()
    ensures Initial(0, []) == ExampleState(0, 0)
    ensures Validate(ExampleState(0, 0), Const(7)) == Just(ExampleState(1, 0))
    ensures Validate(ExampleState(1, 0), Const(1)) == Just(ExampleState(2, 0))
    ensures Validate(ExampleState(2, 0), IfOp(BlockType([I32], [I32]))) == Just(ExampleState(1, 1))
    ensures Validate(ExampleState(1, 1), ElseOp) == Just(ExampleState(1, 2))
    ensures Validate(ExampleState(1, 2), Drop).Just?
  {
    assert Validate(ExampleState(0, 0), Const(7)) == Just(ExampleState(1, 0));
    assert Validate(ExampleState(1, 0), Const(1)) == Just(ExampleState(2, 0));
    assert Validate(ExampleState(1, 2), Drop).Just?;
    hide Validate;
    ExampleValidIf();
    ExampleValidElse();
  }

  lemma ExampleValidIf()
    ensures Validate(ExampleState(2, 0), IfOp(BlockType([I32], [I32]))) == Just(ExampleState(1, 1))
  {
    var v, bt := ExampleState(2, 0), BlockType([I32], [I32]);
    assert Validate(v, IfOp(bt)).Just?;
    hide Validate;
    ValidIf(v, bt);
    assert v.ctrls + [VFrame(IfKind, bt, 0, false)] == ExampleState(1, 1).ctrls;
  }

  lemma ExampleValidElse()
    ensures Validate(ExampleState(1, 1), ElseOp) == Just(ExampleState(1, 2))
  {
    var v := ExampleState(1, 1);
    assert Validate(v, ElseOp).Just?;
    hide Validate;
    ValidElse(v);
    assert v.ctrls[1 := VFrame(ElseKind, Top(v).bt, 0, false)] == ExampleState(1, 2).ctrls;
  }

  lemma ElseReachable(t: TState)
    requires TransElse(t).Ok? && t.reachable
    ensures TransElse(t).value.reachable
  {
    hide Terminate, CreateBlock, PatchElse, SwitchTo;
  }

  lemma TransLiveIs(t: TState, bt: BlockType)
    ensures TransLive(t, Const(7)) == TransConst(t, 7) && TransLive(t, Const(1)) == TransConst(t, 1)
    ensures TransLive(t, IfOp(bt)) == TransIf(t, bt) && TransLive(t, ElseOp) == TransElse(t)
    ensures t.reachable && TransConst(t, 7).Ok? ==> TransConst(t, 7).value.reachable
    ensures t.reachable && TransConst(t, 1).Ok? ==> TransConst(t, 1).value.reachable
  {
    hide EmitValue;
  }

  lemma ConsStep(v: VState, t: TState, op: Op, rest: seq<Op>)
    requires Validate(v, op).Just? && TransOp(t, op).Ok?
    ensures ValidateAll(v, [op] + rest) == ValidateAll(Validate(v, op).it, rest)
    ensures TransAll(t, [op] + rest) == TransAll(TransOp(t, op).value, rest)
  {
    hide Validate, TransOp;
    assert ([op] + rest)[1..] == rest;
  }

  lemma FiveSteps(v: VState, t: TState, a: Op, b: Op, c: Op, d: Op, e: Op)
    requires Validate(v, a).Just? && TransOp(t, a).Ok?
    requires Validate(Validate(v, a).it, b).Just? && TransOp(TransOp(t, a).value, b).Ok?
    requires
      var v2, t2 := Validate(Validate(v, a).it, b).it, TransOp(TransOp(t, a).value, b).value;
      && Validate(v2, c).Just? && TransOp(t2, c).Ok?
      && Validate(Validate(v2, c).it, d).Just? && TransOp(TransOp(t2, c).value, d).Ok?
      && Validate(Validate(Validate(v2, c).it, d).it, e).Just? && TransOp(TransOp(TransOp(t2, c).value, d).value, e).Ok?
    ensures
      var ops := [a, b, c, d, e];
      var t2 := TransOp(TransOp(t, a).value, b).value;
      ValidateAll(v, ops).Just? && TransAll(t, ops) == TransOp(TransOp(TransOp(t2, c).value, d).value, e)
  {
    hide Validate, TransOp, ValidateAll, TransAll;
    assert [a, b, c, d, e] == [a] + ([b] + ([c] + ([d] + ([e] + []))));
    ConsStep(v, t, a, [b] + ([c] + ([d] + ([e] + []))));
    ConsStep(Validate(v, a).it, TransOp(t, a).value, b, [c] + ([d] + ([e] + [])));
    var v2, t2 := Validate(Validate(v, a).it, b).it, TransOp(TransOp(t, a).value, b).value;
    ConsStep(v2, t2, c, [d] + ([e] + []));
    ConsStep(Validate(v2, c).it, TransOp(t2, c).value, d, [e] + []);
    var v4, t4 := Validate(Validate(v2, c).it, d).it, TransOp(TransOp(t2, c).value, d).value;
    ConsStep(v4, t4, e, []);
    NoOps(Validate(v4, e).it, TransOp(t4, e).value);
  }

  lemma NoOps(v: VState, t: TState)
    ensures ValidateAll(v, []) == Just(v) && TransAll(t, []) == Ok(t)
  {
  }

  // ---------------------------------------------------------------- reachability

  /** After an `end`, code is reachable exactly if some branch goes to the block that follows the construct;
      then that block is current. A construct entered in unreachable code has no such block. */
  lemma EndReachability(v: VState, t: TState)
    requires Inv(v, t) && Validate(v, EndOp).Just?
    ensures t.ctrl != [] && TransOp(t, EndOp).Ok?
    ensures
      var t' := TransOp(t, EndOp).value;
      && (t'.reachable <==> IsReal(TopFrame(t)) && HasPred(t'.f, TopFrame(t).destination))
      && (t'.reachable ==> t'.f.cur == TopFrame(t).destination)
  {
    hide Inv, Validate, HasPred, TransEnd, DeadEnd;
    ValidInside(v, EndOp);
    InvShape(v, t);
    StepKeeps(v, t, EndOp);
    if t.reachable {
      LiveTop(v, t);
      LiveFacts(v, t);
      EndLive(v, t);
      EndCurrent(t);
    } else if !IsReal(TopFrame(t)) {
      EndPlaceholder(v, t);
    } else if TopFrame(t).LoopFrame? {
      EndDeadLoop(v, t);
      FlagsExact(v, t);
      LoopEndPreds(v, t);
    } else {
      EndDead(v, t);
      DeadEndPreds(v, t);
    }
  }

  lemma EndCurrent(t: TState)
    requires TransEnd(t).Ok? && t.ctrl != []
    ensures TransEnd(t).value.f.cur == TopFrame(t).destination
  {
    hide Terminate;
  }

  lemma LoopEndPreds(v: VState, t: TState)
    requires Inv(v, t) && t.ctrl != [] && IsReal(TopFrame(t)) && TopFrame(t).LoopFrame? && DeadEnd(t).Ok?
    ensures !DeadEnd(t).value.reachable
    ensures HasPred(DeadEnd(t).value.f, TopFrame(t).destination) <==> HasPred(t.f, TopFrame(t).destination)
  {
    hide Inv, FrameOk, Seal, HasPred;
    TopFacts(v, t);
    var fr := TopFrame(t);
    SealHeaderSettles(t.f, fr);
    SettlesEdges(t.f, Seal(t.f, fr.header).value, Lo(fr));
    SameEdgesSamePreds(t.f, Seal(t.f, fr.header).value, fr.destination);
  }

  lemma DeadEndPreds(v: VState, t: TState)
    requires Inv(v, t) && !t.reachable && t.ctrl != [] && IsReal(TopFrame(t)) && !TopFrame(t).LoopFrame? && DeadEnd(t).Ok?
    ensures HasPred(DeadEnd(t).value.f, TopFrame(t).destination) <==> HasPred(t.f, TopFrame(t).destination)
    ensures DeadEnd(t).value.reachable ==> DeadEnd(t).value.f.cur == TopFrame(t).destination
  {
    TopFacts(v, t);
    hide Inv, HasPred, CloseInto, PredExcept, ElseOk;
    var fr := TopFrame(t);
    if ExitBranched(fr) || ReachableAnyway(fr) {
      CloseIntoSettles(t.f, fr);
      var g := CloseInto(t.f, fr).value;
      SettlesEdges(t.f, g, Lo(fr));
      SameEdgesSamePreds(t.f, g, fr.destination);
      assert DeadEnd(t).value.f == g;
    } else {
      assert DeadEnd(t).value.f == t.f;
    }
  }

  /** After an `else`, code is reachable exactly if the `if` was; then the current block has a predecessor. */
  lemma ElseReachability(v: VState, t: TState)
    requires Inv(v, t) && Validate(v, ElseOp).Just?
    ensures t.ctrl != [] && TransOp(t, ElseOp).Ok?
    ensures
      var t' := TransOp(t, ElseOp).value;
      && (t'.reachable <==> IsReal(TopFrame(t)))
      && (t'.reachable ==> t'.f.cur != ENTRY && HasPred(t'.f, t'.f.cur))
  {
    hide Inv, Validate, HasPred, TransElse, DeadElse;
    ValidInside(v, ElseOp);
    InvShape(v, t);
    StepKeeps(v, t, ElseOp);
    var v', t' := Validate(v, ElseOp).it, TransOp(t, ElseOp).value;
    if t.reachable {
      LiveTop(v, t);
      LiveFacts(v, t);
    }
    if IsReal(TopFrame(t)) {
      ElseShape(v, t);
      TopFacts(v, t);
      ElseCurrent(t);
      ReachedCurrent(v', t');
    } else {
      ElsePlaceholder(v, t);
    }
  }

  lemma ElseCurrent(t: TState)
    requires t.ctrl != [] && TopFrame(t).IfFrame? && TopFrame(t).headReachable && IsBlock(t.f, t.f.cur)
    requires FrameOk(t.f, TopFrame(t))
    ensures
      var r := if t.reachable then TransElse(t) else DeadElse(t);
      r.Ok? ==> r.value.reachable && r.value.f.cur != ENTRY
  {
    hide ChangeJumpDestination, TermOk, HasPred, PredExcept;
  }

  lemma ReachedCurrent(v: VState, t: TState)
    requires Inv(v, t) && t.reachable
    ensures t.f.cur == ENTRY || HasPred(t.f, t.f.cur)
  {
    hide At, Ordered, RealPrefix, Closed, VOk;
  }

  /** In every state reached on valid code: frames entered in unreachable code form a suffix of the control stack and
      appear only in unreachable code, and no branch goes to a block that does not exist, so none to a reserved one. */
  lemma PlaceholdersUnused(locals: nat, results: seq<ValType>, ops: seq<Op>, n: nat)
    requires ValidateAll(Initial(locals, results), ops).Just? && n <= |ops|
    ensures
      var s := TransAll(InitialState(|results|), ops[..n]);
      && s.Ok? && var t := s.value;
         && (forall i, j :: 0 <= i < j < |t.ctrl| && IsReal(t.ctrl[j]) ==> IsReal(t.ctrl[i]))
         && (t.reachable ==> forall i :: 0 <= i < |t.ctrl| ==> IsReal(t.ctrl[i]))
         && IsBlock(t.f, t.f.cur) && (forall p :: !Edge(t.f, p, RESERVED))
  {
    hide At, Validate, TransOp, Initial, InitialState, Edge;
    PrefixKeeps(locals, results, ops, n);
  }
}
