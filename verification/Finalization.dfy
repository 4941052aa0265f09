/** What finalising a function demands: every block that was written to is complete and sealed. Blocks that
    were created and never written to, such as the destination of a construct that nothing leaves, are allowed. */
module Finalization {
  import opened Cfg
  import opened Validation
  import opened Translation
  import opened TranslationInvariant
  import opened LiveSteps
  import opened CloseSteps
  import DeadSteps
  import opened TranslationRuns

  predicate Written(f: Func, b: Block)
    requires IsBlock(f, b)
  {
    f.blocks[b].body != [] || f.blocks[b].term.Just?
  }

  /** Blocks written to are complete, save for the current one if it is `open`, and sealed, save for those in `late`. */
  ghost predicate Clean(f: Func, open: bool, late: iset<Block>) {
    && (forall b :: IsBlock(f, b) && Written(f, b) ==> (f.blocks[b].sealed || b in late) && (Filled(f, b) || (open && b == f.cur)))
    && (open ==> IsBlock(f, f.cur) && (f.blocks[f.cur].sealed || f.cur in late))
  }

  /** The headers of open loops, which are sealed at the loop's end. */
  ghost function Headers(ctrl: seq<Frame>): iset<Block> {
    iset i | 0 <= i < |ctrl| && ctrl[i].LoopFrame? :: ctrl[i].header
  }

  ghost predicate Tidy(t: TState) {
    Clean(t.f, t.reachable, Headers(t.ctrl))
  }

  // ---------------------------------------------------------------- builder calls

  lemma CleanMore(f: Func, open: bool, late: iset<Block>, late': iset<Block>)
    requires Clean(f, open, late) && late <= late'
    ensures Clean(f, open, late')
  {
  }

  lemma CreateClean(f: Func, open: bool, late: iset<Block>, n: nat)
    requires Clean(f, open, late)
    ensures Clean(CreateBlock(f, n), open, late)
  {
    var f' := CreateBlock(f, n);
    assert forall b :: IsBlock(f, b) ==> f'.blocks[b] == f.blocks[b];
  }

  lemma EmitClean(f: Func, late: iset<Block>, i: Inst)
    requires Clean(f, true, late)
    ensures Emit(f, i).Ok? ==> Clean(Emit(f, i).value, true, late)
    ensures EmitValue(f, i).Ok? ==> Clean(EmitValue(f, i).value, true, late)
  {
    if Emit(f, i).Ok? {
      var f' := Emit(f, i).value;
      assert forall b :: IsBlock(f, b) && b != f.cur ==> f'.blocks[b] == f.blocks[b];
    }
  }

  lemma TerminateClean(f: Func, late: iset<Block>, t: Term)
    requires Clean(f, true, late)
    ensures Terminate(f, t).Ok? ==> Clean(Terminate(f, t).value, false, late)
  {
    hide TermOk;
    if Terminate(f, t).Ok? {
      var f' := Terminate(f, t).value;
      assert forall b :: IsBlock(f, b) && b != f.cur ==> f'.blocks[b] == f.blocks[b];
    }
  }

  lemma SealClean(f: Func, open: bool, late: iset<Block>, b: Block)
    requires Clean(f, open, late)
    ensures Seal(f, b).Ok? ==> Clean(Seal(f, b).value, open, late - iset{b})
  {
    if Seal(f, b).Ok? {
      var f' := Seal(f, b).value;
      assert forall c :: IsBlock(f, c) && c != b ==> f'.blocks[c] == f.blocks[c];
    }
  }

  /** Goes on in a block that is sealed, or will be. */
  lemma SwitchClean(f: Func, late: iset<Block>, b: Block)
    requires Clean(f, false, late) && ((IsBlock(f, b) && f.blocks[b].sealed) || b in late)
    ensures SwitchTo(f, b).Ok? ==> Clean(SwitchTo(f, b).value, true, late)
  {
  }

  lemma ChangeClean(f: Func, open: bool, late: iset<Block>, p: Block, from: Block, to: Block)
    requires Clean(f, open, late)
    ensures ChangeJumpDestination(f, p, from, to).Ok? ==> Clean(ChangeJumpDestination(f, p, from, to).value, open, late)
  {
    hide ArgsOk, RedirectTerm;
    if ChangeJumpDestination(f, p, from, to).Ok? {
      var f' := ChangeJumpDestination(f, p, from, to).value;
      assert forall c :: IsBlock(f, c) && c != p ==> f'.blocks[c] == f.blocks[c];
    }
  }

  /** Goes on in a block and seals it. */
  lemma SwitchSealClean(f: Func, late: iset<Block>, b: Block)
    requires Clean(f, false, late) && SwitchTo(f, b).Ok? && Seal(SwitchTo(f, b).value, b).Ok?
    ensures Clean(Seal(SwitchTo(f, b).value, b).value, true, late)
  {
    hide Clean, SwitchTo, Seal;
    CleanMore(f, false, late, late + iset{b});
    SwitchClean(f, late + iset{b}, b);
    SealClean(SwitchTo(f, b).value, true, late + iset{b}, b);
    CleanMore(Seal(SwitchTo(f, b).value, b).value, true, late + iset{b} - iset{b}, late);
  }

  lemma SealedAfter(f: Func, b: Block)
    requires Seal(f, b).Ok?
    ensures IsBlock(Seal(f, b).value, b) && Seal(f, b).value.blocks[b].sealed
  {
  }

  /** Ends the current block, seals `next` and goes on there. */
  lemma ContinueClean(f: Func, late: iset<Block>, term: Term, next: Block)
    requires Clean(f, true, late) && Terminate(f, term).Ok? && Seal(Terminate(f, term).value, next).Ok?
    requires SwitchTo(Seal(Terminate(f, term).value, next).value, next).Ok?
    ensures Clean(SwitchTo(Seal(Terminate(f, term).value, next).value, next).value, true, late)
  {
    hide Clean, Terminate, SwitchTo, Seal;
    TerminateClean(f, late, term);
    var f2 := Terminate(f, term).value;
    SealClean(f2, false, late, next);
    var f3 := Seal(f2, next).value;
    CleanMore(f3, false, late - iset{next}, late);
    SealedAfter(f2, next);
    SwitchClean(f3, late, next);
  }

  lemma {:induction false} CreateBlocksClean(f: Func, late: iset<Block>, n: nat)
    requires Clean(f, true, late)
    ensures Clean(CreateBlocks(f, n), true, late)
    decreases n
  {
    hide Clean, CreateBlock;
    if n > 0 {
      CreateBlocksClean(f, late, n - 1);
      CreateClean(CreateBlocks(f, n - 1), true, late, 0);
    }
  }

  lemma {:induction false} FillSplitsClean(f: Func, late: iset<Block>, ctrl: seq<Frame>, depths: seq<nat>, first: Block,
                                           args: seq<Value>, n: nat)
    requires n <= |depths| && (forall i :: 0 <= i < |depths| ==> depths[i] < |ctrl|) && Clean(f, false, late)
    ensures FillSplits(f, ctrl, depths, first, args, n).Ok? ==> Clean(FillSplits(f, ctrl, depths, first, args, n).value, false, late)
    decreases n
  {
    hide Clean, SwitchTo, Seal, Terminate;
    if n > 0 && FillSplits(f, ctrl, depths, first, args, n).Ok? {
      FillSplitsClean(f, late, ctrl, depths, first, args, n - 1);
      var f0, b := FillSplits(f, ctrl, depths, first, args, n - 1).value, first + (n - 1);
      SwitchSealClean(f0, late, b);
      TerminateClean(Seal(SwitchTo(f0, b).value, b).value, late, Jump(BrDestination(FrameAt(ctrl, depths[n - 1])), args));
    }
  }

  lemma CloseIntoClean(f: Func, fr: Frame, late: iset<Block>)
    requires Clean(f, false, late)
    ensures CloseInto(f, fr).Ok? ==> Clean(CloseInto(f, fr).value, true, if fr.LoopFrame? then late - iset{fr.header} else late)
  {
    hide Clean, SwitchTo, Seal;
    if CloseInto(f, fr).Ok? {
      SwitchSealClean(f, late, fr.destination);
      if fr.LoopFrame? {
        SealClean(Seal(SwitchTo(f, fr.destination).value, fr.destination).value, true, late, fr.header);
      }
    }
  }

  lemma PatchClean(f: Func, fr: Frame, late: iset<Block>)
    requires fr.IfFrame? && fr.elseData.NoElse? && Clean(f, false, late)
    ensures PatchElse(f, fr).Ok? ==> Clean(PatchElse(f, fr).value.0, false, late)
    ensures PatchElse(f, fr).Ok? ==>
              IsBlock(PatchElse(f, fr).value.0, PatchElse(f, fr).value.1) && PatchElse(f, fr).value.0.blocks[PatchElse(f, fr).value.1].sealed
  {
    hide Clean, ChangeJumpDestination, Seal;
    if PatchElse(f, fr).Ok? {
      var els := |f.blocks| - 1;
      ChangeClean(f, false, late, fr.elseData.branch, fr.elseData.placeholder, els);
      var f2 := ChangeJumpDestination(f, fr.elseData.branch, fr.elseData.placeholder, els).value;
      SealClean(f2, false, late, els);
      SealedAfter(f2, els);
      CleanMore(Seal(f2, els).value, false, late - iset{els}, late);
    }
  }

  // ---------------------------------------------------------------- headers

  lemma HeadersPush(ctrl: seq<Frame>, fr: Frame)
    ensures Headers(ctrl + [fr]) == Headers(ctrl) + if fr.LoopFrame? then iset{fr.header} else iset{}
  {
    var c := ctrl + [fr];
    forall b | b in Headers(ctrl) ensures b in Headers(c) {
      var i :| 0 <= i < |ctrl| && ctrl[i].LoopFrame? && ctrl[i].header == b;
      assert c[i].header == b;
    }
    if fr.LoopFrame? {
      assert c[|ctrl|].header == fr.header;
    }
  }

  lemma HeadersPop(ctrl: seq<Frame>)
    requires ctrl != []
    ensures
      var fr, rest := ctrl[|ctrl| - 1], ctrl[..|ctrl| - 1];
      Headers(ctrl) == Headers(rest) + if fr.LoopFrame? then iset{fr.header} else iset{}
  {
    assert ctrl == ctrl[..|ctrl| - 1] + [ctrl[|ctrl| - 1]];
    HeadersPush(ctrl[..|ctrl| - 1], ctrl[|ctrl| - 1]);
  }

  predicate SameLoops(a: seq<Frame>, b: seq<Frame>) {
    |a| == |b| && forall i :: 0 <= i < |a| ==> (a[i].LoopFrame? <==> b[i].LoopFrame?) && (a[i].LoopFrame? ==> a[i].header == b[i].header)
  }

  lemma HeadersSame(a: seq<Frame>, b: seq<Frame>)
    requires SameLoops(a, b)
    ensures Headers(a) == Headers(b)
  {
    forall x | x in Headers(a) ensures x in Headers(b) {
      var i :| 0 <= i < |a| && a[i].LoopFrame? && a[i].header == x;
      assert b[i].header == x;
    }
    forall x | x in Headers(b) ensures x in Headers(a) {
      var i :| 0 <= i < |b| && b[i].LoopFrame? && b[i].header == x;
      assert a[i].header == x;
    }
  }

  lemma {:induction false} MarkAllLoops(ctrl: seq<Frame>, depths: seq<nat>)
    requires forall k :: 0 <= k < |depths| ==> depths[k] < |ctrl|
    ensures SameLoops(ctrl, MarkAll(ctrl, depths))
    decreases |depths|
  {
    if depths != [] {
      MarkAllLoops(ctrl, depths[..|depths| - 1]);
    }
  }

  // ---------------------------------------------------------------- operators

  lemma StraightTidy(t: TState, op: Op)
    requires Tidy(t) && t.reachable && IsStraight(op)
    ensures TransLive(t, op).Ok? ==> Tidy(TransLive(t, op).value)
  {
    hide Clean, Emit, EmitValue, Headers;
    var v, late := t.f.nextValue, Headers(t.ctrl);
    if TransLive(t, op).Ok? {
      match op {
        case Nop =>
        case Drop =>
        case Const(n) => EmitClean(t.f, late, Iconst(v, n));
        case Add => EmitClean(t.f, late, Iadd(v, PeekN(t.stack, 2).value[0], PeekN(t.stack, 2).value[1]));
        case Select =>
          var args := PeekN(t.stack, 3).value;
          EmitClean(t.f, late, SelectInst(v, args[2], args[0], args[1]));
        case LocalGet(i) => EmitClean(t.f, late, UseVar(v, i));
        case LocalSet(i) => EmitClean(t.f, late, DefVar(i, PeekN(t.stack, 1).value[0]));
        case LocalTee(i) => EmitClean(t.f, late, DefVar(i, PeekN(t.stack, 1).value[0]));
      }
    }
  }

  lemma BranchTidy(t: TState, op: Op)
    requires Tidy(t) && t.reachable && (op.Br? || op.ReturnOp? || op.UnreachableOp?)
    ensures TransLive(t, op).Ok? ==> Tidy(TransLive(t, op).value)
  {
    hide Clean, Terminate, Headers;
    var late := Headers(t.ctrl);
    if TransLive(t, op).Ok? {
      match op {
        case Br(d) =>
          var fr := FrameAt(t.ctrl, d);
          TerminateClean(t.f, late, Jump(BrDestination(fr), PeekN(t.stack, BrArity(fr)).value));
          HeadersSame(t.ctrl, Mark(t.ctrl, d));
        case ReturnOp => TerminateClean(t.f, late, ReturnTerm(PeekN(t.stack, t.ctrl[0].numResults).value));
        case UnreachableOp => TerminateClean(t.f, late, TrapTerm);
      }
    }
  }

  lemma BrIfTidy(t: TState, d: nat)
    requires Tidy(t) && t.reachable
    ensures TransBrIf(t, d).Ok? ==> Tidy(TransBrIf(t, d).value)
  {
    hide Clean, Terminate, Headers, CreateBlock, Seal, SwitchTo;
    if TransBrIf(t, d).Ok? {
      var late, next, fr := Headers(t.ctrl), |t.f.blocks|, FrameAt(t.ctrl, d);
      var c := PeekN(t.stack, 1).value[0];
      var args := PeekN(PopN(t.stack, 1).value, BrArity(fr)).value;
      CreateClean(t.f, true, late, 0);
      ContinueClean(CreateBlock(t.f, 0), late, Brif(c, BrDestination(fr), args, next, []), next);
      HeadersSame(t.ctrl, Mark(t.ctrl, d));
    }
  }

  lemma BrTableTidy(t: TState, targets: seq<nat>, default: nat)
    requires Tidy(t) && t.reachable
    ensures TransBrTable(t, targets, default).Ok? ==> Tidy(TransBrTable(t, targets, default).value)
  {
    hide Clean, Terminate, Headers, CreateBlocks, FillSplits, TableOrder, SplitTerm, MarkAll;
    if TransBrTable(t, targets, default).Ok? {
      MinDepthOk(targets, default);
      var late, arity := Headers(t.ctrl), BrArity(FrameAt(t.ctrl, MinDepth(targets, default)));
      var val, rest := PeekN(t.stack, 1).value[0], PopN(t.stack, 1).value;
      if arity == 0 {
        TerminateClean(t.f, late, BrTable(val, Destinations(t.ctrl, targets), BrDestination(FrameAt(t.ctrl, default))));
        MarkAllLoops(t.ctrl, targets + [default]);
        HeadersSame(t.ctrl, MarkAll(t.ctrl, targets + [default]));
      } else {
        var order := TableOrder(targets, default);
        var f0, term := CreateBlocks(t.f, |order|), SplitTerm(|t.f.blocks|, val, order, targets, default);
        CreateBlocksClean(t.f, late, |order|);
        TerminateClean(f0, late, term);
        FillSplitsClean(Terminate(f0, term).value, late, t.ctrl, order, |t.f.blocks|, PeekN(rest, arity).value, |order|);
        MarkAllLoops(t.ctrl, order);
        HeadersSame(t.ctrl, MarkAll(t.ctrl, order));
      }
    }
  }

  lemma OpenTidy(t: TState, bt: BlockType)
    requires Tidy(t) && t.reachable
    ensures TransBlock(t, bt).Ok? ==> Tidy(TransBlock(t, bt).value)
    ensures TransLoop(t, bt).Ok? ==> Tidy(TransLoop(t, bt).value)
  {
    hide Clean, Terminate, Headers, CreateBlock, SwitchTo;
    var late := Headers(t.ctrl);
    if TransBlock(t, bt).Ok? {
      CreateClean(t.f, true, late, |bt.results|);
      HeadersPush(t.ctrl, TopFrame(TransBlock(t, bt).value));
      assert late + iset{} == late;
    }
    if TransLoop(t, bt).Ok? {
      var header := |t.f.blocks|;
      var f1 := CreateBlock(CreateBlock(t.f, |bt.params|), |bt.results|);
      CreateClean(t.f, true, late, |bt.params|);
      CreateClean(CreateBlock(t.f, |bt.params|), true, late, |bt.results|);
      var term := Jump(header, PeekN(t.stack, |bt.params|).value);
      TerminateClean(f1, late, term);
      CleanMore(Terminate(f1, term).value, false, late, late + iset{header});
      SwitchClean(Terminate(f1, term).value, late + iset{header}, header);
      HeadersPush(t.ctrl, TopFrame(TransLoop(t, bt).value));
    }
  }

  lemma IfTidy(t: TState, bt: BlockType)
    requires Tidy(t) && t.reachable
    ensures TransIf(t, bt).Ok? ==> Tidy(TransIf(t, bt).value)
  {
    hide Clean, Terminate, Headers, CreateBlock, SwitchTo, Seal;
    if TransIf(t, bt).Ok? {
      var late, next := Headers(t.ctrl), |t.f.blocks|;
      var c := PeekN(t.stack, 1).value[0];
      var args := PeekN(PopN(t.stack, 1).value, |bt.params|).value;
      var f1 := CreateBlock(CreateBlock(t.f, 0), |bt.results|);
      CreateClean(t.f, true, late, 0);
      CreateClean(CreateBlock(t.f, 0), true, late, |bt.results|);
      if bt.params == bt.results {
        ContinueClean(f1, late, Brif(c, next, [], next + 1, args), next);
      } else {
        CreateClean(f1, true, late, |bt.params|);
        IfElseClean(CreateBlock(f1, |bt.params|), late, Brif(c, next, [], next + 2, args), next, next + 2);
      }
      HeadersPush(t.ctrl, TopFrame(TransIf(t, bt).value));
      assert late + iset{} == late;
    }
  }

  lemma IfElseClean(f: Func, late: iset<Block>, term: Term, next: Block, els: Block)
    requires Clean(f, true, late) && Terminate(f, term).Ok? && Seal(Terminate(f, term).value, els).Ok?
    requires Seal(Seal(Terminate(f, term).value, els).value, next).Ok?
    requires SwitchTo(Seal(Seal(Terminate(f, term).value, els).value, next).value, next).Ok?
    ensures Clean(SwitchTo(Seal(Seal(Terminate(f, term).value, els).value, next).value, next).value, true, late)
  {
    hide Clean, Terminate, SwitchTo, Seal;
    TerminateClean(f, late, term);
    var f2 := Terminate(f, term).value;
    SealClean(f2, false, late, els);
    var f3 := Seal(f2, els).value;
    SealClean(f3, false, late - iset{els}, next);
    var f4 := Seal(f3, next).value;
    CleanMore(f4, false, late - iset{els} - iset{next}, late);
    SealedAfter(f3, next);
    SwitchClean(f4, late, next);
  }

  // ---------------------------------------------------------------- else and end

  /** The `else` block made with the `if` was sealed there. */
  lemma ReadyElseSealed(v: VState, t: TState)
    requires Inv(v, t) && t.ctrl != [] && IsReal(TopFrame(t)) && Validate(v, ElseOp).Just?
    requires TopFrame(t).IfFrame? && TopFrame(t).elseData.WithElse?
    ensures IsBlock(t.f, TopFrame(t).elseData.elseBlock) && t.f.blocks[TopFrame(t).elseData.elseBlock].sealed
  {
    ElseShape(v, t);
    TopFacts(v, t);
    hide Inv, Validate, PredExcept, HasPred;
  }

  lemma SealedStays(f: Func, term: Term, b: Block)
    requires IsBlock(f, b) && f.blocks[b].sealed && Terminate(f, term).Ok?
    ensures IsBlock(Terminate(f, term).value, b) && Terminate(f, term).value.blocks[b].sealed
  {
  }

  lemma ElseTidy(v: VState, t: TState)
    requires Inv(v, t) && Tidy(t) && t.reachable && t.ctrl != [] && IsReal(TopFrame(t)) && Validate(v, ElseOp).Just?
    ensures TransElse(t).Ok? ==> Tidy(TransElse(t).value)
  {
    hide Inv, Validate, Clean, Headers, CreateBlock, Terminate, PatchElse, SwitchTo;
    ElseShape(v, t);
    if TransElse(t).Ok? {
      var fr, late := TopFrame(t), Headers(t.ctrl);
      HeadersSame(t.ctrl, TransElse(t).value.ctrl);
      if fr.elseData.NoElse? {
        var f1 := CreateBlock(t.f, |fr.bt.params|);
        var term := Jump(fr.destination, PeekN(t.stack, |fr.bt.params|).value);
        CreateClean(t.f, true, late, |fr.bt.params|);
        TerminateClean(f1, late, term);
        PatchClean(Terminate(f1, term).value, fr, late);
        var (f3, els) := PatchElse(Terminate(f1, term).value, fr).value;
        SwitchClean(f3, late, els);
      } else {
        var term := Jump(fr.destination, PeekN(t.stack, fr.numResults).value);
        ReadyElseSealed(v, t);
        SealedStays(t.f, term, fr.elseData.elseBlock);
        TerminateClean(t.f, late, term);
        SwitchClean(Terminate(t.f, term).value, late, fr.elseData.elseBlock);
      }
    }
  }

  lemma DeadElseTidy(v: VState, t: TState)
    requires Inv(v, t) && Tidy(t) && !t.reachable && t.ctrl != [] && IsReal(TopFrame(t)) && Validate(v, ElseOp).Just?
    ensures DeadElse(t).Ok? ==> Tidy(DeadElse(t).value)
  {
    hide Inv, Validate, Clean, Headers, CreateBlock, PatchElse, SwitchTo;
    ElseShape(v, t);
    if DeadElse(t).Ok? {
      var fr, late := TopFrame(t), Headers(t.ctrl);
      HeadersSame(t.ctrl, DeadElse(t).value.ctrl);
      if fr.elseData.NoElse? {
        CreateClean(t.f, false, late, |fr.bt.params|);
        PatchClean(CreateBlock(t.f, |fr.bt.params|), fr, late);
        var (f3, els) := PatchElse(CreateBlock(t.f, |fr.bt.params|), fr).value;
        SwitchClean(f3, late, els);
      } else {
        ReadyElseSealed(v, t);
        SwitchClean(t.f, late, fr.elseData.elseBlock);
      }
    }
  }

  lemma EndTidy(t: TState)
    requires Tidy(t) && t.ctrl != []
    ensures t.reachable && TransEnd(t).Ok? ==> Tidy(TransEnd(t).value)
    ensures !t.reachable && DeadEnd(t).Ok? ==> Tidy(DeadEnd(t).value)
  {
    hide Clean, Headers, Terminate, CloseInto, Seal;
    var fr, late, late' := TopFrame(t), Headers(t.ctrl), Headers(t.ctrl[..|t.ctrl| - 1]);
    HeadersPop(t.ctrl);
    if t.reachable && TransEnd(t).Ok? {
      var term := Jump(fr.destination, PeekN(t.stack, fr.numResults).value);
      TerminateClean(t.f, late, term);
      CloseIntoClean(Terminate(t.f, term).value, fr, late);
      CleanMore(CloseInto(Terminate(t.f, term).value, fr).value, true, if fr.LoopFrame? then late - iset{fr.header} else late, late');
    }
    if !t.reachable && DeadEnd(t).Ok? {
      if fr.LoopFrame? {
        SealClean(t.f, false, late, fr.header);
        CleanMore(Seal(t.f, fr.header).value, false, late - iset{fr.header}, late');
      } else {
        assert late == late';
        CloseIntoClean(t.f, fr, late);
      }
    }
  }

  // ---------------------------------------------------------------- whole bodies

  lemma LiveTidy(v: VState, t: TState, op: Op)
    requires Inv(v, t) && Tidy(t) && t.reachable && t.ctrl != [] && Validate(v, op).Just?
    ensures TransLive(t, op).Ok? ==> Tidy(TransLive(t, op).value)
  {
    hide Inv, Validate, Tidy, TransElse, TransEnd, TransBr, TransBrIf, TransBrTable, TransReturn, TransTrap, TransBlock, TransLoop,
         TransIf;
    LiveTop(v, t);
    if IsStraight(op) {
      StraightTidy(t, op);
    } else {
      match op {
        case BlockOp(bt) => OpenTidy(t, bt);
        case LoopOp(bt) => OpenTidy(t, bt);
        case IfOp(bt) => IfTidy(t, bt);
        case ElseOp => ElseTidy(v, t);
        case EndOp => EndTidy(t);
        case BrIf(d) => BrIfTidy(t, d);
        case BrTableOp(targets, default) => BrTableTidy(t, targets, default);
        case Br(_) => BranchTidy(t, op);
        case ReturnOp => BranchTidy(t, op);
        case UnreachableOp => BranchTidy(t, op);
      }
    }
  }

  lemma DeadTidy(v: VState, t: TState, op: Op)
    requires Inv(v, t) && Tidy(t) && !t.reachable && t.ctrl != [] && Validate(v, op).Just?
    ensures TransDead(t, op).Ok? ==> Tidy(TransDead(t, op).value)
  {
    hide Inv, Validate, Clean, Headers, DeadElse, DeadEnd;
    if op.EndOp? {
      EndTidy(t);
    } else if op.ElseOp? {
      if IsReal(TopFrame(t)) {
        DeadElseTidy(v, t);
      } else {
        PlaceholderTidy(v, t);
      }
    } else if op.BlockOp? || op.LoopOp? || op.IfOp? {
      var t' := TransDead(t, op).value;
      HeadersPush(t.ctrl, TopFrame(t'));
      assert Headers(t.ctrl) + iset{} == Headers(t.ctrl);
    }
  }

  lemma PlaceholderTidy(v: VState, t: TState)
    requires Inv(v, t) && Tidy(t) && !t.reachable && t.ctrl != [] && !IsReal(TopFrame(t)) && Validate(v, ElseOp).Just?
    ensures DeadElse(t).Ok? ==> Tidy(DeadElse(t).value)
  {
    hide Inv, Validate, Clean, Headers, CreateBlock, PatchElse, SwitchTo;
    DeadSteps.PlaceholderFacts(v, t);
    if DeadElse(t).Ok? {
      HeadersSame(t.ctrl, DeadElse(t).value.ctrl);
    }
  }

  lemma {:induction false} RunTidy(v: VState, t: TState, ops: seq<Op>)
    requires Inv(v, t) && Tidy(t) && ValidateAll(v, ops).Just? && TransAll(t, ops).Ok?
    ensures Tidy(TransAll(t, ops).value)
    decreases |ops|
  {
    hide Inv, Tidy, Validate, TransLive, TransDead, IsUnreachable;
    if ops != [] {
      ValidInside(v, ops[0]);
      InvShape(v, t);
      StepKeeps(v, t, ops[0]);
      if t.reachable {
        LiveTidy(v, t, ops[0]);
      } else {
        DeadTidy(v, t, ops[0]);
      }
      RunTidy(Validate(v, ops[0]).it, TransOp(t, ops[0]).value, ops[1..]);
    }
  }

  /** Every valid body can be finalised: each block that was written to is complete and sealed. */
  lemma BodyFinalizes(locals: nat, results: seq<ValType>, ops: seq<Op>)
    requires ValidBody(locals, results, ops)
    ensures TransAll(InitialState(|results|), ops).Ok? && Finish(TransAll(InitialState(|results|), ops).value).Ok?
    ensures
      var g := Finish(TransAll(InitialState(|results|), ops).value).value;
      forall b :: IsBlock(g, b) && (g.blocks[b].body != [] || g.blocks[b].term.Just?) ==> g.blocks[b].sealed && g.blocks[b].term.Just?
  {
    var v0, t0 := Initial(locals, results), InitialState(|results|);
    assert Tidy(t0);
    InitialKeeps(locals, results);
    hide Inv, Validate, TransOp, Clean, Terminate, Initial, InitialState;
    BodyTranslates(locals, results, ops);
    RunKeeps(v0, t0, ops);
    RunTidy(v0, t0, ops);
    var v, t := ValidateAll(v0, ops).it, TransAll(t0, ops).value;
    InvShape(v, t);
    assert Headers(t.ctrl) == iset{};
    if t.reachable {
      LiveFacts(v, t);
      TerminateClean(t.f, iset{}, ReturnTerm(t.stack));
    }
    CleanIsFinal(Finish(t).value);
  }

  lemma CleanIsFinal(g: Func)
    requires Clean(g, false, iset{})
    ensures forall b :: IsBlock(g, b) && (g.blocks[b].body != [] || g.blocks[b].term.Just?) ==> g.blocks[b].sealed && g.blocks[b].term.Just?
  {
    assert forall b :: IsBlock(g, b) && Written(g, b) ==> g.blocks[b].sealed && Filled(g, b);
  }
}
