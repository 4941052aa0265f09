/** The builder only adds: blocks keep their parameters and instructions, and a finished block keeps
    its final branch, except the one branch that an `else` patches. Parameters of new blocks are new values. */
module BuilderGrowth {
  import opened Cfg
  import opened Validation
  import opened Translation

  predicate GrownBlock(d: BlockData, d': BlockData, keep: bool) {
    && d'.params == d.params && d.body <= d'.body
    && (d.term.Just? ==> d'.body == d.body && d'.term.Just? && (keep ==> d'.term == d.term))
  }

  /** Distinct values from `lo` up to `hi`, in order. */
  predicate NewParams(ps: seq<Value>, lo: Value, hi: Value) {
    && (forall i :: 0 <= i < |ps| ==> lo <= ps[i] < hi)
    && (forall i, j :: 0 <= i < j < |ps| ==> ps[i] < ps[j])
  }

  /** Only block `x` may have had its final branch changed. */
  ghost predicate Grown(f: Func, f': Func, x: Block) {
    && |f.blocks| <= |f'.blocks| && f.nextValue <= f'.nextValue
    && (forall b :: IsBlock(f, b) ==> GrownBlock(f.blocks[b], f'.blocks[b], b != x))
    && (forall b :: IsBlock(f', b) && !IsBlock(f, b) ==> NewParams(f'.blocks[b].params, f.nextValue, f'.nextValue))
    && (forall b :: IsBlock(f', b) && Filled(f', b) ==> BranchOk(f', b) || (IsBlock(f, b) && f.blocks[b].term == f'.blocks[b].term))
  }

  /** The final branch of the block passes as many arguments as its targets have parameters. */
  predicate BranchOk(f: Func, b: Block)
    requires IsBlock(f, b) && Filled(f, b)
  {
    ArgsOk(f, f.blocks[b].term.it)
  }

  /** A branch stays right while blocks are added, as parameters do not change. */
  lemma ArgsStay(f: Func, f': Func, x: Block, t: Term)
    requires Grown(f, f', x) && ArgsOk(f, t)
    ensures ArgsOk(f', t)
  {
    hide BranchOk;
    assert forall b :: IsBlock(f, b) ==> GrownBlock(f.blocks[b], f'.blocks[b], b != x);
  }

  lemma TermArgs(f: Func, t: Term)
    requires TermOk(f, t)
    ensures ArgsOk(f, t)
  {
  }

  lemma GrownSelf(f: Func)
    ensures Grown(f, f, RESERVED)
  {
  }

  lemma GrownAny(f: Func, f': Func, x: Block)
    requires Grown(f, f', RESERVED)
    ensures Grown(f, f', x)
  {
  }

  lemma GrownCompose(f: Func, f': Func, f'': Func, x: Block)
    requires Grown(f, f', x) && Grown(f', f'', x)
    ensures Grown(f, f'', x)
  {
    forall b | IsBlock(f, b) ensures GrownBlock(f.blocks[b], f''.blocks[b], b != x) {
      assert GrownBlock(f.blocks[b], f'.blocks[b], b != x);
      assert GrownBlock(f'.blocks[b], f''.blocks[b], b != x);
    }
    forall b | IsBlock(f'', b) && !IsBlock(f, b) ensures NewParams(f''.blocks[b].params, f.nextValue, f''.nextValue) {
      if IsBlock(f', b) {
        assert GrownBlock(f'.blocks[b], f''.blocks[b], b != x);
      }
    }
    forall b | IsBlock(f'', b) && Filled(f'', b)
      ensures BranchOk(f'', b) || (IsBlock(f, b) && f.blocks[b].term == f''.blocks[b].term)
    {
      if !BranchOk(f'', b) && BranchOk(f', b) {
        ArgsStay(f', f'', x, f'.blocks[b].term.it);
      }
    }
  }

  lemma CreateGrown(f: Func, n: nat)
    ensures Grown(f, CreateBlock(f, n), RESERVED)
  {
  }

  lemma EmitGrown(f: Func, i: Inst)
    ensures Emit(f, i).Ok? ==> Grown(f, Emit(f, i).value, RESERVED)
    ensures EmitValue(f, i).Ok? ==> Grown(f, EmitValue(f, i).value, RESERVED)
  {
  }

  lemma TerminateGrown(f: Func, t: Term)
    ensures Terminate(f, t).Ok? ==> Grown(f, Terminate(f, t).value, RESERVED)
  {
    if Terminate(f, t).Ok? {
      TermArgs(f, t);
      var f' := Terminate(f, t).value;
      assert ArgsOk(f', t) by { SameParams(f, f', t); }
    }
  }

  lemma SameParams(f: Func, f': Func, t: Term)
    requires ArgsOk(f, t) && |f'.blocks| == |f.blocks|
    requires forall b :: IsBlock(f, b) ==> f'.blocks[b].params == f.blocks[b].params
    ensures ArgsOk(f', t)
  {
  }

  lemma SealGrown(f: Func, b: Block)
    ensures Seal(f, b).Ok? ==> Grown(f, Seal(f, b).value, RESERVED)
  {
  }

  lemma SwitchGrown(f: Func, b: Block)
    ensures SwitchTo(f, b).Ok? ==> Grown(f, SwitchTo(f, b).value, RESERVED)
  {
  }

  lemma ChangeGrown(f: Func, p: Block, from: Block, to: Block)
    ensures ChangeJumpDestination(f, p, from, to).Ok? ==> Grown(f, ChangeJumpDestination(f, p, from, to).value, p)
  {
    hide RedirectTerm;
    if ChangeJumpDestination(f, p, from, to).Ok? {
      SameParams(f, ChangeJumpDestination(f, p, from, to).value, RedirectTerm(f.blocks[p].term.it, from, to));
    }
  }

  // ---------------------------------------------------------------- sequences of builder calls

  lemma {:induction false} CreateBlocksGrown(f: Func, n: nat)
    ensures Grown(f, CreateBlocks(f, n), RESERVED)
    decreases n
  {
    hide Grown;
    if n == 0 {
      GrownSelf(f);
    } else {
      CreateBlocksGrown(f, n - 1);
      CreateGrown(CreateBlocks(f, n - 1), 0);
      GrownCompose(f, CreateBlocks(f, n - 1), CreateBlocks(f, n), RESERVED);
    }
  }

  lemma {:induction false} FillSplitsGrown(f: Func, ctrl: seq<Frame>, depths: seq<nat>, first: Block, args: seq<Value>, n: nat)
    requires n <= |depths| && forall i :: 0 <= i < |depths| ==> depths[i] < |ctrl|
    ensures FillSplits(f, ctrl, depths, first, args, n).Ok? ==>
              Grown(f, FillSplits(f, ctrl, depths, first, args, n).value, RESERVED)
    decreases n
  {
    hide Grown, SwitchTo, Seal, Terminate;
    if n == 0 {
      GrownSelf(f);
    } else if FillSplits(f, ctrl, depths, first, args, n).Ok? {
      FillSplitsGrown(f, ctrl, depths, first, args, n - 1);
      var f0 := FillSplits(f, ctrl, depths, first, args, n - 1).value;
      var b := first + (n - 1);
      var f1 := SwitchTo(f0, b).value;
      var f2 := Seal(f1, b).value;
      var term := Jump(BrDestination(FrameAt(ctrl, depths[n - 1])), args);
      SwitchGrown(f0, b);
      SealGrown(f1, b);
      TerminateGrown(f2, term);
      GrownCompose(f, f0, f1, RESERVED);
      GrownCompose(f, f1, f2, RESERVED);
      GrownCompose(f, f2, Terminate(f2, term).value, RESERVED);
    }
  }

  lemma CloseIntoGrown(f: Func, fr: Frame)
    ensures CloseInto(f, fr).Ok? ==> Grown(f, CloseInto(f, fr).value, RESERVED)
  {
    hide Grown, SwitchTo, Seal;
    if CloseInto(f, fr).Ok? {
      var f2 := SwitchTo(f, fr.destination).value;
      var f3 := Seal(f2, fr.destination).value;
      SwitchGrown(f, fr.destination);
      SealGrown(f2, fr.destination);
      GrownCompose(f, f2, f3, RESERVED);
      if fr.LoopFrame? {
        SealGrown(f3, fr.header);
        GrownCompose(f, f3, Seal(f3, fr.header).value, RESERVED);
      }
    }
  }

  lemma PatchGrown(f: Func, fr: Frame)
    requires fr.IfFrame? && fr.elseData.NoElse?
    ensures PatchElse(f, fr).Ok? ==> Grown(f, PatchElse(f, fr).value.0, fr.elseData.branch)
  {
    hide Grown, ChangeJumpDestination, Seal;
    if PatchElse(f, fr).Ok? {
      var p, els := fr.elseData.branch, |f.blocks| - 1;
      ChangeGrown(f, p, fr.elseData.placeholder, els);
      var f2 := ChangeJumpDestination(f, p, fr.elseData.placeholder, els).value;
      SealGrown(f2, els);
      GrownAny(f2, Seal(f2, els).value, p);
      GrownCompose(f, f2, Seal(f2, els).value, p);
    }
  }

  // ---------------------------------------------------------------- operators

  /** The block whose branch the operator patches. */
  function PatchedBlock(t: TState, op: Op): Block {
    if op.ElseOp? && t.ctrl != [] && TopFrame(t).IfFrame? && TopFrame(t).headReachable && TopFrame(t).elseData.NoElse?
    then TopFrame(t).elseData.branch else RESERVED
  }

  lemma ElseGrown(t: TState)
    ensures TransElse(t).Ok? ==> Grown(t.f, TransElse(t).value.f, PatchedBlock(t, ElseOp))
  {
    hide Grown, CreateBlock, Terminate, PatchElse, SwitchTo;
    GrownSelf(t.f);
    if TransElse(t).Ok? && TopFrame(t).headReachable {
      var fr := TopFrame(t);
      if fr.elseData.NoElse? {
        var p, np := fr.elseData.branch, |fr.bt.params|;
        var f1 := CreateBlock(t.f, np);
        var term := Jump(fr.destination, PeekN(t.stack, np).value);
        var f2 := Terminate(f1, term).value;
        var f3 := PatchElse(f2, fr).value.0;
        var els := PatchElse(f2, fr).value.1;
        CreateGrown(t.f, np);
        TerminateGrown(f1, term);
        GrownCompose(t.f, f1, f2, RESERVED);
        GrownAny(t.f, f2, p);
        PatchGrown(f2, fr);
        GrownCompose(t.f, f2, f3, p);
        SwitchGrown(f3, els);
        GrownAny(f3, SwitchTo(f3, els).value, p);
        GrownCompose(t.f, f3, SwitchTo(f3, els).value, p);
      } else {
        var term := Jump(fr.destination, PeekN(t.stack, fr.numResults).value);
        var f2 := Terminate(t.f, term).value;
        TerminateGrown(t.f, term);
        SwitchGrown(f2, fr.elseData.elseBlock);
        GrownCompose(t.f, f2, SwitchTo(f2, fr.elseData.elseBlock).value, RESERVED);
      }
    }
  }

  lemma DeadElseGrown(t: TState)
    ensures DeadElse(t).Ok? ==> Grown(t.f, DeadElse(t).value.f, PatchedBlock(t, ElseOp))
  {
    hide Grown, CreateBlock, PatchElse, SwitchTo;
    GrownSelf(t.f);
    if DeadElse(t).Ok? && TopFrame(t).headReachable {
      var fr := TopFrame(t);
      if fr.elseData.NoElse? {
        var p, np := fr.elseData.branch, |fr.bt.params|;
        var f2 := CreateBlock(t.f, np);
        var f3 := PatchElse(f2, fr).value.0;
        var els := PatchElse(f2, fr).value.1;
        CreateGrown(t.f, np);
        GrownAny(t.f, f2, p);
        PatchGrown(f2, fr);
        GrownCompose(t.f, f2, f3, p);
        SwitchGrown(f3, els);
        GrownAny(f3, SwitchTo(f3, els).value, p);
        GrownCompose(t.f, f3, SwitchTo(f3, els).value, p);
      } else {
        SwitchGrown(t.f, fr.elseData.elseBlock);
      }
    }
  }

  lemma EndGrown(t: TState)
    ensures TransEnd(t).Ok? ==> Grown(t.f, TransEnd(t).value.f, RESERVED)
    ensures DeadEnd(t).Ok? ==> Grown(t.f, DeadEnd(t).value.f, RESERVED)
  {
    hide Grown, Terminate, CloseInto, Seal;
    GrownSelf(t.f);
    if t.ctrl != [] {
      var fr := TopFrame(t);
      if TransEnd(t).Ok? {
        var term := Jump(fr.destination, PeekN(t.stack, fr.numResults).value);
        TerminateGrown(t.f, term);
        var f1 := Terminate(t.f, term).value;
        CloseIntoGrown(f1, fr);
        GrownCompose(t.f, f1, CloseInto(f1, fr).value, RESERVED);
      }
      if fr.LoopFrame? {
        SealGrown(t.f, fr.header);
      }
      CloseIntoGrown(t.f, fr);
    }
  }

  lemma LoopGrown(t: TState, bt: BlockType)
    ensures TransLoop(t, bt).Ok? ==> Grown(t.f, TransLoop(t, bt).value.f, RESERVED)
  {
    hide Grown, CreateBlock, Terminate, SwitchTo;
    if TransLoop(t, bt).Ok? {
      var np, nr, header := |bt.params|, |bt.results|, |t.f.blocks|;
      var g := CreateBlock(t.f, np);
      var f1 := CreateBlock(g, nr);
      var term := Jump(header, PeekN(t.stack, np).value);
      var f2 := Terminate(f1, term).value;
      CreateGrown(t.f, np);
      CreateGrown(g, nr);
      GrownCompose(t.f, g, f1, RESERVED);
      TerminateGrown(f1, term);
      GrownCompose(t.f, f1, f2, RESERVED);
      SwitchGrown(f2, header);
      GrownCompose(t.f, f2, SwitchTo(f2, header).value, RESERVED);
    }
  }

  /** Ending the current block and going on in block `next`. */
  lemma ContinueGrown(f: Func, f1: Func, term: Term, next: Block)
    requires Grown(f, f1, RESERVED) && Terminate(f1, term).Ok? && Seal(Terminate(f1, term).value, next).Ok?
    requires SwitchTo(Seal(Terminate(f1, term).value, next).value, next).Ok?
    ensures Grown(f, SwitchTo(Seal(Terminate(f1, term).value, next).value, next).value, RESERVED)
  {
    hide Grown, Terminate, SwitchTo, Seal;
    var f2 := Terminate(f1, term).value;
    var f3 := Seal(f2, next).value;
    TerminateGrown(f1, term);
    GrownCompose(f, f1, f2, RESERVED);
    SealGrown(f2, next);
    GrownCompose(f, f2, f3, RESERVED);
    SwitchGrown(f3, next);
    GrownCompose(f, f3, SwitchTo(f3, next).value, RESERVED);
  }

  lemma TwoCreated(f: Func, m: nat, n: nat)
    ensures Grown(f, CreateBlock(CreateBlock(f, m), n), RESERVED)
  {
    hide Grown, CreateBlock;
    CreateGrown(f, m);
    CreateGrown(CreateBlock(f, m), n);
    GrownCompose(f, CreateBlock(f, m), CreateBlock(CreateBlock(f, m), n), RESERVED);
  }

  lemma IfGrown(t: TState, bt: BlockType)
    ensures TransIf(t, bt).Ok? ==> Grown(t.f, TransIf(t, bt).value.f, RESERVED)
  {
    hide Grown, CreateBlock, Terminate, SwitchTo, Seal;
    if TransIf(t, bt).Ok? {
      var np, nr, next := |bt.params|, |bt.results|, |t.f.blocks|;
      var c := PeekN(t.stack, 1).value[0];
      var args := PeekN(PopN(t.stack, 1).value, np).value;
      var f1 := CreateBlock(CreateBlock(t.f, 0), nr);
      TwoCreated(t.f, 0, nr);
      if bt.params == bt.results {
        ContinueGrown(t.f, f1, Brif(c, next, [], next + 1, args), next);
      } else {
        var g := CreateBlock(f1, np);
        var term := Brif(c, next, [], next + 2, args);
        CreateGrown(f1, np);
        GrownCompose(t.f, f1, g, RESERVED);
        TerminateGrown(g, term);
        var f2 := Terminate(g, term).value;
        GrownCompose(t.f, g, f2, RESERVED);
        SealGrown(f2, next + 2);
        var f3 := Seal(f2, next + 2).value;
        GrownCompose(t.f, f2, f3, RESERVED);
        SealGrown(f3, next);
        var f4 := Seal(f3, next).value;
        GrownCompose(t.f, f3, f4, RESERVED);
        SwitchGrown(f4, next);
        GrownCompose(t.f, f4, SwitchTo(f4, next).value, RESERVED);
      }
    }
  }

  lemma BrIfGrown(t: TState, d: nat)
    ensures TransBrIf(t, d).Ok? ==> Grown(t.f, TransBrIf(t, d).value.f, RESERVED)
  {
    hide Grown, CreateBlock, Terminate, SwitchTo, Seal;
    if TransBrIf(t, d).Ok? {
      var next, fr := |t.f.blocks|, FrameAt(t.ctrl, d);
      var c := PeekN(t.stack, 1).value[0];
      var args := PeekN(PopN(t.stack, 1).value, BrArity(fr)).value;
      CreateGrown(t.f, 0);
      ContinueGrown(t.f, CreateBlock(t.f, 0), Brif(c, BrDestination(fr), args, next, []), next);
    }
  }

  lemma BrTableGrown(t: TState, targets: seq<nat>, default: nat)
    ensures TransBrTable(t, targets, default).Ok? ==> Grown(t.f, TransBrTable(t, targets, default).value.f, RESERVED)
  {
    hide Grown, CreateBlocks, Terminate, FillSplits, TableOrder, SplitTerm;
    if TransBrTable(t, targets, default).Ok? {
      MinDepthOk(targets, default);
      var arity := BrArity(FrameAt(t.ctrl, MinDepth(targets, default)));
      var val, rest := PeekN(t.stack, 1).value[0], PopN(t.stack, 1).value;
      if arity == 0 {
        TerminateGrown(t.f, BrTable(val, Destinations(t.ctrl, targets), BrDestination(FrameAt(t.ctrl, default))));
      } else {
        SplitGrown(t, val, rest, arity, targets, default);
      }
    }
  }

  lemma SplitGrown(t: TState, val: Value, rest: seq<Value>, arity: nat, targets: seq<nat>, default: nat)
    requires DepthsOk(t.ctrl, targets, default)
    ensures TransTableSplit(t, val, rest, arity, targets, default).Ok? ==>
              Grown(t.f, TransTableSplit(t, val, rest, arity, targets, default).value.f, RESERVED)
  {
    hide Grown, CreateBlocks, Terminate, FillSplits, TableOrder, SplitTerm;
    if TransTableSplit(t, val, rest, arity, targets, default).Ok? {
      var order := TableOrder(targets, default);
      var f0 := CreateBlocks(t.f, |order|);
      var term := SplitTerm(|t.f.blocks|, val, order, targets, default);
      CreateBlocksGrown(t.f, |order|);
      TerminateGrown(f0, term);
      var f1 := Terminate(f0, term).value;
      GrownCompose(t.f, f0, f1, RESERVED);
      var args := PeekN(rest, arity).value;
      FillSplitsGrown(f1, t.ctrl, order, |t.f.blocks|, args, |order|);
      GrownCompose(t.f, f1, FillSplits(f1, t.ctrl, order, |t.f.blocks|, args, |order|).value, RESERVED);
    }
  }

  lemma EndsGrown(t: TState, op: Op)
    requires op.Br? || op.ReturnOp? || op.UnreachableOp?
    ensures TransLive(t, op).Ok? ==> Grown(t.f, TransLive(t, op).value.f, RESERVED)
  {
    hide Grown, Terminate;
    if TransLive(t, op).Ok? {
      match op {
        case Br(d) =>
          var fr := FrameAt(t.ctrl, d);
          TerminateGrown(t.f, Jump(BrDestination(fr), PeekN(t.stack, BrArity(fr)).value));
        case ReturnOp => TerminateGrown(t.f, ReturnTerm(PeekN(t.stack, t.ctrl[0].numResults).value));
        case UnreachableOp => TerminateGrown(t.f, TrapTerm);
      }
    }
  }

  lemma StraightGrown(t: TState, op: Op)
    requires op.Nop? || op.Drop? || op.Const? || op.Add? || op.Select? || op.LocalGet? || op.LocalSet? || op.LocalTee?
    ensures TransLive(t, op).Ok? ==> Grown(t.f, TransLive(t, op).value.f, RESERVED)
  {
    hide Grown, Emit, EmitValue;
    GrownSelf(t.f);
    var v := t.f.nextValue;
    if TransLive(t, op).Ok? {
      match op {
        case Nop =>
        case Drop =>
        case Const(n) => EmitGrown(t.f, Iconst(v, n));
        case Add => EmitGrown(t.f, Iadd(v, PeekN(t.stack, 2).value[0], PeekN(t.stack, 2).value[1]));
        case Select =>
          var args := PeekN(t.stack, 3).value;
          EmitGrown(t.f, SelectInst(v, args[2], args[0], args[1]));
        case LocalGet(i) => EmitGrown(t.f, UseVar(v, i));
        case LocalSet(i) => EmitGrown(t.f, DefVar(i, PeekN(t.stack, 1).value[0]));
        case LocalTee(i) => EmitGrown(t.f, DefVar(i, PeekN(t.stack, 1).value[0]));
      }
    }
  }

  /** Translating an operator only adds to the function, save for the patched branch. */
  lemma OpGrown(t: TState, op: Op)
    ensures TransOp(t, op).Ok? ==> Grown(t.f, TransOp(t, op).value.f, PatchedBlock(t, op))
  {
    hide Grown, TransElse, TransEnd, TransBr, TransBrIf, TransBrTable, TransReturn, TransTrap, TransLoop,
         TransIf, DeadElse, DeadEnd, CreateBlock, IsUnreachable, TransConst, TransAdd, TransSelect, TransLocalGet, TransLocalSet;
    GrownSelf(t.f);
    if TransOp(t, op).Ok? {
      if op.ElseOp? {
        ElseGrown(t);
        DeadElseGrown(t);
      } else if op.EndOp? {
        EndGrown(t);
      } else if t.reachable {
        match op {
          case BlockOp(bt) => CreateGrown(t.f, |bt.results|);
          case LoopOp(bt) => LoopGrown(t, bt);
          case IfOp(bt) => IfGrown(t, bt);
          case BrIf(d) => BrIfGrown(t, d);
          case BrTableOp(targets, default) => BrTableGrown(t, targets, default);
          case Br(_) => EndsGrown(t, op);
          case ReturnOp => EndsGrown(t, op);
          case UnreachableOp => EndsGrown(t, op);
          case _ => StraightGrown(t, op);
        }
      }
    }
  }

  // ---------------------------------------------------------------- whole bodies

  /** Every branch goes to a block that exists, with as many arguments as it has parameters. */
  ghost predicate AllBranchesOk(f: Func) {
    forall b :: IsBlock(f, b) && Filled(f, b) ==> BranchOk(f, b)
  }

  lemma GrownBranches(f: Func, f': Func, x: Block)
    requires AllBranchesOk(f) && Grown(f, f', x)
    ensures AllBranchesOk(f')
  {
    forall b | IsBlock(f', b) && Filled(f', b) ensures BranchOk(f', b) {
      if IsBlock(f, b) && f.blocks[b].term == f'.blocks[b].term {
        assert BranchOk(f, b);
        ArgsStay(f, f', x, f.blocks[b].term.it);
      }
    }
  }

  lemma {:induction false} RunBranches(t: TState, ops: seq<Op>)
    requires AllBranchesOk(t.f) && TransAll(t, ops).Ok?
    ensures AllBranchesOk(TransAll(t, ops).value.f)
    decreases |ops|
  {
    hide AllBranchesOk, Grown, TransOp;
    if ops != [] {
      OpGrown(t, ops[0]);
      var t' := TransOp(t, ops[0]).value;
      GrownBranches(t.f, t'.f, PatchedBlock(t, ops[0]));
      RunBranches(t', ops[1..]);
    }
  }

  /** In whatever function the translator makes, valid body or not, every branch fits its target. */
  lemma TranslatedBranches(results: nat, ops: seq<Op>)
    requires TransAll(InitialState(results), ops).Ok? && Finish(TransAll(InitialState(results), ops).value).Ok?
    ensures AllBranchesOk(Finish(TransAll(InitialState(results), ops).value).value)
  {
    assert AllBranchesOk(InitialState(results).f);
    hide AllBranchesOk, Grown, TransOp, Terminate, IsUnreachable;
    RunBranches(InitialState(results), ops);
    var t := TransAll(InitialState(results), ops).value;
    GrownSelf(t.f);
    TerminateGrown(t.f, ReturnTerm(t.stack));
    GrownBranches(t.f, Finish(t).value, RESERVED);
  }
}
