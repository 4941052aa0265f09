/** `br_table` in reachable, valid code: the jump table, directly or through one split
    block per distinct depth, keeps the translation invariant. */
module TableSteps {
  import opened Cfg
  import opened Validation
  import opened Translation
  import opened TranslationInvariant
  import opened LiveSteps
  import opened OpenSteps

  lemma ExtendsEdgeOk(f: Func, f': Func, targets: iset<Block>, b: Block, n: nat)
    requires Extends(f, f', targets) && EdgeOk(f, b, n)
    ensures EdgeOk(f', b, n)
  {
  }

  /** All targets of a valid `br_table` take the same number of arguments. */
  lemma TableArity(v: VState, t: TState, targets: seq<nat>, default: nat)
    requires Inv(v, t) && t.reachable && t.ctrl != [] && Validate(v, BrTableOp(targets, default)).Just?
    ensures DepthsOk(t.ctrl, targets, default)
    ensures forall i :: 0 <= i < |targets| ==> BrArity(FrameAt(t.ctrl, targets[i])) == BrArity(FrameAt(t.ctrl, default))
    ensures MinDepth(targets, default) < |t.ctrl|
    ensures BrArity(FrameAt(t.ctrl, MinDepth(targets, default))) == BrArity(FrameAt(t.ctrl, default))
    ensures 1 + BrArity(FrameAt(t.ctrl, default)) <= |t.stack|
    ensures 0 <= Floor(TopFrame(t)) <= |t.stack| - 1 - BrArity(FrameAt(t.ctrl, default))
    ensures Validate(v, BrTableOp(targets, default)).it == SetUnreachable(v)
  {
    hide Inv, Validate, BrArity, Arity;
    LiveFacts(v, t);
    ValidBrTable(v, targets, default);
    TargetsDiffer(v, t, 0, |t.ctrl| - 1 - default);
    forall i | 0 <= i < |targets|
      ensures BrArity(FrameAt(t.ctrl, targets[i])) == BrArity(FrameAt(t.ctrl, default))
    {
      TargetsDiffer(v, t, 0, |t.ctrl| - 1 - targets[i]);
    }
    MinDepthOk(targets, default);
    ArgsAvailable(v, t, 1 + BrArity(FrameAt(t.ctrl, default)));
  }

  lemma AllEdgesOk(v: VState, t: TState, depths: seq<nat>, n: nat)
    requires Inv(v, t) && t.reachable
    requires forall k :: 0 <= k < |depths| ==> depths[k] < |t.ctrl| && BrArity(FrameAt(t.ctrl, depths[k])) == n
    ensures forall k :: 0 <= k < |depths| ==> EdgeOk(t.f, BrDestination(FrameAt(t.ctrl, depths[k])), n)
  {
    hide Inv;
    forall k | 0 <= k < |depths| ensures EdgeOk(t.f, BrDestination(FrameAt(t.ctrl, depths[k])), n) {
      TargetsDiffer(v, t, 0, |t.ctrl| - 1 - depths[k]);
    }
  }

  // ---------------------------------------------------------------- without arguments

  lemma TableDirectKeeps(v: VState, t: TState, targets: seq<nat>, default: nat)
    requires Inv(v, t) && t.reachable && t.ctrl != [] && Validate(v, BrTableOp(targets, default)).Just?
    requires DepthsOk(t.ctrl, targets, default) && BrArity(FrameAt(t.ctrl, default)) == 0
    ensures TransBrTable(t, targets, default).Ok?
    ensures Inv(SetUnreachable(v), TransBrTable(t, targets, default).value)
  {
    hide Inv, Validate, Extends, Terminate, MarkedBelow, EdgeOk, MarkAll;
    LiveFacts(v, t);
    TableArity(v, t, targets, default);
    var all := targets + [default];
    AllEdgesOk(v, t, all, 0);
    forall i | 0 <= i < |targets| ensures EdgeOk(t.f, Destinations(t.ctrl, targets)[i], 0) {
      assert all[i] == targets[i];
    }
    assert all[|targets|] == default;
    var val := t.stack[|t.stack| - 1];
    var term := BrTable(val, Destinations(t.ctrl, targets), BrDestination(FrameAt(t.ctrl, default)));
    TerminateExtends(t.f, term);
    MarkedBy(v, t, all);
    assert Destinations(t.ctrl, all) == Destinations(t.ctrl, targets) + [BrDestination(FrameAt(t.ctrl, default))];
    assert TargetSet(term) == BranchTargets(t.ctrl, all);
    assert PeekN(t.stack, 1).value[0] == val;
    Diverges(v, t, SetUnreachable(v), TransBrTable(t, targets, default).value, TargetSet(term));
  }

  // ---------------------------------------------------------------- with split blocks

  lemma {:induction false} CreateBlocksExtends(f: Func, n: nat)
    requires IsBlock(f, f.cur)
    ensures
      var f' := CreateBlocks(f, n);
      && Extends(f, f', NONE) && f'.cur == f.cur && |f'.blocks| == |f.blocks| + n
      && f'.nextValue == f.nextValue && f'.blocks[f.cur] == f.blocks[f.cur]
      && forall b :: |f.blocks| <= b < |f.blocks| + n ==> Blank(f', b, 0, false)
    decreases n
  {
    if n == 0 {
      SelfExtends(f);
    } else {
      CreateBlocksExtends(f, n - 1);
      var g := CreateBlocks(f, n - 1);
      CreateExtends(g, 0);
      hide Extends;
      NothingTwice();
      ExtendsCompose(f, g, CreateBlock(g, 0), NONE, NONE);
      forall b | |f.blocks| <= b < |f.blocks| + n ensures Blank(CreateBlock(g, 0), b, 0, false) {
        if b < |g.blocks| {
          assert Blank(g, b, 0, false);
        }
      }
    }
  }

  /** A split block only jumps on to the target of its depth. */
  function SplitBlock(ctrl: seq<Frame>, depth: nat, args: seq<Value>): BlockData
    requires depth < |ctrl|
  {
    BlockData([], [], Just(Jump(BrDestination(FrameAt(ctrl, depth)), args)), true)
  }

  /** The first `n` split blocks are filled, each with a jump to its depth's target; the others are blank. */
  ghost predicate SplitsOk(f: Func, g: Func, ctrl: seq<Frame>, order: seq<nat>, args: seq<Value>, n: nat)
    requires n <= |order| && forall i :: 0 <= i < |order| ==> order[i] < |ctrl|
  {
    var first := |f.blocks|;
    && |g.blocks| == first + |order| && g.nextValue == f.nextValue
    && IsBlock(g, g.cur) && Filled(g, g.cur)
    && (forall b :: first <= b < first + n ==> g.blocks[b] == SplitBlock(ctrl, order[b - first], args))
    && (forall b :: first + n <= b < first + |order| ==> Blank(g, b, 0, false))
  }

  lemma FillOne(f: Func, g: Func, targets: iset<Block>, ctrl: seq<Frame>, order: seq<nat>, args: seq<Value>, n: nat)
    requires n < |order| && forall i :: 0 <= i < |order| ==> order[i] < |ctrl|
    requires Extends(f, g, targets) && SplitsOk(f, g, ctrl, order, args, n)
    requires EdgeOk(f, BrDestination(FrameAt(ctrl, order[n])), |args|)
    ensures
      var b, dest := |f.blocks| + n, BrDestination(FrameAt(ctrl, order[n]));
      && SwitchTo(g, b).Ok? && Seal(SwitchTo(g, b).value, b).Ok?
      && Terminate(Seal(SwitchTo(g, b).value, b).value, Jump(dest, args)).Ok?
      && var h := Terminate(Seal(SwitchTo(g, b).value, b).value, Jump(dest, args)).value;
         && Extends(f, h, targets + iset{dest}) && SplitsOk(f, h, ctrl, order, args, n + 1)
         && (forall c :: IsBlock(f, c) ==> h.blocks[c] == g.blocks[c])
  {
    hide Extends, SwitchTo, Seal, Terminate, EdgeOk, BrDestination;
    var b, dest := |f.blocks| + n, BrDestination(FrameAt(ctrl, order[n]));
    ExtendsSize(f, g, targets);
    assert Blank(g, b, 0, false);
    SwitchNew(f, g, targets, b);
    var g1 := SwitchTo(g, b).value;
    SealNew(f, g1, targets, b);
    var g2 := Seal(g1, b).value;
    ExtendsEdgeOk(f, g2, targets, dest, |args|);
    var term := Jump(dest, args);
    TerminateExtends(g2, term);
    TerminateCur(g2, term);
    var h := Terminate(g2, term).value;
    ExtendsCompose(f, g2, h, targets, TargetSet(term));
    assert TargetSet(term) == iset{dest};
    assert h.blocks[b] == SplitBlock(ctrl, order[n], args);
    forall c | b + 1 <= c < |f.blocks| + |order| ensures Blank(h, c, 0, false) {
      assert Blank(g, c, 0, false);
    }
  }

  lemma {:induction false} FillSplitsBuilds(f: Func, g: Func, targets: iset<Block>, ctrl: seq<Frame>,
                                            order: seq<nat>, args: seq<Value>, n: nat)
    requires n <= |order| && forall i :: 0 <= i < |order| ==> order[i] < |ctrl|
    requires Extends(f, g, targets) && SplitsOk(f, g, ctrl, order, args, 0)
    requires forall i :: 0 <= i < |order| ==> EdgeOk(f, BrDestination(FrameAt(ctrl, order[i])), |args|)
    ensures FillSplits(g, ctrl, order, |f.blocks|, args, n).Ok?
    ensures
      var h := FillSplits(g, ctrl, order, |f.blocks|, args, n).value;
      && Extends(f, h, targets + BranchTargets(ctrl, order[..n])) && SplitsOk(f, h, ctrl, order, args, n)
      && forall c :: IsBlock(f, c) ==> h.blocks[c] == g.blocks[c]
    decreases n
  {
    hide Extends, SplitsOk, EdgeOk, SwitchTo, Seal, Terminate;
    if n == 0 {
      assert BranchTargets(ctrl, order[..0]) == NONE;
      assert targets + NONE == targets;
    } else {
      FillSplitsBuilds(f, g, targets, ctrl, order, args, n - 1);
      var h := FillSplits(g, ctrl, order, |f.blocks|, args, n - 1).value;
      FillOne(f, h, targets + BranchTargets(ctrl, order[..n - 1]), ctrl, order, args, n - 1);
      MoreTargets(ctrl, order, n - 1);
      assert targets + BranchTargets(ctrl, order[..n - 1]) + iset{BrDestination(FrameAt(ctrl, order[n - 1]))}
             == targets + BranchTargets(ctrl, order[..n]);
      ExtendsSize(f, h, targets + BranchTargets(ctrl, order[..n - 1]));
    }
  }

  lemma MoreTargets(ctrl: seq<Frame>, order: seq<nat>, n: nat)
    requires n < |order| && forall i :: 0 <= i < |order| ==> order[i] < |ctrl|
    ensures BranchTargets(ctrl, order[..n + 1])
            == BranchTargets(ctrl, order[..n]) + iset{BrDestination(FrameAt(ctrl, order[n]))}
  {
    assert order[..n + 1] == order[..n] + [order[n]];
    assert Destinations(ctrl, order[..n + 1]) == Destinations(ctrl, order[..n]) + [BrDestination(FrameAt(ctrl, order[n]))];
  }

  lemma SplitTermOk(f: Func, f0: Func, val: Value, order: seq<nat>, targets: seq<nat>, default: nat)
    requires default in order && forall i :: 0 <= i < |targets| ==> targets[i] in order
    requires forall b :: |f.blocks| <= b < |f.blocks| + |order| ==> Blank(f0, b, 0, false)
    ensures TermOk(f0, SplitTerm(|f.blocks|, val, order, targets, default))
    ensures forall b :: b in Targets(SplitTerm(|f.blocks|, val, order, targets, default)) ==> |f.blocks| <= b
  {
    hide IndexOf;
    var term := SplitTerm(|f.blocks|, val, order, targets, default);
    forall i | 0 <= i < |targets| ensures EdgeOk(f0, term.table[i], 0) && |f.blocks| <= term.table[i] {
      assert Blank(f0, term.table[i], 0, false);
    }
    assert Blank(f0, term.default, 0, false);
  }

  /** The jump table to the split blocks. */
  lemma SplitHead(f: Func, ctrl: seq<Frame>, val: Value, order: seq<nat>, targets: seq<nat>, default: nat, args: seq<Value>)
    requires IsBlock(f, f.cur) && !Filled(f, f.cur)
    requires default in order && forall i :: 0 <= i < |targets| ==> targets[i] in order
    requires forall i :: 0 <= i < |order| ==> order[i] < |ctrl|
    ensures
      var term := SplitTerm(|f.blocks|, val, order, targets, default);
      && Terminate(CreateBlocks(f, |order|), term).Ok?
      && var f1 := Terminate(CreateBlocks(f, |order|), term).value;
         && Extends(f, f1, TargetSet(term)) && SplitsOk(f, f1, ctrl, order, args, 0)
         && f1.blocks[f.cur] == f.blocks[f.cur].(term := Just(term))
         && (forall b :: b in TargetSet(term) ==> |f.blocks| <= b)
  {
    hide CreateBlocks, Extends, SplitTerm, Terminate, TermOk;
    CreateBlocksExtends(f, |order|);
    var f0 := CreateBlocks(f, |order|);
    var term := SplitTerm(|f.blocks|, val, order, targets, default);
    SplitTermOk(f, f0, val, order, targets, default);
    TerminateExtends(f0, term);
    TerminateCur(f0, term);
    var f1 := Terminate(f0, term).value;
    ExtendsCompose(f, f0, f1, NONE, TargetSet(term));
    assert NONE + TargetSet(term) == TargetSet(term);
    forall b | |f.blocks| <= b < |f.blocks| + |order| ensures Blank(f1, b, 0, false) {
      assert Blank(f0, b, 0, false);
    }
  }

  /** All builder calls of a `br_table` with arguments. */
  lemma SplitBuilds(f: Func, ctrl: seq<Frame>, val: Value, order: seq<nat>, targets: seq<nat>, default: nat, args: seq<Value>)
    requires IsBlock(f, f.cur) && !Filled(f, f.cur)
    requires default in order && forall i :: 0 <= i < |targets| ==> targets[i] in order
    requires forall i :: 0 <= i < |order| ==> order[i] < |ctrl| && EdgeOk(f, BrDestination(FrameAt(ctrl, order[i])), |args|)
    ensures
      var term := SplitTerm(|f.blocks|, val, order, targets, default);
      && Terminate(CreateBlocks(f, |order|), term).Ok?
      && var f1 := Terminate(CreateBlocks(f, |order|), term).value;
         && FillSplits(f1, ctrl, order, |f.blocks|, args, |order|).Ok?
         && var h := FillSplits(f1, ctrl, order, |f.blocks|, args, |order|).value;
            && Extends(f, h, TargetSet(term) + BranchTargets(ctrl, order))
            && SplitsOk(f, h, ctrl, order, args, |order|)
            && h.blocks[f.cur] == f.blocks[f.cur].(term := Just(term))
            && (forall b :: b in TargetSet(term) ==> |f.blocks| <= b)
  {
    hide Terminate, CreateBlocks, SplitTerm, Extends, SplitsOk, EdgeOk, TargetSet, BranchTargets, FillSplits;
    SplitHead(f, ctrl, val, order, targets, default, args);
    var term := SplitTerm(|f.blocks|, val, order, targets, default);
    var f1 := Terminate(CreateBlocks(f, |order|), term).value;
    FillSplitsBuilds(f, f1, TargetSet(term), ctrl, order, args, |order|);
    assert order[..|order|] == order;
  }

  lemma TableSplitKeeps(v: VState, t: TState, targets: seq<nat>, default: nat)
    requires Inv(v, t) && t.reachable && t.ctrl != [] && Validate(v, BrTableOp(targets, default)).Just?
    requires DepthsOk(t.ctrl, targets, default) && BrArity(FrameAt(t.ctrl, default)) > 0
    ensures TransBrTable(t, targets, default).Ok?
    ensures Inv(SetUnreachable(v), TransBrTable(t, targets, default).value)
  {
    hide Inv, Validate, Extends, Terminate, MarkedBelow, EdgeOk, MarkAll, FillSplits, CreateBlocks, SplitTerm,
         BranchTargets, TargetSet, TableOrder;
    LiveFacts(v, t);
    TableArity(v, t, targets, default);
    var n := BrArity(FrameAt(t.ctrl, default));
    var order := TableOrder(targets, default);
    OrderArity(t.ctrl, order, targets, default, n);
    AllEdgesOk(v, t, order, n);
    var rest := t.stack[..|t.stack| - 1];
    var args := PeekN(rest, n).value;
    var val := PeekN(t.stack, 1).value[0];
    SplitBuilds(t.f, t.ctrl, val, order, targets, default, args);
    var term := SplitTerm(|t.f.blocks|, val, order, targets, default);
    MarkedBy(v, t, order);
    var t' := TransBrTable(t, targets, default).value;
    assert t'.ctrl == MarkAll(t.ctrl, order);
    MarkedMore(t.ctrl, t'.ctrl, |t.ctrl|, BranchTargets(t.ctrl, order), TargetSet(term));
    assert BranchTargets(t.ctrl, order) + TargetSet(term) == TargetSet(term) + BranchTargets(t.ctrl, order);
    SplitsFilled(t.f, t'.f, t.ctrl, order, args);
    Diverges(v, t, SetUnreachable(v), t', TargetSet(term) + BranchTargets(t.ctrl, order));
  }

  lemma OrderArity(ctrl: seq<Frame>, order: seq<nat>, targets: seq<nat>, default: nat, n: nat)
    requires DepthsOk(ctrl, targets, default) && BrArity(FrameAt(ctrl, default)) == n
    requires forall i :: 0 <= i < |targets| ==> BrArity(FrameAt(ctrl, targets[i])) == n
    requires forall i :: 0 <= i < |order| ==> order[i] in targets || order[i] == default
    ensures forall i :: 0 <= i < |order| ==> order[i] < |ctrl| && BrArity(FrameAt(ctrl, order[i])) == n
  {
    hide BrArity;
  }

  lemma SplitsFilled(f: Func, g: Func, ctrl: seq<Frame>, order: seq<nat>, args: seq<Value>)
    requires forall i :: 0 <= i < |order| ==> order[i] < |ctrl|
    requires SplitsOk(f, g, ctrl, order, args, |order|)
    ensures IsBlock(g, g.cur) && Filled(g, g.cur)
  {
  }

  lemma BrTableKeeps(v: VState, t: TState, targets: seq<nat>, default: nat)
    requires Inv(v, t) && t.reachable && t.ctrl != [] && Validate(v, BrTableOp(targets, default)).Just?
    ensures TransBrTable(t, targets, default).Ok?
    ensures Inv(Validate(v, BrTableOp(targets, default)).it, TransBrTable(t, targets, default).value)
  {
    hide Inv, Validate, TransBrTable;
    TableArity(v, t, targets, default);
    if BrArity(FrameAt(t.ctrl, default)) == 0 {
      TableDirectKeeps(v, t, targets, default);
    } else {
      TableSplitKeeps(v, t, targets, default);
    }
  }
}
