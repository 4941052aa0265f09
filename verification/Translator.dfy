/** The translator as it works: a builder and a translation state that are changed in place,
    proved to compute the translation function. */
module Translator {
  import opened Cfg
  import opened Validation
  import opened Translation
  import opened TranslationInvariant
  import opened TranslationRuns
  import opened LiveSteps

  // ---------------------------------------------------------------- the builder

  /** The function under construction. Each method demands what the real builder asserts. */
  class FunctionBuilder {
    var func: Func

    /** An empty function: its entry block is current and sealed. */
    constructor ()
      ensures func == Func([BlockData([], [], Nothing, true)], ENTRY, 0)
    {
      func := Func([BlockData([], [], Nothing, true)], ENTRY, 0);
    }

    method CreateBlock(params: nat) returns (b: Block)
      modifies this
      ensures func == Cfg.CreateBlock(old(func), params) && b == |old(func).blocks|
    {
      b := |func.blocks|;
      func := func.(blocks := func.blocks + [BlockData(FreshValues(func.nextValue, params), [], Nothing, false)],
                    nextValue := func.nextValue + params);
    }

    method Ins(i: Inst)
      requires Emit(func, i).Ok?
      modifies this
      ensures func == Emit(old(func), i).value
    {
      var d := func.blocks[func.cur];
      func := func.(blocks := func.blocks[func.cur := d.(body := d.body + [i])]);
    }

    /** Adds an instruction that defines the next value. */
    method InsValue(i: Inst) returns (v: Value)
      requires EmitValue(func, i).Ok?
      modifies this
      ensures func == EmitValue(old(func), i).value && v == old(func).nextValue
    {
      v := func.nextValue;
      Ins(i);
      func := func.(nextValue := func.nextValue + 1);
    }

    method InsTerminator(t: Term)
      requires Terminate(func, t).Ok?
      modifies this
      ensures func == Terminate(old(func), t).value
    {
      func := func.(blocks := func.blocks[func.cur := func.blocks[func.cur].(term := Just(t))]);
    }

    method SealBlock(b: Block)
      requires Seal(func, b).Ok?
      modifies this
      ensures func == Seal(old(func), b).value
    {
      func := func.(blocks := func.blocks[b := func.blocks[b].(sealed := true)]);
    }

    method SwitchToBlock(b: Block)
      requires SwitchTo(func, b).Ok?
      modifies this
      ensures func == SwitchTo(old(func), b).value
    {
      func := func.(cur := b);
    }

    method ChangeJumpDestination(p: Block, from: Block, to: Block)
      requires Cfg.ChangeJumpDestination(func, p, from, to).Ok?
      modifies this
      ensures func == Cfg.ChangeJumpDestination(old(func), p, from, to).value
    {
      func := func.(blocks := func.blocks[p := func.blocks[p].(term := Just(RedirectTerm(func.blocks[p].term.it, from, to)))]);
    }
  }

  // ---------------------------------------------------------------- the translation state

  class FuncTranslationState {
    var stack: seq<Value>
    var controlStack: seq<Frame>
    var reachable: bool

    /** The control stack holds the function's own block, whose destination is the exit block. */
    constructor (exit: Block, results: nat)
      ensures stack == [] && reachable && controlStack == [BlockFrame(exit, 0, results, 0, false)]
    {
      stack, reachable := [], true;
      controlStack := [BlockFrame(exit, 0, results, 0, false)];
    }

    method Push1(v: Value)
      modifies this`stack
      ensures stack == old(stack) + [v]
    {
      stack := stack + [v];
    }

    method Pop1() returns (v: Value)
      requires stack != []
      modifies this`stack
      ensures v == old(stack)[|old(stack)| - 1] && stack == old(stack)[..|old(stack)| - 1]
    {
      v := stack[|stack| - 1];
      stack := stack[..|stack| - 1];
    }

    method PopN(n: nat)
      requires n <= |stack|
      modifies this`stack
      ensures stack == old(stack)[..|old(stack)| - n]
    {
      stack := stack[..|stack| - n];
    }

    method PeekN(n: nat) returns (vs: seq<Value>)
      requires n <= |stack|
      ensures vs == stack[|stack| - n..]
    {
      vs := stack[|stack| - n..];
    }

    method PushBlock(following: Block, params: nat, results: nat)
      requires params <= |stack|
      modifies this`controlStack
      ensures controlStack == old(controlStack) + [BlockFrame(following, params, results, |stack| - params, false)]
    {
      controlStack := controlStack + [BlockFrame(following, params, results, |stack| - params, false)];
    }

    method PushLoop(header: Block, following: Block, params: nat, results: nat)
      requires params <= |stack|
      modifies this`controlStack
      ensures controlStack == old(controlStack) + [LoopFrame(following, params, results, |stack| - params, header)]
    {
      controlStack := controlStack + [LoopFrame(following, params, results, |stack| - params, header)];
    }

    /** Pushes the parameters a second time, one by one, so that an `else` finds them. */
    method PushIf(destination: Block, elseData: ElseData, params: nat, results: nat, bt: BlockType)
      requires params <= |stack|
      modifies this`stack, this`controlStack
      ensures stack == old(stack) + old(stack)[|old(stack)| - params..]
      ensures controlStack == old(controlStack) + [IfFrame(destination, params, results, |old(stack)|, false, elseData, bt, reachable, Nothing)]
    {
      var n := |stack|;
      var i := n - params;
      while i < n
        invariant n - params <= i <= n
        invariant stack == old(stack) + old(stack)[n - params..i]
        invariant controlStack == old(controlStack)
      {
        Push1(stack[i]);
        i := i + 1;
      }
      controlStack := controlStack
        + [IfFrame(destination, params, results, |stack| - params, false, elseData, bt, reachable, Nothing)];
    }

    /** Notes that the frame `depth` levels out is branched to, and tells where such a branch goes. */
    method SetBranchedToExit(depth: nat) returns (destination: Block)
      requires depth < |controlStack|
      modifies this`controlStack
      ensures controlStack == Mark(old(controlStack), depth)
      ensures destination == BrDestination(FrameAt(old(controlStack), depth))
    {
      var i := |controlStack| - 1 - depth;
      controlStack := controlStack[i := SetBranched(controlStack[i])];
      destination := BrDestination(controlStack[i]);
    }
  }

  ghost function StateOf(b: FunctionBuilder, s: FuncTranslationState): TState
    reads b, s
  {
    TState(b.func, s.stack, s.controlStack, s.reachable)
  }

  // ---------------------------------------------------------------- straight-line operators

  method TranslateStraight(b: FunctionBuilder, s: FuncTranslationState, op: Op)
    requires IsStraight(op) && TransLive(StateOf(b, s), op).Ok?
    modifies b, s
    ensures StateOf(b, s) == TransLive(old(StateOf(b, s)), op).value
  {
    hide Emit, EmitValue;
    match op {
      case Nop =>
      case Drop => var _ := s.Pop1();
      case Const(n) =>
        assert s.stack[..|s.stack| - 0] == s.stack;
        var v := b.InsValue(Iconst(b.func.nextValue, n));
        s.Push1(v);
      case Add =>
        var args := s.PeekN(2);
        s.PopN(2);
        var v := b.InsValue(Iadd(b.func.nextValue, args[0], args[1]));
        s.Push1(v);
      case Select =>
        var args := s.PeekN(3);
        s.PopN(3);
        var v := b.InsValue(SelectInst(b.func.nextValue, args[2], args[0], args[1]));
        s.Push1(v);
      case LocalGet(i) =>
        assert s.stack[..|s.stack| - 0] == s.stack;
        var v := b.InsValue(UseVar(b.func.nextValue, i));
        s.Push1(v);
      case LocalSet(i) =>
        var v := s.Pop1();
        b.Ins(DefVar(i, v));
      case LocalTee(i) =>
        var args := s.PeekN(1);
        b.Ins(DefVar(i, args[0]));
    }
  }

  // ---------------------------------------------------------------- opening a construct

  method TranslateBlock(b: FunctionBuilder, s: FuncTranslationState, bt: BlockType)
    requires TransBlock(StateOf(b, s), bt).Ok?
    modifies b, s
    ensures StateOf(b, s) == TransBlock(old(StateOf(b, s)), bt).value
  {
    var next := b.CreateBlock(|bt.results|);
    s.PushBlock(next, |bt.params|, |bt.results|);
  }

  method TranslateLoop(b: FunctionBuilder, s: FuncTranslationState, bt: BlockType)
    requires TransLoop(StateOf(b, s), bt).Ok?
    modifies b, s
    ensures StateOf(b, s) == TransLoop(old(StateOf(b, s)), bt).value
  {
    hide TermOk;
    var body := b.CreateBlock(|bt.params|);
    var next := b.CreateBlock(|bt.results|);
    var args := s.PeekN(|bt.params|);
    b.InsTerminator(Jump(body, args));
    s.PushLoop(body, next, |bt.params|, |bt.results|);
    s.PopN(|bt.params|);
    s.stack := s.stack + b.func.blocks[body].params;
    b.SwitchToBlock(body);
  }

  method TranslateIf(b: FunctionBuilder, s: FuncTranslationState, bt: BlockType)
    requires TransIf(StateOf(b, s), bt).Ok?
    modifies b, s
    ensures StateOf(b, s) == TransIf(old(StateOf(b, s)), bt).value
  {
    hide Terminate, Cfg.CreateBlock, Seal, SwitchTo;
    ghost var f := b.func;
    CreateNumbers(f, 0, |bt.results|, |bt.params|);
    var np, nr := |bt.params|, |bt.results|;
    var val := s.Pop1();
    var head := b.func.cur;
    var next := b.CreateBlock(0);
    var args := s.PeekN(np);
    var dest := b.CreateBlock(nr);
    var elseData: ElseData;
    if bt.params == bt.results {
      b.InsTerminator(Brif(val, next, [], dest, args));
      elseData := NoElse(head, dest);
    } else {
      var elseBlock := b.CreateBlock(np);
      b.InsTerminator(Brif(val, next, [], elseBlock, args));
      b.SealBlock(elseBlock);
      elseData := WithElse(elseBlock);
    }
    b.SealBlock(next);
    b.SwitchToBlock(next);
    s.PushIf(dest, elseData, np, nr, bt);
  }

  /** New blocks are numbered one after the other. */
  lemma CreateNumbers(f: Func, a: nat, c: nat, d: nat)
    ensures |Cfg.CreateBlock(f, a).blocks| == |f.blocks| + 1 && Cfg.CreateBlock(f, a).cur == f.cur
    ensures |Cfg.CreateBlock(Cfg.CreateBlock(f, a), c).blocks| == |f.blocks| + 2
    ensures |Cfg.CreateBlock(Cfg.CreateBlock(Cfg.CreateBlock(f, a), c), d).blocks| == |f.blocks| + 3
  {
  }

  // ---------------------------------------------------------------- else and end

  /** Gives the `if` on top its `else` block by patching its head; the block was just created. */
  method PatchHead(b: FunctionBuilder, fr: Frame, elseBlock: Block)
    requires fr.IfFrame? && fr.elseData.NoElse? && elseBlock == |b.func.blocks| - 1 && PatchElse(b.func, fr).Ok?
    modifies b
    ensures b.func == PatchElse(old(b.func), fr).value.0 && elseBlock == PatchElse(old(b.func), fr).value.1
  {
    hide Cfg.ChangeJumpDestination, Seal;
    b.ChangeJumpDestination(fr.elseData.branch, fr.elseData.placeholder, elseBlock);
    b.SealBlock(elseBlock);
  }

  lemma SameNumber(f: Func, t: Term)
    requires Terminate(f, t).Ok?
    ensures |Terminate(f, t).value.blocks| == |f.blocks|
  {
  }

  method TranslateElse(b: FunctionBuilder, s: FuncTranslationState)
    requires TransElse(StateOf(b, s)).Ok? && s.reachable
    modifies b, s
    ensures StateOf(b, s) == TransElse(old(StateOf(b, s))).value
  {
    hide Terminate, Cfg.CreateBlock, PatchElse, SwitchTo;
    var i := |s.controlStack| - 1;
    var fr := s.controlStack[i];
    s.controlStack := s.controlStack[i := fr.(consequentEnds := Just(s.reachable))];
    if fr.headReachable {
      s.reachable := true;
      var elseBlock: Block;
      match fr.elseData {
        case NoElse(_, _) =>
          CreateNumbers(b.func, |fr.bt.params|, 0, 0);
          elseBlock := b.CreateBlock(|fr.bt.params|);
          var args := s.PeekN(|fr.bt.params|);
          SameNumber(b.func, Jump(fr.destination, args));
          b.InsTerminator(Jump(fr.destination, args));
          s.PopN(|fr.bt.params|);
          PatchHead(b, fr, elseBlock);
        case WithElse(e) =>
          var args := s.PeekN(fr.numResults);
          b.InsTerminator(Jump(fr.destination, args));
          s.PopN(fr.numResults);
          elseBlock := e;
      }
      b.SwitchToBlock(elseBlock);
    }
  }

  method TranslateDeadElse(b: FunctionBuilder, s: FuncTranslationState)
    requires DeadElse(StateOf(b, s)).Ok? && !s.reachable
    modifies b, s
    ensures StateOf(b, s) == DeadElse(old(StateOf(b, s))).value
  {
    hide Cfg.CreateBlock, PatchElse, SwitchTo;
    var i := |s.controlStack| - 1;
    var fr := s.controlStack[i];
    s.controlStack := s.controlStack[i := fr.(consequentEnds := Just(s.reachable))];
    if fr.headReachable {
      s.reachable := true;
      var elseBlock: Block;
      match fr.elseData {
        case NoElse(_, _) =>
          CreateNumbers(b.func, |fr.bt.params|, 0, 0);
          elseBlock := b.CreateBlock(|fr.bt.params|);
          s.stack := Truncate(s.stack, fr.origSize);
          PatchHead(b, fr, elseBlock);
        case WithElse(e) =>
          s.stack := Truncate(s.stack, fr.origSize);
          elseBlock := e;
      }
      b.SwitchToBlock(elseBlock);
    }
  }

  /** Goes on in the block after the construct, and pushes its parameters. */
  method CloseFrame(b: FunctionBuilder, s: FuncTranslationState, fr: Frame)
    requires CloseInto(b.func, fr).Ok? && AfterEnd(CloseInto(b.func, fr).value, s.stack, fr, s.controlStack).Ok?
    modifies b, s
    ensures StateOf(b, s) == AfterEnd(CloseInto(old(b.func), fr).value, old(s.stack), fr, old(s.controlStack)).value
  {
    b.SwitchToBlock(fr.destination);
    b.SealBlock(fr.destination);
    if fr.LoopFrame? {
      b.SealBlock(fr.header);
    }
    s.stack := Truncate(s.stack, BaseSize(fr)) + b.func.blocks[fr.destination].params;
    s.reachable := true;
  }

  method TranslateEnd(b: FunctionBuilder, s: FuncTranslationState)
    requires TransEnd(StateOf(b, s)).Ok?
    modifies b, s
    ensures StateOf(b, s) == TransEnd(old(StateOf(b, s))).value
  {
    hide Terminate, CloseInto, AfterEnd;
    var fr := s.controlStack[|s.controlStack| - 1];
    s.controlStack := s.controlStack[..|s.controlStack| - 1];
    var args := s.PeekN(fr.numResults);
    b.InsTerminator(Jump(fr.destination, args));
    CloseFrame(b, s, fr);
  }

  method TranslateDeadEnd(b: FunctionBuilder, s: FuncTranslationState)
    requires DeadEnd(StateOf(b, s)).Ok? && !s.reachable
    modifies b, s
    ensures StateOf(b, s) == DeadEnd(old(StateOf(b, s))).value
  {
    hide Seal, CloseInto, AfterEnd;
    var fr := s.controlStack[|s.controlStack| - 1];
    s.controlStack := s.controlStack[..|s.controlStack| - 1];
    if fr.LoopFrame? {
      b.SealBlock(fr.header);
      s.stack := Truncate(s.stack, BaseSize(fr));
    } else if ExitBranched(fr) || ReachableAnyway(fr) {
      CloseFrame(b, s, fr);
    } else {
      s.stack := Truncate(s.stack, BaseSize(fr));
    }
  }

  // ---------------------------------------------------------------- branches

  method TranslateBr(b: FunctionBuilder, s: FuncTranslationState, depth: nat)
    requires TransBr(StateOf(b, s), depth).Ok?
    modifies b, s
    ensures StateOf(b, s) == TransBr(old(StateOf(b, s)), depth).value
  {
    hide Terminate;
    var n := BrArity(FrameAt(s.controlStack, depth));
    var destination := s.SetBranchedToExit(depth);
    var args := s.PeekN(n);
    b.InsTerminator(Jump(destination, args));
    s.PopN(n);
    s.reachable := false;
  }

  method TranslateBrIf(b: FunctionBuilder, s: FuncTranslationState, depth: nat)
    requires TransBrIf(StateOf(b, s), depth).Ok? && s.reachable
    modifies b, s
    ensures StateOf(b, s) == TransBrIf(old(StateOf(b, s)), depth).value
  {
    hide Terminate, Cfg.CreateBlock, Seal, SwitchTo;
    var val := s.Pop1();
    var n := BrArity(FrameAt(s.controlStack, depth));
    var destination := s.SetBranchedToExit(depth);
    var inputs := s.PeekN(n);
    var next := b.CreateBlock(0);
    b.InsTerminator(Brif(val, destination, inputs, next, []));
    b.SealBlock(next);
    b.SwitchToBlock(next);
  }

  method TranslateReturn(b: FunctionBuilder, s: FuncTranslationState)
    requires TransReturn(StateOf(b, s)).Ok?
    modifies b, s
    ensures StateOf(b, s) == TransReturn(old(StateOf(b, s))).value
  {
    hide Terminate;
    var n := s.controlStack[0].numResults;
    var args := s.PeekN(n);
    b.InsTerminator(ReturnTerm(args));
    s.PopN(n);
    s.reachable := false;
  }

  method TranslateUnreachable(b: FunctionBuilder, s: FuncTranslationState)
    requires TransTrap(StateOf(b, s)).Ok?
    modifies b, s
    ensures StateOf(b, s) == TransTrap(old(StateOf(b, s))).value
  {
    hide Terminate;
    b.InsTerminator(TrapTerm);
    s.reachable := false;
  }

  // ---------------------------------------------------------------- br_table

  method MinimumDepth(targets: seq<nat>, default: nat) returns (m: nat)
    ensures m == MinDepth(targets, default)
    ensures m <= default && (forall i :: 0 <= i < |targets| ==> m <= targets[i]) && (m == default || m in targets)
  {
    m := default;
    var i := 0;
    while i < |targets|
      invariant 0 <= i <= |targets| && m == MinDepth(targets[..i], default)
      invariant m <= default && (forall k :: 0 <= k < i ==> m <= targets[k]) && (m == default || m in targets)
    {
      assert targets[..i + 1][..i] == targets[..i];
      if targets[i] < m {
        m := targets[i];
      }
      i := i + 1;
    }
    assert targets[..|targets|] == targets;
  }

  lemma MarkAllLast(ctrl: seq<Frame>, depths: seq<nat>, i: nat)
    requires i < |depths| && forall k :: 0 <= k < |depths| ==> depths[k] < |ctrl|
    ensures MarkAll(ctrl, depths[..i + 1]) == Mark(MarkAll(ctrl, depths[..i]), depths[i])
  {
    assert depths[..i + 1][..i] == depths[..i];
  }

  /** Noting branches does not change where they go. */
  lemma MarkedDestination(ctrl: seq<Frame>, depths: seq<nat>, d: nat)
    requires d < |ctrl| && forall k :: 0 <= k < |depths| ==> depths[k] < |ctrl|
    ensures BrDestination(FrameAt(MarkAll(ctrl, depths), d)) == BrDestination(FrameAt(ctrl, d))
  {
    hide MarkAll;
    MarkAllHits(ctrl, depths, |ctrl| - 1 - d);
  }

  /** Branch targets without arguments: a jump table straight to them. */
  method TranslateTableDirect(b: FunctionBuilder, s: FuncTranslationState, val: Value, targets: seq<nat>, default: nat)
    requires DepthsOk(s.controlStack, targets, default)
    requires TransTableDirect(StateOf(b, s), val, s.stack, targets, default).Ok?
    modifies b, s
    ensures StateOf(b, s) == TransTableDirect(old(StateOf(b, s)), val, old(s.stack), targets, default).value
  {
    hide Terminate, MarkAll;
    ghost var ctrl := s.controlStack;
    var data: seq<Block> := [];
    var i := 0;
    NoneMarked(ctrl, targets);
    while i < |targets|
      invariant 0 <= i <= |targets| && data == Destinations(ctrl, targets[..i])
      invariant s.controlStack == MarkAll(ctrl, targets[..i]) && s.stack == old(s.stack) && b.func == old(b.func)
    {
      MarkedDestination(ctrl, targets[..i], targets[i]);
      MarkAllLast(ctrl, targets, i);
      var block := s.SetBranchedToExit(targets[i]);
      data := data + [block];
      i := i + 1;
    }
    assert targets[..i] == targets;
    var all := targets + [default];
    assert all[..i] == targets && all[..i + 1] == all && all[i] == default;
    MarkedDestination(ctrl, targets, default);
    MarkAllLast(ctrl, all, i);
    var block := s.SetBranchedToExit(default);
    b.InsTerminator(BrTable(val, data, block));
    s.reachable := false;
  }

  lemma NoneMarked(ctrl: seq<Frame>, depths: seq<nat>)
    ensures MarkAll(ctrl, depths[..0]) == ctrl
  {
  }

  // ---------------------------------------------------------------- split blocks

  lemma {:induction false} IndexOfPrefix(s: seq<nat>, more: seq<nat>, x: nat)
    requires x in s
    ensures IndexOf(s + more, x) == IndexOf(s, x)
    decreases |s|
  {
    assert (s + more)[0] == s[0];
    if s[0] != x {
      assert (s + more)[1..] == s[1..] + more;
      IndexOfPrefix(s[1..], more, x);
    }
  }

  lemma {:induction false} IndexOfLast(s: seq<nat>, x: nat)
    requires x !in s
    ensures IndexOf(s + [x], x) == |s|
    decreases |s|
  {
    if s != [] {
      assert (s + [x])[0] == s[0] && s[0] in s;
      assert (s + [x])[1..] == s[1..] + [x];
      IndexOfLast(s[1..], x);
    }
  }

  /** The split blocks made so far: one for each depth, in order of first occurrence. */
  ghost predicate Splits(first: Block, order: seq<nat>, blocks: map<nat, Block>, sequence: seq<(nat, Block)>) {
    && |sequence| == |order| && (forall j :: 0 <= j < |order| ==> sequence[j] == (order[j], first + j))
    && (forall d :: d in blocks <==> d in order)
    && (forall d :: d in order ==> blocks[d] == first + IndexOf(order, d))
  }

  lemma SplitAdded(first: Block, order: seq<nat>, blocks: map<nat, Block>, sequence: seq<(nat, Block)>, d: nat)
    requires Splits(first, order, blocks, sequence) && d !in order
    ensures Splits(first, order + [d], blocks[d := first + |order|], sequence + [(d, first + |order|)])
  {
    IndexOfLast(order, d);
    forall x | x in order ensures IndexOf(order + [d], x) == IndexOf(order, x) {
      IndexOfPrefix(order, [d], x);
    }
    assert forall x :: x in order + [d] <==> x in order || x == d;
  }

  lemma {:induction false} CreatedNumber(f: Func, n: nat)
    ensures |CreateBlocks(f, n).blocks| == |f.blocks| + n
    decreases n
  {
    if n > 0 {
      CreatedNumber(f, n - 1);
    }
  }

  /** The split block of a depth, made on first use. */
  method SplitBlockFor(b: FunctionBuilder, ghost f: Func, ghost order: seq<nat>, blocks: map<nat, Block>,
                       sequence: seq<(nat, Block)>, depth: nat)
    returns (block: Block, blocks': map<nat, Block>, sequence': seq<(nat, Block)>)
    requires Splits(|f.blocks|, order, blocks, sequence) && b.func == CreateBlocks(f, |order|)
    modifies b
    ensures
      var order' := if depth in order then order else order + [depth];
      && Splits(|f.blocks|, order', blocks', sequence') && b.func == CreateBlocks(f, |order'|)
      && depth in order' && block == |f.blocks| + IndexOf(order', depth)
  {
    hide IndexOf, Cfg.CreateBlock;
    if depth in blocks {
      block, blocks', sequence' := blocks[depth], blocks, sequence;
    } else {
      CreatedNumber(f, |order|);
      SplitAdded(|f.blocks|, order, blocks, sequence, depth);
      IndexOfLast(order, depth);
      block := b.CreateBlock(0);
      blocks', sequence' := blocks[depth := block], sequence + [(depth, block)];
    }
  }

  lemma SplitBlocksGrow(first: Block, order: seq<nat>, order': seq<nat>, depths: seq<nat>)
    requires order <= order' && forall i :: 0 <= i < |depths| ==> depths[i] in order
    ensures (forall i :: 0 <= i < |depths| ==> depths[i] in order')
    ensures SplitBlocks(first, order', depths) == SplitBlocks(first, order, depths)
  {
    hide IndexOf;
    var more := order'[|order|..];
    assert order' == order + more;
    forall i | 0 <= i < |depths| ensures depths[i] in order' && IndexOf(order', depths[i]) == IndexOf(order, depths[i]) {
      IndexOfPrefix(order, more, depths[i]);
    }
  }

  /** The split blocks and table entries for the depths seen so far. */
  ghost predicate SplitSoFar(f: Func, f': Func, depths: seq<nat>, data: seq<Block>, blocks: map<nat, Block>,
                             sequence: seq<(nat, Block)>)
  {
    var order := DistinctDepths(depths);
    && f' == CreateBlocks(f, |order|) && Splits(|f.blocks|, order, blocks, sequence)
    && (forall i :: 0 <= i < |depths| ==> depths[i] in order) && data == SplitBlocks(|f.blocks|, order, depths)
  }

  lemma SplitBlocksSnoc(first: Block, order: seq<nat>, depths: seq<nat>, d: nat)
    requires d in order && forall i :: 0 <= i < |depths| ==> depths[i] in order
    ensures (forall i :: 0 <= i < |depths + [d]| ==> (depths + [d])[i] in order)
    ensures SplitBlocks(first, order, depths + [d]) == SplitBlocks(first, order, depths) + [first + IndexOf(order, d)]
  {
    hide IndexOf;
  }

  lemma SplitDataGrows(first: Block, order: seq<nat>, order': seq<nat>, depths: seq<nat>, d: nat)
    requires order <= order' && d in order' && forall i :: 0 <= i < |depths| ==> depths[i] in order
    ensures forall i :: 0 <= i < |depths + [d]| ==> (depths + [d])[i] in order'
    ensures SplitBlocks(first, order', depths + [d]) == SplitBlocks(first, order, depths) + [first + IndexOf(order', d)]
  {
    hide IndexOf;
    SplitBlocksGrow(first, order, order', depths);
    SplitBlocksSnoc(first, order', depths, d);
  }

  lemma SplitOneMore(f: Func, f': Func, f'': Func, depths: seq<nat>, d: nat, order': seq<nat>, data: seq<Block>,
                     blocks: map<nat, Block>, sequence: seq<(nat, Block)>, blocks': map<nat, Block>,
                     sequence': seq<(nat, Block)>, block: Block)
    requires SplitSoFar(f, f', depths, data, blocks, sequence)
    requires order' == DistinctDepths(depths + [d]) && DistinctDepths(depths) <= order'
    requires Splits(|f.blocks|, order', blocks', sequence') && f'' == CreateBlocks(f, |order'|)
    requires d in order' && block == |f.blocks| + IndexOf(order', d)
    ensures SplitSoFar(f, f'', depths + [d], data + [block], blocks', sequence')
  {
    hide IndexOf, Splits, CreateBlocks, DistinctDepths, SplitBlocks;
    SplitDataGrows(|f.blocks|, DistinctDepths(depths), order', depths, d);
  }

  lemma DistinctSnoc(depths: seq<nat>, d: nat)
    ensures
      var r := DistinctDepths(depths);
      DistinctDepths(depths + [d]) == if d in r then r else r + [d]
    ensures DistinctDepths(depths) <= DistinctDepths(depths + [d])
  {
    assert (depths + [d])[..|depths|] == depths;
  }

  lemma NothingSplit(f: Func)
    ensures SplitSoFar(f, f, [], [], map[], [])
  {
    NoSplits(|f.blocks|);
  }

  /** The jump table's entries for the targets, through split blocks. */
  method SplitTargets(b: FunctionBuilder, targets: seq<nat>)
    returns (data: seq<Block>, blocks: map<nat, Block>, sequence: seq<(nat, Block)>)
    modifies b
    ensures SplitSoFar(old(b.func), b.func, targets, data, blocks, sequence)
  {
    hide SplitSoFar, Splits, IndexOf, CreateBlocks, DistinctDepths;
    ghost var f := b.func;
    data, blocks, sequence := [], map[], [];
    NothingSplit(f);
    var i := 0;
    assert targets[..0] == [];
    while i < |targets|
      invariant 0 <= i <= |targets| && SplitSoFar(f, b.func, targets[..i], data, blocks, sequence)
    {
      data, blocks, sequence := SplitTarget(b, f, targets[..i], targets[i], data, blocks, sequence);
      assert targets[..i + 1] == targets[..i] + [targets[i]];
      i := i + 1;
    }
    assert targets[..i] == targets;
  }

  /** The table entry for one more target. */
  method SplitTarget(b: FunctionBuilder, ghost f: Func, ghost depths: seq<nat>, depth: nat, data: seq<Block>,
                     blocks: map<nat, Block>, sequence: seq<(nat, Block)>)
    returns (data': seq<Block>, blocks': map<nat, Block>, sequence': seq<(nat, Block)>)
    requires SplitSoFar(f, b.func, depths, data, blocks, sequence)
    modifies b
    ensures SplitSoFar(f, b.func, depths + [depth], data', blocks', sequence')
  {
    hide SplitSoFar, Splits, IndexOf, CreateBlocks, DistinctDepths;
    ghost var f0 := b.func;
    SplitSoFarIs(f, b.func, depths, data, blocks, sequence);
    var block: Block;
    block, blocks', sequence' := SplitBlockFor(b, f, DistinctDepths(depths), blocks, sequence, depth);
    DistinctSnoc(depths, depth);
    SplitOneMore(f, f0, b.func, depths, depth, DistinctDepths(depths + [depth]), data, blocks, sequence, blocks', sequence', block);
    data' := data + [block];
  }

  lemma SplitSoFarIs(f: Func, f': Func, depths: seq<nat>, data: seq<Block>, blocks: map<nat, Block>, sequence: seq<(nat, Block)>)
    requires SplitSoFar(f, f', depths, data, blocks, sequence)
    ensures
      var order := DistinctDepths(depths);
      f' == CreateBlocks(f, |order|) && Splits(|f.blocks|, order, blocks, sequence)
  {
  }

  lemma NoSplits(first: Block)
    ensures DistinctDepths([]) == [] && Splits(first, [], map[], [])
    ensures SplitBlocks(first, [], []) == []
  {
  }

  lemma {:induction false} FillSplitsPrefix(f: Func, ctrl: seq<Frame>, depths: seq<nat>, first: Block, args: seq<Value>, m: nat, n: nat)
    requires m <= n <= |depths| && forall i :: 0 <= i < |depths| ==> depths[i] < |ctrl|
    requires FillSplits(f, ctrl, depths, first, args, n).Ok?
    ensures FillSplits(f, ctrl, depths, first, args, m).Ok?
    decreases n - m
  {
    hide SwitchTo, Seal, Terminate;
    if m < n {
      FillSplitsPrefix(f, ctrl, depths, first, args, m, n - 1);
    }
  }

  /** Fills the split blocks, each with a jump to its depth's target. */
  method FillSplitBlocks(b: FunctionBuilder, s: FuncTranslationState, sequence: seq<(nat, Block)>, arity: nat,
                         ghost order: seq<nat>, ghost first: Block)
    requires |sequence| == |order| && forall j :: 0 <= j < |order| ==> sequence[j] == (order[j], first + j)
    requires forall j :: 0 <= j < |order| ==> order[j] < |s.controlStack|
    requires arity <= |s.stack|
    requires FillSplits(b.func, s.controlStack, order, first, s.stack[|s.stack| - arity..], |order|).Ok?
    modifies b, s
    ensures b.func
            == FillSplits(old(b.func), old(s.controlStack), order, first, old(s.stack[|s.stack| - arity..]), |order|).value
    ensures s.controlStack == MarkAll(old(s.controlStack), order) && s.stack == old(s.stack) && s.reachable == old(s.reachable)
  {
    hide SwitchTo, Seal, Terminate, MarkAll;
    ghost var f, ctrl, args := b.func, s.controlStack, s.stack[|s.stack| - arity..];
    var i := 0;
    NoneMarked(ctrl, order);
    while i < |sequence|
      invariant 0 <= i <= |sequence|
      invariant s.controlStack == MarkAll(ctrl, order[..i]) && s.stack == old(s.stack) && s.reachable == old(s.reachable)
      invariant FillSplits(f, ctrl, order, first, args, i).Ok? && b.func == FillSplits(f, ctrl, order, first, args, i).value
    {
      FillSplitsPrefix(f, ctrl, order, first, args, i + 1, |order|);
      MarkedDestination(ctrl, order[..i], order[i]);
      MarkAllLast(ctrl, order, i);
      var (depth, block) := sequence[i];
      b.SwitchToBlock(block);
      b.SealBlock(block);
      var destination := s.SetBranchedToExit(depth);
      var destinationArgs := s.PeekN(arity);
      b.InsTerminator(Jump(destination, destinationArgs));
      i := i + 1;
    }
    assert order[..i] == order;
  }

  /** Branch targets with arguments: the table goes to split blocks, which pass the arguments on. */
  method TranslateTableSplit(b: FunctionBuilder, s: FuncTranslationState, val: Value, arity: nat, targets: seq<nat>, default: nat)
    requires DepthsOk(s.controlStack, targets, default)
    requires TransTableSplit(StateOf(b, s), val, s.stack, arity, targets, default).Ok?
    modifies b, s
    ensures StateOf(b, s) == TransTableSplit(old(StateOf(b, s)), val, old(s.stack), arity, targets, default).value
  {
    hide Terminate, MarkAll, FillSplits, CreateBlocks, DistinctDepths, Splits, SplitSoFar, SplitTerm, TableOrder, IndexOf;
    ghost var f, order := b.func, TableOrder(targets, default);
    OrderBelow(s.controlStack, order, targets, default);
    var data, blocks, sequence := SplitTargets(b, targets);
    data, blocks, sequence := SplitTarget(b, f, targets, default, data, blocks, sequence);
    SplitAll(f, b.func, val, targets, default, data, blocks, sequence);
    b.InsTerminator(BrTable(val, data[..|targets|], data[|targets|]));
    FillSplitBlocks(b, s, sequence, arity, order, |f.blocks|);
    s.PopN(arity);
    s.reachable := false;
  }

  /** All split blocks and table entries are there, the default's last. */
  lemma SplitAll(f: Func, f': Func, val: Value, targets: seq<nat>, default: nat, data: seq<Block>,
                 blocks: map<nat, Block>, sequence: seq<(nat, Block)>)
    requires SplitSoFar(f, f', targets + [default], data, blocks, sequence)
    ensures
      var order := TableOrder(targets, default);
      && |data| == |targets| + 1 && f' == CreateBlocks(f, |order|)
      && SplitTerm(|f.blocks|, val, order, targets, default) == BrTable(val, data[..|targets|], data[|targets|])
      && |sequence| == |order| && forall j :: 0 <= j < |order| ==> sequence[j] == (order[j], |f.blocks| + j)
  {
    hide IndexOf, CreateBlocks, DistinctDepths;
  }

  lemma OrderBelow(ctrl: seq<Frame>, order: seq<nat>, targets: seq<nat>, default: nat)
    requires DepthsOk(ctrl, targets, default) && forall i :: 0 <= i < |order| ==> order[i] in targets || order[i] == default
    ensures forall i :: 0 <= i < |order| ==> order[i] < |ctrl|
  {
  }

  method TranslateBrTable(b: FunctionBuilder, s: FuncTranslationState, targets: seq<nat>, default: nat)
    requires TransBrTable(StateOf(b, s), targets, default).Ok?
    modifies b, s
    ensures StateOf(b, s) == TransBrTable(old(StateOf(b, s)), targets, default).value
  {
    hide TransTableDirect, TransTableSplit;
    var minDepth := MinimumDepth(targets, default);
    MinDepthOk(targets, default);
    var arity := BrArity(FrameAt(s.controlStack, minDepth));
    ghost var t := StateOf(b, s);
    var val := s.Pop1();
    SameTable(t, StateOf(b, s), val, s.stack, arity, targets, default);
    if arity == 0 {
      TranslateTableDirect(b, s, val, targets, default);
    } else {
      TranslateTableSplit(b, s, val, arity, targets, default);
    }
  }

  /** The table depends on the stack only through the operands passed. */
  lemma SameTable(t: TState, t': TState, val: Value, rest: seq<Value>, arity: nat, targets: seq<nat>, default: nat)
    requires DepthsOk(t.ctrl, targets, default) && t' == t.(stack := rest)
    ensures TransTableDirect(t', val, rest, targets, default) == TransTableDirect(t, val, rest, targets, default)
    ensures TransTableSplit(t', val, rest, arity, targets, default) == TransTableSplit(t, val, rest, arity, targets, default)
  {
    hide Terminate, MarkAll, FillSplits, CreateBlocks, SplitTerm, TableOrder;
  }

  // ---------------------------------------------------------------- the driver

  method TranslateReachable(b: FunctionBuilder, s: FuncTranslationState, op: Op)
    requires s.reachable && TransLive(StateOf(b, s), op).Ok?
    modifies b, s
    ensures StateOf(b, s) == TransLive(old(StateOf(b, s)), op).value
  {
    hide TransElse, TransEnd, TransBr, TransBrIf, TransBrTable, TransReturn, TransTrap, TransBlock, TransLoop, TransIf;
    match op {
      case UnreachableOp => TranslateUnreachable(b, s);
      case BlockOp(bt) => TranslateBlock(b, s, bt);
      case LoopOp(bt) => TranslateLoop(b, s, bt);
      case IfOp(bt) => TranslateIf(b, s, bt);
      case ElseOp => TranslateElse(b, s);
      case EndOp => TranslateEnd(b, s);
      case Br(d) => TranslateBr(b, s, d);
      case BrIf(d) => TranslateBrIf(b, s, d);
      case BrTableOp(targets, default) => TranslateBrTable(b, s, targets, default);
      case ReturnOp => TranslateReturn(b, s);
      case _ => TranslateStraight(b, s, op);
    }
  }

  /** Operators in unreachable code. */
  method TranslateUnreachableOperator(b: FunctionBuilder, s: FuncTranslationState, op: Op)
    requires !s.reachable && TransDead(StateOf(b, s), op).Ok?
    modifies b, s
    ensures StateOf(b, s) == TransDead(old(StateOf(b, s)), op).value
  {
    hide DeadElse, DeadEnd;
    assert s.stack[|s.stack|..] == [];
    match op {
      case IfOp(bt) => s.PushIf(RESERVED, NoElse(RESERVED, RESERVED), 0, 0, bt);
      case BlockOp(_) => s.PushBlock(RESERVED, 0, 0);
      case LoopOp(_) => s.PushBlock(RESERVED, 0, 0);
      case ElseOp => TranslateDeadElse(b, s);
      case EndOp => TranslateDeadEnd(b, s);
      case _ =>
    }
  }

  method TranslateOperator(b: FunctionBuilder, s: FuncTranslationState, op: Op)
    requires TransOp(StateOf(b, s), op).Ok?
    modifies b, s
    ensures StateOf(b, s) == TransOp(old(StateOf(b, s)), op).value
  {
    hide TransLive, TransDead, IsUnreachable;
    if s.reachable {
      TranslateReachable(b, s, op);
    } else {
      TranslateUnreachableOperator(b, s, op);
    }
  }

  /** Translates a function body: for every valid sequence of operators, without a failed assertion. */
  method TranslateFunctionBody(locals: nat, results: seq<ValType>, ops: seq<Op>) returns (b: FunctionBuilder)
    requires ValidBody(locals, results, ops)
    ensures fresh(b) && TransAll(InitialState(|results|), ops).Ok?
    ensures Finish(TransAll(InitialState(|results|), ops).value) == Ok(b.func)
  {
    hide Inv, Validate, TransOp, TransAll, ValidateAll, Terminate, IsUnreachable;
    b := new FunctionBuilder();
    var exit := b.CreateBlock(|results|);
    var s := new FuncTranslationState(exit, |results|);
    assert StateOf(b, s) == InitialState(|results|);
    ghost var v := Initial(locals, results);
    InitialKeeps(locals, results);
    var i := 0;
    Untouched(locals, results, ops);
    while i < |ops|
      invariant 0 <= i <= |ops| && fresh(b) && fresh(s)
      invariant ValidateAll(Initial(locals, results), ops[..i]) == Just(v)
      invariant TransAll(InitialState(|results|), ops[..i]) == Ok(StateOf(b, s)) && Inv(v, StateOf(b, s))
    {
      Onward(locals, results, ops, i, v, StateOf(b, s));
      StepKeeps(v, StateOf(b, s), ops[i]);
      TranslateOperator(b, s, ops[i]);
      v := Validate(v, ops[i]).it;
      i := i + 1;
    }
    assert ops[..i] == ops;
    if s.reachable {
      LiveFacts(v, StateOf(b, s));
      Returns(b.func, s.stack);
      b.InsTerminator(ReturnTerm(s.stack));
    }
    s.stack := [];
  }

  lemma Returns(f: Func, stack: seq<Value>)
    requires IsBlock(f, f.cur) && !Filled(f, f.cur)
    ensures Terminate(f, ReturnTerm(stack)).Ok?
  {
  }

  lemma Untouched(locals: nat, results: seq<ValType>, ops: seq<Op>)
    ensures ValidateAll(Initial(locals, results), ops[..0]) == Just(Initial(locals, results))
    ensures TransAll(InitialState(|results|), ops[..0]) == Ok(InitialState(|results|))
  {
  }

  lemma Onward(locals: nat, results: seq<ValType>, ops: seq<Op>, i: nat, v: VState, t: TState)
    requires ValidBody(locals, results, ops) && i < |ops|
    requires ValidateAll(Initial(locals, results), ops[..i]) == Just(v) && TransAll(InitialState(|results|), ops[..i]) == Ok(t)
    ensures Validate(v, ops[i]).Just?
    ensures ValidateAll(Initial(locals, results), ops[..i + 1]) == Validate(v, ops[i])
    ensures TransAll(InitialState(|results|), ops[..i + 1]) == TransOp(t, ops[i])
  {
    hide Validate, TransOp;
    assert ops[..i + 1] == ops[..i] + [ops[i]];
    assert ops == ops[..i] + ops[i..];
    ValidateConcat(Initial(locals, results), ops[..i], ops[i..]);
    ValidateConcat(Initial(locals, results), ops[..i], [ops[i]]);
    TransConcat(InitialState(|results|), ops[..i], [ops[i]]);
    OneOp(v, t, ops[i]);
  }

  lemma OneOp(v: VState, t: TState, op: Op)
    ensures ValidateAll(v, [op]) == Validate(v, op) && TransAll(t, [op]) == TransOp(t, op)
  {
    hide Validate, TransOp;
    assert [op][1..] == [];
    if Validate(v, op).Just? {
      assert ValidateAll(Validate(v, op).it, []) == Just(Validate(v, op).it);
    }
    if TransOp(t, op).Ok? {
      assert TransAll(TransOp(t, op).value, []) == Ok(TransOp(t, op).value);
    }
  }
}
