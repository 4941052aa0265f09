/** The one-pass translation of structured control flow to blocks, as a function of the
    translation state: `translate_operator` and `translate_unreachable_operator` of
    `src/cranelift/code_translator.rs` over the state of `src/cranelift/state.rs`. A failed
    assertion or `unwrap`, of the translator or of the builder, is `Panic`. */
module Translation {
  import opened Cfg
  import opened Validation

  /** `branch` is the block that ends with the conditional branch to be patched. */
  datatype ElseData = NoElse(branch: Block, placeholder: Block) | WithElse(elseBlock: Block)

  datatype Frame =
    | IfFrame(destination: Block, numParams: nat, numResults: nat, origSize: nat, exitBranched: bool,
              elseData: ElseData, bt: BlockType, headReachable: bool, consequentEnds: Opt<bool>)
    | BlockFrame(destination: Block, numParams: nat, numResults: nat, origSize: nat, exitBranched: bool)
    | LoopFrame(destination: Block, numParams: nat, numResults: nat, origSize: nat, header: Block)

  datatype TState = TState(f: Func, stack: seq<Value>, ctrl: seq<Frame>, reachable: bool)

  // ---------------------------------------------------------------- frames

  function BrDestination(fr: Frame): Block {
    if fr.LoopFrame? then fr.header else fr.destination
  }

  function BrArity(fr: Frame): nat {
    if fr.LoopFrame? then fr.numParams else fr.numResults
  }

  function SetBranched(fr: Frame): Frame {
    match fr
    case IfFrame(_, _, _, _, _, _, _, _, _) => fr.(exitBranched := true)
    case BlockFrame(_, _, _, _, _) => fr.(exitBranched := true)
    case LoopFrame(_, _, _, _, _) => fr
  }

  function ExitBranched(fr: Frame): bool {
    !fr.LoopFrame? && fr.exitBranched
  }

  /** Where the value stack is cut back to at the frame's end: an `if` pushed its parameters twice. */
  function BaseSize(fr: Frame): int {
    if fr.IfFrame? then fr.origSize - fr.numParams else fr.origSize
  }

  function Truncate<T>(s: seq<T>, n: int): seq<T> {
    if 0 <= n <= |s| then s[..n] else s
  }

  function TopFrame(t: TState): Frame
    requires t.ctrl != []
  {
    t.ctrl[|t.ctrl| - 1]
  }

  function FrameAt(ctrl: seq<Frame>, depth: nat): Frame
    requires depth < |ctrl|
  {
    ctrl[|ctrl| - 1 - depth]
  }

  function Mark(ctrl: seq<Frame>, depth: nat): (r: seq<Frame>)
    requires depth < |ctrl|
    ensures |r| == |ctrl|
  {
    ctrl[|ctrl| - 1 - depth := SetBranched(FrameAt(ctrl, depth))]
  }

  // ---------------------------------------------------------------- the value stack

  function PeekN(s: seq<Value>, n: nat): Checked<seq<Value>> {
    if n <= |s| then Ok(s[|s| - n..]) else Panic
  }

  function PopN(s: seq<Value>, n: nat): Checked<seq<Value>> {
    if n <= |s| then Ok(s[..|s| - n]) else Panic
  }

  // ---------------------------------------------------------------- straight-line operators

  /** Pops `n` values, emits an instruction defining a new value and pushes it. */
  function PushResult(t: TState, n: nat, i: Inst): Checked<TState> {
    var rest :- PopN(t.stack, n);
    var f :- EmitValue(t.f, i);
    Ok(t.(f := f, stack := rest + [t.f.nextValue]))
  }

  function TransConst(t: TState, n: Word): Checked<TState> {
    PushResult(t, 0, Iconst(t.f.nextValue, n))
  }

  function TransAdd(t: TState): Checked<TState> {
    var args :- PeekN(t.stack, 2);
    PushResult(t, 2, Iadd(t.f.nextValue, args[0], args[1]))
  }

  function TransSelect(t: TState): Checked<TState> {
    var args :- PeekN(t.stack, 3);
    PushResult(t, 3, SelectInst(t.f.nextValue, args[2], args[0], args[1]))
  }

  function TransLocalGet(t: TState, i: nat): Checked<TState> {
    PushResult(t, 0, UseVar(t.f.nextValue, i))
  }

  /** `local.set`, or `local.tee` if the value stays on the stack. */
  function TransLocalSet(t: TState, i: nat, keep: bool): Checked<TState> {
    var args :- PeekN(t.stack, 1);
    var f :- Emit(t.f, DefVar(i, args[0]));
    Ok(t.(f := f, stack := if keep then t.stack else t.stack[..|t.stack| - 1]))
  }

  // ---------------------------------------------------------------- opening a construct

  function TransBlock(t: TState, bt: BlockType): Checked<TState> {
    var np, nr := |bt.params|, |bt.results|;
    if np > |t.stack| then Panic else
      var dest := |t.f.blocks|;
      Ok(t.(f := CreateBlock(t.f, nr), ctrl := t.ctrl + [BlockFrame(dest, np, nr, |t.stack| - np, false)]))
  }

  function TransLoop(t: TState, bt: BlockType): Checked<TState> {
    var np, nr := |bt.params|, |bt.results|;
    var header := |t.f.blocks|;
    var f1 := CreateBlock(CreateBlock(t.f, np), nr);
    var args :- PeekN(t.stack, np);
    var f2 :- Terminate(f1, Jump(header, args));
    var rest :- PopN(t.stack, np);
    var f3 :- SwitchTo(f2, header);
    Ok(TState(f3, rest + f2.blocks[header].params,
              t.ctrl + [LoopFrame(header + 1, np, nr, |t.stack| - np, header)], t.reachable))
  }

  function PushIf(t: TState, dest: Block, elseData: ElseData, np: nat, nr: nat, bt: BlockType): Checked<TState> {
    var params :- PeekN(t.stack, np);
    // the parameters are pushed a second time, for the `else`
    Ok(t.(stack := t.stack + params,
          ctrl := t.ctrl + [IfFrame(dest, np, nr, |t.stack|, false, elseData, bt, t.reachable, Nothing)]))
  }

  function TransIf(t: TState, bt: BlockType): Checked<TState> {
    var np, nr := |bt.params|, |bt.results|;
    var cond :- PeekN(t.stack, 1);
    var stack :- PopN(t.stack, 1);
    var args :- PeekN(stack, np);
    var next := |t.f.blocks|;
    var dest := next + 1;
    var f1 := CreateBlock(CreateBlock(t.f, 0), nr);
    if bt.params == bt.results then
      var f2 :- Terminate(f1, Brif(cond[0], next, [], dest, args));
      var f3 :- Seal(f2, next);
      var f4 :- SwitchTo(f3, next);
      PushIf(t.(f := f4, stack := stack), dest, NoElse(t.f.cur, dest), np, nr, bt)
    else
      var elseBlock := next + 2;
      var f2 :- Terminate(CreateBlock(f1, np), Brif(cond[0], next, [], elseBlock, args));
      var f3 :- Seal(f2, elseBlock);
      var f4 :- Seal(f3, next);
      var f5 :- SwitchTo(f4, next);
      PushIf(t.(f := f5, stack := stack), dest, WithElse(elseBlock), np, nr, bt)
  }

  // ---------------------------------------------------------------- else

  /** Gives the `if` an `else` block by patching the branch at its head. */
  function PatchElse(f: Func, fr: Frame): Checked<(Func, Block)>
    requires fr.IfFrame? && fr.elseData.NoElse?
  {
    var f2 :- ChangeJumpDestination(f, fr.elseData.branch, fr.elseData.placeholder, |f.blocks| - 1);
    var f3 :- Seal(f2, |f.blocks| - 1);
    Ok((f3, |f.blocks| - 1))
  }

  function ReplaceTop(ctrl: seq<Frame>, fr: Frame): (r: seq<Frame>)
    requires ctrl != []
    ensures |r| == |ctrl|
  {
    ctrl[|ctrl| - 1 := fr]
  }

  function TransElse(t: TState): Checked<TState> {
    if t.ctrl == [] || !TopFrame(t).IfFrame? || TopFrame(t).consequentEnds.Just? then Panic else
      var fr := TopFrame(t);
      var ctrl := ReplaceTop(t.ctrl, fr.(consequentEnds := Just(t.reachable)));
      if !fr.headReachable then Ok(t.(ctrl := ctrl)) else
      match fr.elseData
      case NoElse(_, _) =>
        var np := |fr.bt.params|;
        if np != fr.numResults then Panic else
          var f1 := CreateBlock(t.f, np);
          var args :- PeekN(t.stack, np);
          var f2 :- Terminate(f1, Jump(fr.destination, args));
          var rest :- PopN(t.stack, np);
          var (f3, elseBlock) :- PatchElse(f2, fr);
          var f4 :- SwitchTo(f3, elseBlock);
          Ok(TState(f4, rest, ctrl, true))
      case WithElse(elseBlock) =>
        var args :- PeekN(t.stack, fr.numResults);
        var f2 :- Terminate(t.f, Jump(fr.destination, args));
        var rest :- PopN(t.stack, fr.numResults);
        var f4 :- SwitchTo(f2, elseBlock);
        Ok(TState(f4, rest, ctrl, true))
  }

  function DeadElse(t: TState): Checked<TState> {
    if t.ctrl == [] || !TopFrame(t).IfFrame? || TopFrame(t).consequentEnds.Just? then Panic else
      var fr := TopFrame(t);
      var ctrl := ReplaceTop(t.ctrl, fr.(consequentEnds := Just(t.reachable)));
      if !fr.headReachable then Ok(t.(ctrl := ctrl)) else
      var rest := Truncate(t.stack, fr.origSize);
      match fr.elseData
      case NoElse(_, _) =>
        var (f3, elseBlock) :- PatchElse(CreateBlock(t.f, |fr.bt.params|), fr);
        var f4 :- SwitchTo(f3, elseBlock);
        Ok(TState(f4, rest, ctrl, true))
      case WithElse(elseBlock) =>
        var f4 :- SwitchTo(t.f, elseBlock);
        Ok(TState(f4, rest, ctrl, true))
  }

  // ---------------------------------------------------------------- end

  /** The stack as it was before the frame's parameters; an `if` must have had room for them twice. */
  function CutBack(stack: seq<Value>, fr: Frame): Checked<seq<Value>> {
    if BaseSize(fr) < 0 then Panic else Ok(Truncate(stack, BaseSize(fr)))
  }

  /** Goes on in the destination of a closed frame. */
  function CloseInto(f: Func, fr: Frame): Checked<Func> {
    var f2 :- SwitchTo(f, fr.destination);
    var f3 :- Seal(f2, fr.destination);
    if fr.LoopFrame? then Seal(f3, fr.header) else Ok(f3)
  }

  /** Cuts the stack back and pushes the parameters of the block now current. */
  function AfterEnd(f: Func, stack: seq<Value>, fr: Frame, ctrl: seq<Frame>): Checked<TState> {
    var rest :- CutBack(stack, fr);
    if !IsBlock(f, f.cur) then Panic else Ok(TState(f, rest + f.blocks[f.cur].params, ctrl, true))
  }

  function TransEnd(t: TState): Checked<TState> {
    if t.ctrl == [] then Panic else
      var fr := TopFrame(t);
      var args :- PeekN(t.stack, fr.numResults);
      var f1 :- Terminate(t.f, Jump(fr.destination, args));
      var f2 :- CloseInto(f1, fr);
      AfterEnd(f2, t.stack, fr, t.ctrl[..|t.ctrl| - 1])
  }

  /** Is the code after the frame reachable although its end is not? */
  function ReachableAnyway(fr: Frame): bool {
    fr.IfFrame? && fr.headReachable && (fr.consequentEnds.Just? ==> fr.consequentEnds.it)
  }

  function DeadEnd(t: TState): Checked<TState> {
    if t.ctrl == [] then Panic else
      var fr := TopFrame(t);
      var ctrl := t.ctrl[..|t.ctrl| - 1];
      var rest :- CutBack(t.stack, fr);
      if fr.LoopFrame? then
        // the header is sealed; the code after a loop has no branches to it
        var f :- Seal(t.f, fr.header);
        Ok(TState(f, rest, ctrl, false))
      else if ExitBranched(fr) || ReachableAnyway(fr) then
        var f :- CloseInto(t.f, fr);
        AfterEnd(f, t.stack, fr, ctrl)
      else
        Ok(TState(t.f, rest, ctrl, false))
  }

  // ---------------------------------------------------------------- branches

  function TransBr(t: TState, depth: nat): Checked<TState> {
    if depth >= |t.ctrl| then Panic else
      var fr := FrameAt(t.ctrl, depth);
      var args :- PeekN(t.stack, BrArity(fr));
      var f :- Terminate(t.f, Jump(BrDestination(fr), args));
      var rest :- PopN(t.stack, BrArity(fr));
      Ok(TState(f, rest, Mark(t.ctrl, depth), false))
  }

  function TransBrIf(t: TState, depth: nat): Checked<TState> {
    if depth >= |t.ctrl| then Panic else
      var cond :- PeekN(t.stack, 1);
      var stack :- PopN(t.stack, 1);
      var fr := FrameAt(t.ctrl, depth);
      var args :- PeekN(stack, BrArity(fr));
      var next := |t.f.blocks|;
      var f1 :- Terminate(CreateBlock(t.f, 0), Brif(cond[0], BrDestination(fr), args, next, []));
      var f2 :- Seal(f1, next);
      var f3 :- SwitchTo(f2, next);
      Ok(TState(f3, stack, Mark(t.ctrl, depth), true))
  }

  function MinDepth(targets: seq<nat>, default: nat): nat {
    if targets == [] then default
    else
      var m := MinDepth(targets[..|targets| - 1], default);
      if targets[|targets| - 1] < m then targets[|targets| - 1] else m
  }

  function MarkAll(ctrl: seq<Frame>, depths: seq<nat>): (r: seq<Frame>)
    requires forall i :: 0 <= i < |depths| ==> depths[i] < |ctrl|
    ensures |r| == |ctrl|
    decreases |depths|
  {
    if depths == [] then ctrl
    else Mark(MarkAll(ctrl, depths[..|depths| - 1]), depths[|depths| - 1])
  }

  /** The depths without repetitions, in order of first occurrence. */
  function DistinctDepths(depths: seq<nat>): seq<nat>
    decreases |depths|
  {
    if depths == [] then [] else
      var n := |depths| - 1;
      var r := DistinctDepths(depths[..n]);
      if depths[n] in r then r else r + [depths[n]]
  }

  lemma {:induction false} DistinctDepthsOk(depths: seq<nat>)
    ensures forall d :: d in DistinctDepths(depths) <==> d in depths
    ensures forall i, j :: 0 <= i < j < |DistinctDepths(depths)| ==> DistinctDepths(depths)[i] != DistinctDepths(depths)[j]
    decreases |depths|
  {
    if depths != [] {
      var n := |depths| - 1;
      DistinctDepthsOk(depths[..n]);
      assert depths == depths[..n] + [depths[n]];
    }
  }

  function IndexOf(s: seq<nat>, x: nat): (i: nat)
    requires x in s
    ensures i < |s| && s[i] == x
  {
    if s[0] == x then 0 else 1 + IndexOf(s[1..], x)
  }

  function CreateBlocks(f: Func, n: nat): Func
    decreases n
  {
    if n == 0 then f else CreateBlock(CreateBlocks(f, n - 1), 0)
  }

  /** Fills the `n` split blocks: each only jumps on to a branch target, with the arguments. */
  function FillSplits(f: Func, ctrl: seq<Frame>, depths: seq<nat>, first: Block, args: seq<Value>, n: nat): Checked<Func>
    requires n <= |depths| && forall i :: 0 <= i < |depths| ==> depths[i] < |ctrl|
    decreases n
  {
    if n == 0 then Ok(f) else
      var f0 :- FillSplits(f, ctrl, depths, first, args, n - 1);
      var f1 :- SwitchTo(f0, first + (n - 1));
      var f2 :- Seal(f1, first + (n - 1));
      Terminate(f2, Jump(BrDestination(FrameAt(ctrl, depths[n - 1])), args))
  }

  function Destinations(ctrl: seq<Frame>, depths: seq<nat>): (r: seq<Block>)
    requires forall i :: 0 <= i < |depths| ==> depths[i] < |ctrl|
    ensures |r| == |depths|
    ensures forall i :: 0 <= i < |depths| ==> r[i] == BrDestination(FrameAt(ctrl, depths[i]))
  {
    seq(|depths|, i requires 0 <= i < |depths| => BrDestination(FrameAt(ctrl, depths[i])))
  }

  /** The split block of each depth. */
  function SplitBlocks(first: Block, order: seq<nat>, depths: seq<nat>): (r: seq<Block>)
    requires forall i :: 0 <= i < |depths| ==> depths[i] in order
    ensures |r| == |depths|
    ensures forall i :: 0 <= i < |depths| ==> r[i] == first + IndexOf(order, depths[i])
  {
    seq(|depths|, i requires 0 <= i < |depths| => first + IndexOf(order, depths[i]))
  }

  predicate DepthsOk(ctrl: seq<Frame>, targets: seq<nat>, default: nat) {
    default < |ctrl| && forall i :: 0 <= i < |targets| ==> targets[i] < |ctrl|
  }

  lemma {:induction false} MinDepthOk(targets: seq<nat>, default: nat)
    ensures MinDepth(targets, default) == default || MinDepth(targets, default) in targets
    decreases |targets|
  {
    if targets != [] {
      MinDepthOk(targets[..|targets| - 1], default);
    }
  }

  /** Branch targets without arguments: the jump table goes to them directly. */
  function TransTableDirect(t: TState, val: Value, rest: seq<Value>, targets: seq<nat>, default: nat): Checked<TState>
    requires DepthsOk(t.ctrl, targets, default)
  {
    var f :- Terminate(t.f, BrTable(val, Destinations(t.ctrl, targets), BrDestination(FrameAt(t.ctrl, default))));
    Ok(TState(f, rest, MarkAll(t.ctrl, targets + [default]), false))
  }

  function TableOrder(targets: seq<nat>, default: nat): (order: seq<nat>)
    ensures default in order && forall i :: 0 <= i < |targets| ==> targets[i] in order
    ensures forall i :: 0 <= i < |order| ==> order[i] in targets || order[i] == default
    ensures forall i, j :: 0 <= i < j < |order| ==> order[i] != order[j]
  {
    assert forall i :: 0 <= i < |targets| ==> targets[i] == (targets + [default])[i];
    assert default == (targets + [default])[|targets|];
    assert forall d :: d in targets + [default] ==> d in targets || d == default;
    DistinctDepthsOk(targets + [default]);
    DistinctDepths(targets + [default])
  }

  /** The jump table to the split blocks, numbered from `first` in the given order of depths. */
  function SplitTerm(first: Block, val: Value, order: seq<nat>, targets: seq<nat>, default: nat): Term
    requires default in order && forall i :: 0 <= i < |targets| ==> targets[i] in order
  {
    BrTable(val, SplitBlocks(first, order, targets), first + IndexOf(order, default))
  }

  /** Branch targets with arguments: the jump table goes to one split block per distinct depth. */
  function TransTableSplit(t: TState, val: Value, rest: seq<Value>, arity: nat, targets: seq<nat>, default: nat): Checked<TState>
    requires DepthsOk(t.ctrl, targets, default)
  {
    var order := TableOrder(targets, default);
    var f1 :- Terminate(CreateBlocks(t.f, |order|), SplitTerm(|t.f.blocks|, val, order, targets, default));
    var args :- PeekN(rest, arity);
    var f2 :- FillSplits(f1, t.ctrl, order, |t.f.blocks|, args, |order|);
    var rest' :- PopN(rest, arity);
    Ok(TState(f2, rest', MarkAll(t.ctrl, order), false))
  }

  function TransBrTable(t: TState, targets: seq<nat>, default: nat): Checked<TState> {
    if !DepthsOk(t.ctrl, targets, default) then Panic else
      MinDepthOk(targets, default);
      var arity := BrArity(FrameAt(t.ctrl, MinDepth(targets, default)));
      var val :- PeekN(t.stack, 1);
      var rest :- PopN(t.stack, 1);
      if arity == 0 then TransTableDirect(t, val[0], rest, targets, default)
      else TransTableSplit(t, val[0], rest, arity, targets, default)
  }

  function TransReturn(t: TState): Checked<TState> {
    if t.ctrl == [] then Panic else
      var n := t.ctrl[0].numResults;
      var args :- PeekN(t.stack, n);
      var f :- Terminate(t.f, ReturnTerm(args));
      var rest :- PopN(t.stack, n);
      Ok(TState(f, rest, t.ctrl, false))
  }

  function TransTrap(t: TState): Checked<TState> {
    var f :- Terminate(t.f, TrapTerm);
    Ok(t.(f := f, reachable := false))
  }

  // ---------------------------------------------------------------- the translator

  /** An operator in code known to be unreachable: only the nesting is tracked. */
  function TransDead(t: TState, op: Op): Checked<TState> {
    match op
    case IfOp(bt) => PushIf(t, RESERVED, NoElse(RESERVED, RESERVED), 0, 0, bt)
    case BlockOp(_) => Ok(t.(ctrl := t.ctrl + [BlockFrame(RESERVED, 0, 0, |t.stack|, false)]))
    case LoopOp(_) => Ok(t.(ctrl := t.ctrl + [BlockFrame(RESERVED, 0, 0, |t.stack|, false)]))
    case ElseOp => DeadElse(t)
    case EndOp => DeadEnd(t)
    case _ => Ok(t)
  }

  function TransLive(t: TState, op: Op): Checked<TState> {
    match op
    case Nop => Ok(t)
    case UnreachableOp => TransTrap(t)
    case Drop => (var rest :- PopN(t.stack, 1); Ok(t.(stack := rest)))
    case Const(n) => TransConst(t, n)
    case Add => TransAdd(t)
    case Select => TransSelect(t)
    case LocalGet(i) => TransLocalGet(t, i)
    case LocalSet(i) => TransLocalSet(t, i, false)
    case LocalTee(i) => TransLocalSet(t, i, true)
    case BlockOp(bt) => TransBlock(t, bt)
    case LoopOp(bt) => TransLoop(t, bt)
    case IfOp(bt) => TransIf(t, bt)
    case ElseOp => TransElse(t)
    case EndOp => TransEnd(t)
    case Br(d) => TransBr(t, d)
    case BrIf(d) => TransBrIf(t, d)
    case BrTableOp(targets, default) => TransBrTable(t, targets, default)
    case ReturnOp => TransReturn(t)
  }

  ghost function TransOp(t: TState, op: Op): Checked<TState> {
    if !t.reachable then TransDead(t, op)
    else if IsUnreachable(t.f) then Panic
    else TransLive(t, op)
  }

  ghost function TransAll(t: TState, ops: seq<Op>): Checked<TState>
    decreases |ops|
  {
    if ops == [] then Ok(t) else
      match TransOp(t, ops[0])
      case Panic => Panic
      case Ok(t') => TransAll(t', ops[1..])
  }

  lemma {:induction false} TransConcat(t: TState, a: seq<Op>, b: seq<Op>)
    ensures TransAll(t, a + b) == match TransAll(t, a) case Panic => Panic case Ok(t') => TransAll(t', b)
    decreases |a|
  {
    hide TransOp;
    if a == [] {
      assert a + b == b;
    } else {
      assert (a + b)[1..] == a[1..] + b;
      if TransOp(t, a[0]).Ok? {
        TransConcat(TransOp(t, a[0]).value, a[1..], b);
      }
    }
  }

  /** The state in which a function body is translated: entry block 0 is current and sealed,
      exit block 1 takes the results. */
  function InitialState(results: nat): TState {
    var f := Func([BlockData([], [], Nothing, true)], ENTRY, 0);
    TState(CreateBlock(f, results), [], [BlockFrame(1, 0, results, 0, false)], true)
  }

  /** Adds the final return, if the exit block is reachable. */
  ghost function Finish(t: TState): Checked<Func> {
    if t.reachable && !IsUnreachable(t.f) then Terminate(t.f, ReturnTerm(t.stack)) else Ok(t.f)
  }
}
