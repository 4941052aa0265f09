/** The operators modelled and the validation algorithm of the appendix of the WebAssembly
    Core Specification 2.0 ("Validation Algorithm"), reduced to operand stack heights. It
    accepts every sequence the typed algorithm accepts. */
module Validation {
  import opened Cfg

  datatype ValType = I32 | I64 | F32 | F64

  datatype BlockType = BlockType(params: seq<ValType>, results: seq<ValType>)

  datatype Op =
    | Nop | UnreachableOp | Drop | Const(n: Word) | Add | Select
    | LocalGet(local: nat) | LocalSet(local: nat) | LocalTee(local: nat)
    | BlockOp(bt: BlockType) | LoopOp(bt: BlockType) | IfOp(bt: BlockType) | ElseOp | EndOp
    | Br(depth: nat) | BrIf(depth: nat) | BrTableOp(targets: seq<nat>, default: nat) | ReturnOp

  datatype Kind = BlockKind | LoopKind | IfKind | ElseKind

  datatype VFrame = VFrame(kind: Kind, bt: BlockType, height: nat, unreachable: bool)

  /** `opds` is the height of the operand stack, `locals` the number of locals. */
  datatype VState = VState(opds: nat, ctrls: seq<VFrame>, locals: nat)

  function Initial(locals: nat, results: seq<ValType>): VState {
    VState(0, [VFrame(BlockKind, BlockType([], results), 0, false)], locals)
  }

  /** Frames are nested and the operand stack is above the innermost one. */
  predicate VOk(v: VState) {
    && (forall i :: 0 <= i < |v.ctrls| - 1 ==> v.ctrls[i].height <= v.ctrls[i + 1].height)
    && (v.ctrls != [] ==> v.ctrls[|v.ctrls| - 1].height <= v.opds)
  }

  function Top(v: VState): VFrame
    requires v.ctrls != []
  {
    v.ctrls[|v.ctrls| - 1]
  }

  /** The frame a branch to `depth` leaves. */
  function Label(v: VState, depth: nat): VFrame
    requires depth < |v.ctrls|
  {
    v.ctrls[|v.ctrls| - 1 - depth]
  }

  function Arity(fr: VFrame): nat {
    if fr.kind.LoopKind? then |fr.bt.params| else |fr.bt.results|
  }

  /** Pops `n` operands; below an unreachable frame's height they come for free. */
  function Pop(v: VState, n: nat): (r: Opt<VState>)
    ensures r.Just? ==> r.it.ctrls == v.ctrls && r.it.locals == v.locals && (VOk(v) ==> VOk(r.it))
  {
    if v.ctrls == [] || v.opds < Top(v).height then Nothing
    else if v.opds - Top(v).height >= n then Just(v.(opds := v.opds - n))
    else if Top(v).unreachable then Just(v.(opds := Top(v).height))
    else Nothing
  }

  function Push(v: VState, n: nat): VState {
    v.(opds := v.opds + n)
  }

  function SetUnreachable(v: VState): (r: VState)
    requires v.ctrls != []
    ensures VOk(v) ==> VOk(r)
  {
    v.(opds := Top(v).height, ctrls := v.ctrls[|v.ctrls| - 1 := Top(v).(unreachable := true)])
  }

  function PushCtrl(v: VState, kind: Kind, bt: BlockType): (r: VState)
    ensures VOk(v) ==> VOk(r)
  {
    v.(opds := v.opds + |bt.params|, ctrls := v.ctrls + [VFrame(kind, bt, v.opds, false)])
  }

  /** Pops the innermost frame, whose results must be exactly what is left. */
  function PopCtrl(v: VState): (r: Opt<VState>)
    ensures r.Just? && VOk(v) ==> VOk(r.it)
  {
    if v.ctrls == [] then Nothing else
      var w := Pop(v, |Top(v).bt.results|);
      if w.Just? && w.it.opds == Top(v).height
      then Just(w.it.(ctrls := v.ctrls[..|v.ctrls| - 1]))
      else Nothing
  }

  function PopPush(v: VState, n: nat, m: nat): Opt<VState> {
    match Pop(v, n)
    case Nothing => Nothing
    case Just(w) => Just(Push(w, m))
  }

  function EnterCtrl(v: VState, kind: Kind, bt: BlockType): Opt<VState> {
    match Pop(v, |bt.params|)
    case Nothing => Nothing
    case Just(w) => Just(PushCtrl(w, kind, bt))
  }

  function Branch(v: VState, n: nat): Opt<VState> {
    match Pop(v, n)
    case Nothing => Nothing
    case Just(w) => Just(SetUnreachable(w))
  }

  /** One step of validation; `Nothing` rejects. */
  function Validate(v: VState, op: Op): Opt<VState> {
    if v.ctrls == [] then Nothing else
    match op
    case Nop => Just(v)
    case UnreachableOp => Just(SetUnreachable(v))
    case Drop => PopPush(v, 1, 0)
    case Const(_) => Just(Push(v, 1))
    case Add => PopPush(v, 2, 1)
    case Select => PopPush(v, 3, 1)
    case LocalGet(i) => if i < v.locals then Just(Push(v, 1)) else Nothing
    case LocalSet(i) => if i < v.locals then PopPush(v, 1, 0) else Nothing
    case LocalTee(i) => if i < v.locals then PopPush(v, 1, 1) else Nothing
    case BlockOp(bt) => EnterCtrl(v, BlockKind, bt)
    case LoopOp(bt) => EnterCtrl(v, LoopKind, bt)
    case IfOp(bt) =>
      (match Pop(v, 1)
       case Nothing => Nothing
       case Just(w) => EnterCtrl(w, IfKind, bt))
    case ElseOp =>
      (match PopCtrl(v)
       case Nothing => Nothing
       case Just(w) => if Top(v).kind.IfKind? then Just(PushCtrl(w, ElseKind, Top(v).bt)) else Nothing)
    case EndOp =>
      (match PopCtrl(v)
       case Nothing => Nothing
       case Just(w) =>
         // without an `else`, the parameters are the results
         if Top(v).kind.IfKind? && Top(v).bt.params != Top(v).bt.results then Nothing
         else Just(Push(w, |Top(v).bt.results|)))
    case Br(d) => if d < |v.ctrls| then Branch(v, Arity(Label(v, d))) else Nothing
    case BrIf(d) =>
      if d < |v.ctrls| then
        (match Pop(v, 1)
         case Nothing => Nothing
         case Just(w) => PopPush(w, Arity(Label(v, d)), Arity(Label(v, d))))
      else Nothing
    case BrTableOp(targets, default) =>
      if default < |v.ctrls|
         && forall i :: 0 <= i < |targets| ==>
              targets[i] < |v.ctrls| && Arity(Label(v, targets[i])) == Arity(Label(v, default))
      then
        (match Pop(v, 1)
         case Nothing => Nothing
         case Just(w) => Branch(w, Arity(Label(v, default))))
      else Nothing
    case ReturnOp => Branch(v, |v.ctrls[0].bt.results|)
  }

  function ValidateAll(v: VState, ops: seq<Op>): Opt<VState>
    decreases |ops|
  {
    if ops == [] then Just(v) else
      match Validate(v, ops[0])
      case Nothing => Nothing
      case Just(w) => ValidateAll(w, ops[1..])
  }

  lemma {:induction false} ValidateConcat(v: VState, a: seq<Op>, b: seq<Op>)
    ensures ValidateAll(v, a + b)
            == match ValidateAll(v, a) case Nothing => Nothing case Just(w) => ValidateAll(w, b)
    decreases |a|
  {
    hide Validate;
    if a == [] {
      assert a + b == b;
    } else {
      assert (a + b)[1..] == a[1..] + b;
      if Validate(v, a[0]).Just? {
        ValidateConcat(Validate(v, a[0]).it, a[1..], b);
      }
    }
  }

  lemma ValidateKeeps(v: VState, op: Op)
    requires VOk(v) && Validate(v, op).Just?
    ensures VOk(Validate(v, op).it)
  {
    hide Pop, SetUnreachable, PushCtrl, PopCtrl;
  }

  // ---------------------------------------------------------------- steps in a reachable frame

  lemma ValidBr(v: VState, d: nat)
    requires VOk(v) && Validate(v, Br(d)).Just? && v.ctrls != [] && !Top(v).unreachable
    ensures d < |v.ctrls| && Top(v).height + Arity(Label(v, d)) <= v.opds
    ensures Validate(v, Br(d)).it == SetUnreachable(v)
  {
  }

  lemma ValidBrIf(v: VState, d: nat)
    requires VOk(v) && Validate(v, BrIf(d)).Just? && v.ctrls != [] && !Top(v).unreachable
    ensures d < |v.ctrls| && Top(v).height + 1 + Arity(Label(v, d)) <= v.opds
    ensures Validate(v, BrIf(d)).it == v.(opds := v.opds - 1)
  {
  }

  lemma ValidBrTable(v: VState, targets: seq<nat>, default: nat)
    requires VOk(v) && Validate(v, BrTableOp(targets, default)).Just? && v.ctrls != [] && !Top(v).unreachable
    ensures default < |v.ctrls|
    ensures forall i :: 0 <= i < |targets| ==>
              targets[i] < |v.ctrls| && Arity(Label(v, targets[i])) == Arity(Label(v, default))
    ensures Top(v).height + 1 + Arity(Label(v, default)) <= v.opds
    ensures Validate(v, BrTableOp(targets, default)).it == SetUnreachable(v)
  {
  }

  lemma ValidReturn(v: VState)
    requires VOk(v) && Validate(v, ReturnOp).Just? && v.ctrls != [] && !Top(v).unreachable
    ensures Top(v).height + |v.ctrls[0].bt.results| <= v.opds
    ensures Validate(v, ReturnOp).it == SetUnreachable(v)
  {
  }

  lemma ValidEnter(v: VState, op: Op)
    requires VOk(v) && Validate(v, op).Just? && v.ctrls != [] && !Top(v).unreachable && (op.BlockOp? || op.LoopOp?)
    ensures Top(v).height + |op.bt.params| <= v.opds
    ensures Validate(v, op).it
            == PushCtrl(v.(opds := v.opds - |op.bt.params|), if op.BlockOp? then BlockKind else LoopKind, op.bt)
  {
  }

  lemma ValidIf(v: VState, bt: BlockType)
    requires VOk(v) && Validate(v, IfOp(bt)).Just? && v.ctrls != [] && !Top(v).unreachable
    ensures Top(v).height + 1 + |bt.params| <= v.opds
    ensures Validate(v, IfOp(bt)).it == PushCtrl(v.(opds := v.opds - 1 - |bt.params|), IfKind, bt)
  {
  }

  lemma ValidElse(v: VState)
    requires VOk(v) && Validate(v, ElseOp).Just?
    ensures v.ctrls != [] && Top(v).kind.IfKind?
    ensures !Top(v).unreachable ==> v.opds == Top(v).height + |Top(v).bt.results|
    ensures Validate(v, ElseOp).it
            == VState(Top(v).height + |Top(v).bt.params|,
                      v.ctrls[|v.ctrls| - 1 := VFrame(ElseKind, Top(v).bt, Top(v).height, false)], v.locals)
  {
    var n := |v.ctrls| - 1;
    assert v.ctrls[..n] + [VFrame(ElseKind, Top(v).bt, Top(v).height, false)]
           == v.ctrls[n := VFrame(ElseKind, Top(v).bt, Top(v).height, false)];
  }

  lemma ValidEnd(v: VState)
    requires VOk(v) && Validate(v, EndOp).Just?
    ensures v.ctrls != []
    ensures !Top(v).unreachable ==> v.opds == Top(v).height + |Top(v).bt.results|
    ensures Top(v).kind.IfKind? ==> Top(v).bt.params == Top(v).bt.results
    ensures Validate(v, EndOp).it
            == VState(Top(v).height + |Top(v).bt.results|, v.ctrls[..|v.ctrls| - 1], v.locals)
  {
  }
}
