/** Execution of the modelled operators as the WebAssembly Core Specification 2.0 defines it
    (section 4.4.8, "Control Instructions"), as a machine over the flat operator sequence: a branch
    unwinds the stack to its label and goes to the label's continuation, which for a loop is
    its start and otherwise the position after the matching `end`. */
module WasmMachine {
  import opened Cfg
  import opened Validation

  /** A label on the control stack: where a loop starts, the values a branch takes, the height it unwinds to. */
  datatype RLabel = RLabel(start: Opt<nat>, arity: nat, height: nat)

  datatype Machine = Machine(pc: nat, stack: seq<Word>, labels: seq<RLabel>, locals: seq<Word>)

  datatype MState = MRunning(m: Machine) | MDone(r: Result) | MStuck

  predicate Opening(op: Op) {
    op.BlockOp? || op.LoopOp? || op.IfOp?
  }

  /** The position from `k` on of the `end` that closes the construct `d` levels out; `|ops|` if there is none. */
  function EndFrom(ops: seq<Op>, k: nat, d: nat): (e: nat)
    ensures k <= |ops| ==> k <= e <= |ops|
    decreases |ops| - k
  {
    if k >= |ops| then |ops|
    else if Opening(ops[k]) then EndFrom(ops, k + 1, d + 1)
    else if ops[k].EndOp? then (if d == 0 then k else EndFrom(ops, k + 1, d - 1))
    else EndFrom(ops, k + 1, d)
  }

  /** The position from `k` on of the `else`, or without one the `end`, that ends the branch of an `if` around `d` more levels. */
  function ElseFrom(ops: seq<Op>, k: nat, d: nat): (e: nat)
    ensures k <= |ops| ==> k <= e <= |ops|
    decreases |ops| - k
  {
    if k >= |ops| then |ops|
    else if Opening(ops[k]) then ElseFrom(ops, k + 1, d + 1)
    else if ops[k].EndOp? then (if d == 0 then k else ElseFrom(ops, k + 1, d - 1))
    else if ops[k].ElseOp? && d == 0 then k
    else ElseFrom(ops, k + 1, d)
  }

  /** Continues at `pc` after `n` operands were replaced by `pushed`. */
  function Next(m: Machine, n: nat, pushed: seq<Word>): MState {
    if n <= |m.stack| then MRunning(m.(pc := m.pc + 1, stack := m.stack[..|m.stack| - n] + pushed)) else MStuck
  }

  /** The operand `i` places below the top. */
  function Operand(m: Machine, i: nat): Word {
    if i < |m.stack| then m.stack[|m.stack| - 1 - i] else 0
  }

  function EnterLabel(m: Machine, start: Opt<nat>, arity: nat, params: nat): MState {
    if params <= |m.stack|
    then MRunning(m.(pc := m.pc + 1, labels := m.labels + [RLabel(start, arity, |m.stack| - params)]))
    else MStuck
  }

  function TakeBranch(ops: seq<Op>, m: Machine, d: nat): MState {
    if d >= |m.labels| then MStuck else
      var i := |m.labels| - 1 - d;
      var l := m.labels[i];
      if l.arity > |m.stack| || l.height > |m.stack| then MStuck else
        var stack := m.stack[..l.height] + m.stack[|m.stack| - l.arity..];
        if l.start.Just? then MRunning(Machine(l.start.it, stack, m.labels[..i + 1], m.locals))
        else MRunning(Machine(EndFrom(ops, m.pc + 1, d) + 1, stack, m.labels[..i], m.locals))
  }

  function PopWord(m: Machine): Machine {
    if m.stack == [] then m else m.(stack := m.stack[..|m.stack| - 1])
  }

  function StepIf(ops: seq<Op>, m: Machine, bt: BlockType): MState {
    if m.stack == [] then MStuck else
      var w := PopWord(m);
      var enter := EnterLabel(w, Nothing, |bt.results|, |bt.params|);
      if Operand(m, 0) != 0 || !enter.MRunning? then enter else
        var e := ElseFrom(ops, m.pc + 1, 0);
        if e < |ops| && ops[e].ElseOp? then MRunning(enter.m.(pc := e + 1))
        else MRunning(w.(pc := e + 1))
  }

  function StepOp(ops: seq<Op>, m: Machine, op: Op): MState {
    match op
    case Nop => Next(m, 0, [])
    case UnreachableOp => MDone(Trapped)
    case Drop => Next(m, 1, [])
    case Const(n) => Next(m, 0, [n])
    case Add => Next(m, 2, [Add32(Operand(m, 1), Operand(m, 0))])
    case Select => Next(m, 3, [if Operand(m, 0) != 0 then Operand(m, 2) else Operand(m, 1)])
    case LocalGet(i) => if i < |m.locals| then Next(m, 0, [m.locals[i]]) else MStuck
    case LocalSet(i) => if i < |m.locals| then Next(m.(locals := m.locals[i := Operand(m, 0)]), 1, []) else MStuck
    case LocalTee(i) =>
      if i < |m.locals| then Next(m.(locals := m.locals[i := Operand(m, 0)]), 1, [Operand(m, 0)]) else MStuck
    case BlockOp(bt) => EnterLabel(m, Nothing, |bt.results|, |bt.params|)
    case LoopOp(bt) => EnterLabel(m, Just(m.pc + 1), |bt.params|, |bt.params|)
    case IfOp(bt) => StepIf(ops, m, bt)
    case ElseOp =>
      // the first branch of an `if` is done
      if m.labels == [] then MStuck
      else MRunning(m.(pc := EndFrom(ops, m.pc + 1, 0) + 1, labels := m.labels[..|m.labels| - 1]))
    case EndOp =>
      if m.labels == [] then MStuck else MRunning(m.(pc := m.pc + 1, labels := m.labels[..|m.labels| - 1]))
    case Br(d) => TakeBranch(ops, m, d)
    case BrIf(d) =>
      if m.stack == [] then MStuck
      else if Operand(m, 0) != 0 then TakeBranch(ops, PopWord(m), d) else Next(m, 1, [])
    case BrTableOp(targets, default) =>
      if m.stack == [] then MStuck
      else TakeBranch(ops, PopWord(m), if Operand(m, 0) < |targets| then targets[Operand(m, 0)] else default)
    case ReturnOp =>
      if m.labels == [] || m.labels[0].arity > |m.stack| then MStuck
      else MDone(Returned(m.stack[|m.stack| - m.labels[0].arity..]))
  }

  /** One step; a body that ran to its end returns what is on the stack. */
  function MStep(ops: seq<Op>, m: Machine): MState {
    if m.pc < |ops| then StepOp(ops, m, ops[m.pc])
    else if m.pc == |ops| && m.labels == [] then MDone(Returned(m.stack))
    else MStuck
  }

  function MRun(ops: seq<Op>, s: MState, n: nat): MState
    decreases n
  {
    if n == 0 || !s.MRunning? then s else MRun(ops, MStep(ops, s.m), n - 1)
  }

  function Start(results: nat, locals: seq<Word>): MState {
    MRunning(Machine(0, [], [RLabel(Nothing, results, 0)], locals))
  }
}
