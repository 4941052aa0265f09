/** Functions in block-parameter form and the part of the function builder the
    translator uses. Builder operations return `Panic` where using them would break
    the builder's rules: filling a block twice, leaving one unfilled, sealing twice,
    adding an edge to a sealed block, or passing the wrong number of arguments. */
module Cfg {

  /** A computation that either succeeds or fails an assertion or `unwrap`. */
  datatype Checked<+T> = Panic | Ok(value: T) {
    predicate IsFailure() {
      Panic?
    }
    function PropagateFailure<U>(): Checked<U>
      requires Panic?
    {
      Panic
    }
    function Extract(): T
      requires Ok?
    {
      value
    }
  }

  type Word = n: nat | n < 0x1_0000_0000

  type Block = int
  type Value = nat

  /** The reserved block that stands for "no block". */
  const RESERVED: Block := -1

  const ENTRY: Block := 0

  datatype Inst =
    | Iconst(res: Value, n: Word)
    | Iadd(res: Value, a: Value, b: Value)
    | SelectInst(res: Value, c: Value, a: Value, b: Value)
    | UseVar(res: Value, local: nat)
    | DefVar(local: nat, v: Value)

  datatype Term =
    | Jump(dest: Block, args: seq<Value>)
    | Brif(c: Value, thn: Block, thnArgs: seq<Value>, els: Block, elsArgs: seq<Value>)
    | BrTable(c: Value, table: seq<Block>, default: Block)
    | ReturnTerm(args: seq<Value>)
    | TrapTerm

  datatype Opt<+T> = Nothing | Just(it: T)

  datatype BlockData = BlockData(params: seq<Value>, body: seq<Inst>, term: Opt<Term>, sealed: bool)

  datatype Func = Func(blocks: seq<BlockData>, cur: Block, nextValue: Value)

  predicate IsBlock(f: Func, b: Block) {
    0 <= b < |f.blocks|
  }

  predicate Filled(f: Func, b: Block)
    requires IsBlock(f, b)
  {
    f.blocks[b].term.Just?
  }

  function Targets(t: Term): seq<Block> {
    match t
    case Jump(dest, _) => [dest]
    case Brif(_, thn, _, els, _) => [thn, els]
    case BrTable(_, table, default) => table + [default]
    case ReturnTerm(_) => []
    case TrapTerm => []
  }

  // ---------------------------------------------------------------- edges

  predicate Edge(f: Func, p: Block, b: Block) {
    IsBlock(f, p) && f.blocks[p].term.Just? && b in Targets(f.blocks[p].term.it)
  }

  /** Some block other than `x` branches to `b`. */
  ghost predicate PredExcept(f: Func, b: Block, x: Block) {
    exists p :: p != x && Edge(f, p, b)
  }

  ghost predicate HasPred(f: Func, b: Block) {
    exists p :: Edge(f, p, b)
  }

  /** The builder's notion of an unreachable position: all predecessors are known and there are none. */
  ghost predicate IsUnreachable(f: Func) {
    f.cur != ENTRY && IsBlock(f, f.cur) && f.blocks[f.cur].sealed && !HasPred(f, f.cur)
  }

  // ---------------------------------------------------------------- builder operations

  function FreshValues(from: Value, n: nat): (r: seq<Value>)
    ensures |r| == n && forall k :: 0 <= k < n ==> r[k] == from + k
  {
    seq(n, k requires 0 <= k < n => from + k)
  }

  /** Creates a block with `n` parameters; it gets the next block number. */
  function CreateBlock(f: Func, n: nat): Func {
    f.(blocks := f.blocks + [BlockData(FreshValues(f.nextValue, n), [], Nothing, false)],
       nextValue := f.nextValue + n)
  }

  function Emit(f: Func, i: Inst): Checked<Func> {
    if !IsBlock(f, f.cur) || Filled(f, f.cur) then Panic
    else Ok(f.(blocks := f.blocks[f.cur := f.blocks[f.cur].(body := f.blocks[f.cur].body + [i])]))
  }

  /** Emits an instruction that defines the next value. */
  function EmitValue(f: Func, i: Inst): Checked<Func> {
    var f :- Emit(f, i);
    Ok(f.(nextValue := f.nextValue + 1))
  }

  predicate EdgeOk(f: Func, dest: Block, n: nat) {
    IsBlock(f, dest) && !f.blocks[dest].sealed && |f.blocks[dest].params| == n
  }

  predicate TermOk(f: Func, t: Term) {
    match t
    case Jump(dest, args) => EdgeOk(f, dest, |args|)
    case Brif(_, thn, thnArgs, els, elsArgs) => EdgeOk(f, thn, |thnArgs|) && EdgeOk(f, els, |elsArgs|)
    case BrTable(_, table, default) =>
      (forall i :: 0 <= i < |table| ==> EdgeOk(f, table[i], 0)) && EdgeOk(f, default, 0)
    case ReturnTerm(_) => true
    case TrapTerm => true
  }

  function Terminate(f: Func, t: Term): Checked<Func> {
    if !IsBlock(f, f.cur) || Filled(f, f.cur) || !TermOk(f, t) then Panic
    else Ok(f.(blocks := f.blocks[f.cur := f.blocks[f.cur].(term := Just(t))]))
  }

  function Seal(f: Func, b: Block): Checked<Func> {
    if !IsBlock(f, b) || f.blocks[b].sealed then Panic
    else Ok(f.(blocks := f.blocks[b := f.blocks[b].(sealed := true)]))
  }

  function SwitchTo(f: Func, b: Block): Checked<Func> {
    if !IsBlock(f, f.cur) || !Filled(f, f.cur) || !IsBlock(f, b) || Filled(f, b) then Panic
    else Ok(f.(cur := b))
  }

  function Redirect(b: Block, from: Block, to: Block): Block {
    if b == from then to else b
  }

  function RedirectTerm(t: Term, from: Block, to: Block): Term {
    match t
    case Jump(dest, args) => Jump(Redirect(dest, from, to), args)
    case Brif(c, thn, thnArgs, els, elsArgs) =>
      Brif(c, Redirect(thn, from, to), thnArgs, Redirect(els, from, to), elsArgs)
    case BrTable(c, table, default) =>
      BrTable(c, seq(|table|, i requires 0 <= i < |table| => Redirect(table[i], from, to)), Redirect(default, from, to))
    case ReturnTerm(_) => t
    case TrapTerm => t
  }

  /** Repoints the branch that ends block `p` from `from`, which loses a predecessor, to `to`, which gains one; neither may be
      sealed. */
  function ChangeJumpDestination(f: Func, p: Block, from: Block, to: Block): Checked<Func> {
    if !IsBlock(f, p) || !Filled(f, p) then Panic
    else
      var t := RedirectTerm(f.blocks[p].term.it, from, to);
      if !IsBlock(f, from) || f.blocks[from].sealed || !IsBlock(f, to) || f.blocks[to].sealed || !ArgsOk(f, t) then Panic
      else Ok(f.(blocks := f.blocks[p := f.blocks[p].(term := Just(t))]))
  }

  /** Every branch of `t` passes as many arguments as its target has parameters. */
  predicate ArgsOk(f: Func, t: Term) {
    match t
    case Jump(dest, args) => IsBlock(f, dest) && |f.blocks[dest].params| == |args|
    case Brif(_, thn, thnArgs, els, elsArgs) =>
      && IsBlock(f, thn) && |f.blocks[thn].params| == |thnArgs|
      && IsBlock(f, els) && |f.blocks[els].params| == |elsArgs|
    case BrTable(_, table, default) =>
      && (forall i :: 0 <= i < |table| ==> IsBlock(f, table[i]) && f.blocks[table[i]].params == [])
      && IsBlock(f, default) && f.blocks[default].params == []
    case ReturnTerm(_) => true
    case TrapTerm => true
  }

  // ---------------------------------------------------------------- execution

  datatype Config = Config(block: Block, pos: nat, env: map<Value, Word>, locals: seq<Word>)

  datatype Result = Returned(vals: seq<Word>) | Trapped

  datatype State = Running(c: Config) | Done(r: Result) | Stuck

  /** The values are defined. Reading any other value is an error of the function. */
  predicate Defined(env: map<Value, Word>, vs: seq<Value>) {
    forall k :: 0 <= k < |vs| ==> vs[k] in env
  }

  function Get(env: map<Value, Word>, v: Value): Word {
    if v in env then env[v] else 0
  }

  function GetAll(env: map<Value, Word>, vs: seq<Value>): (r: seq<Word>)
    ensures |r| == |vs|
    ensures forall k :: 0 <= k < |vs| ==> r[k] == Get(env, vs[k])
  {
    seq(|vs|, k requires 0 <= k < |vs| => Get(env, vs[k]))
  }

  /** Binds block parameters; later parameters win, they are distinct anyway. */
  function BindAll(env: map<Value, Word>, vs: seq<Value>, ws: seq<Word>): map<Value, Word>
    requires |vs| == |ws|
    decreases |vs|
  {
    if vs == [] then env
    else BindAll(env, vs[..|vs| - 1], ws[..|vs| - 1])[vs[|vs| - 1] := ws[|vs| - 1]]
  }

  function Add32(a: Word, b: Word): Word {
    (a + b) % 0x1_0000_0000
  }

  /** Control enters block `b` with the given parameter values. */
  function Enter(f: Func, b: Block, ws: seq<Word>, env: map<Value, Word>, locals: seq<Word>): State {
    if IsBlock(f, b) && |f.blocks[b].params| == |ws|
    then Running(Config(b, 0, BindAll(env, f.blocks[b].params, ws), locals))
    else Stuck
  }

  function Advance(c: Config, v: Value, w: Word): State {
    Running(c.(pos := c.pos + 1, env := c.env[v := w]))
  }

  function StepInst(c: Config, i: Inst): State {
    match i
    case Iconst(res, n) => Advance(c, res, n)
    case Iadd(res, a, b) =>
      if a in c.env && b in c.env then Advance(c, res, Add32(Get(c.env, a), Get(c.env, b))) else Stuck
    case SelectInst(res, cond, a, b) =>
      if cond in c.env && a in c.env && b in c.env
      then Advance(c, res, if Get(c.env, cond) != 0 then Get(c.env, a) else Get(c.env, b)) else Stuck
    case UseVar(res, local) =>
      if local < |c.locals| then Advance(c, res, c.locals[local]) else Stuck
    case DefVar(local, v) =>
      if local < |c.locals| && v in c.env
      then Running(c.(pos := c.pos + 1, locals := c.locals[local := Get(c.env, v)]))
      else Stuck
  }

  /** Goes to block `b` with the values of `args`. */
  function Goto(f: Func, c: Config, b: Block, args: seq<Value>): State {
    if Defined(c.env, args) then Enter(f, b, GetAll(c.env, args), c.env, c.locals) else Stuck
  }

  function StepTerm(f: Func, c: Config, t: Term): State {
    match t
    case Jump(dest, args) => Goto(f, c, dest, args)
    case Brif(cond, thn, thnArgs, els, elsArgs) =>
      if cond !in c.env then Stuck
      else if Get(c.env, cond) != 0 then Goto(f, c, thn, thnArgs)
      else Goto(f, c, els, elsArgs)
    case BrTable(sel, table, default) =>
      if sel !in c.env then Stuck else
        var i := Get(c.env, sel);
        Enter(f, if i < |table| then table[i] else default, [], c.env, c.locals)
    case ReturnTerm(args) => if Defined(c.env, args) then Done(Returned(GetAll(c.env, args))) else Stuck
    case TrapTerm => Done(Trapped)
  }

  function Step(f: Func, c: Config): State {
    if !IsBlock(f, c.block) then Stuck
    else if c.pos < |f.blocks[c.block].body| then StepInst(c, f.blocks[c.block].body[c.pos])
    else if c.pos == |f.blocks[c.block].body| && f.blocks[c.block].term.Just? then StepTerm(f, c, f.blocks[c.block].term.it)
    else Stuck
  }

  /** At most `n` steps; a finished run stays finished. */
  function Run(f: Func, s: State, n: nat): State
    decreases n
  {
    if n == 0 || !s.Running? then s else Run(f, Step(f, s.c), n - 1)
  }

  lemma {:induction false} RunCompose(f: Func, s: State, m: nat, n: nat)
    ensures Run(f, Run(f, s, m), n) == Run(f, s, m + n)
    decreases m
  {
    if m > 0 && s.Running? {
      RunCompose(f, Step(f, s.c), m - 1, n);
    } else if !s.Running? {
      RunStays(f, s, n);
      RunStays(f, s, m + n);
    }
  }

  lemma RunStays(f: Func, s: State, n: nat)
    requires !s.Running?
    ensures Run(f, s, n) == s
  {
  }
}
