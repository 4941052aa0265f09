/** `loop` and `if` in reachable, valid code keep the translation invariant. */
module OpenSteps {
  import opened Cfg
  import opened Validation
  import opened Translation
  import opened TranslationInvariant
  import opened LiveSteps

  const NONE: iset<Block> := iset{}

  lemma NothingTwice()
    ensures NONE + NONE == NONE
  {
  }

  // ---------------------------------------------------------------- loop

  /** The builder calls of `loop`: two new blocks, a jump into the first. */
  lemma LoopBuilds(f: Func, np: nat, nr: nat, args: seq<Value>)
    requires IsBlock(f, f.cur) && !Filled(f, f.cur) && Closed(f) && |args| == np
    ensures
      var header := |f.blocks|;
      var f1 := CreateBlock(CreateBlock(f, np), nr);
      && Terminate(f1, Jump(header, args)).Ok?
      && var f2 := Terminate(f1, Jump(header, args)).value;
         && IsBlock(f2, header) && |f2.blocks[header].params| == np
         && SwitchTo(f2, header).Ok?
         && var f3 := SwitchTo(f2, header).value;
            && Extends(f, f3, iset{header}) && f3.cur == header && f3.blocks == f2.blocks
            && IsBlock(f3, header) && !Filled(f3, header) && !f3.blocks[header].sealed && HasPred(f3, header)
            && Blank(f3, header + 1, nr, false) && !PredExcept(f3, header + 1, RESERVED)
            && f3.blocks[header].body == []
            && f3.blocks[header].params == FreshValues(f.nextValue, np)
            && f3.blocks[header + 1].params == FreshValues(f.nextValue + np, nr)
            && f3.nextValue == f.nextValue + np + nr
            && f3.blocks[f.cur] == f.blocks[f.cur].(term := Just(Jump(header, args)))
  {
    var header := |f.blocks|;
    TwoBlocks(f, np, nr);
    hide Extends, PredExcept, CreateBlock, Terminate, TargetSet;
    var f1 := CreateBlock(CreateBlock(f, np), nr);
    var term := Jump(header, args);
    TerminateExtends(f1, term);
    TerminateCur(f1, term);
    var f2 := Terminate(f1, term).value;
    ExtendsCompose(f, f1, f2, NONE, TargetSet(term));
    JumpTargets(header, args);
    assert NONE + TargetSet(term) == iset{header};
    SwitchNew(f, f2, iset{header}, header);
    var f3 := SwitchTo(f2, header).value;
    assert Edge(f3, f.cur, header);
    assert !PredExcept(f3, header + 1, RESERVED) by { NoNewPred(f1, f3, f.cur, header, header + 1); }
  }

  lemma JumpTargets(b: Block, args: seq<Value>)
    ensures TargetSet(Jump(b, args)) == iset{b}
  {
  }

  /** Two new blocks that nothing branches to. */
  lemma TwoBlocks(f: Func, np: nat, nr: nat)
    requires IsBlock(f, f.cur) && !Filled(f, f.cur) && Closed(f)
    ensures
      var header, f1 := |f.blocks|, CreateBlock(CreateBlock(f, np), nr);
      && Extends(f, f1, NONE) && f1.cur == f.cur && !Filled(f1, f1.cur) && |f1.blocks| == |f.blocks| + 2
      && f1.blocks[f.cur] == f.blocks[f.cur] && Blank(f1, header, np, false) && Blank(f1, header + 1, nr, false)
      && !PredExcept(f1, header + 1, RESERVED)
      && f1.blocks[header].params == FreshValues(f.nextValue, np)
      && f1.blocks[header + 1].params == FreshValues(f.nextValue + np, nr) && f1.nextValue == f.nextValue + np + nr
  {
    var header := |f.blocks|;
    CreateExtends(f, np);
    CreatedUnused(f, np, RESERVED);
    var g := CreateBlock(f, np);
    CreateExtends(g, nr);
    CreatedUnused(g, nr, RESERVED);
    var f1 := CreateBlock(g, nr);
    assert f1.blocks[header] == g.blocks[header];
    hide Extends, PredExcept;
    ExtendsCompose(f, g, f1, NONE, NONE);
    NothingTwice();
  }

  lemma NoNewPred(f: Func, f': Func, p: Block, target: Block, b: Block)
    requires !PredExcept(f, b, RESERVED) && b != target
    requires forall q, c :: Edge(f', q, c) ==> Edge(f, q, c) || (q == p && c in [target])
    ensures !PredExcept(f', b, RESERVED)
  {
    hide Edge;
    assert forall q :: Edge(f', q, b) ==> Edge(f, q, b);
  }

  lemma LoopKeeps(v: VState, t: TState, bt: BlockType)
    requires Inv(v, t) && t.reachable && t.ctrl != [] && Validate(v, LoopOp(bt)).Just?
    ensures TransLoop(t, bt).Ok? && Inv(Validate(v, LoopOp(bt)).it, TransLoop(t, bt).value)
  {
    hide Inv, Extends, Validate, CreateBlock, PredExcept, Terminate, SwitchTo, HasPred;
    LiveFacts(v, t);
    InvClosed(v, t);
    ValidEnter(v, LoopOp(bt));
    var np, nr := |bt.params|, |bt.results|;
    ArgsAvailable(v, t, np);
    LoopBuilds(t.f, np, nr, PeekN(t.stack, np).value);
    var t' := TransLoop(t, bt).value;
    Opens(v, t, v.opds - np, LoopKind, bt, t', t'.ctrl[|t.ctrl|], iset{|t.f.blocks|});
  }

  // ---------------------------------------------------------------- if

  /** The builder calls of an `if` that may lack an `else`: its false branch goes past the construct. */
  lemma IfNoElseBuilds(f: Func, nr: nat, c: Value, args: seq<Value>)
    requires IsBlock(f, f.cur) && !Filled(f, f.cur) && Closed(f) && |args| == nr
    ensures
      var next, dest := |f.blocks|, |f.blocks| + 1;
      var f1 := CreateBlock(CreateBlock(f, 0), nr);
      var term := Brif(c, next, [], dest, args);
      && Terminate(f1, term).Ok? && Seal(Terminate(f1, term).value, next).Ok?
      && SwitchTo(Seal(Terminate(f1, term).value, next).value, next).Ok?
      && var f4 := SwitchTo(Seal(Terminate(f1, term).value, next).value, next).value;
         && Extends(f, f4, iset{next, dest}) && f4.cur == next && IsBlock(f4, next) && !Filled(f4, next)
         && HasPred(f4, next) && Blank(f4, dest, nr, false) && !PredExcept(f4, dest, f.cur)
         && HeadOk(f4, f.cur, dest, nr)
         && f4.blocks[f.cur] == f.blocks[f.cur].(term := Just(term))
         && f4.blocks[next].params == [] && f4.blocks[next].body == []
         && f4.blocks[dest].params == FreshValues(f.nextValue, nr) && f4.nextValue == f.nextValue + nr
  {
    var next, dest := |f.blocks|, |f.blocks| + 1;
    CreateExtends(f, 0);
    CreatedUnused(f, 0, f.cur);
    var g := CreateBlock(f, 0);
    CreateExtends(g, nr);
    CreatedUnused(g, nr, f.cur);
    var f1 := CreateBlock(g, nr);
    assert f1.blocks[next] == g.blocks[next];
    hide Extends, PredExcept;
    ExtendsCompose(f, g, f1, NONE, NONE);
    NothingTwice();
    var term := Brif(c, next, [], dest, args);
    BranchAndContinue(f, f1, term, next);
    BrifTargets(term);
    var f4 := SwitchTo(Seal(Terminate(f1, term).value, next).value, next).value;
    assert !PredExcept(f4, dest, f.cur) by { OnlyFrom(f1, f4, f.cur, dest); }
  }

  lemma OnlyFrom(f: Func, f': Func, p: Block, b: Block)
    requires !PredExcept(f, b, p) && forall q, c :: Edge(f', q, c) ==> Edge(f, q, c) || q == p
    ensures !PredExcept(f', b, p)
  {
    hide Edge;
    assert forall q :: Edge(f', q, b) ==> Edge(f, q, b) || q == p;
  }

  lemma IfNoElseKeeps(v: VState, t: TState, bt: BlockType)
    requires Inv(v, t) && t.reachable && t.ctrl != [] && Validate(v, IfOp(bt)).Just? && bt.params == bt.results
    ensures TransIf(t, bt).Ok? && Inv(Validate(v, IfOp(bt)).it, TransIf(t, bt).value)
  {
    hide Inv, Extends, Validate, CreateBlock, PredExcept, Terminate, Seal, SwitchTo, HasPred, HeadOk;
    LiveFacts(v, t);
    InvClosed(v, t);
    ValidIf(v, bt);
    var np := |bt.params|;
    ArgsAvailable(v, t, 1 + np);
    var stack := t.stack[..|t.stack| - 1];
    IfNoElseBuilds(t.f, np, PeekN(t.stack, 1).value[0], PeekN(stack, np).value);
    var t' := TransIf(t, bt).value;
    Opens(v, t, v.opds - 1 - np, IfKind, bt, t', t'.ctrl[|t.ctrl|], iset{|t.f.blocks|, |t.f.blocks| + 1});
  }

  lemma TerminateCur(f: Func, term: Term)
    requires Terminate(f, term).Ok?
    ensures IsBlock(f, f.cur) && Terminate(f, term).value.blocks[f.cur] == f.blocks[f.cur].(term := Just(term))
  {
  }

  lemma ThreeBlocks(f: Func, nr: nat, np: nat)
    requires IsBlock(f, f.cur) && !Filled(f, f.cur) && Closed(f)
    ensures
      var next, dest, els := |f.blocks|, |f.blocks| + 1, |f.blocks| + 2;
      var f1 := CreateBlock(CreateBlock(CreateBlock(f, 0), nr), np);
      && Extends(f, f1, NONE) && f1.cur == f.cur && !Filled(f1, f1.cur) && |f1.blocks| == |f.blocks| + 3
      && f1.blocks[f.cur] == f.blocks[f.cur]
      && Blank(f1, next, 0, false) && Blank(f1, dest, nr, false) && Blank(f1, els, np, false)
      && !PredExcept(f1, dest, RESERVED)
      && f1.blocks[dest].params == FreshValues(f.nextValue, nr)
      && f1.blocks[els].params == FreshValues(f.nextValue + nr, np) && f1.nextValue == f.nextValue + nr + np
  {
    var next, dest := |f.blocks|, |f.blocks| + 1;
    TwoBlocks(f, 0, nr);
    var h := CreateBlock(CreateBlock(f, 0), nr);
    CreateExtends(h, np);
    CreatedParams(h, np);
    hide Extends, PredExcept, CreateBlock;
    var f1 := CreateBlock(h, np);
    assert f1.blocks[next] == h.blocks[next] && f1.blocks[dest] == h.blocks[dest] && f1.blocks[f.cur] == h.blocks[f.cur];
    assert !PredExcept(f1, dest, RESERVED) by { OnlyFrom(h, f1, RESERVED, dest); }
    NothingTwice();
    ExtendsCompose(f, h, f1, NONE, NONE);
  }

  lemma CreatedParams(f: Func, n: nat)
    ensures CreateBlock(f, n).blocks[|f.blocks|].params == FreshValues(f.nextValue, n)
    ensures CreateBlock(f, n).nextValue == f.nextValue + n
  {
  }

  /** The builder calls of an `if` that must have an `else`, whose block is created at once. */
  lemma IfWithElseBuilds(f: Func, np: nat, nr: nat, c: Value, args: seq<Value>)
    requires IsBlock(f, f.cur) && !Filled(f, f.cur) && Closed(f) && |args| == np
    ensures
      var next, dest, els := |f.blocks|, |f.blocks| + 1, |f.blocks| + 2;
      var f1 := CreateBlock(CreateBlock(CreateBlock(f, 0), nr), np);
      var term := Brif(c, next, [], els, args);
      && Terminate(f1, term).Ok? && Seal(Terminate(f1, term).value, els).Ok?
      && Seal(Seal(Terminate(f1, term).value, els).value, next).Ok?
      && SwitchTo(Seal(Seal(Terminate(f1, term).value, els).value, next).value, next).Ok?
      && var f5 := SwitchTo(Seal(Seal(Terminate(f1, term).value, els).value, next).value, next).value;
         && Extends(f, f5, iset{next, els}) && f5.cur == next && IsBlock(f5, next) && !Filled(f5, next)
         && HasPred(f5, next) && Blank(f5, dest, nr, false) && !PredExcept(f5, dest, RESERVED)
         && Blank(f5, els, np, true) && HasPred(f5, els)
         && f5.blocks[f.cur] == f.blocks[f.cur].(term := Just(term))
         && f5.blocks[next].params == [] && f5.blocks[next].body == []
         && f5.blocks[dest].params == FreshValues(f.nextValue, nr)
         && f5.blocks[els].params == FreshValues(f.nextValue + nr, np) && f5.nextValue == f.nextValue + nr + np
  {
    var next, dest, els := |f.blocks|, |f.blocks| + 1, |f.blocks| + 2;
    ThreeBlocks(f, nr, np);
    hide Extends, PredExcept, CreateBlock, Terminate, Seal, SwitchTo, TargetSet;
    var f1 := CreateBlock(CreateBlock(CreateBlock(f, 0), nr), np);
    var term := Brif(c, next, [], els, args);
    TerminateExtends(f1, term);
    var f2 := Terminate(f1, term).value;
    assert f2.blocks[f.cur] == f1.blocks[f.cur].(term := Just(term)) by { TerminateCur(f1, term); }
    BrifTargets(term);
    ExtendsCompose(f, f1, f2, NONE, TargetSet(term));
    assert NONE + TargetSet(term) == iset{next, els};
    SealNew(f, f2, iset{next, els}, els);
    var f3 := Seal(f2, els).value;
    SealNew(f, f3, iset{next, els}, next);
    var f4 := Seal(f3, next).value;
    SwitchNew(f, f4, iset{next, els}, next);
    var f5 := SwitchTo(f4, next).value;
    assert Edge(f5, f.cur, next) && Edge(f5, f.cur, els);
    assert !PredExcept(f5, dest, RESERVED) by { NoNewPred2(f1, f5, f.cur, term, dest); }
  }

  lemma NoNewPred2(f: Func, f': Func, p: Block, term: Term, b: Block)
    requires !PredExcept(f, b, RESERVED) && b !in Targets(term)
    requires forall q, c :: Edge(f', q, c) ==> Edge(f, q, c) || (q == p && c in Targets(term))
    ensures !PredExcept(f', b, RESERVED)
  {
    hide Edge;
    assert forall q :: Edge(f', q, b) ==> Edge(f, q, b);
  }

  lemma IfWithElseKeeps(v: VState, t: TState, bt: BlockType)
    requires Inv(v, t) && t.reachable && t.ctrl != [] && Validate(v, IfOp(bt)).Just? && bt.params != bt.results
    ensures TransIf(t, bt).Ok? && Inv(Validate(v, IfOp(bt)).it, TransIf(t, bt).value)
  {
    hide Inv, Extends, Validate, CreateBlock, PredExcept, Terminate, Seal, SwitchTo, HasPred;
    LiveFacts(v, t);
    InvClosed(v, t);
    ValidIf(v, bt);
    var np, nr := |bt.params|, |bt.results|;
    ArgsAvailable(v, t, 1 + np);
    var stack := t.stack[..|t.stack| - 1];
    IfWithElseBuilds(t.f, np, nr, PeekN(t.stack, 1).value[0], PeekN(stack, np).value);
    var t' := TransIf(t, bt).value;
    Opens(v, t, v.opds - 1 - np, IfKind, bt, t', t'.ctrl[|t.ctrl|], iset{|t.f.blocks|, |t.f.blocks| + 2});
  }
}
