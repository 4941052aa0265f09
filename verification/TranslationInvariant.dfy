/** What holds of the translation state after every prefix of a valid operator sequence:
    agreement of the value stack with the validator, the state of each pending block,
    and exactness of the reachability flag. */
module TranslationInvariant {
  import opened Cfg
  import opened Validation
  import opened Translation

  // ---------------------------------------------------------------- frames and heights

  /** Frames entered in unreachable code have the reserved block for a destination. */
  predicate IsReal(fr: Frame) {
    fr.destination != RESERVED
  }

  /** Values an `if` keeps on the stack for its `else`. */
  function Dup(fr: Frame): nat {
    if fr.IfFrame? && fr.consequentEnds.Nothing? then fr.numParams else 0
  }

  function DupUpTo(ctrl: seq<Frame>, i: nat): nat
    requires i <= |ctrl|
  {
    if i == 0 then 0 else DupUpTo(ctrl, i - 1) + Dup(ctrl[i - 1])
  }

  /** The lowest height the value stack reaches inside the frame. */
  function Floor(fr: Frame): int {
    if fr.IfFrame? && fr.consequentEnds.Just? then fr.origSize - fr.numParams else fr.origSize
  }

  lemma {:induction false} DupSame(a: seq<Frame>, b: seq<Frame>, i: nat)
    requires i <= |a| && i <= |b| && forall j :: 0 <= j < i ==> Dup(a[j]) == Dup(b[j])
    ensures DupUpTo(a, i) == DupUpTo(b, i)
  {
    if i > 0 {
      DupSame(a, b, i - 1);
    }
  }

  /** The translator's frame agrees with the validator's. */
  predicate ShapeOk(vf: VFrame, fr: Frame) {
    if IsReal(fr) then
      && fr.numParams == |vf.bt.params| && fr.numResults == |vf.bt.results|
      && (fr.BlockFrame? <==> vf.kind.BlockKind?)
      && (fr.LoopFrame? <==> vf.kind.LoopKind?)
      && (fr.IfFrame? ==>
            && fr.bt == vf.bt && fr.headReachable
            && (fr.consequentEnds.Nothing? <==> vf.kind.IfKind?)
            && (fr.elseData.NoElse? <==> vf.bt.params == vf.bt.results))
    else
      && fr.numParams == 0 && fr.numResults == 0 && !fr.LoopFrame? && !fr.exitBranched
      && (fr.BlockFrame? <==> vf.kind.BlockKind? || vf.kind.LoopKind?)
      && (fr.IfFrame? ==>
            && !fr.headReachable
            && (fr.consequentEnds.Nothing? <==> vf.kind.IfKind?)
            && (fr.consequentEnds.Just? ==> !fr.consequentEnds.it))
  }

  // ---------------------------------------------------------------- pending blocks

  /** A block that nothing was written to, of `n` parameters. */
  predicate Blank(f: Func, b: Block, n: nat, sealed: bool) {
    && IsBlock(f, b) && b != f.cur && |f.blocks[b].params| == n
    && f.blocks[b].body == [] && f.blocks[b].term.Nothing? && f.blocks[b].sealed == sealed
  }

  /** Before its `else`, an `if` that may lack one branches to its destination from its head. */
  function Exempt(fr: Frame): Block {
    if fr.IfFrame? && fr.elseData.NoElse? && fr.consequentEnds.Nothing? then fr.elseData.branch else RESERVED
  }

  /** Whether anything else branches to the destination so far. */
  predicate ExitFlag(fr: Frame) {
    ExitBranched(fr) || (fr.IfFrame? && fr.consequentEnds == Just(true))
  }

  predicate HeadOk(f: Func, p: Block, dest: Block, n: nat) {
    && IsBlock(f, p) && f.blocks[p].term.Just? && f.blocks[p].term.it.Brif?
    && f.blocks[p].term.it.els == dest && f.blocks[p].term.it.thn != dest
    && IsBlock(f, f.blocks[p].term.it.thn)
    && f.blocks[p].term.it.thnArgs == [] && f.blocks[f.blocks[p].term.it.thn].params == []
    && |f.blocks[p].term.it.elsArgs| == n
  }

  ghost predicate ElseOk(f: Func, fr: Frame)
    requires fr.IfFrame?
  {
    match fr.elseData
    case NoElse(branch, placeholder) =>
      placeholder == fr.destination && (fr.consequentEnds.Nothing? ==> HeadOk(f, branch, fr.destination, fr.numParams))
    case WithElse(elseBlock) =>
      fr.destination < elseBlock < |f.blocks| &&
      (fr.consequentEnds.Nothing? ==> Blank(f, elseBlock, fr.numParams, true) && HasPred(f, elseBlock))
  }

  ghost predicate FrameOk(f: Func, fr: Frame) {
    && ENTRY < fr.destination && Blank(f, fr.destination, fr.numResults, false)
    && (fr.LoopFrame? ==>
          && ENTRY < fr.header < fr.destination && |f.blocks[fr.header].params| == fr.numParams
          && !f.blocks[fr.header].sealed)
    && (fr.IfFrame? ==> ElseOk(f, fr))
    && (PredExcept(f, fr.destination, Exempt(fr)) <==> ExitFlag(fr))
  }

  function Lo(fr: Frame): Block {
    if fr.LoopFrame? then fr.header else fr.destination
  }

  function Hi(fr: Frame): Block {
    if fr.IfFrame? && fr.elseData.WithElse? then fr.elseData.elseBlock else fr.destination
  }

  /** Blocks of outer frames were created before those of inner ones. */
  predicate Ordered(ctrl: seq<Frame>) {
    forall i, j :: 0 <= i < j < |ctrl| && IsReal(ctrl[j]) ==> Hi(ctrl[i]) < Lo(ctrl[j])
  }

  predicate RealPrefix(ctrl: seq<Frame>) {
    forall i, j :: 0 <= i < j < |ctrl| && IsReal(ctrl[j]) ==> IsReal(ctrl[i])
  }

  // ---------------------------------------------------------------- the invariant

  ghost predicate At(v: VState, t: TState, i: nat)
    requires |v.ctrls| == |t.ctrl| && i < |t.ctrl|
  {
    && ShapeOk(v.ctrls[i], t.ctrl[i])
    && (IsReal(t.ctrl[i]) ==>
          && FrameOk(t.f, t.ctrl[i])
          && Floor(t.ctrl[i]) == v.ctrls[i].height + DupUpTo(t.ctrl, i + 1)
          && Floor(t.ctrl[i]) <= |t.stack|)
    && (!IsReal(t.ctrl[i]) ==> t.ctrl[i].origSize == |t.stack|)
    && (i + 1 < |t.ctrl| && IsReal(t.ctrl[i + 1]) ==> !v.ctrls[i].unreachable)
  }

  /** Where new code goes. */
  ghost predicate CursorOk(v: VState, t: TState)
    requires |v.ctrls| == |t.ctrl|
  {
    && IsBlock(t.f, t.f.cur)
    && (!t.reachable ==> Filled(t.f, t.f.cur))
    && (t.reachable ==>
          && !Filled(t.f, t.f.cur)
          && (t.f.cur == ENTRY || HasPred(t.f, t.f.cur))
          && (forall i :: 0 <= i < |t.ctrl| ==> IsReal(t.ctrl[i]))
          && (t.ctrl != [] ==> !Top(v).unreachable)
          && |t.stack| == v.opds + DupUpTo(t.ctrl, |t.ctrl|))
  }

  /** Every branch goes to an existing block. */
  ghost predicate Closed(f: Func) {
    forall p, b :: Edge(f, p, b) ==> IsBlock(f, b)
  }

  ghost predicate Inv(v: VState, t: TState) {
    && VOk(v) && |v.ctrls| == |t.ctrl| && Closed(t.f)
    && Ordered(t.ctrl) && RealPrefix(t.ctrl)
    && CursorOk(v, t)
    && forall i :: 0 <= i < |t.ctrl| ==> At(v, t, i)
  }

  // ---------------------------------------------------------------- builder steps and pending blocks

  /** Only the current block and new blocks were written to. */
  ghost predicate KeepsOld(f: Func, f': Func) {
    && IsBlock(f, f.cur) && |f.blocks| <= |f'.blocks|
    && (forall b :: IsBlock(f, b) && b != f.cur ==> f'.blocks[b] == f.blocks[b])
    && f'.blocks[f.cur].params == f.blocks[f.cur].params && f'.blocks[f.cur].sealed == f.blocks[f.cur].sealed
    && (Filled(f, f.cur) ==> f'.blocks[f.cur] == f.blocks[f.cur])
    && (f'.cur == f.cur || |f.blocks| <= f'.cur)
    && f.nextValue <= f'.nextValue
  }

  /** The new edges go exactly to `targets`. */
  ghost predicate NewEdges(f: Func, f': Func, targets: iset<Block>) {
    && (forall p, b :: Edge(f', p, b) && !Edge(f, p, b) ==> b in targets)
    && (forall b :: b in targets ==> IsBlock(f', b) && exists p :: Edge(f', p, b) && !Edge(f, p, b))
  }

  ghost predicate Extends(f: Func, f': Func, targets: iset<Block>) {
    KeepsOld(f, f') && NewEdges(f, f', targets)
  }

  lemma ExtendsClosed(f: Func, f': Func, targets: iset<Block>)
    requires Extends(f, f', targets) && Closed(f)
    ensures Closed(f')
  {
    forall p, b | Edge(f', p, b) ensures IsBlock(f', b) {
      if Edge(f, p, b) {
        assert IsBlock(f, b);
      }
    }
  }

  lemma OldEdges(f: Func, f': Func, targets: iset<Block>, p: Block, b: Block)
    requires Extends(f, f', targets) && Edge(f, p, b)
    ensures Edge(f', p, b)
  {
  }

  lemma ExtendsBlank(f: Func, f': Func, targets: iset<Block>, b: Block, n: nat, sealed: bool)
    requires Extends(f, f', targets) && Blank(f, b, n, sealed)
    ensures Blank(f', b, n, sealed)
  {
  }

  lemma ExtendsHasPred(f: Func, f': Func, targets: iset<Block>, b: Block)
    requires Extends(f, f', targets) && HasPred(f, b)
    ensures HasPred(f', b)
  {
    var p :| Edge(f, p, b);
    OldEdges(f, f', targets, p, b);
  }

  lemma ExtendsPred(f: Func, f': Func, targets: iset<Block>, b: Block, x: Block)
    requires Extends(f, f', targets) && (IsBlock(f, x) ==> Filled(f, x))
    requires !IsBlock(f, x) ==> x == RESERVED
    ensures PredExcept(f', b, x) <==> PredExcept(f, b, x) || b in targets
  {
    if PredExcept(f', b, x) && !PredExcept(f, b, x) {
      var p :| p != x && Edge(f', p, b);
      assert !Edge(f, p, b);
    }
    if PredExcept(f, b, x) {
      var p :| p != x && Edge(f, p, b);
      OldEdges(f, f', targets, p, b);
    }
    if b in targets {
      var p :| Edge(f', p, b) && !Edge(f, p, b);
      assert p != x;
    }
  }

  /** The frame after code that branches to `targets` was added. */
  function Branched(fr: Frame, hit: bool): Frame {
    if hit then SetBranched(fr) else fr
  }

  lemma ExtendsHead(f: Func, f': Func, targets: iset<Block>, p: Block, dest: Block, n: nat)
    requires Extends(f, f', targets) && HeadOk(f, p, dest, n)
    ensures HeadOk(f', p, dest, n)
  {
  }

  lemma ExtendsElse(f: Func, f': Func, targets: iset<Block>, fr: Frame)
    requires Extends(f, f', targets) && fr.IfFrame? && ElseOk(f, fr)
    ensures ElseOk(f', fr)
  {
    hide Extends, Blank, HeadOk, HasPred;
    if fr.consequentEnds.Nothing? {
      match fr.elseData
      case NoElse(branch, _) => ExtendsHead(f, f', targets, branch, fr.destination, fr.numParams);
      case WithElse(elseBlock) =>
        ExtendsBlank(f, f', targets, elseBlock, fr.numParams, true);
        ExtendsHasPred(f, f', targets, elseBlock);
    }
    ExtendsSize(f, f', targets);
  }

  lemma ExtendsSize(f: Func, f': Func, targets: iset<Block>)
    requires Extends(f, f', targets)
    ensures |f.blocks| <= |f'.blocks|
  {
  }

  /** Adding code keeps a pending frame in order, once its exit flag says whether it is branched to. */
  lemma ExtendsFrame(f: Func, f': Func, targets: iset<Block>, fr: Frame)
    requires Extends(f, f', targets) && FrameOk(f, fr) && (fr.LoopFrame? ==> fr.destination !in targets)
    ensures FrameOk(f', Branched(fr, fr.destination in targets))
  {
    var d := fr.destination;
    assert IsBlock(f, Exempt(fr)) ==> Filled(f, Exempt(fr));
    ExtendsPred(f, f', targets, d, Exempt(fr));
    ExtendsBlank(f, f', targets, d, fr.numResults, false);
    if fr.IfFrame? {
      ExtendsElse(f, f', targets, fr);
      assert ElseOk(f', SetBranched(fr));
    }
    if fr.LoopFrame? {
      assert f'.blocks[fr.header].params == f.blocks[fr.header].params;
    }
  }

  // ---------------------------------------------------------------- composing builder steps

  lemma KeepsCompose(f: Func, f': Func, f'': Func)
    requires KeepsOld(f, f') && KeepsOld(f', f'')
    ensures KeepsOld(f, f'')
  {
  }

  lemma ExtendsCompose(f: Func, f': Func, f'': Func, a: iset<Block>, b: iset<Block>)
    requires Extends(f, f', a) && Extends(f', f'', b)
    ensures Extends(f, f'', a + b)
  {
    KeepsCompose(f, f', f'');
    ExtendsSize(f', f'', b);
    forall p, x | Edge(f, p, x) ensures Edge(f', p, x) { OldEdges(f, f', a, p, x); }
    forall p, x | Edge(f', p, x) ensures Edge(f'', p, x) { OldEdges(f', f'', b, p, x); }
    hide KeepsOld, Edge;
    forall x | x in a ensures exists p :: Edge(f'', p, x) && !Edge(f, p, x) {
      var p :| Edge(f', p, x) && !Edge(f, p, x);
      assert Edge(f'', p, x);
    }
    forall x | x in b ensures exists p :: Edge(f'', p, x) && !Edge(f, p, x) {
      var p :| Edge(f'', p, x) && !Edge(f', p, x);
      assert !Edge(f, p, x);
    }
  }

  lemma SameEdges(f: Func, f': Func, g: Func, targets: iset<Block>)
    requires NewEdges(f, f', targets) && |f'.blocks| <= |g.blocks| && forall p, c :: Edge(g, p, c) <==> Edge(f', p, c)
    ensures NewEdges(f, g, targets)
  {
    hide Edge;
    forall x | x in targets ensures exists p :: Edge(g, p, x) && !Edge(f, p, x) {
      var p :| Edge(f', p, x) && !Edge(f, p, x);
      assert Edge(g, p, x);
    }
  }

  lemma CreateExtends(f: Func, n: nat)
    requires IsBlock(f, f.cur)
    ensures Extends(f, CreateBlock(f, n), iset{})
    ensures
      var f' := CreateBlock(f, n);
      && f'.cur == f.cur && |f'.blocks| == |f.blocks| + 1
      && Blank(f', |f.blocks|, n, false)
      && (forall p, b :: Edge(f', p, b) <==> Edge(f, p, b))
      && forall b :: IsBlock(f, b) ==> f'.blocks[b] == f.blocks[b]
  {
    var f' := CreateBlock(f, n);
    assert forall p, b :: Edge(f', p, b) <==> Edge(f, p, b);
  }

  lemma SealNew(f: Func, f': Func, targets: iset<Block>, b: Block)
    requires Extends(f, f', targets) && |f.blocks| <= b && IsBlock(f', b) && !f'.blocks[b].sealed
    ensures Seal(f', b).Ok?
    ensures
      var g := Seal(f', b).value;
      && Extends(f, g, targets) && g.cur == f'.cur && |g.blocks| == |f'.blocks| && g.nextValue == f'.nextValue
      && g.blocks[b] == f'.blocks[b].(sealed := true)
      && (forall c :: IsBlock(f', c) && c != b ==> g.blocks[c] == f'.blocks[c])
      && (forall p, c :: Edge(g, p, c) <==> Edge(f', p, c))
  {
    var g := Seal(f', b).value;
    assert forall p, c :: Edge(g, p, c) <==> Edge(f', p, c);
    SameEdges(f, f', g, targets);
  }

  lemma SwitchNew(f: Func, f': Func, targets: iset<Block>, b: Block)
    requires Extends(f, f', targets) && |f.blocks| <= b && IsBlock(f', b) && !Filled(f', b)
    requires IsBlock(f', f'.cur) && Filled(f', f'.cur)
    ensures SwitchTo(f', b).Ok? && Extends(f, SwitchTo(f', b).value, targets)
    ensures
      var g := SwitchTo(f', b).value;
      g == f'.(cur := b) && forall p, c :: Edge(g, p, c) <==> Edge(f', p, c)
  {
    var g := SwitchTo(f', b).value;
    assert forall p, c :: Edge(g, p, c) <==> Edge(f', p, c);
    SameEdges(f, f', g, targets);
  }
}
