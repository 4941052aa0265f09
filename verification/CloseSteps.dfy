/** `else` and `end` of a frame that was entered in reachable code keep the translation
    invariant, and decide reachability exactly. */
module CloseSteps {
  import opened Cfg
  import opened Validation
  import opened Translation
  import opened TranslationInvariant
  import opened LiveSteps

  // ---------------------------------------------------------------- outer frames

  /** Blocks are sealed and switched to, from block `lo` on. */
  ghost predicate Settles(f: Func, g: Func, lo: Block) {
    && |g.blocks| == |f.blocks| && g.nextValue == f.nextValue
    && (forall b :: IsBlock(f, b) ==>
          && g.blocks[b].params == f.blocks[b].params && g.blocks[b].body == f.blocks[b].body
          && g.blocks[b].term == f.blocks[b].term
          && (b < lo ==> g.blocks[b].sealed == f.blocks[b].sealed))
    && (g.cur == f.cur || lo <= g.cur)
  }

  lemma SettlesEdges(f: Func, g: Func, lo: Block)
    requires Settles(f, g, lo)
    ensures forall p, b :: Edge(g, p, b) <==> Edge(f, p, b)
  {
  }

  lemma SameEdgesSamePreds(f: Func, g: Func, b: Block)
    requires forall p, c :: Edge(g, p, c) <==> Edge(f, p, c)
    ensures HasPred(g, b) <==> HasPred(f, b)
    ensures forall x :: PredExcept(g, b, x) <==> PredExcept(f, b, x)
  {
    hide Edge;
    if HasPred(g, b) {
      var p :| Edge(g, p, b);
      assert Edge(f, p, b);
    }
    if HasPred(f, b) {
      var p :| Edge(f, p, b);
      assert Edge(g, p, b);
    }
    forall x ensures PredExcept(g, b, x) <==> PredExcept(f, b, x) {
      if PredExcept(g, b, x) {
        var p :| p != x && Edge(g, p, b);
        assert Edge(f, p, b);
      }
      if PredExcept(f, b, x) {
        var p :| p != x && Edge(f, p, b);
        assert Edge(g, p, b);
      }
    }
  }

  lemma SettlesElse(f: Func, g: Func, lo: Block, fr: Frame)
    requires Settles(f, g, lo) && fr.IfFrame? && ElseOk(f, fr) && Hi(fr) < lo
    ensures ElseOk(g, fr)
  {
    hide HasPred;
    SettlesEdges(f, g, lo);
    SameEdgesSamePreds(f, g, Hi(fr));
  }

  lemma SettlesFrame(f: Func, g: Func, lo: Block, fr: Frame)
    requires Settles(f, g, lo) && FrameOk(f, fr) && Hi(fr) < lo
    ensures FrameOk(g, fr)
  {
    hide PredExcept, ElseOk;
    HiIsMax(f, fr);
    SettlesEdges(f, g, lo);
    SameEdgesSamePreds(f, g, fr.destination);
    if fr.IfFrame? {
      SettlesElse(f, g, lo, fr);
    }
  }

  /** The branch that ends `p` goes to `to` instead of `from`. */
  ghost predicate Repoints(f: Func, g: Func, p: Block, from: Block, to: Block) {
    && |g.blocks| == |f.blocks| && g.nextValue == f.nextValue && g.cur == f.cur && IsBlock(f, p)
    && (forall b :: IsBlock(f, b) && b != p ==> g.blocks[b] == f.blocks[b])
    && g.blocks[p].params == f.blocks[p].params && g.blocks[p].sealed == f.blocks[p].sealed
    && g.blocks[p].body == f.blocks[p].body
    && f.blocks[p].term.Just? && f.blocks[p].term.it.Brif? && f.blocks[p].term.it.els == from
    && f.blocks[p].term.it.thn != from && from != to
    && g.blocks[p].term == Just(f.blocks[p].term.it.(els := to))
  }

  lemma RepointsEdges(f: Func, g: Func, p: Block, from: Block, to: Block)
    requires Repoints(f, g, p, from, to)
    ensures forall q, c :: c != from && c != to ==> (Edge(g, q, c) <==> Edge(f, q, c))
    ensures forall q :: Edge(g, q, from) <==> q != p && Edge(f, q, from)
    ensures Edge(g, p, to)
    ensures forall q :: Edge(g, q, to) ==> q == p || Edge(f, q, to)
  {
  }

  lemma RepointsPreds(f: Func, g: Func, p: Block, from: Block, to: Block, b: Block)
    requires Repoints(f, g, p, from, to) && b != from && b != to
    ensures HasPred(g, b) <==> HasPred(f, b)
    ensures forall x :: PredExcept(g, b, x) <==> PredExcept(f, b, x)
  {
    RepointsEdges(f, g, p, from, to);
    hide Edge, Repoints;
    if HasPred(g, b) {
      var q :| Edge(g, q, b);
      assert Edge(f, q, b);
    }
    if HasPred(f, b) {
      var q :| Edge(f, q, b);
      assert Edge(g, q, b);
    }
    forall x ensures PredExcept(g, b, x) <==> PredExcept(f, b, x) {
      if PredExcept(g, b, x) {
        var q :| q != x && Edge(g, q, b);
        assert Edge(f, q, b);
      }
      if PredExcept(f, b, x) {
        var q :| q != x && Edge(f, q, b);
        assert Edge(g, q, b);
      }
    }
  }

  lemma RepointsElse(f: Func, g: Func, p: Block, from: Block, to: Block, fr: Frame)
    requires Repoints(f, g, p, from, to) && fr.IfFrame? && ElseOk(f, fr)
    requires Hi(fr) < from < to && fr.destination != from
    ensures ElseOk(g, fr)
  {
    hide HasPred;
    RepointsPreds(f, g, p, from, to, Hi(fr));
  }

  lemma RepointsFrame(f: Func, g: Func, p: Block, from: Block, to: Block, fr: Frame)
    requires Repoints(f, g, p, from, to) && FrameOk(f, fr) && Hi(fr) < from < to
    ensures FrameOk(g, fr)
  {
    hide PredExcept, ElseOk;
    HiIsMax(f, fr);
    RepointsPreds(f, g, p, from, to, fr.destination);
    if fr.IfFrame? {
      RepointsElse(f, g, p, from, to, fr);
    }
  }

  // ---------------------------------------------------------------- else

  /** The frame once its `else` was met. */
  function Elsed(fr: Frame, reachable: bool): Frame
    requires fr.IfFrame?
  {
    fr.(consequentEnds := Just(reachable))
  }

  /** The builder calls that give an `if` its `else` block, the last block created. */
  lemma PatchBuilds(f: Func, fr: Frame)
    requires fr.IfFrame? && fr.elseData.NoElse? && fr.consequentEnds.Nothing? && ElseOk(f, fr)
    requires IsBlock(f, f.cur) && Filled(f, f.cur) && fr.destination < |f.blocks| - 1
    requires Blank(f, |f.blocks| - 1, fr.numParams, false) && Blank(f, fr.destination, fr.numResults, false)
    ensures PatchElse(f, fr).Ok? && PatchElse(f, fr).value.1 == |f.blocks| - 1
    ensures SwitchTo(PatchElse(f, fr).value.0, |f.blocks| - 1).Ok?
    ensures
      var els := |f.blocks| - 1;
      var g := ChangeJumpDestination(f, fr.elseData.branch, fr.destination, els);
      var h := SwitchTo(PatchElse(f, fr).value.0, els).value;
      && g.Ok? && Repoints(f, g.value, fr.elseData.branch, fr.destination, els)
      && Settles(g.value, h, els) && h.cur == els && h.blocks[els] == f.blocks[els].(sealed := true)
  {
    hide HasPred;
  }

  lemma PatchedTop(f: Func, g: Func, h: Func, fr: Frame, els: Block, reachable: bool)
    requires fr.IfFrame? && fr.elseData.NoElse? && fr.consequentEnds.Nothing?
    requires Repoints(f, g, fr.elseData.branch, fr.destination, els) && Settles(g, h, els)
    requires fr.destination < els && ENTRY < fr.destination && Blank(f, fr.destination, fr.numResults, false) && h.cur == els
    requires fr.elseData.placeholder == fr.destination
    requires PredExcept(f, fr.destination, fr.elseData.branch) <==> fr.exitBranched || reachable
    ensures FrameOk(h, Elsed(fr, reachable)) && HasPred(h, els)
  {
    RepointsEdges(f, g, fr.elseData.branch, fr.destination, els);
    SettlesEdges(g, h, els);
    assert Blank(h, fr.destination, fr.numResults, false);
    hide Edge, Repoints, Settles;
    assert Edge(h, fr.elseData.branch, els);
    if PredExcept(h, fr.destination, RESERVED) {
      var q :| Edge(h, q, fr.destination);
      assert Edge(f, q, fr.destination) && q != fr.elseData.branch;
    }
    if PredExcept(f, fr.destination, fr.elseData.branch) {
      var q :| q != fr.elseData.branch && Edge(f, q, fr.destination);
      assert Edge(h, q, fr.destination);
      EdgeFromBlock(h, q, fr.destination);
    }
  }

  lemma EdgeFromBlock(f: Func, p: Block, b: Block)
    requires Edge(f, p, b)
    ensures p != RESERVED
  {
  }

  // ---------------------------------------------------------------- the invariant when the innermost frame changes

  lemma TopFacts(v: VState, t: TState)
    requires Inv(v, t) && t.ctrl != [] && IsReal(TopFrame(t))
    ensures |v.ctrls| == |t.ctrl| && VOk(v) && Closed(t.f)
    ensures FrameOk(t.f, TopFrame(t)) && ShapeOk(Top(v), TopFrame(t))
    ensures 0 <= BaseSize(TopFrame(t)) == Top(v).height + DupUpTo(t.ctrl, |t.ctrl| - 1) <= Floor(TopFrame(t)) <= |t.stack|
    ensures IsBlock(t.f, t.f.cur) && (t.reachable <==> !Filled(t.f, t.f.cur))
  {
    hide FrameOk, Closed, Ordered, RealPrefix, HasPred;
    assert At(v, t, |t.ctrl| - 1);
  }

  lemma OuterFacts(v: VState, t: TState, i: nat)
    requires Inv(v, t) && i + 1 < |t.ctrl| && IsReal(TopFrame(t))
    ensures IsReal(t.ctrl[i]) && FrameOk(t.f, t.ctrl[i]) && Hi(t.ctrl[i]) < Lo(TopFrame(t))
    ensures Floor(t.ctrl[i]) <= BaseSize(TopFrame(t))
  {
    TopFacts(v, t);
    hide FrameOk, Closed, HasPred;
    assert At(v, t, i);
    assert IsReal(t.ctrl[i]) && Hi(t.ctrl[i]) < Lo(TopFrame(t));
    HeightsNested(v, i, |t.ctrl| - 1);
    DupsNested(t.ctrl, i + 1, |t.ctrl| - 1);
  }

  lemma InnerReal(v: VState, t: TState, i: nat)
    requires Inv(v, t) && i < |t.ctrl| && IsReal(TopFrame(t))
    ensures IsReal(t.ctrl[i]) && At(v, t, i)
  {
    hide At, Ordered;
    assert i + 1 < |t.ctrl| ==> IsReal(t.ctrl[i]);
  }

  lemma OuterAt(v: VState, t: TState, v': VState, t': TState, i: nat)
    requires Inv(v, t) && i + 1 < |t.ctrl| && IsReal(TopFrame(t))
    requires |v'.ctrls| == |t'.ctrl| && i < |t'.ctrl| && v'.ctrls[i] == v.ctrls[i]
    requires forall j :: 0 <= j <= i ==> t'.ctrl[j] == t.ctrl[j]
    requires FrameOk(t'.f, t.ctrl[i]) && BaseSize(TopFrame(t)) <= |t'.stack|
    ensures At(v', t', i) && IsReal(t'.ctrl[i])
  {
    OuterFacts(v, t, i);
    InnerReal(v, t, i);
    InnerReal(v, t, i + 1);
    hide Inv, FrameOk, ShapeOk;
    DupSame(t'.ctrl, t.ctrl, i + 1);
  }

  ghost predicate OuterOk(f: Func, ctrl: seq<Frame>) {
    forall i :: 0 <= i < |ctrl| - 1 ==> FrameOk(f, ctrl[i])
  }

  lemma SameOrder(ctrl: seq<Frame>, ctrl': seq<Frame>)
    requires Ordered(ctrl) && RealPrefix(ctrl) && |ctrl'| <= |ctrl|
    requires forall i :: 0 <= i < |ctrl'| ==>
               IsReal(ctrl'[i]) == IsReal(ctrl[i]) && Lo(ctrl'[i]) == Lo(ctrl[i]) && Hi(ctrl'[i]) == Hi(ctrl[i])
    ensures Ordered(ctrl') && RealPrefix(ctrl')
  {
  }

  lemma InvOrdered(v: VState, t: TState)
    requires Inv(v, t)
    ensures Ordered(t.ctrl) && RealPrefix(t.ctrl)
  {
    hide At, Ordered, RealPrefix, CursorOk, VOk, Closed;
  }

  /** The `else` of an `if` entered in reachable code: from here on the code is reachable. */
  lemma ElseReopens(v: VState, t: TState, t': TState)
    requires Inv(v, t) && t.ctrl != [] && IsReal(TopFrame(t)) && TopFrame(t).IfFrame? && Validate(v, ElseOp).Just?
    requires t'.ctrl == ReplaceTop(t.ctrl, Elsed(TopFrame(t), t.reachable)) && t'.reachable
    requires OuterOk(t'.f, t.ctrl) && FrameOk(t'.f, TopFrame(t')) && Closed(t'.f)
    requires |t'.stack| == TopFrame(t).origSize
    requires IsBlock(t'.f, t'.f.cur) && !Filled(t'.f, t'.f.cur) && HasPred(t'.f, t'.f.cur)
    ensures Inv(Validate(v, ElseOp).it, t')
  {
    hide Inv, Validate, FrameOk, Closed, HasPred, Ordered, RealPrefix;
    TopFacts(v, t);
    ValidElse(v);
    ValidateKeeps(v, ElseOp);
    var v' := Validate(v, ElseOp).it;
    var n := |t.ctrl| - 1;
    InvOrdered(v, t);
    SameOrder(t.ctrl, t'.ctrl);
    DupSame(t'.ctrl, t.ctrl, n);
    assert DupUpTo(t'.ctrl, n + 1) == DupUpTo(t.ctrl, n);
    forall i | 0 <= i < n ensures At(v', t', i) && IsReal(t'.ctrl[i]) {
      OuterAt(v, t, v', t', i);
    }
    NewFrameAt(v', t', n);
    ElseCursor(v', t');
    InvIntro(v', t');
  }

  lemma ElseCursor(v: VState, t: TState)
    requires |v.ctrls| == |t.ctrl| && t.reachable && t.ctrl != [] && !Top(v).unreachable
    requires forall i :: 0 <= i < |t.ctrl| ==> IsReal(t.ctrl[i])
    requires IsBlock(t.f, t.f.cur) && !Filled(t.f, t.f.cur) && HasPred(t.f, t.f.cur)
    requires |t.stack| == v.opds + DupUpTo(t.ctrl, |t.ctrl|)
    ensures CursorOk(v, t)
  {
  }

  lemma InvIntro(v: VState, t: TState)
    requires VOk(v) && |v.ctrls| == |t.ctrl| && Closed(t.f) && Ordered(t.ctrl) && RealPrefix(t.ctrl) && CursorOk(v, t)
    requires forall i :: 0 <= i < |t.ctrl| ==> At(v, t, i)
    ensures Inv(v, t)
  {
    hide At, Ordered, RealPrefix, CursorOk, VOk, Closed;
  }

  /** The `end` of a frame entered in reachable code. */
  lemma EndCloses(v: VState, t: TState, t': TState)
    requires Inv(v, t) && t.ctrl != [] && IsReal(TopFrame(t)) && Validate(v, EndOp).Just?
    requires t'.ctrl == t.ctrl[..|t.ctrl| - 1]
    requires OuterOk(t'.f, t.ctrl) && Closed(t'.f) && IsBlock(t'.f, t'.f.cur)
    requires |t'.stack| == BaseSize(TopFrame(t)) + if t'.reachable then TopFrame(t).numResults else 0
    requires !t'.reachable ==> Filled(t'.f, t'.f.cur)
    requires t'.reachable ==> !Filled(t'.f, t'.f.cur) && HasPred(t'.f, t'.f.cur)
    ensures Inv(Validate(v, EndOp).it, t')
  {
    hide Inv, Validate, FrameOk, Closed, HasPred, Ordered, RealPrefix, At;
    TopFacts(v, t);
    ValidEnd(v);
    ValidateKeeps(v, EndOp);
    var v' := Validate(v, EndOp).it;
    var n := |t.ctrl| - 1;
    InvOrdered(v, t);
    SameOrder(t.ctrl, t'.ctrl);
    DupSame(t'.ctrl, t.ctrl, n);
    forall i | 0 <= i < n ensures At(v', t', i) && IsReal(t'.ctrl[i]) {
      OuterAt(v, t, v', t', i);
    }
    if n > 0 {
      OuterReachable(v, t);
    }
    InvIntro(v', t');
  }

  /** Code around a frame entered in reachable code was reachable there. */
  lemma OuterReachable(v: VState, t: TState)
    requires Inv(v, t) && |t.ctrl| >= 2 && IsReal(TopFrame(t))
    ensures !v.ctrls[|t.ctrl| - 2].unreachable
  {
    hide FrameOk, ShapeOk, Ordered, RealPrefix, Closed, CursorOk;
    assert At(v, t, |t.ctrl| - 2);
  }

  // ---------------------------------------------------------------- the steps of else

  /** Code that branches at most to the innermost destination leaves the outer frames as they are. */
  lemma OuterExtends(v: VState, t: TState, f': Func, targets: iset<Block>)
    requires Inv(v, t) && t.ctrl != [] && IsReal(TopFrame(t)) && Extends(t.f, f', targets)
    requires forall b :: b in targets ==> Lo(TopFrame(t)) <= b
    ensures OuterOk(f', t.ctrl)
  {
    hide Inv, FrameOk, Extends;
    forall i | 0 <= i < |t.ctrl| - 1 ensures FrameOk(f', t.ctrl[i]) {
      OuterFacts(v, t, i);
      HiIsMax(t.f, t.ctrl[i]);
      ExtendsFrame(t.f, f', targets, t.ctrl[i]);
    }
  }

  lemma OuterSettles(v: VState, t: TState, f: Func, g: Func, lo: Block)
    requires Inv(v, t) && t.ctrl != [] && IsReal(TopFrame(t)) && OuterOk(f, t.ctrl)
    requires Settles(f, g, lo) && Lo(TopFrame(t)) <= lo
    ensures OuterOk(g, t.ctrl)
  {
    hide Inv, FrameOk, Settles;
    forall i | 0 <= i < |t.ctrl| - 1 ensures FrameOk(g, t.ctrl[i]) {
      OuterFacts(v, t, i);
      SettlesFrame(f, g, lo, t.ctrl[i]);
    }
  }

  lemma OuterRepoints(v: VState, t: TState, f: Func, g: Func, p: Block, from: Block, to: Block)
    requires Inv(v, t) && t.ctrl != [] && IsReal(TopFrame(t)) && OuterOk(f, t.ctrl)
    requires Repoints(f, g, p, from, to) && Lo(TopFrame(t)) <= from < to
    ensures OuterOk(g, t.ctrl)
  {
    hide Inv, FrameOk, Repoints;
    forall i | 0 <= i < |t.ctrl| - 1 ensures FrameOk(g, t.ctrl[i]) {
      OuterFacts(v, t, i);
      RepointsFrame(f, g, p, from, to, t.ctrl[i]);
    }
  }

  lemma SettlesClosed(f: Func, g: Func, lo: Block)
    requires Settles(f, g, lo) && Closed(f)
    ensures Closed(g)
  {
    SettlesEdges(f, g, lo);
    hide Edge;
  }

  lemma RepointsClosed(f: Func, g: Func, p: Block, from: Block, to: Block)
    requires Repoints(f, g, p, from, to) && Closed(f) && IsBlock(f, to)
    ensures Closed(g)
  {
    RepointsEdges(f, g, p, from, to);
    forall q, b | Edge(g, q, b) ensures IsBlock(g, b) {
      if b != from && b != to {
        assert Edge(f, q, b);
      }
    }
  }

  /** What the consequent's end branches to. */
  ghost function EndTargets(fr: Frame, reachable: bool): iset<Block> {
    if reachable then iset{fr.destination} else iset{}
  }

  lemma PatchKeeps(v: VState, t: TState, f: Func, t': TState)
    requires Inv(v, t) && t.ctrl != [] && IsReal(TopFrame(t)) && TopFrame(t).IfFrame? && Validate(v, ElseOp).Just?
    requires TopFrame(t).elseData.NoElse? && TopFrame(t).consequentEnds.Nothing?
    requires Extends(t.f, f, EndTargets(TopFrame(t), t.reachable)) && |f.blocks| == |t.f.blocks| + 1
    requires Blank(f, |t.f.blocks|, TopFrame(t).numParams, false) && IsBlock(f, f.cur) && Filled(f, f.cur)
    requires t'.ctrl == ReplaceTop(t.ctrl, Elsed(TopFrame(t), t.reachable)) && t'.reachable
    requires |t'.stack| == TopFrame(t).origSize
    ensures PatchElse(f, TopFrame(t)).Ok? && PatchElse(f, TopFrame(t)).value.1 == |f.blocks| - 1
    ensures SwitchTo(PatchElse(f, TopFrame(t)).value.0, |f.blocks| - 1).Ok?
    ensures t'.f == SwitchTo(PatchElse(f, TopFrame(t)).value.0, |f.blocks| - 1).value ==> Inv(Validate(v, ElseOp).it, t')
  {
    hide Inv, Validate, Extends, HasPred, PatchElse, SwitchTo, Repoints, Settles, ChangeJumpDestination, PredExcept, OuterOk,
         Closed, Blank;
    var fr, targets := TopFrame(t), EndTargets(TopFrame(t), t.reachable);
    TopFacts(v, t);
    ExtendsElse(t.f, f, targets, fr);
    ExtendsBlank(t.f, f, targets, fr.destination, fr.numResults, false);
    BlankIsBlock(t.f, fr.destination, fr.numResults);
    PatchBuilds(f, fr);
    var els := |f.blocks| - 1;
    var g := ChangeJumpDestination(f, fr.elseData.branch, fr.destination, els).value;
    var h := SwitchTo(PatchElse(f, fr).value.0, els).value;
    HeadFilled(t.f, fr);
    ExtendsPred(t.f, f, targets, fr.destination, fr.elseData.branch);
    PatchedTop(f, g, h, fr, els, t.reachable);
    OuterExtends(v, t, f, targets);
    OuterRepoints(v, t, f, g, fr.elseData.branch, fr.destination, els);
    OuterSettles(v, t, g, h, els);
    ExtendsClosed(t.f, f, targets);
    RepointsClosed(f, g, fr.elseData.branch, fr.destination, els);
    SettlesClosed(g, h, els);
    SettlesSize(f, g, h, fr.elseData.branch, fr.destination, els);
    UnfilledBlank(f, els, fr.numParams);
    if t'.f == h {
      ElseReopens(v, t, t');
    }
  }

  lemma BlankIsBlock(f: Func, b: Block, n: nat)
    requires Blank(f, b, n, false)
    ensures IsBlock(f, b)
  {
  }

  lemma UnfilledBlank(f: Func, b: Block, n: nat)
    requires Blank(f, b, n, false)
    ensures IsBlock(f, b) && !Filled(f, b)
  {
  }

  lemma SettlesSize(f: Func, g: Func, h: Func, p: Block, from: Block, els: Block)
    requires Repoints(f, g, p, from, els) && Settles(g, h, els)
    ensures |h.blocks| == |f.blocks|
  {
  }

  lemma HeadFilled(f: Func, fr: Frame)
    requires fr.IfFrame? && ElseOk(f, fr) && fr.elseData.NoElse? && fr.consequentEnds.Nothing?
    ensures IsBlock(f, fr.elseData.branch) && Filled(f, fr.elseData.branch)
  {
  }

  lemma ElseShape(v: VState, t: TState)
    requires Inv(v, t) && t.ctrl != [] && IsReal(TopFrame(t)) && Validate(v, ElseOp).Just?
    ensures
      var fr := TopFrame(t);
      && fr.IfFrame? && fr.headReachable && fr.consequentEnds.Nothing? && fr.numParams == |fr.bt.params|
      && (fr.elseData.NoElse? ==> fr.numParams == fr.numResults)
      && fr.origSize <= |t.stack| && (t.reachable ==> |t.stack| == fr.origSize + fr.numResults)
  {
    hide Inv, Validate, FrameOk;
    TopFacts(v, t);
    ValidElse(v);
    if t.reachable {
      LiveFacts(v, t);
      StackHeight(v, t);
    }
  }

  lemma ElseNoElseLive(v: VState, t: TState)
    requires Inv(v, t) && t.reachable && t.ctrl != [] && IsReal(TopFrame(t)) && Validate(v, ElseOp).Just?
    requires TopFrame(t).IfFrame? && TopFrame(t).elseData.NoElse?
    ensures TransElse(t).Ok? && Inv(Validate(v, ElseOp).it, TransElse(t).value)
  {
    hide Inv, Validate, Extends, HasPred, PatchElse, SwitchTo, PredExcept, Terminate, CreateBlock, FrameOk, ShapeOk;
    ElseShape(v, t);
    LiveFacts(v, t);
    var fr := TopFrame(t);
    var np := |fr.bt.params|;
    CreateExtends(t.f, np);
    var f1 := CreateBlock(t.f, np);
    var args := PeekN(t.stack, np).value;
    var term := Jump(fr.destination, args);
    EndEdgeOk(v, t);
    EdgeStays(t.f, np, fr.destination, fr.numResults);
    TerminateExtends(f1, term);
    var f2 := Terminate(f1, term).value;
    ExtendsCompose(t.f, f1, f2, iset{}, TargetSet(term));
    assert iset{} + TargetSet(term) == EndTargets(fr, true);
    var ctrl := ReplaceTop(t.ctrl, Elsed(fr, true));
    PatchKeeps(v, t, f2, TState(f2, PopN(t.stack, np).value, ctrl, true));
    var t' := TState(SwitchTo(PatchElse(f2, fr).value.0, |f2.blocks| - 1).value, PopN(t.stack, np).value, ctrl, true);
    PatchKeeps(v, t, f2, t');
    assert TransElse(t) == Ok(t');
  }

  /** The destination takes the frame's results. */
  lemma EndEdgeOk(v: VState, t: TState)
    requires Inv(v, t) && t.ctrl != [] && IsReal(TopFrame(t))
    ensures EdgeOk(t.f, TopFrame(t).destination, TopFrame(t).numResults)
  {
    TopFacts(v, t);
    hide Inv, PredExcept, ElseOk;
  }

  lemma ElseNoElseDead(v: VState, t: TState)
    requires Inv(v, t) && !t.reachable && t.ctrl != [] && IsReal(TopFrame(t)) && Validate(v, ElseOp).Just?
    requires TopFrame(t).IfFrame? && TopFrame(t).elseData.NoElse?
    ensures DeadElse(t).Ok? && Inv(Validate(v, ElseOp).it, DeadElse(t).value)
  {
    hide Inv, Validate, Extends, HasPred, PatchElse, SwitchTo, PredExcept, CreateBlock, FrameOk, ShapeOk;
    ElseShape(v, t);
    TopFacts(v, t);
    var fr := TopFrame(t);
    CreateExtends(t.f, fr.numParams);
    var f1 := CreateBlock(t.f, fr.numParams);
    var ctrl := ReplaceTop(t.ctrl, Elsed(fr, false));
    var rest := t.stack[..fr.origSize];
    PatchKeeps(v, t, f1, TState(f1, rest, ctrl, true));
    var t' := TState(SwitchTo(PatchElse(f1, fr).value.0, |f1.blocks| - 1).value, rest, ctrl, true);
    PatchKeeps(v, t, f1, t');
    assert DeadElse(t) == Ok(t');
  }

  /** The `else` block made at the `if` is switched to after code that ended in `f`. */
  lemma SwitchElseKeeps(v: VState, t: TState, f: Func, t': TState)
    requires Inv(v, t) && t.ctrl != [] && IsReal(TopFrame(t)) && TopFrame(t).IfFrame? && Validate(v, ElseOp).Just?
    requires TopFrame(t).elseData.WithElse? && TopFrame(t).consequentEnds.Nothing?
    requires Extends(t.f, f, EndTargets(TopFrame(t), t.reachable)) && IsBlock(f, f.cur) && Filled(f, f.cur)
    requires t'.ctrl == ReplaceTop(t.ctrl, Elsed(TopFrame(t), t.reachable)) && t'.reachable
    requires |t'.stack| == TopFrame(t).origSize
    ensures SwitchTo(f, TopFrame(t).elseData.elseBlock).Ok?
    ensures t'.f == SwitchTo(f, TopFrame(t).elseData.elseBlock).value ==> Inv(Validate(v, ElseOp).it, t')
  {
    hide Inv, Validate, Extends, HasPred, Settles, PredExcept, OuterOk, Closed;
    var fr, targets := TopFrame(t), EndTargets(TopFrame(t), t.reachable);
    var els := fr.elseData.elseBlock;
    TopFacts(v, t);
    ExtendsElse(t.f, f, targets, fr);
    ExtendsBlank(t.f, f, targets, fr.destination, fr.numResults, false);
    var h := SwitchTo(f, els).value;
    assert Settles(f, h, fr.destination) by { SwitchSettles(f, els, fr.destination); }
    ExtendsPred(t.f, f, targets, fr.destination, RESERVED);
    SettlesEdges(f, h, fr.destination);
    SameEdgesSamePreds(f, h, els);
    SameEdgesSamePreds(f, h, fr.destination);
    OuterExtends(v, t, f, targets);
    OuterSettles(v, t, f, h, fr.destination);
    ExtendsClosed(t.f, f, targets);
    SettlesClosed(f, h, fr.destination);
    if t'.f == h {
      assert FrameOk(h, Elsed(fr, t.reachable));
      ElseReopens(v, t, t');
    }
  }

  lemma SwitchSettles(f: Func, b: Block, lo: Block)
    requires SwitchTo(f, b).Ok? && lo <= b
    ensures Settles(f, SwitchTo(f, b).value, lo)
  {
  }

  lemma ElseWithElse(v: VState, t: TState)
    requires Inv(v, t) && t.ctrl != [] && IsReal(TopFrame(t)) && Validate(v, ElseOp).Just?
    requires TopFrame(t).IfFrame? && TopFrame(t).elseData.WithElse?
    ensures
      var r := if t.reachable then TransElse(t) else DeadElse(t);
      r.Ok? && Inv(Validate(v, ElseOp).it, r.value)
  {
    hide Inv, Validate, Extends, HasPred, SwitchTo, PredExcept, Terminate, FrameOk, ShapeOk;
    ElseShape(v, t);
    TopFacts(v, t);
    var fr := TopFrame(t);
    var ctrl := ReplaceTop(t.ctrl, Elsed(fr, t.reachable));
    var rest := t.stack[..fr.origSize];
    var f := t.f;
    if t.reachable {
      var term := Jump(fr.destination, PeekN(t.stack, fr.numResults).value);
      EndEdgeOk(v, t);
      TerminateExtends(t.f, term);
      f := Terminate(t.f, term).value;
      assert TargetSet(term) == EndTargets(fr, true);
    } else {
      SelfExtends(t.f);
    }
    SwitchElseKeeps(v, t, f, TState(f, rest, ctrl, true));
    var t' := TState(SwitchTo(f, fr.elseData.elseBlock).value, rest, ctrl, true);
    SwitchElseKeeps(v, t, f, t');
    if t.reachable {
      assert TransElse(t) == Ok(t');
    } else {
      assert DeadElse(t) == Ok(t');
    }
  }

  // ---------------------------------------------------------------- the steps of end

  lemma CloseIntoSettles(f: Func, fr: Frame)
    requires ENTRY < fr.destination && Blank(f, fr.destination, fr.numResults, false)
    requires fr.LoopFrame? ==> ENTRY < fr.header < fr.destination && !f.blocks[fr.header].sealed
    requires IsBlock(f, f.cur) && Filled(f, f.cur)
    ensures CloseInto(f, fr).Ok?
    ensures
      var g := CloseInto(f, fr).value;
      Settles(f, g, Lo(fr)) && g.cur == fr.destination && g.blocks[g.cur].params == f.blocks[g.cur].params && !Filled(g, g.cur)
  {
  }

  /** Closing a frame after code that ended in `f`, when its destination has predecessors. */
  lemma CloseIntoKeeps(v: VState, t: TState, f: Func, t': TState)
    requires Inv(v, t) && t.ctrl != [] && IsReal(TopFrame(t)) && Validate(v, EndOp).Just?
    requires Extends(t.f, f, EndTargets(TopFrame(t), t.reachable)) && IsBlock(f, f.cur) && Filled(f, f.cur)
    requires HasPred(f, TopFrame(t).destination)
    requires t'.ctrl == t.ctrl[..|t.ctrl| - 1] && t'.reachable
    requires |t'.stack| == BaseSize(TopFrame(t)) + TopFrame(t).numResults
    ensures CloseInto(f, TopFrame(t)).Ok?
    ensures t'.f == CloseInto(f, TopFrame(t)).value ==> Inv(Validate(v, EndOp).it, t') && HasPred(t'.f, t'.f.cur)
    ensures
      var g := CloseInto(f, TopFrame(t)).value;
      g.cur == TopFrame(t).destination && IsBlock(g, g.cur) && |g.blocks[g.cur].params| == TopFrame(t).numResults
  {
    hide Inv, Validate, Extends, HasPred, Settles, PredExcept, OuterOk, Closed, CloseInto, ElseOk, Blank;
    var fr, targets := TopFrame(t), EndTargets(TopFrame(t), t.reachable);
    TopFacts(v, t);
    ExtendsBlank(t.f, f, targets, fr.destination, fr.numResults, false);
    if fr.LoopFrame? {
      BlankIsBlock(t.f, fr.destination, fr.numResults);
      ExtendsHeader(t.f, f, targets, fr.header);
    }
    CloseIntoSettles(f, fr);
    var g := CloseInto(f, fr).value;
    SettlesEdges(f, g, Lo(fr));
    SameEdgesSamePreds(f, g, fr.destination);
    OuterExtends(v, t, f, targets);
    OuterSettles(v, t, f, g, Lo(fr));
    ExtendsClosed(t.f, f, targets);
    SettlesClosed(f, g, Lo(fr));
    BlankParams(f, fr.destination, fr.numResults);
    SettlesBlock(f, g, Lo(fr), fr.destination);
    if t'.f == g {
      EndCloses(v, t, t');
    }
  }

  lemma SettlesBlock(f: Func, g: Func, lo: Block, b: Block)
    requires Settles(f, g, lo) && IsBlock(f, b)
    ensures IsBlock(g, b)
  {
  }

  lemma BlankParams(f: Func, b: Block, n: nat)
    requires Blank(f, b, n, false)
    ensures IsBlock(f, b) && |f.blocks[b].params| == n
  {
  }

  lemma ExtendsHeader(f: Func, f': Func, targets: iset<Block>, b: Block)
    requires Extends(f, f', targets) && IsBlock(f, b)
    ensures IsBlock(f', b) && f'.blocks[b].sealed == f.blocks[b].sealed
  {
  }

  lemma PredOf(f: Func, p: Block, b: Block)
    requires Edge(f, p, b)
    ensures HasPred(f, b)
  {
  }

  lemma EndLive(v: VState, t: TState)
    requires Inv(v, t) && t.reachable && t.ctrl != [] && IsReal(TopFrame(t)) && Validate(v, EndOp).Just?
    ensures TransEnd(t).Ok? && Inv(Validate(v, EndOp).it, TransEnd(t).value)
    ensures TransEnd(t).value.reachable && HasPred(TransEnd(t).value.f, TransEnd(t).value.f.cur)
  {
    hide Inv, Validate, Extends, HasPred, CloseInto, Terminate, FrameOk, ShapeOk;
    TopFacts(v, t);
    ValidEnd(v);
    LiveFacts(v, t);
    StackHeight(v, t);
    var fr := TopFrame(t);
    EndArity(v, t);
    var term := Jump(fr.destination, PeekN(t.stack, fr.numResults).value);
    EndEdgeOk(v, t);
    TerminateExtends(t.f, term);
    var f := Terminate(t.f, term).value;
    assert TargetSet(term) == EndTargets(fr, true);
    PredOf(f, t.f.cur, fr.destination);
    var ctrl := t.ctrl[..|t.ctrl| - 1];
    var dummy := seq(BaseSize(fr) + fr.numResults, _ => 0);
    CloseIntoKeeps(v, t, f, TState(f, dummy, ctrl, true));
    var g := CloseInto(f, fr).value;
    var t' := TState(g, t.stack[..BaseSize(fr)] + g.blocks[g.cur].params, ctrl, true);
    CloseIntoKeeps(v, t, f, t');
    assert TransEnd(t) == Ok(t');
  }

  lemma EndArity(v: VState, t: TState)
    requires Inv(v, t) && t.ctrl != [] && IsReal(TopFrame(t)) && Validate(v, EndOp).Just?
    ensures TopFrame(t).numResults == |Top(v).bt.results|
    ensures TopFrame(t).IfFrame? && TopFrame(t).consequentEnds.Nothing? ==> TopFrame(t).elseData.NoElse?
    ensures TopFrame(t).IfFrame? ==> TopFrame(t).headReachable
  {
    TopFacts(v, t);
    ValidEnd(v);
    hide Inv, Validate, FrameOk;
  }

  /** In unreachable code, the flags of a frame tell exactly whether its destination has predecessors. */
  lemma FlagsExact(v: VState, t: TState)
    requires Inv(v, t) && t.ctrl != [] && IsReal(TopFrame(t)) && Validate(v, EndOp).Just?
    ensures HasPred(t.f, TopFrame(t).destination) <==> ExitBranched(TopFrame(t)) || ReachableAnyway(TopFrame(t))
  {
    hide Inv, Validate, ShapeOk, ElseOk;
    TopFacts(v, t);
    EndArity(v, t);
    var fr := TopFrame(t);
    if HasPred(t.f, fr.destination) {
      var p :| Edge(t.f, p, fr.destination);
      if p != Exempt(fr) {
        assert PredExcept(t.f, fr.destination, Exempt(fr));
      }
    }
    if fr.IfFrame? && fr.consequentEnds.Nothing? {
      HeadEdge(t.f, fr);
    }
  }

  lemma HeadEdge(f: Func, fr: Frame)
    requires fr.IfFrame? && ElseOk(f, fr) && fr.elseData.NoElse? && fr.consequentEnds.Nothing?
    ensures Edge(f, fr.elseData.branch, fr.destination)
  {
  }

  lemma SealHeaderSettles(f: Func, fr: Frame)
    requires fr.LoopFrame? && FrameOk(f, fr)
    ensures Seal(f, fr.header).Ok? && Settles(f, Seal(f, fr.header).value, Lo(fr))
    ensures Seal(f, fr.header).value.cur == f.cur
  {
    hide PredExcept;
  }

  lemma SettlesFilled(f: Func, g: Func, lo: Block)
    requires Settles(f, g, lo) && IsBlock(f, f.cur) && g.cur == f.cur && Filled(f, f.cur)
    ensures IsBlock(g, g.cur) && Filled(g, g.cur)
  {
  }

  /** The end of a loop in unreachable code: nothing branches past a loop. */
  lemma EndDeadLoop(v: VState, t: TState)
    requires Inv(v, t) && !t.reachable && t.ctrl != [] && IsReal(TopFrame(t)) && Validate(v, EndOp).Just?
    requires TopFrame(t).LoopFrame?
    ensures DeadEnd(t).Ok? && Inv(Validate(v, EndOp).it, DeadEnd(t).value) && !DeadEnd(t).value.reachable
  {
    hide Inv, Validate, Settles, Seal, FrameOk, ShapeOk, OuterOk, Extends, Closed;
    TopFacts(v, t);
    var fr := TopFrame(t);
    SealHeaderSettles(t.f, fr);
    var g := Seal(t.f, fr.header).value;
    SettlesFilled(t.f, g, Lo(fr));
    SelfExtends(t.f);
    OuterExtends(v, t, t.f, iset{});
    OuterSettles(v, t, t.f, g, Lo(fr));
    SettlesClosed(t.f, g, Lo(fr));
    var t' := DeadEnd(t).value;
    EndCloses(v, t, t');
  }

  /** The end of a block or `if` in unreachable code: what follows is reachable exactly if something branches there. */
  lemma EndDead(v: VState, t: TState)
    requires Inv(v, t) && !t.reachable && t.ctrl != [] && IsReal(TopFrame(t)) && Validate(v, EndOp).Just?
    requires !TopFrame(t).LoopFrame?
    ensures DeadEnd(t).Ok? && Inv(Validate(v, EndOp).it, DeadEnd(t).value)
    ensures DeadEnd(t).value.reachable <==> HasPred(t.f, TopFrame(t).destination)
  {
    hide Inv, Validate, FrameOk, ShapeOk, OuterOk, Extends, Closed, HasPred, CloseInto;
    TopFacts(v, t);
    FlagsExact(v, t);
    SelfExtends(t.f);
    var fr := TopFrame(t);
    var ctrl := t.ctrl[..|t.ctrl| - 1];
    if HasPred(t.f, fr.destination) {
      var dummy := seq(BaseSize(fr) + fr.numResults, _ => 0);
      CloseIntoKeeps(v, t, t.f, TState(t.f, dummy, ctrl, true));
      var g := CloseInto(t.f, fr).value;
      var t' := TState(g, t.stack[..BaseSize(fr)] + g.blocks[g.cur].params, ctrl, true);
      CloseIntoKeeps(v, t, t.f, t');
      assert DeadEnd(t) == Ok(t');
    } else {
      OuterExtends(v, t, t.f, iset{});
      EndCloses(v, t, DeadEnd(t).value);
    }
  }
}
