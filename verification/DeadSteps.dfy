/** Operators in unreachable, valid code keep the translation invariant: only the nesting of
    constructs is tracked, by frames whose blocks are the reserved one. */
module DeadSteps {
  import opened Cfg
  import opened Validation
  import opened Translation
  import opened TranslationInvariant
  import opened LiveSteps
  import opened CloseSteps

  lemma DeadFacts(v: VState, t: TState)
    requires Inv(v, t) && !t.reachable
    ensures VOk(v) && |v.ctrls| == |t.ctrl| && Closed(t.f) && Ordered(t.ctrl) && RealPrefix(t.ctrl)
    ensures IsBlock(t.f, t.f.cur) && Filled(t.f, t.f.cur)
    ensures forall i :: 0 <= i < |t.ctrl| ==> At(v, t, i)
  {
    hide At, Ordered, RealPrefix, VOk, Closed;
  }

  lemma DeadIntro(v: VState, t: TState)
    requires VOk(v) && |v.ctrls| == |t.ctrl| && Closed(t.f) && Ordered(t.ctrl) && RealPrefix(t.ctrl)
    requires IsBlock(t.f, t.f.cur) && Filled(t.f, t.f.cur) && !t.reachable
    requires forall i :: 0 <= i < |t.ctrl| ==> At(v, t, i)
    ensures Inv(v, t)
  {
    hide At, Ordered, RealPrefix, VOk, Closed;
  }

  /** The operators that unreachable code ignores. */
  predicate IsIgnored(op: Op) {
    !(op.BlockOp? || op.LoopOp? || op.IfOp? || op.ElseOp? || op.EndOp?)
  }

  lemma IgnoredNesting(v: VState, op: Op)
    requires VOk(v) && Validate(v, op).Just? && IsIgnored(op)
    ensures v.ctrls != [] && |Validate(v, op).it.ctrls| == |v.ctrls|
    ensures SameBelow(v, Validate(v, op).it, |v.ctrls|)
    ensures forall i :: 0 <= i < |v.ctrls| - 1 ==> Validate(v, op).it.ctrls[i] == v.ctrls[i]
  {
    hide Pop, VOk, Arity;
  }

  /** The frame at `i` as before, over a stack as before. */
  lemma DeadAt(v: VState, t: TState, v': VState, t': TState, i: nat)
    requires |v.ctrls| == |t.ctrl| && |v'.ctrls| == |t'.ctrl| && i < |t.ctrl| && i < |t'.ctrl| && At(v, t, i)
    requires t'.f == t.f && |t'.stack| == |t.stack|
    requires SameBelow(v, v', i + 1) && forall j :: 0 <= j <= i ==> t'.ctrl[j] == t.ctrl[j]
    requires i + 1 < |t'.ctrl| && IsReal(t'.ctrl[i + 1]) ==>
               i + 1 < |t.ctrl| && IsReal(t.ctrl[i + 1]) && v'.ctrls[i] == v.ctrls[i]
    ensures At(v', t', i)
  {
    hide FrameOk;
    DupSame(t'.ctrl, t.ctrl, i + 1);
  }

  lemma IgnoredKeeps(v: VState, t: TState, op: Op)
    requires Inv(v, t) && !t.reachable && t.ctrl != [] && IsIgnored(op) && Validate(v, op).Just?
    ensures TransDead(t, op) == Ok(t) && Inv(Validate(v, op).it, t)
  {
    hide Inv, Validate, At, Ordered, RealPrefix, VOk, Closed;
    DeadFacts(v, t);
    IgnoredNesting(v, op);
    ValidateKeeps(v, op);
    var v' := Validate(v, op).it;
    forall i | 0 <= i < |t.ctrl| ensures At(v', t, i) {
      DeadAt(v, t, v', t, i);
    }
    DeadIntro(v', t);
  }

  lemma EnterNesting(v: VState, op: Op)
    requires VOk(v) && Validate(v, op).Just? && (op.BlockOp? || op.LoopOp? || op.IfOp?)
    ensures
      var v' := Validate(v, op).it;
      && |v'.ctrls| == |v.ctrls| + 1 && SameBelow(v, v', |v.ctrls|)
      && (forall i :: 0 <= i < |v.ctrls| ==> v'.ctrls[i] == v.ctrls[i])
      && Top(v').kind == (if op.BlockOp? then BlockKind else if op.LoopOp? then LoopKind else IfKind)
  {
  }

  /** The frame pushed for a construct in unreachable code. */
  function Placeholder(op: Op, size: nat): Frame {
    if op.IfOp? then IfFrame(RESERVED, 0, 0, size, false, NoElse(RESERVED, RESERVED), op.bt, false, Nothing)
    else BlockFrame(RESERVED, 0, 0, size, false)
  }

  lemma PlaceholderOrder(ctrl: seq<Frame>, fr: Frame)
    requires Ordered(ctrl) && RealPrefix(ctrl) && !IsReal(fr)
    ensures Ordered(ctrl + [fr]) && RealPrefix(ctrl + [fr])
  {
  }

  lemma PlaceholderAt(v: VState, t: TState)
    requires |v.ctrls| == |t.ctrl| && t.ctrl != [] && ShapeOk(Top(v), TopFrame(t)) && !IsReal(TopFrame(t))
    requires TopFrame(t).origSize == |t.stack|
    ensures At(v, t, |t.ctrl| - 1)
  {
  }

  lemma EnterDead(v: VState, t: TState, op: Op)
    requires Inv(v, t) && !t.reachable && t.ctrl != [] && Validate(v, op).Just? && (op.BlockOp? || op.LoopOp? || op.IfOp?)
    ensures TransDead(t, op) == Ok(t.(ctrl := t.ctrl + [Placeholder(op, |t.stack|)]))
    ensures Inv(Validate(v, op).it, TransDead(t, op).value)
  {
    hide Inv, Validate, At, Ordered, RealPrefix, VOk, Closed;
    DeadFacts(v, t);
    EnterNesting(v, op);
    ValidateKeeps(v, op);
    var v' := Validate(v, op).it;
    var t' := t.(ctrl := t.ctrl + [Placeholder(op, |t.stack|)]);
    assert t.stack + [] == t.stack;
    assert TransDead(t, op) == Ok(t');
    PlaceholderOrder(t.ctrl, Placeholder(op, |t.stack|));
    PlaceholderAt(v', t');
    forall i | 0 <= i < |t.ctrl| ensures At(v', t', i) {
      DeadAt(v, t, v', t', i);
    }
    DeadIntro(v', t');
  }

  lemma PlaceholderFacts(v: VState, t: TState)
    requires Inv(v, t) && !t.reachable && t.ctrl != [] && !IsReal(TopFrame(t))
    ensures ShapeOk(Top(v), TopFrame(t)) && TopFrame(t).origSize == |t.stack|
  {
    assert At(v, t, |t.ctrl| - 1);
  }

  /** The `else` of an `if` in unreachable code is unreachable. */
  lemma ElsePlaceholder(v: VState, t: TState)
    requires Inv(v, t) && !t.reachable && t.ctrl != [] && !IsReal(TopFrame(t)) && Validate(v, ElseOp).Just?
    ensures DeadElse(t).Ok? && Inv(Validate(v, ElseOp).it, DeadElse(t).value)
    ensures DeadElse(t).value.f == t.f && DeadElse(t).value.stack == t.stack && !DeadElse(t).value.reachable
  {
    hide Inv, Validate, At, Ordered, RealPrefix, VOk, Closed;
    DeadFacts(v, t);
    PlaceholderFacts(v, t);
    ValidElse(v);
    ValidateKeeps(v, ElseOp);
    var v' := Validate(v, ElseOp).it;
    var t' := DeadElse(t).value;
    assert t' == t.(ctrl := ReplaceTop(t.ctrl, Elsed(TopFrame(t), false)));
    SameOrder(t.ctrl, t'.ctrl);
    PlaceholderAt(v', t');
    forall i | 0 <= i < |t.ctrl| - 1 ensures At(v', t', i) {
      DeadAt(v, t, v', t', i);
    }
    DeadIntro(v', t');
  }

  /** The end of a construct in unreachable code is unreachable. */
  lemma EndPlaceholder(v: VState, t: TState)
    requires Inv(v, t) && !t.reachable && t.ctrl != [] && !IsReal(TopFrame(t)) && Validate(v, EndOp).Just?
    ensures DeadEnd(t) == Ok(t.(ctrl := t.ctrl[..|t.ctrl| - 1])) && Inv(Validate(v, EndOp).it, DeadEnd(t).value)
  {
    hide Inv, Validate, At, Ordered, RealPrefix, VOk, Closed;
    DeadFacts(v, t);
    PlaceholderFacts(v, t);
    ValidEnd(v);
    ValidateKeeps(v, EndOp);
    var v' := Validate(v, EndOp).it;
    var t' := t.(ctrl := t.ctrl[..|t.ctrl| - 1]);
    assert t.stack[..|t.stack|] == t.stack;
    assert DeadEnd(t) == Ok(t');
    SameOrder(t.ctrl, t'.ctrl);
    forall i | 0 <= i < |t'.ctrl| ensures At(v', t', i) {
      DeadAt(v, t, v', t', i);
    }
    DeadIntro(v', t');
  }
}
