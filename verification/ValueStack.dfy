/** The operands the value stack stands for: the stack without the copies that an `if`
    keeps below its first branch for its second. */
module ValueStack {
  import opened Cfg
  import opened Validation
  import opened Translation
  import opened TranslationInvariant
  import opened LiveSteps

  /** The frames lie on top of each other on a stack of the given size. */
  predicate Stacked(size: int, ctrl: seq<Frame>)
    decreases |ctrl|
  {
    if ctrl == [] then 0 <= size else
      var n := |ctrl| - 1;
      0 <= BaseSize(ctrl[n]) <= Floor(ctrl[n]) <= size && Stacked(BaseSize(ctrl[n]), ctrl[..n])
  }

  function View(stack: seq<Value>, ctrl: seq<Frame>): seq<Value>
    requires Stacked(|stack|, ctrl)
    decreases |ctrl|
  {
    if ctrl == [] then stack else
      var n := |ctrl| - 1;
      View(stack[..BaseSize(ctrl[n])], ctrl[..n]) + stack[Floor(ctrl[n])..]
  }

  /** The height up to which the stack is shared with the surroundings of the innermost frame. */
  function FloorOf(ctrl: seq<Frame>): int {
    if ctrl == [] then 0 else Floor(ctrl[|ctrl| - 1])
  }

  lemma DupIsGap(fr: Frame)
    ensures Floor(fr) - BaseSize(fr) == Dup(fr)
  {
  }

  lemma {:induction false} ViewSize(stack: seq<Value>, ctrl: seq<Frame>)
    requires Stacked(|stack|, ctrl)
    ensures |View(stack, ctrl)| == |stack| - DupUpTo(ctrl, |ctrl|)
    decreases |ctrl|
  {
    if ctrl != [] {
      var n := |ctrl| - 1;
      ViewSize(stack[..BaseSize(ctrl[n])], ctrl[..n]);
      DupSame(ctrl, ctrl[..n], n);
      DupIsGap(ctrl[n]);
    }
  }

  lemma StackedMore(size: int, size': int, ctrl: seq<Frame>)
    requires Stacked(size, ctrl) && FloorOf(ctrl) <= size'
    ensures Stacked(size', ctrl)
  {
  }

  lemma ViewTop(stack: seq<Value>, ctrl: seq<Frame>, n: nat)
    requires Stacked(|stack|, ctrl) && FloorOf(ctrl) + n <= |stack|
    ensures n <= |View(stack, ctrl)| && View(stack, ctrl)[|View(stack, ctrl)| - n..] == stack[|stack| - n..]
  {
    if ctrl != [] {
      var fl := FloorOf(ctrl);
      assert stack[|stack| - n..] == stack[fl..][|stack| - fl - n..];
    }
  }

  lemma ViewPop(stack: seq<Value>, ctrl: seq<Frame>, n: nat)
    requires Stacked(|stack|, ctrl) && FloorOf(ctrl) + n <= |stack|
    ensures Stacked(|stack| - n, ctrl)
    ensures n <= |View(stack, ctrl)| && View(stack[..|stack| - n], ctrl) == View(stack, ctrl)[..|View(stack, ctrl)| - n]
  {
    if ctrl != [] {
      var k, fl, b := |stack| - n, FloorOf(ctrl), BaseSize(ctrl[|ctrl| - 1]);
      assert stack[..k][..b] == stack[..b];
      assert stack[..k][fl..] == stack[fl..][..k - fl];
    }
  }

  lemma ViewPush(stack: seq<Value>, ctrl: seq<Frame>, more: seq<Value>)
    requires Stacked(|stack|, ctrl)
    ensures Stacked(|stack + more|, ctrl) && View(stack + more, ctrl) == View(stack, ctrl) + more
  {
    if ctrl != [] {
      var fl, b := FloorOf(ctrl), BaseSize(ctrl[|ctrl| - 1]);
      StackedMore(|stack|, |stack + more|, ctrl);
      assert (stack + more)[..b] == stack[..b];
      assert (stack + more)[fl..] == stack[fl..] + more;
      var below := View(stack[..b], ctrl[..|ctrl| - 1]);
      assert View(stack + more, ctrl) == below + (stack[fl..] + more);
      assert below + (stack[fl..] + more) == below + stack[fl..] + more;
    }
  }

  /** Entering a block or loop whose parameters are the top `n` values. */
  lemma ViewOpen(stack: seq<Value>, ctrl: seq<Frame>, fr: Frame, n: nat)
    requires Stacked(|stack|, ctrl) && FloorOf(ctrl) + n <= |stack|
    requires BaseSize(fr) == Floor(fr) == |stack| - n
    ensures Stacked(|stack|, ctrl + [fr]) && View(stack, ctrl + [fr]) == View(stack, ctrl)
  {
    assert (ctrl + [fr])[..|ctrl|] == ctrl;
    StackedMore(|stack|, |stack| - n, ctrl);
    assert stack == stack[..|stack| - n] + stack[|stack| - n..];
    ViewPush(stack[..|stack| - n], ctrl, stack[|stack| - n..]);
  }

  /** Entering an `if`, which pushes its `n` parameters again. */
  lemma ViewIf(stack: seq<Value>, ctrl: seq<Frame>, fr: Frame, n: nat)
    requires Stacked(|stack|, ctrl) && FloorOf(ctrl) + n <= |stack|
    requires BaseSize(fr) == |stack| - n && Floor(fr) == |stack|
    ensures Stacked(|stack| + n, ctrl + [fr])
    ensures View(stack + stack[|stack| - n..], ctrl + [fr]) == View(stack, ctrl)
  {
    var args := stack[|stack| - n..];
    assert (ctrl + [fr])[..|ctrl|] == ctrl;
    StackedMore(|stack|, |stack| - n, ctrl);
    assert stack == stack[..|stack| - n] + args;
    ViewPush(stack[..|stack| - n], ctrl, args);
    assert (stack + args)[..|stack| - n] == stack[..|stack| - n];
    assert (stack + args)[|stack|..] == args;
  }

  predicate SameBounds(a: seq<Frame>, b: seq<Frame>) {
    && |a| == |b|
    && forall i :: 0 <= i < |a| ==> BaseSize(a[i]) == BaseSize(b[i]) && Floor(a[i]) == Floor(b[i])
  }

  lemma {:induction false} ViewSame(stack: seq<Value>, a: seq<Frame>, b: seq<Frame>)
    requires Stacked(|stack|, a) && SameBounds(a, b)
    ensures Stacked(|stack|, b) && View(stack, b) == View(stack, a)
    decreases |a|
  {
    if a != [] {
      var n := |a| - 1;
      ViewSame(stack[..BaseSize(a[n])], a[..n], b[..n]);
    }
  }

  /** What a branch out of frame `i` leaves on the stack. */
  lemma {:induction false} ViewBelow(stack: seq<Value>, ctrl: seq<Frame>, i: nat)
    requires Stacked(|stack|, ctrl) && i < |ctrl|
    ensures 0 <= BaseSize(ctrl[i]) <= |stack| && Stacked(BaseSize(ctrl[i]), ctrl[..i])
    ensures
      var below := View(stack[..BaseSize(ctrl[i])], ctrl[..i]);
      |below| <= |View(stack, ctrl)| && View(stack, ctrl)[..|below|] == below
    decreases |ctrl|
  {
    var n := |ctrl| - 1;
    if i < n {
      var s := stack[..BaseSize(ctrl[n])];
      ViewBelow(s, ctrl[..n], i);
      assert ctrl[..n][..i] == ctrl[..i];
      assert s[..BaseSize(ctrl[i])] == stack[..BaseSize(ctrl[i])];
    }
  }

  // ---------------------------------------------------------------- reachable states

  lemma {:induction false} InvStackedTo(v: VState, t: TState, n: nat, size: int)
    requires Inv(v, t) && n <= |t.ctrl| && (forall i :: 0 <= i < n ==> IsReal(t.ctrl[i]))
    requires 0 <= size && (n > 0 ==> Floor(t.ctrl[n - 1]) <= size)
    ensures Stacked(size, t.ctrl[..n])
    decreases n
  {
    hide FrameOk, Ordered, RealPrefix, Closed, CursorOk;
    if n > 0 {
      var fr := t.ctrl[n - 1];
      assert At(v, t, n - 1);
      DupIsGap(fr);
      assert BaseSize(fr) == v.ctrls[n - 1].height + DupUpTo(t.ctrl, n - 1);
      if n > 1 {
        assert At(v, t, n - 2);
        HeightsNested(v, n - 2, n - 1);
      }
      InvStackedTo(v, t, n - 1, BaseSize(fr));
      assert t.ctrl[..n][..n - 1] == t.ctrl[..n - 1];
    }
  }

  /** In reachable code the view is as high as the validator's stack. */
  lemma InvView(v: VState, t: TState)
    requires Inv(v, t) && t.reachable
    ensures Stacked(|t.stack|, t.ctrl) && |View(t.stack, t.ctrl)| == v.opds
    ensures FloorOf(t.ctrl) <= |t.stack|
  {
    hide Inv, View, Stacked;
    AllReal(v, t);
    if t.ctrl != [] {
      ArgsAvailableNone(v, t);
    }
    InvStackedTo(v, t, |t.ctrl|, |t.stack|);
    assert t.ctrl[..|t.ctrl|] == t.ctrl;
    ViewSize(t.stack, t.ctrl);
    LiveFacts(v, t);
  }

  lemma AllReal(v: VState, t: TState)
    requires Inv(v, t) && t.reachable
    ensures forall i :: 0 <= i < |t.ctrl| ==> IsReal(t.ctrl[i])
  {
    hide At, Ordered, RealPrefix, Closed, VOk;
  }

  /** The view below frame `i` is as high as the validator's frame. */
  lemma ViewHeight(v: VState, t: TState, i: nat)
    requires Inv(v, t) && i < |t.ctrl| && forall j :: 0 <= j <= i ==> IsReal(t.ctrl[j])
    requires Stacked(BaseSize(t.ctrl[i]), t.ctrl[..i]) && 0 <= BaseSize(t.ctrl[i]) <= |t.stack|
    ensures |View(t.stack[..BaseSize(t.ctrl[i])], t.ctrl[..i])| == v.ctrls[i].height
  {
    hide FrameOk, Ordered, RealPrefix, Closed, CursorOk, View, Stacked;
    assert At(v, t, i);
    DupIsGap(t.ctrl[i]);
    ViewSize(t.stack[..BaseSize(t.ctrl[i])], t.ctrl[..i]);
    DupSame(t.ctrl[..i], t.ctrl, i);
  }
}
