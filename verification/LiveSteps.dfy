/** Each operator of reachable, valid code keeps the translation invariant. */
module LiveSteps {
  import opened Cfg
  import opened Validation
  import opened Translation
  import opened TranslationInvariant

  // ---------------------------------------------------------------- heights

  lemma {:induction false} HeightsNested(v: VState, i: nat, j: nat)
    requires VOk(v) && i <= j < |v.ctrls|
    ensures v.ctrls[i].height <= v.ctrls[j].height
    decreases j - i
  {
    if i < j {
      HeightsNested(v, i + 1, j);
    }
  }

  lemma {:induction false} DupsNested(ctrl: seq<Frame>, i: nat, j: nat)
    requires i <= j <= |ctrl|
    ensures DupUpTo(ctrl, i) <= DupUpTo(ctrl, j)
    decreases j - i
  {
    if i < j {
      DupsNested(ctrl, i, j - 1);
    }
  }

  /** In reachable code the height above the innermost frame is the validator's. */
  lemma StackHeight(v: VState, t: TState)
    requires Inv(v, t) && t.reachable && t.ctrl != []
    ensures |t.stack| - Floor(TopFrame(t)) == v.opds - Top(v).height >= 0
    ensures forall i :: 0 <= i < |t.ctrl| ==> Floor(t.ctrl[i]) <= Floor(TopFrame(t))
  {
    hide FrameOk, ShapeOk;
    var n := |t.ctrl|;
    assert At(v, t, n - 1);
    forall i | 0 <= i < n ensures Floor(t.ctrl[i]) <= Floor(TopFrame(t)) {
      assert At(v, t, i);
      HeightsNested(v, i, n - 1);
      DupsNested(t.ctrl, i + 1, n);
    }
  }

  // ---------------------------------------------------------------- frames carried over

  /** The validator's frames up to `n` are the same, save for unreachability. */
  predicate SameBelow(v: VState, v': VState, n: nat) {
    && n <= |v.ctrls| && n <= |v'.ctrls|
    && forall i :: 0 <= i < n ==>
         v'.ctrls[i].kind == v.ctrls[i].kind && v'.ctrls[i].bt == v.ctrls[i].bt
         && v'.ctrls[i].height == v.ctrls[i].height
  }

  /** The translator's frames up to `n` are the same, save for exit flags set by `targets`. */
  ghost predicate MarkedBelow(ctrl: seq<Frame>, ctrl': seq<Frame>, n: nat, targets: iset<Block>) {
    && n <= |ctrl| && n <= |ctrl'|
    && forall i :: 0 <= i < n ==> ctrl'[i] == Branched(ctrl[i], ctrl[i].destination in targets)
  }

  lemma MarkedDup(ctrl: seq<Frame>, ctrl': seq<Frame>, n: nat, targets: iset<Block>, i: nat)
    requires MarkedBelow(ctrl, ctrl', n, targets) && i <= n
    ensures DupUpTo(ctrl', i) == DupUpTo(ctrl, i)
  {
    DupSame(ctrl', ctrl, i);
  }

  lemma KeepAt(v: VState, t: TState, v': VState, t': TState, targets: iset<Block>, i: nat)
    requires |v.ctrls| == |t.ctrl| && |v'.ctrls| == |t'.ctrl| && i < |t.ctrl| && i < |t'.ctrl|
    requires At(v, t, i) && IsReal(t.ctrl[i])
    requires Extends(t.f, t'.f, targets)
    requires SameBelow(v, v', i + 1) && MarkedBelow(t.ctrl, t'.ctrl, i + 1, targets)
    requires t.ctrl[i].LoopFrame? ==> t.ctrl[i].destination !in targets
    requires Floor(t.ctrl[i]) <= |t'.stack|
    requires i + 1 < |t'.ctrl| && IsReal(t'.ctrl[i + 1]) ==> !v'.ctrls[i].unreachable
    ensures At(v', t', i)
  {
    hide Extends, FrameOk;
    ExtendsFrame(t.f, t'.f, targets, t.ctrl[i]);
    MarkedDup(t.ctrl, t'.ctrl, i + 1, targets, i + 1);
  }

  lemma MarkedOrdered(ctrl: seq<Frame>, ctrl': seq<Frame>, targets: iset<Block>)
    requires MarkedBelow(ctrl, ctrl', |ctrl|, targets) && |ctrl'| == |ctrl|
    requires Ordered(ctrl) && RealPrefix(ctrl)
    ensures Ordered(ctrl') && RealPrefix(ctrl')
  {
  }

  lemma MarkNone(ctrl: seq<Frame>)
    ensures MarkedBelow(ctrl, ctrl, |ctrl|, iset{})
  {
  }

  lemma ContinuesAt(v: VState, t: TState, v': VState, t': TState, targets: iset<Block>, i: nat)
    requires Inv(v, t) && t.reachable && i < |t.ctrl| && |t'.ctrl| == |t.ctrl|
    requires v'.ctrls == v.ctrls && Floor(TopFrame(t)) <= |t'.stack|
    requires Extends(t.f, t'.f, targets) && MarkedBelow(t.ctrl, t'.ctrl, |t.ctrl|, targets)
    requires t.ctrl[i].LoopFrame? ==> t.ctrl[i].destination !in targets
    ensures At(v', t', i) && IsReal(t'.ctrl[i])
  {
    hide FrameOk, ShapeOk, Extends, MarkedBelow, DupUpTo, VOk, Closed, Ordered, RealPrefix;
    StackHeight(v, t);
    assert At(v, t, i) && IsReal(t.ctrl[i]);
    MarkedPrefix(t.ctrl, t'.ctrl, i + 1, targets);
    KeepAt(v, t, v', t', targets, i);
  }

  /** An operator that adds code to the current block, or ends it and goes on in a new block. */
  lemma Continues(v: VState, t: TState, v': VState, t': TState, targets: iset<Block>)
    requires Inv(v, t) && t.reachable && t.ctrl != [] && t'.reachable && |t'.ctrl| == |t.ctrl|
    requires v'.ctrls == v.ctrls && Top(v).height <= v'.opds
    requires |t'.stack| == v'.opds + DupUpTo(t.ctrl, |t.ctrl|)
    requires Extends(t.f, t'.f, targets) && MarkedBelow(t.ctrl, t'.ctrl, |t.ctrl|, targets)
    requires forall i :: 0 <= i < |t.ctrl| && t.ctrl[i].LoopFrame? ==> t.ctrl[i].destination !in targets
    requires IsBlock(t'.f, t'.f.cur) && !Filled(t'.f, t'.f.cur)
    requires t'.f.cur == t.f.cur || HasPred(t'.f, t'.f.cur)
    ensures Inv(v', t')
  {
    hide At, Extends, MarkedBelow, Ordered, RealPrefix, Closed, HasPred, DupUpTo;
    StackHeight(v, t);
    LiveFacts(v, t);
    assert VOk(v');
    MarkedOrdered(t.ctrl, t'.ctrl, targets);
    ExtendsClosed(t.f, t'.f, targets);
    MarkedDup(t.ctrl, t'.ctrl, |t.ctrl|, targets, |t.ctrl|);
    if t'.f.cur == t.f.cur && t.f.cur != ENTRY {
      ExtendsHasPred(t.f, t'.f, targets, t.f.cur);
    }
    forall i | 0 <= i < |t.ctrl| ensures At(v', t', i) && IsReal(t'.ctrl[i]) {
      ContinuesAt(v, t, v', t', targets, i);
    }
  }

  lemma MarkedPrefix(ctrl: seq<Frame>, ctrl': seq<Frame>, n: nat, targets: iset<Block>)
    requires MarkedBelow(ctrl, ctrl', |ctrl|, targets) && n <= |ctrl|
    ensures MarkedBelow(ctrl, ctrl', n, targets)
    ensures forall i :: 0 <= i < n ==> IsReal(ctrl'[i]) == IsReal(ctrl[i])
  {
  }

  /** An operator after which the code is unreachable. */
  lemma Diverges(v: VState, t: TState, v': VState, t': TState, targets: iset<Block>)
    requires Inv(v, t) && t.reachable && t.ctrl != [] && !t'.reachable && |t'.ctrl| == |t.ctrl|
    requires v' == SetUnreachable(v)
    requires Floor(TopFrame(t)) <= |t'.stack|
    requires Extends(t.f, t'.f, targets) && MarkedBelow(t.ctrl, t'.ctrl, |t.ctrl|, targets)
    requires forall i :: 0 <= i < |t.ctrl| && t.ctrl[i].LoopFrame? ==> t.ctrl[i].destination !in targets
    requires IsBlock(t'.f, t'.f.cur) && Filled(t'.f, t'.f.cur)
    ensures Inv(v', t')
  {
    hide FrameOk, ShapeOk, Extends, MarkedBelow;
    StackHeight(v, t);
    MarkedOrdered(t.ctrl, t'.ctrl, targets);
    ExtendsClosed(t.f, t'.f, targets);
    forall i | 0 <= i < |t.ctrl| ensures At(v', t', i) {
      assert At(v, t, i);
      if i + 1 < |t.ctrl| {
        assert IsReal(t.ctrl[i + 1]);
      }
      MarkedPrefix(t.ctrl, t'.ctrl, i + 1, targets);
      KeepAt(v, t, v', t', targets, i);
    }
  }

  // ---------------------------------------------------------------- straight-line operators

  lemma EmitExtends(f: Func, i: Inst)
    requires IsBlock(f, f.cur) && !Filled(f, f.cur)
    ensures Emit(f, i).Ok? && EmitValue(f, i).Ok?
    ensures Extends(f, Emit(f, i).value, iset{}) && Extends(f, EmitValue(f, i).value, iset{})
    ensures Emit(f, i).value.cur == f.cur && IsBlock(Emit(f, i).value, f.cur) && !Filled(Emit(f, i).value, f.cur)
    ensures EmitValue(f, i).value.cur == f.cur && IsBlock(EmitValue(f, i).value, f.cur)
    ensures !Filled(EmitValue(f, i).value, f.cur)
  {
    var f' := Emit(f, i).value;
    assert forall p, b :: Edge(f', p, b) ==> Edge(f, p, b);
    var g := EmitValue(f, i).value;
    assert forall p, b :: Edge(g, p, b) ==> Edge(f, p, b);
  }

  lemma SelfExtends(f: Func)
    requires IsBlock(f, f.cur)
    ensures Extends(f, f, iset{})
  {
  }

  lemma LiveFacts(v: VState, t: TState)
    requires Inv(v, t) && t.reachable
    ensures VOk(v) && |v.ctrls| == |t.ctrl|
    ensures IsBlock(t.f, t.f.cur) && !Filled(t.f, t.f.cur) && !IsUnreachable(t.f)
    ensures |t.stack| == v.opds + DupUpTo(t.ctrl, |t.ctrl|)
    ensures t.ctrl != [] ==> !Top(v).unreachable && v.ctrls != []
  {
    hide FrameOk, ShapeOk;
  }

  /** The straight-line operators with the number of operands they pop and push. */
  predicate IsStraight(op: Op) {
    op.Nop? || op.Drop? || op.Const? || op.Add? || op.Select? || op.LocalGet? || op.LocalSet? || op.LocalTee?
  }

  function Pops(op: Op): nat {
    match op
    case Drop => 1
    case Add => 2
    case Select => 3
    case LocalSet(_) => 1
    case LocalTee(_) => 1
    case _ => 0
  }

  function Pushes(op: Op): nat {
    match op
    case Const(_) => 1
    case Add => 1
    case Select => 1
    case LocalGet(_) => 1
    case LocalTee(_) => 1
    case _ => 0
  }

  lemma ValidStraight(v: VState, op: Op)
    requires VOk(v) && Validate(v, op).Just? && IsStraight(op) && v.ctrls != [] && !Top(v).unreachable
    ensures Top(v).height + Pops(op) <= v.opds
    ensures Validate(v, op).it == v.(opds := v.opds - Pops(op) + Pushes(op))
  {
  }

  /** Code was added to the current block; `d` operands more are on the stack. */
  ghost predicate Grew(t: TState, t': TState, d: int) {
    && t'.ctrl == t.ctrl && t'.reachable == t.reachable && |t'.stack| == |t.stack| + d
    && Extends(t.f, t'.f, iset{}) && t'.f.cur == t.f.cur && IsBlock(t'.f, t'.f.cur) && !Filled(t'.f, t'.f.cur)
  }

  lemma PushResultGrows(t: TState, n: nat, i: Inst)
    requires IsBlock(t.f, t.f.cur) && !Filled(t.f, t.f.cur) && n <= |t.stack|
    ensures PushResult(t, n, i).Ok? && Grew(t, PushResult(t, n, i).value, 1 - n)
  {
    hide Emit, EmitValue, Extends;
    EmitExtends(t.f, i);
  }

  lemma LocalSetGrows(t: TState, i: nat, keep: bool)
    requires IsBlock(t.f, t.f.cur) && !Filled(t.f, t.f.cur) && 1 <= |t.stack|
    ensures TransLocalSet(t, i, keep).Ok? && Grew(t, TransLocalSet(t, i, keep).value, if keep then 0 else -1)
  {
    hide Emit, Extends;
    EmitExtends(t.f, DefVar(i, PeekN(t.stack, 1).value[0]));
  }

  lemma StraightTransition(t: TState, op: Op)
    requires IsBlock(t.f, t.f.cur) && !Filled(t.f, t.f.cur) && IsStraight(op) && Pops(op) <= |t.stack|
    ensures TransLive(t, op).Ok? && Grew(t, TransLive(t, op).value, Pushes(op) - Pops(op))
  {
    hide PushResult, TransLocalSet, Extends;
    SelfExtends(t.f);
    match op
    case Nop =>
    case Drop =>
    case Const(n) => PushResultGrows(t, 0, Iconst(t.f.nextValue, n));
    case Add =>
      var args := PeekN(t.stack, 2).value;
      PushResultGrows(t, 2, Iadd(t.f.nextValue, args[0], args[1]));
    case Select =>
      var args := PeekN(t.stack, 3).value;
      PushResultGrows(t, 3, SelectInst(t.f.nextValue, args[2], args[0], args[1]));
    case LocalGet(i) => PushResultGrows(t, 0, UseVar(t.f.nextValue, i));
    case LocalSet(i) => LocalSetGrows(t, i, false);
    case LocalTee(i) => LocalSetGrows(t, i, true);
  }

  lemma StraightKeeps(v: VState, t: TState, op: Op)
    requires Inv(v, t) && t.reachable && t.ctrl != [] && IsStraight(op) && Validate(v, op).Just?
    ensures TransLive(t, op).Ok? && Inv(Validate(v, op).it, TransLive(t, op).value)
  {
    hide TransLive, Validate, Inv, Extends, Pops, Pushes;
    LiveFacts(v, t);
    ValidStraight(v, op);
    ArgsAvailable(v, t, Pops(op));
    StraightTransition(t, op);
    MarkNone(t.ctrl);
    Continues(v, t, Validate(v, op).it, TransLive(t, op).value, iset{});
  }

  // ---------------------------------------------------------------- operators that end the block

  ghost function TargetSet(term: Term): iset<Block> {
    iset b | b in Targets(term)
  }

  lemma TerminateExtends(f: Func, term: Term)
    requires IsBlock(f, f.cur) && !Filled(f, f.cur) && TermOk(f, term)
    ensures Terminate(f, term).Ok?
    ensures
      var f' := Terminate(f, term).value;
      && Extends(f, f', TargetSet(term)) && f'.cur == f.cur && IsBlock(f', f'.cur) && Filled(f', f'.cur)
      && |f'.blocks| == |f.blocks| && f'.nextValue == f.nextValue
      && (forall b :: b in Targets(term) ==> Edge(f', f.cur, b))
      && (forall p, b :: Edge(f', p, b) ==> Edge(f, p, b) || (p == f.cur && b in Targets(term)))
      && (forall b :: IsBlock(f, b) ==> f'.blocks[b].params == f.blocks[b].params && f'.blocks[b].sealed == f.blocks[b].sealed)
      && (forall b :: IsBlock(f, b) && b != f.cur ==> f'.blocks[b] == f.blocks[b])
  {
    var f' := Terminate(f, term).value;
    forall p, b | Edge(f', p, b) && !Edge(f, p, b) ensures b in TargetSet(term) {
      assert p == f.cur;
    }
    forall b | b in TargetSet(term) ensures exists p :: Edge(f', p, b) && !Edge(f, p, b) {
      assert Edge(f', f.cur, b) && !Edge(f, f.cur, b);
    }
  }

  /** Branch targets of different frames are different blocks. */
  lemma TargetsDiffer(v: VState, t: TState, i: nat, j: nat)
    requires Inv(v, t) && t.reachable && i < |t.ctrl| && j < |t.ctrl|
    ensures t.ctrl[i].destination == BrDestination(t.ctrl[j]) <==> i == j && !t.ctrl[j].LoopFrame?
    ensures EdgeOk(t.f, BrDestination(t.ctrl[j]), BrArity(t.ctrl[j]))
    ensures BrArity(t.ctrl[j]) == Arity(v.ctrls[j])
  {
    hide PredExcept, ElseOk;
    assert At(v, t, i) && At(v, t, j);
    assert IsReal(t.ctrl[i]) && IsReal(t.ctrl[j]);
    assert i < j ==> Hi(t.ctrl[i]) < Lo(t.ctrl[j]);
    assert j < i ==> Hi(t.ctrl[j]) < Lo(t.ctrl[i]);
    HiIsMax(t.f, t.ctrl[i]);
    HiIsMax(t.f, t.ctrl[j]);
  }

  lemma HiIsMax(f: Func, fr: Frame)
    requires FrameOk(f, fr)
    ensures Lo(fr) <= fr.destination <= Hi(fr)
  {
  }

  lemma {:induction false} MarkAllHits(ctrl: seq<Frame>, depths: seq<nat>, i: nat)
    requires i < |ctrl| && forall k :: 0 <= k < |depths| ==> depths[k] < |ctrl|
    ensures MarkAll(ctrl, depths)[i] == Branched(ctrl[i], |ctrl| - 1 - i in depths)
    decreases |depths|
  {
    if depths != [] {
      var n := |depths| - 1;
      MarkAllHits(ctrl, depths[..n], i);
      assert depths == depths[..n] + [depths[n]];
    }
  }

  ghost function BranchTargets(ctrl: seq<Frame>, depths: seq<nat>): iset<Block>
    requires forall k :: 0 <= k < |depths| ==> depths[k] < |ctrl|
  {
    iset b | b in Destinations(ctrl, depths)
  }

  lemma MarkedBy(v: VState, t: TState, depths: seq<nat>)
    requires Inv(v, t) && t.reachable && forall k :: 0 <= k < |depths| ==> depths[k] < |t.ctrl|
    ensures MarkedBelow(t.ctrl, MarkAll(t.ctrl, depths), |t.ctrl|, BranchTargets(t.ctrl, depths))
    ensures forall i :: 0 <= i < |t.ctrl| && t.ctrl[i].LoopFrame? ==>
              t.ctrl[i].destination !in BranchTargets(t.ctrl, depths)
    ensures forall i :: 0 <= i < |t.ctrl| ==> t.ctrl[i].destination < |t.f.blocks|
  {
    hide Inv, MarkAll;
    var targets := BranchTargets(t.ctrl, depths);
    forall i | 0 <= i < |t.ctrl|
      ensures MarkAll(t.ctrl, depths)[i] == Branched(t.ctrl[i], t.ctrl[i].destination in targets)
      ensures t.ctrl[i].LoopFrame? ==> t.ctrl[i].destination !in targets
      ensures t.ctrl[i].destination < |t.f.blocks|
    {
      MarkAllHits(t.ctrl, depths, i);
      forall k | 0 <= k < |depths|
        ensures t.ctrl[i].destination == Destinations(t.ctrl, depths)[k]
                <==> depths[k] == |t.ctrl| - 1 - i && !t.ctrl[i].LoopFrame?
      {
        TargetsDiffer(v, t, i, |t.ctrl| - 1 - depths[k]);
      }
      if |t.ctrl| - 1 - i in depths {
        var k :| 0 <= k < |depths| && depths[k] == |t.ctrl| - 1 - i;
      }
      DestinationExists(v, t, i);
    }
  }

  lemma DestinationExists(v: VState, t: TState, i: nat)
    requires Inv(v, t) && t.reachable && i < |t.ctrl|
    ensures IsBlock(t.f, t.ctrl[i].destination) && IsReal(t.ctrl[i])
  {
    hide PredExcept, ElseOk;
    assert At(v, t, i);
  }

  lemma TrapKeeps(v: VState, t: TState)
    requires Inv(v, t) && t.reachable && t.ctrl != [] && Validate(v, UnreachableOp).Just?
    ensures TransTrap(t).Ok? && Inv(Validate(v, UnreachableOp).it, TransTrap(t).value)
  {
    hide Inv, Extends, Terminate;
    LiveFacts(v, t);
    ArgsAvailableNone(v, t);
    TerminateExtends(t.f, TrapTerm);
    assert TargetSet(TrapTerm) == iset{};
    MarkNone(t.ctrl);
    Diverges(v, t, SetUnreachable(v), TransTrap(t).value, iset{});
  }

  lemma ArgsAvailableNone(v: VState, t: TState)
    requires Inv(v, t) && t.reachable && t.ctrl != []
    ensures Floor(TopFrame(t)) <= |t.stack|
  {
    StackHeight(v, t);
  }

  /** Popping the branch arguments leaves the stack above the innermost frame. */
  lemma ArgsAvailable(v: VState, t: TState, n: nat)
    requires Inv(v, t) && t.reachable && t.ctrl != [] && Top(v).height + n <= v.opds
    ensures n <= |t.stack| && 0 <= Floor(TopFrame(t)) <= |t.stack| - n
  {
    StackHeight(v, t);
    hide Inv;
    FloorNonNegative(v, t);
  }

  lemma FloorNonNegative(v: VState, t: TState)
    requires Inv(v, t) && t.reachable && t.ctrl != []
    ensures Floor(TopFrame(t)) >= 0
  {
    hide FrameOk, ShapeOk;
    assert At(v, t, |t.ctrl| - 1);
  }

  lemma OuterArity(v: VState, t: TState)
    requires Inv(v, t) && t.reachable && t.ctrl != []
    ensures t.ctrl[0].numResults == |v.ctrls[0].bt.results|
  {
    hide FrameOk;
    assert At(v, t, 0);
  }

  lemma ReturnKeeps(v: VState, t: TState)
    requires Inv(v, t) && t.reachable && t.ctrl != [] && Validate(v, ReturnOp).Just?
    ensures TransReturn(t).Ok? && Inv(Validate(v, ReturnOp).it, TransReturn(t).value)
  {
    hide Inv, Extends, Terminate, Validate;
    LiveFacts(v, t);
    ValidReturn(v);
    OuterArity(v, t);
    var n := t.ctrl[0].numResults;
    ArgsAvailable(v, t, n);
    var term := ReturnTerm(PeekN(t.stack, n).value);
    TerminateExtends(t.f, term);
    assert TargetSet(term) == iset{};
    MarkNone(t.ctrl);
    Diverges(v, t, SetUnreachable(v), TransReturn(t).value, iset{});
  }

  lemma MarkOne(ctrl: seq<Frame>, d: nat)
    requires d < |ctrl|
    ensures MarkAll(ctrl, [d]) == Mark(ctrl, d)
    ensures BranchTargets(ctrl, [d]) == iset{BrDestination(FrameAt(ctrl, d))}
  {
    assert [d][..0] == [];
    assert MarkAll(ctrl, []) == ctrl;
    assert Destinations(ctrl, [d]) == [BrDestination(FrameAt(ctrl, d))];
  }

  lemma BrKeeps(v: VState, t: TState, d: nat)
    requires Inv(v, t) && t.reachable && t.ctrl != [] && Validate(v, Br(d)).Just?
    ensures TransBr(t, d).Ok? && Inv(Validate(v, Br(d)).it, TransBr(t, d).value)
  {
    hide Inv, Extends, Terminate, MarkedBelow, Validate, BranchTargets, MarkAll, EdgeOk;
    LiveFacts(v, t);
    ValidBr(v, d);
    var j := |t.ctrl| - 1 - d;
    TargetsDiffer(v, t, j, j);
    var fr := FrameAt(t.ctrl, d);
    ArgsAvailable(v, t, BrArity(fr));
    var term := Jump(BrDestination(fr), PeekN(t.stack, BrArity(fr)).value);
    TerminateExtends(t.f, term);
    MarkedBy(v, t, [d]);
    MarkOne(t.ctrl, d);
    assert TargetSet(term) == iset{BrDestination(fr)};
    Diverges(v, t, SetUnreachable(v), TransBr(t, d).value, TargetSet(term));
  }

  // ---------------------------------------------------------------- br_if

  lemma MarkedMore(ctrl: seq<Frame>, ctrl': seq<Frame>, n: nat, a: iset<Block>, b: iset<Block>)
    requires MarkedBelow(ctrl, ctrl', n, a) && forall i :: 0 <= i < n ==> ctrl[i].destination !in b
    ensures MarkedBelow(ctrl, ctrl', n, a + b)
  {
  }

  /** Ends the current block with a two-way branch and goes on in the new block `next`. */
  lemma BranchAndContinue(f: Func, f0: Func, term: Term, next: Block)
    requires IsBlock(f, f.cur) && !Filled(f, f.cur) && Extends(f, f0, iset{}) && f0.cur == f.cur
    requires !Filled(f0, f0.cur) && TermOk(f0, term)
    requires |f.blocks| <= next && Blank(f0, next, 0, false) && next in Targets(term)
    ensures Terminate(f0, term).Ok?
    ensures
      var f1 := Terminate(f0, term).value;
      && Seal(f1, next).Ok? && SwitchTo(Seal(f1, next).value, next).Ok?
      && var f3 := SwitchTo(Seal(f1, next).value, next).value;
         && Extends(f, f3, TargetSet(term)) && f3.cur == next && IsBlock(f3, next) && !Filled(f3, next)
         && HasPred(f3, next) && |f3.blocks| == |f0.blocks|
         && (forall p, b :: Edge(f3, p, b) ==> Edge(f0, p, b) || (p == f.cur && b in Targets(term)))
         && (forall b :: b in Targets(term) ==> Edge(f3, f.cur, b))
         && (forall b :: IsBlock(f0, b) && b != f.cur && b != next ==> f3.blocks[b] == f0.blocks[b])
         && f3.blocks[f.cur].term == Just(term)
         && f3.blocks[next].params == []
  {
    hide Extends, TargetSet;
    TerminateExtends(f0, term);
    var f1 := Terminate(f0, term).value;
    assert f1.blocks[f.cur].term == Just(term);
    ExtendsCompose(f, f0, f1, iset{}, TargetSet(term));
    assert iset{} + TargetSet(term) == TargetSet(term);
    hide Terminate;
    SealNew(f, f1, TargetSet(term), next);
    var f2 := Seal(f1, next).value;
    SwitchNew(f, f2, TargetSet(term), next);
    var f3 := SwitchTo(f2, next).value;
    assert Edge(f3, f.cur, next);
  }

  lemma BrIfBuilds(v: VState, t: TState, d: nat)
    requires Inv(v, t) && t.reachable && t.ctrl != [] && d < |t.ctrl|
    requires Top(v).height + 1 + BrArity(FrameAt(t.ctrl, d)) <= v.opds
    ensures TransBrIf(t, d).Ok?
    ensures
      var t' := TransBrIf(t, d).value;
      && Extends(t.f, t'.f, iset{BrDestination(FrameAt(t.ctrl, d))} + iset{|t.f.blocks|})
      && t'.ctrl == Mark(t.ctrl, d) && t'.reachable
      && IsBlock(t'.f, t'.f.cur) && !Filled(t'.f, t'.f.cur) && HasPred(t'.f, t'.f.cur)
      && |t'.stack| == |t.stack| - 1
  {
    hide Inv, Extends, Terminate, Seal, SwitchTo, Blank, CreateBlock, Targets, Mark, EdgeOk, TargetSet, HasPred;
    LiveFacts(v, t);
    var j := |t.ctrl| - 1 - d;
    TargetsDiffer(v, t, j, j);
    var fr := FrameAt(t.ctrl, d);
    ArgsAvailable(v, t, 1 + BrArity(fr));
    CreateExtends(t.f, 0);
    var f0 := CreateBlock(t.f, 0);
    EdgeStays(t.f, 0, BrDestination(fr), BrArity(fr));
    var next := |t.f.blocks|;
    var stack := t.stack[..|t.stack| - 1];
    var term := Brif(PeekN(t.stack, 1).value[0], BrDestination(fr), PeekN(stack, BrArity(fr)).value, next, []);
    TwoTargets(f0, term, next);
    BranchAndContinue(t.f, f0, term, next);
    BrifTargets(term);
    assert iset{term.thn, term.els} == iset{BrDestination(fr)} + iset{next};
  }

  lemma EdgeStays(f: Func, m: nat, b: Block, n: nat)
    requires EdgeOk(f, b, n)
    ensures EdgeOk(CreateBlock(f, m), b, n)
  {
  }

  lemma BrifTargets(term: Term)
    requires term.Brif?
    ensures TargetSet(term) == iset{term.thn, term.els}
  {
  }

  lemma TwoTargets(f: Func, term: Term, next: Block)
    requires term.Brif? && (term.thn == next || term.els == next) && Blank(f, next, 0, false)
    ensures next in Targets(term) && EdgeOk(f, next, 0)
  {
  }

  lemma BrIfKeeps(v: VState, t: TState, d: nat)
    requires Inv(v, t) && t.reachable && t.ctrl != [] && Validate(v, BrIf(d)).Just?
    ensures TransBrIf(t, d).Ok? && Inv(Validate(v, BrIf(d)).it, TransBrIf(t, d).value)
  {
    hide Inv, Extends, MarkedBelow, TransBrIf, Validate, BranchTargets, MarkAll;
    LiveFacts(v, t);
    ValidBrIf(v, d);
    var j := |t.ctrl| - 1 - d;
    TargetsDiffer(v, t, j, j);
    BrIfBuilds(v, t, d);
    var t' := TransBrIf(t, d).value;
    MarkedBy(v, t, [d]);
    MarkOne(t.ctrl, d);
    var targets := iset{BrDestination(FrameAt(t.ctrl, d))};
    MarkedMore(t.ctrl, t'.ctrl, |t.ctrl|, targets, iset{|t.f.blocks|});
    Continues(v, t, Validate(v, BrIf(d)).it, t', targets + iset{|t.f.blocks|});
  }

  // ---------------------------------------------------------------- opening a construct

  lemma {:induction false} DupAppend(ctrl: seq<Frame>, fr: Frame, i: nat)
    requires i <= |ctrl|
    ensures DupUpTo(ctrl + [fr], i) == DupUpTo(ctrl, i)
    ensures DupUpTo(ctrl + [fr], |ctrl| + 1) == DupUpTo(ctrl + [fr], |ctrl|) + Dup(fr)
  {
    DupSame(ctrl + [fr], ctrl, i);
  }

  /** The order of blocks and frames when a frame over new blocks is entered. */
  lemma OpenedOrder(v: VState, t: TState, fr: Frame)
    requires Inv(v, t) && t.reachable && |t.f.blocks| <= Lo(fr)
    ensures Ordered(t.ctrl + [fr]) && RealPrefix(t.ctrl + [fr])
  {
    hide PredExcept, ShapeOk;
    forall i | 0 <= i < |t.ctrl| ensures Hi(t.ctrl[i]) < |t.f.blocks| && IsReal(t.ctrl[i]) {
      assert At(v, t, i);
    }
  }

  lemma OpensOld(v: VState, t: TState, k: nat, kind: Kind, bt: BlockType, t': TState, fr: Frame, targets: iset<Block>, i: nat)
    requires Inv(v, t) && t.reachable && i < |t.ctrl| && t'.ctrl == t.ctrl + [fr]
    requires Extends(t.f, t'.f, targets) && forall b :: b in targets ==> |t.f.blocks| <= b
    requires |t.stack| <= |t'.stack| || Floor(TopFrame(t)) <= |t'.stack|
    ensures At(PushCtrl(v.(opds := k), kind, bt), t', i) && IsReal(t'.ctrl[i])
  {
    var v' := PushCtrl(v.(opds := k), kind, bt);
    StackHeight(v, t);
    MarkFresh(v, t, fr, targets);
    LiveFacts(v, t);
    hide FrameOk, ShapeOk, Extends, Ordered, RealPrefix, MarkedBelow, DupUpTo, VOk, Closed;
    assert At(v, t, i) && IsReal(t.ctrl[i]);
    MarkedPrefix(t.ctrl, t'.ctrl, i + 1, targets);
    if i + 1 < |t.ctrl| {
      assert IsReal(t.ctrl[i + 1]);
    }
    KeepAt(v, t, v', t', targets, i);
  }

  lemma Opens(v: VState, t: TState, k: nat, kind: Kind, bt: BlockType, t': TState, fr: Frame, targets: iset<Block>)
    requires Inv(v, t) && t.reachable && t.ctrl != [] && t'.reachable && t'.ctrl == t.ctrl + [fr]
    requires Top(v).height <= k && Extends(t.f, t'.f, targets)
    requires forall b :: b in targets ==> |t.f.blocks| <= b
    requires FrameOk(t'.f, fr) && ShapeOk(VFrame(kind, bt, k, false), fr) && IsReal(fr) && |t.f.blocks| <= Lo(fr)
    requires Floor(fr) == k + DupUpTo(t.ctrl, |t.ctrl|) + Dup(fr)
    requires |t'.stack| == k + |bt.params| + DupUpTo(t.ctrl, |t.ctrl|) + Dup(fr)
    requires IsBlock(t'.f, t'.f.cur) && !Filled(t'.f, t'.f.cur)
    requires t'.f.cur == t.f.cur || HasPred(t'.f, t'.f.cur)
    ensures Inv(PushCtrl(v.(opds := k), kind, bt), t')
  {
    var v' := PushCtrl(v.(opds := k), kind, bt);
    var n := |t.ctrl|;
    hide FrameOk, ShapeOk, Extends, Ordered, RealPrefix, At, Closed, HasPred;
    assert VOk(v');
    OpenedOrder(v, t, fr);
    ExtendsClosed(t.f, t'.f, targets);
    StackHeight(v, t);
    if t'.f.cur == t.f.cur && t.f.cur != ENTRY {
      ExtendsHasPred(t.f, t'.f, targets, t.f.cur);
    }
    DupAppend(t.ctrl, fr, n);
    NewFrameAt(v', t', n);
    forall i | 0 <= i < n ensures At(v', t', i) && IsReal(t'.ctrl[i]) {
      OpensOld(v, t, k, kind, bt, t', fr, targets, i);
    }
  }

  lemma NewFrameAt(v: VState, t: TState, n: nat)
    requires |v.ctrls| == |t.ctrl| == n + 1 && IsReal(t.ctrl[n]) && FrameOk(t.f, t.ctrl[n])
    requires ShapeOk(v.ctrls[n], t.ctrl[n])
    requires Floor(t.ctrl[n]) == v.ctrls[n].height + DupUpTo(t.ctrl, n + 1) <= |t.stack|
    ensures At(v, t, n)
  {
    hide FrameOk, ShapeOk;
  }

  lemma MarkFresh(v: VState, t: TState, fr: Frame, targets: iset<Block>)
    requires Inv(v, t) && t.reachable && forall b :: b in targets ==> |t.f.blocks| <= b
    ensures MarkedBelow(t.ctrl, t.ctrl + [fr], |t.ctrl|, targets)
    ensures forall i :: 0 <= i < |t.ctrl| ==> t.ctrl[i].destination !in targets
  {
    hide Inv;
    forall i | 0 <= i < |t.ctrl| ensures t.ctrl[i].destination !in targets {
      DestinationExists(v, t, i);
    }
  }

  /** A new block has no predecessors. */
  lemma CreatedUnused(f: Func, n: nat, x: Block)
    requires Closed(f)
    ensures !PredExcept(CreateBlock(f, n), |f.blocks|, x) && Closed(CreateBlock(f, n))
  {
    var f' := CreateBlock(f, n);
    assert forall p, b :: Edge(f', p, b) ==> Edge(f, p, b);
  }

  lemma InvClosed(v: VState, t: TState)
    requires Inv(v, t)
    ensures Closed(t.f) && ENTRY < |t.f.blocks|
  {
    hide At, Ordered, RealPrefix, VOk;
  }

  lemma BlockKeeps(v: VState, t: TState, bt: BlockType)
    requires Inv(v, t) && t.reachable && t.ctrl != [] && Validate(v, BlockOp(bt)).Just?
    ensures TransBlock(t, bt).Ok? && Inv(Validate(v, BlockOp(bt)).it, TransBlock(t, bt).value)
  {
    hide Inv, Extends, Validate, CreateBlock, PredExcept, Blank;
    LiveFacts(v, t);
    InvClosed(v, t);
    ValidEnter(v, BlockOp(bt));
    ArgsAvailable(v, t, |bt.params|);
    CreateExtends(t.f, |bt.results|);
    CreatedUnused(t.f, |bt.results|, RESERVED);
    var k := v.opds - |bt.params|;
    var t' := TransBlock(t, bt).value;
    Opens(v, t, k, BlockKind, bt, t', t'.ctrl[|t.ctrl|], iset{});
  }
}
