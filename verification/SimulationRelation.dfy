/** The relation between a running WebAssembly machine and the running translated function: the
    operands are the environment's values of the translator's stack, without the copies an `if` keeps. */
module SimulationRelation {
  import opened Cfg
  import opened Validation
  import opened Translation
  import opened TranslationInvariant
  import opened BuilderGrowth
  import opened ValueFreshness
  import opened ValueStack
  import opened WasmMachine
  import opened Traces
  import opened Landing

  // ---------------------------------------------------------------- environments

  lemma {:induction false} BindKeeps(env: map<Value, Word>, ps: seq<Value>, ws: seq<Word>, v: Value)
    requires |ps| == |ws| && v !in ps
    ensures Get(BindAll(env, ps, ws), v) == Get(env, v)
    decreases |ps|
  {
    if ps != [] {
      BindKeeps(env, ps[..|ps| - 1], ws[..|ps| - 1], v);
    }
  }

  lemma {:induction false} BindDefines(env: map<Value, Word>, ps: seq<Value>, ws: seq<Word>, v: Value)
    requires |ps| == |ws|
    ensures v in BindAll(env, ps, ws) <==> v in env || v in ps
    decreases |ps|
  {
    if ps != [] {
      var n := |ps| - 1;
      BindDefines(env, ps[..n], ws[..n], v);
      assert ps == ps[..n] + [ps[n]];
    }
  }

  lemma {:induction false} BindSets(env: map<Value, Word>, ps: seq<Value>, ws: seq<Word>, i: nat)
    requires |ps| == |ws| && i < |ps| && forall a, b :: 0 <= a < b < |ps| ==> ps[a] < ps[b]
    ensures Get(BindAll(env, ps, ws), ps[i]) == ws[i]
    decreases |ps|
  {
    if i < |ps| - 1 {
      BindSets(env, ps[..|ps| - 1], ws[..|ps| - 1], i);
    }
  }

  lemma GetAllConcat(env: map<Value, Word>, a: seq<Value>, b: seq<Value>)
    ensures GetAll(env, a + b) == GetAll(env, a) + GetAll(env, b)
  {
  }

  lemma GetAllTake(env: map<Value, Word>, a: seq<Value>, n: nat)
    requires n <= |a|
    ensures GetAll(env, a[..n]) == GetAll(env, a)[..n] && GetAll(env, a[n..]) == GetAll(env, a)[n..]
    ensures Defined(env, a) ==> Defined(env, a[..n]) && Defined(env, a[n..])
  {
  }

  lemma BindAllKeeps(env: map<Value, Word>, ps: seq<Value>, ws: seq<Word>, vs: seq<Value>)
    requires |ps| == |ws| && forall x :: x in vs ==> x !in ps
    ensures GetAll(BindAll(env, ps, ws), vs) == GetAll(env, vs)
  {
    hide BindAll, Get;
    forall k | 0 <= k < |vs| ensures Get(BindAll(env, ps, ws), vs[k]) == Get(env, vs[k]) {
      assert vs[k] in vs;
      BindKeeps(env, ps, ws, vs[k]);
    }
  }

  lemma BindAllSets(env: map<Value, Word>, ps: seq<Value>, ws: seq<Word>)
    requires |ps| == |ws| && forall a, b :: 0 <= a < b < |ps| ==> ps[a] < ps[b]
    ensures GetAll(BindAll(env, ps, ws), ps) == ws
  {
    hide BindAll, Get;
    forall k | 0 <= k < |ps| ensures Get(BindAll(env, ps, ws), ps[k]) == ws[k] {
      BindSets(env, ps, ws, k);
    }
  }

  /** Entering a block sets its parameters and leaves other values as they are. */
  lemma BindAllGets(env: map<Value, Word>, ps: seq<Value>, ws: seq<Word>, vs: seq<Value>)
    requires |ps| == |ws| && (forall a, b :: 0 <= a < b < |ps| ==> ps[a] < ps[b]) && (forall x :: x in vs ==> x !in ps)
    ensures GetAll(BindAll(env, ps, ws), vs + ps) == GetAll(env, vs) + ws
    ensures Defined(env, vs) ==> Defined(BindAll(env, ps, ws), vs + ps)
  {
    hide BindAll, GetAll;
    if Defined(env, vs) {
      forall k | 0 <= k < |vs + ps| ensures (vs + ps)[k] in BindAll(env, ps, ws) {
        BindDefines(env, ps, ws, (vs + ps)[k]);
      }
    }
    BindAllKeeps(env, ps, ws, vs);
    BindAllSets(env, ps, ws);
    GetAllConcat(BindAll(env, ps, ws), vs, ps);
  }

  lemma {:induction false} ViewElems(stack: seq<Value>, ctrl: seq<Frame>, x: Value)
    requires Stacked(|stack|, ctrl) && x in View(stack, ctrl)
    ensures x in stack
    decreases |ctrl|
  {
    if ctrl != [] {
      var n := |ctrl| - 1;
      var s := stack[..BaseSize(ctrl[n])];
      if x in View(s, ctrl[..n]) {
        ViewElems(s, ctrl[..n], x);
      }
    }
  }

  lemma ViewNotIn(stack: seq<Value>, ctrl: seq<Frame>, ps: seq<Value>)
    requires Stacked(|stack|, ctrl) && BelowAll(stack, ps)
    ensures forall x :: x in View(stack, ctrl) ==> x !in ps
  {
    forall x | x in View(stack, ctrl) ensures x !in ps {
      ViewElems(stack, ctrl, x);
    }
  }

  // ---------------------------------------------------------------- the relation

  ghost predicate LabelOk(tr: Trace, k: nat, i: nat, l: RLabel)
    requires k < |tr.ts| == |tr.vs| == |tr.ops| + 1 && i < |tr.ts[k].ctrl| == |tr.vs[k].ctrls|
  {
    && l.arity == BrArity(tr.ts[k].ctrl[i]) && l.height == tr.vs[k].ctrls[i].height
    && (l.start.Just? <==> tr.ts[k].ctrl[i].LoopFrame?)
    && (l.start.Just? ==> LoopSince(tr, l.start.it, k, i))
  }

  ghost predicate LabelsOk(tr: Trace, k: nat, labels: seq<RLabel>)
    requires k < |tr.ts| == |tr.vs| == |tr.ops| + 1
  {
    && |labels| == |tr.ts[k].ctrl| == |tr.vs[k].ctrls|
    && forall i :: 0 <= i < |labels| ==> LabelOk(tr, k, i, labels[i])
  }

  /** The function runs at the place the translator was at, with the machine's operands. */
  ghost predicate Placed(t: TState, stack: seq<Word>, c: Config) {
    && t.reachable && c.block == t.f.cur && IsBlock(t.f, t.f.cur) && c.pos == |t.f.blocks[t.f.cur].body|
    && Stacked(|t.stack|, t.ctrl) && Defined(c.env, View(t.stack, t.ctrl)) && stack == GetAll(c.env, View(t.stack, t.ctrl))
  }

  ghost predicate Sim(tr: Trace, g: Func, m: Machine, c: Config) {
    && IsFinal(tr, g) && m.pc <= |tr.ops|
    && Placed(tr.ts[m.pc], m.stack, c)
    && c.locals == m.locals && |m.locals| == tr.vs[m.pc].locals
    && LabelsOk(tr, m.pc, m.labels)
  }

  // ---------------------------------------------------------------- arriving at a branch target

  lemma AlikeBounds(a: seq<Frame>, b: seq<Frame>, n: nat)
    requires n <= |a| && n <= |b| && forall j :: 0 <= j < n ==> Alike(a[j], b[j])
    ensures SameBounds(a[..n], b[..n])
  {
  }

  /** The stack at a branch target, seen by the frames around the target's. */
  lemma LandedBelow(t: TState, t': TState, i: nat)
    requires Landed(t, t', i) && Stacked(|t.stack|, t.ctrl)
    ensures Stacked(BaseSize(t.ctrl[i]), t.ctrl[..i]) && Stacked(|t'.stack|, t'.ctrl[..i]) && FloorOf(t'.ctrl[..i]) <= BaseSize(t.ctrl[i])
    ensures View(t'.stack, t'.ctrl[..i])
            == View(t.stack[..BaseSize(t.ctrl[i])], t.ctrl[..i]) + t.f.blocks[BrDestination(t.ctrl[i])].params
  {
    hide Stacked, View, Alike, SameBounds, BaseSize, BrDestination, FloorOf;
    var s := t.stack[..BaseSize(t.ctrl[i])];
    ViewBelow(t.stack, t.ctrl, i);
    AlikeBounds(t.ctrl, t'.ctrl, i);
    ViewSame(s, t.ctrl[..i], t'.ctrl[..i]);
    ViewPush(s, t'.ctrl[..i], t.f.blocks[BrDestination(t.ctrl[i])].params);
    StackedFloor(|s|, t'.ctrl[..i]);
  }

  lemma LandedBounds(t: TState, t': TState, i: nat)
    requires Landed(t, t', i) && Stacked(|t.stack|, t.ctrl)
    ensures Stacked(BaseSize(t.ctrl[i]), t.ctrl[..i]) && Stacked(|t'.stack|, t'.ctrl)
    ensures View(t'.stack, t'.ctrl)
            == View(t.stack[..BaseSize(t.ctrl[i])], t.ctrl[..i]) + t.f.blocks[BrDestination(t.ctrl[i])].params
  {
    hide Stacked, View, FloorOf, BrDestination;
    LandedBelow(t, t', i);
    if t.ctrl[i].LoopFrame? {
      assert t'.ctrl == t'.ctrl[..i] + [t'.ctrl[i]];
      assert Alike(t.ctrl[i], t'.ctrl[i]);
      ViewOpen(t'.stack, t'.ctrl[..i], t'.ctrl[i], |t.f.blocks[BrDestination(t.ctrl[i])].params|);
    } else {
      assert t'.ctrl == t'.ctrl[..i];
    }
  }

  lemma StackedFloor(size: int, ctrl: seq<Frame>)
    requires Stacked(size, ctrl)
    ensures FloorOf(ctrl) <= size
  {
  }

  /** Entering the target block with `ws` puts `ws` on top of the operands that a branch keeps. */
  lemma Arrive(t: TState, t': TState, i: nat, g: Func, env: map<Value, Word>, locals: seq<Word>, ws: seq<Word>)
    requires Landed(t, t', i) && Stacked(|t.stack|, t.ctrl) && FrameFresh(t, t.ctrl[i]) && ParamsOk(t.f)
    requires
      var b := BrDestination(t.ctrl[i]);
      IsBlock(g, b) && g.blocks[b].params == t.f.blocks[b].params && |ws| == |g.blocks[b].params|
    requires Stacked(BaseSize(t.ctrl[i]), t.ctrl[..i]) && Defined(env, View(t.stack[..BaseSize(t.ctrl[i])], t.ctrl[..i]))
    ensures
      var r := Enter(g, BrDestination(t.ctrl[i]), ws, env, locals);
      && r.Running? && r.c.locals == locals
      && Placed(t', GetAll(env, View(t.stack[..BaseSize(t.ctrl[i])], t.ctrl[..i])) + ws, r.c)
  {
    var b := BrDestination(t.ctrl[i]);
    var ps := t.f.blocks[b].params;
    LandedBounds(t, t', i);
    assert NewParams(ps, 0, t.f.nextValue);
    hide Stacked, View, Alike, ParamsOk;
    var s := t.stack[..BaseSize(t.ctrl[i])];
    ViewNotIn(s, t.ctrl[..i], ps);
    BindAllGets(env, ps, ws, View(s, t.ctrl[..i]));
  }

  // ---------------------------------------------------------------- labels at a branch target

  lemma {:induction false} DupAlike(a: seq<Frame>, b: seq<Frame>, n: nat)
    requires n <= |a| && n <= |b| && forall j :: 0 <= j < n ==> Alike(a[j], b[j])
    ensures DupUpTo(a, n) == DupUpTo(b, n)
  {
    if n > 0 {
      DupAlike(a, b, n - 1);
      DupIsGap(a[n - 1]);
      DupIsGap(b[n - 1]);
    }
  }

  lemma HeightFromFloor(v: VState, t: TState, j: nat)
    requires Inv(v, t) && j < |t.ctrl| && IsReal(t.ctrl[j])
    ensures |v.ctrls| == |t.ctrl| && Floor(t.ctrl[j]) == v.ctrls[j].height + DupUpTo(t.ctrl, j + 1)
  {
    hide FrameOk, ShapeOk;
    assert At(v, t, j);
  }

  lemma HeightsAlike(tr: Trace, k: nat, n: nat, j: nat)
    requires Valid(tr) && k <= |tr.ops| && n <= |tr.ops| && j < |tr.ts[k].ctrl| && j < |tr.ts[n].ctrl|
    requires IsReal(tr.ts[k].ctrl[j]) && forall i :: 0 <= i <= j ==> Alike(tr.ts[k].ctrl[i], tr.ts[n].ctrl[i])
    ensures j < |tr.vs[k].ctrls| && j < |tr.vs[n].ctrls| && tr.vs[n].ctrls[j].height == tr.vs[k].ctrls[j].height
  {
    hide AllSteps, AllStates, Inv, Fresh;
    StateAt(tr, k);
    StateAt(tr, n);
    assert Alike(tr.ts[k].ctrl[j], tr.ts[n].ctrl[j]);
    HeightFromFloor(tr.vs[k], tr.ts[k], j);
    HeightFromFloor(tr.vs[n], tr.ts[n], j);
    DupAlike(tr.ts[k].ctrl, tr.ts[n].ctrl, j + 1);
  }

  /** Labels of frames that are open at both places, before or after. */
  lemma LabelMoves(tr: Trace, k: nat, n: nat, j: nat, l: RLabel)
    requires Valid(tr) && k <= |tr.ops| && n <= |tr.ops| && j < |tr.ts[k].ctrl| == |tr.vs[k].ctrls| && IsReal(tr.ts[k].ctrl[j])
    requires j < |tr.ts[n].ctrl| == |tr.vs[n].ctrls| && forall i :: 0 <= i <= j ==> Alike(tr.ts[k].ctrl[i], tr.ts[n].ctrl[i])
    requires LabelOk(tr, k, j, l) && (l.start.Just? ==> LoopSince(tr, l.start.it, n, j))
    ensures LabelOk(tr, n, j, l)
  {
    hide AllSteps, AllStates, LoopSince;
    HeightsAlike(tr, k, n, j);
    assert Alike(tr.ts[k].ctrl[j], tr.ts[n].ctrl[j]);
  }

  lemma AllRealAt(tr: Trace, k: nat)
    requires Valid(tr) && k <= |tr.ops| && tr.ts[k].reachable
    ensures |tr.ts[k].ctrl| == |tr.vs[k].ctrls| && forall i :: 0 <= i < |tr.ts[k].ctrl| ==> IsReal(tr.ts[k].ctrl[i])
  {
    hide AllSteps, AllStates, Inv, Fresh;
    StateAt(tr, k);
    AllReal(tr.vs[k], tr.ts[k]);
  }

  lemma LabelsForward(tr: Trace, k: nat, n: nat, labels: seq<RLabel>)
    requires Valid(tr) && k <= n <= |tr.ops| && tr.ts[k].reachable && LabelsOk(tr, k, labels) && |tr.ts[n].ctrl| <= |labels|
    requires forall m :: k <= m <= n ==> |tr.ts[m].ctrl| >= |tr.ts[n].ctrl|
    requires forall j :: 0 <= j < |tr.ts[n].ctrl| ==> Alike(tr.ts[k].ctrl[j], tr.ts[n].ctrl[j])
    ensures LabelsOk(tr, n, labels[..|tr.ts[n].ctrl|])
  {
    hide AllSteps, AllStates, Inv, Fresh, Alike;
    StateAt(tr, n);
    AllRealAt(tr, k);
    forall j | 0 <= j < |tr.ts[n].ctrl| ensures LabelOk(tr, n, j, labels[j]) {
      assert LabelOk(tr, k, j, labels[j]);
      LabelMoves(tr, k, n, j, labels[j]);
    }
  }

  lemma LabelsBack(tr: Trace, s: nat, k: nat, i: nat, labels: seq<RLabel>)
    requires Valid(tr) && k <= |tr.ops| && tr.ts[k].reachable && LabelsOk(tr, k, labels) && LoopSince(tr, s, k, i)
    requires |tr.ts[s].ctrl| == i + 1 <= |labels|
    requires forall j :: 0 <= j <= i ==> Alike(tr.ts[k].ctrl[j], tr.ts[s].ctrl[j])
    requires labels[i].start == Just(s)
    ensures LabelsOk(tr, s, labels[..i + 1])
  {
    hide AllSteps, AllStates, Inv, Fresh, Alike;
    StateAt(tr, s);
    AllRealAt(tr, k);
    forall j | 0 <= j < i + 1 ensures LabelOk(tr, s, j, labels[j]) {
      assert LabelOk(tr, k, j, labels[j]);
      if labels[j].start.Just? && j < i {
        var s' := labels[j].start.it;
        assert |tr.ts[s' - 1].ctrl| == j;
        assert s' <= s;
      }
      LabelMoves(tr, k, s, j, labels[j]);
    }
  }
}
