/** Where branches arrive: the state of the translator at the target of a branch, and what the
    operands are there. */
module Landing {
  import opened Cfg
  import opened Validation
  import opened Translation
  import opened TranslationInvariant
  import opened LiveSteps
  import opened CloseSteps
  import opened FrameStability
  import opened ValueFreshness
  import opened WasmMachine
  import opened Traces

  // ---------------------------------------------------------------- ends

  /** The state in which the code after a construct is translated. */
  ghost predicate EndedInto(t: TState, t': TState)
    requires t.ctrl != []
  {
    var fr := TopFrame(t);
    && t'.reachable && t'.f.cur == fr.destination && IsBlock(t.f, fr.destination) && IsBlock(t'.f, fr.destination)
    && t'.f.blocks[fr.destination].body == [] && t'.f.blocks[fr.destination].params == t.f.blocks[fr.destination].params
    && t'.ctrl == t.ctrl[..|t.ctrl| - 1] && 0 <= BaseSize(fr) <= |t.stack|
    && t'.stack == t.stack[..BaseSize(fr)] + t.f.blocks[fr.destination].params
  }

  lemma CloseIntoBody(f: Func, fr: Frame)
    requires CloseInto(f, fr).Ok? && IsBlock(f, fr.destination)
    ensures CloseInto(f, fr).value.cur == fr.destination && IsBlock(CloseInto(f, fr).value, fr.destination)
    ensures CloseInto(f, fr).value.blocks[fr.destination].body == f.blocks[fr.destination].body
    ensures CloseInto(f, fr).value.blocks[fr.destination].params == f.blocks[fr.destination].params
  {
  }

  lemma EndLiveInto(v: VState, t: TState)
    requires Inv(v, t) && t.ctrl != [] && IsReal(TopFrame(t)) && Validate(v, EndOp).Just? && t.reachable
    requires TransEnd(t).Ok?
    ensures EndedInto(t, TransEnd(t).value)
  {
    hide Inv, Validate, PredExcept, ElseOk, CloseInto;
    TopFacts(v, t);
    var fr := TopFrame(t);
    var term := Jump(fr.destination, PeekN(t.stack, fr.numResults).value);
    var f1 := Terminate(t.f, term).value;
    CloseIntoBody(f1, fr);
  }

  lemma EndDeadInto(v: VState, t: TState)
    requires Inv(v, t) && t.ctrl != [] && IsReal(TopFrame(t)) && Validate(v, EndOp).Just? && !t.reachable
    requires !TopFrame(t).LoopFrame? && (ExitBranched(TopFrame(t)) || ReachableAnyway(TopFrame(t))) && DeadEnd(t).Ok?
    ensures EndedInto(t, DeadEnd(t).value)
  {
    hide Inv, Validate, PredExcept, ElseOk, CloseInto;
    TopFacts(v, t);
    CloseIntoBody(t.f, TopFrame(t));
  }

  lemma EndInto(v: VState, t: TState)
    requires Inv(v, t) && t.ctrl != [] && IsReal(TopFrame(t)) && Validate(v, EndOp).Just? && TransOp(t, EndOp).Ok?
    requires t.reachable || (!TopFrame(t).LoopFrame? && (ExitBranched(TopFrame(t)) || ReachableAnyway(TopFrame(t))))
    ensures EndedInto(t, TransOp(t, EndOp).value)
  {
    hide Inv, Validate, TransEnd, DeadEnd, EndedInto, IsUnreachable;
    if t.reachable {
      EndLiveInto(v, t);
    } else {
      EndDeadInto(v, t);
    }
  }

  // ---------------------------------------------------------------- landing

  /** A frame and the same frame elsewhere. */
  predicate Alike(a: Frame, b: Frame) {
    && BaseSize(a) == BaseSize(b) && Floor(a) == Floor(b) && BrArity(a) == BrArity(b)
    && (a.LoopFrame? <==> b.LoopFrame?) && (IsReal(a) <==> IsReal(b))
  }

  /** `t'` is where a branch to frame `i` from `t` continues. */
  ghost predicate Landed(t: TState, t': TState, i: nat) {
    && i < |t.ctrl| && |t'.ctrl| == (if t.ctrl[i].LoopFrame? then i + 1 else i)
    && (forall j :: 0 <= j < |t'.ctrl| ==> Alike(t.ctrl[j], t'.ctrl[j]))
    && var b, base := BrDestination(t.ctrl[i]), BaseSize(t.ctrl[i]);
       && t'.reachable && t'.f.cur == b && IsBlock(t.f, b) && IsBlock(t'.f, b)
       && t'.f.blocks[b].body == [] && t'.f.blocks[b].params == t.f.blocks[b].params
       && 0 <= base <= |t.stack| && t'.stack == t.stack[..base] + t.f.blocks[b].params
  }

  lemma KeptAlike(t: TState, t': TState, i: nat)
    requires Kept(t, t', i)
    ensures forall j :: 0 <= j < i ==> Alike(t.ctrl[j], t'.ctrl[j]) && Alike(t'.ctrl[j], t.ctrl[j])
    ensures SameBranch(t.ctrl[i], t'.ctrl[i]) ==> Alike(t.ctrl[i], t'.ctrl[i])
    ensures BaseSize(t.ctrl[i]) == BaseSize(t'.ctrl[i]) && BrDestination(t.ctrl[i]) == BrDestination(t'.ctrl[i])
    ensures t.ctrl[i].destination == t'.ctrl[i].destination
  {
  }

  lemma KeptStack(t: TState, t': TState, i: nat)
    requires Kept(t, t', i) && 0 <= BaseSize(t.ctrl[i])
    ensures BaseSize(t.ctrl[i]) <= |t.stack| && BaseSize(t.ctrl[i]) <= |t'.stack|
    ensures t'.stack[..BaseSize(t.ctrl[i])] == t.stack[..BaseSize(t.ctrl[i])]
  {
    var a, b := Floor(t'.ctrl[i]), BaseSize(t.ctrl[i]);
    PersistsFloor(t.ctrl[i], t'.ctrl[i]);
    assert t'.stack[..b] == t'.stack[..a][..b];
    assert t.stack[..b] == t.stack[..a][..b];
  }

  /** The code after the construct of frame `i` is reachable, for one of the reasons the flags record. */
  predicate Continuing(t: TState, i: nat)
    requires i < |t.ctrl|
  {
    t.reachable || (!t.ctrl[i].LoopFrame? && (ExitBranched(t.ctrl[i]) || ReachableAnyway(t.ctrl[i])))
  }

  lemma EndedLands(t: TState, u: TState, t': TState, i: nat)
    requires Kept(t, u, i) && |u.ctrl| == i + 1 && EndedInto(u, t') && !t.ctrl[i].LoopFrame? && 0 <= BaseSize(t.ctrl[i])
    requires IsBlock(t.f, t.ctrl[i].destination)
    requires IsBlock(u.f, t.ctrl[i].destination)
    requires u.f.blocks[t.ctrl[i].destination].params == t.f.blocks[t.ctrl[i].destination].params
    ensures Landed(t, t', i)
  {
    hide Kept, Alike;
    KeptReal(t, u, i);
    KeptAlike(t, u, i);
    KeptStack(t, u, i);
  }

  /** A branch out of frame `i`, closed at `e`, continues after its end. */
  lemma LandsForward(tr: Trace, k: nat, i: nat, e: nat)
    requires Valid(tr) && k <= e < |tr.ops| && Open(tr, k, e, i) && tr.ops[e].EndOp? && |tr.ts[e].ctrl| == i + 1
    requires IsReal(tr.ts[k].ctrl[i]) && !tr.ts[k].ctrl[i].LoopFrame? && Continuing(tr.ts[e], i)
    requires IsBlock(tr.ts[k].f, tr.ts[k].ctrl[i].destination)
    ensures Landed(tr.ts[k], tr.ts[e + 1], i)
  {
    hide AllSteps, AllStates, Inv, Fresh, TransOp, Validate, Kept, EndedInto, Landed;
    Between(tr, k, e, i);
    StateAt(tr, e);
    StepFrom(tr, e);
    EndInto(tr.vs[e], tr.ts[e]);
    Growing(tr, k, e, tr.ts[k].ctrl[i].destination);
    EndedLands(tr.ts[k], tr.ts[e], tr.ts[e + 1], i);
  }

  // ---------------------------------------------------------------- loops

  /** Frame `i` is a loop that was entered in reachable code and whose body starts at `s`. */
  ghost predicate LoopSince(tr: Trace, s: nat, k: nat, i: nat)
    requires k < |tr.ts| == |tr.ops| + 1
  {
    && 1 <= s <= k && tr.ops[s - 1].LoopOp? && tr.ts[s - 1].reachable && |tr.ts[s - 1].ctrl| == i && Open(tr, s, k, i)
  }

  lemma LoopStarts(t: TState, bt: BlockType)
    requires TransLoop(t, bt).Ok? && t.reachable
    ensures
      var t' := TransLoop(t, bt).value;
      && t'.reachable && |t'.ctrl| == |t.ctrl| + 1
      && var fr := TopFrame(t');
         && fr.LoopFrame? && IsReal(fr) && t'.f.cur == fr.header == |t.f.blocks| && IsBlock(t'.f, fr.header)
         && t'.f.blocks[fr.header].body == [] && fr.numParams == |bt.params| && fr.origSize == |t.stack| - |bt.params|
         && 0 <= fr.origSize <= |t.stack| && t'.stack == t.stack[..fr.origSize] + t'.f.blocks[fr.header].params
         && (forall j :: 0 <= j < |t.ctrl| ==> t'.ctrl[j] == t.ctrl[j])
  {
    hide TermOk;
  }

  lemma LoopStartsAt(tr: Trace, s: nat)
    requires Valid(tr) && 1 <= s <= |tr.ops| && tr.ops[s - 1].LoopOp? && tr.ts[s - 1].reachable
    ensures TransLoop(tr.ts[s - 1], tr.ops[s - 1].bt) == Ok(tr.ts[s])
  {
    hide AllSteps, AllStates, Inv, Fresh, Validate, TransLoop, TransDead;
    StateAt(tr, s - 1);
    StepFrom(tr, s - 1);
    LiveFacts(tr.vs[s - 1], tr.ts[s - 1]);
  }

  lemma StartLands(t: TState, t': TState, i: nat)
    requires Kept(t', t, i) && |t'.ctrl| == i + 1 && t'.reachable && TopFrame(t').LoopFrame? && SameBranch(t'.ctrl[i], t.ctrl[i])
    requires
      var fr := TopFrame(t');
      && t'.f.cur == fr.header && IsBlock(t'.f, fr.header) && IsBlock(t.f, fr.header) && t'.f.blocks[fr.header].body == []
      && t'.f.blocks[fr.header].params == t.f.blocks[fr.header].params
      && 0 <= fr.origSize <= |t'.stack| && t'.stack == t'.stack[..fr.origSize] + t'.f.blocks[fr.header].params
    ensures Landed(t, t', i)
  {
    hide Kept, Alike;
    KeptReal(t', t, i);
    KeptAlike(t', t, i);
    KeptStack(t', t, i);
    assert Alike(t.ctrl[i], t'.ctrl[i]) by { AlikeSym(t'.ctrl[i], t.ctrl[i]); }
    KeptLoop(t', t, i);
  }

  lemma KeptLoop(t: TState, t': TState, i: nat)
    requires Kept(t, t', i)
    ensures t.ctrl[i].LoopFrame? <==> t'.ctrl[i].LoopFrame?
  {
  }

  lemma AlikeSym(a: Frame, b: Frame)
    requires Alike(a, b)
    ensures Alike(b, a)
  {
  }

  lemma LoopBranch(fr: Frame, fr': Frame)
    requires fr.LoopFrame?
    ensures SameBranch(fr, fr')
  {
  }

  /** A branch to a loop continues at the start of its body. */
  lemma LandsBack(tr: Trace, s: nat, k: nat, i: nat)
    requires Valid(tr) && k <= |tr.ops| && LoopSince(tr, s, k, i)
    ensures Landed(tr.ts[k], tr.ts[s], i)
  {
    hide AllSteps, AllStates, Inv, Fresh, Kept, Landed, TransLoop, SameBranch;
    LoopStartsAt(tr, s);
    LoopStarts(tr.ts[s - 1], tr.ops[s - 1].bt);
    Between(tr, s, k, i);
    KeptReal(tr.ts[s], tr.ts[k], i);
    var t' := tr.ts[s];
    Growing(tr, s, k, TopFrame(t').header);
    LoopBranch(t'.ctrl[i], tr.ts[k].ctrl[i]);
    assert t'.stack[..TopFrame(t').origSize] == tr.ts[s - 1].stack[..TopFrame(t').origSize];
    StartLands(tr.ts[k], t', i);
  }
}
