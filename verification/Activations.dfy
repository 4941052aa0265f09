/** Nested calls into WebAssembly (`src/placeholder/trap_handling/mod.rs`, `src/func.rs`): each call pushes its state on a
    thread-local chain, saves fields of the `VMContext` it calls into, and undoes both however it ends. A trap
    is one event: it is recorded in the state at the head of the chain, and control goes back to where that state was pushed. */
module Activations {
  import opened WasmTypes

  const MAX_WASM_STACK: nat := 512 * 1024

  /** The fields of a `VMContext` that calls save and restore. */
  class VMContext {
    var stackLimit: int
    var lastWasmExitFp: int
    var lastWasmExitPc: int
    var lastWasmEntryFp: int

    ghost function Fields(): (int, int, int, int)
      reads this
    {
      (stackLimit, lastWasmExitFp, lastWasmExitPc, lastWasmEntryFp)
    }
  }

  /** What a call into WebAssembly does: a number of actions, then it returns or traps. */
  datatype Body = Body(actions: seq<Action>, end: End)

  datatype End = Returns | Traps(reason: nat)

  /** Running code changes the saved registers of its own context, or calls into WebAssembly again, from a given stack pointer. */
  datatype Action = SetRegisters(exitFp: int, exitPc: int, entryFp: int) | Call(callee: VMContext, stackPointer: nat, body: Body)

  /** Every call leaves room for the stack limit. */
  predicate BodyOk(b: Body) {
    forall i :: 0 <= i < |b.actions| ==> ActionOk(b.actions[i])
  }

  predicate ActionOk(a: Action) {
    a.Call? ==> MAX_WASM_STACK <= a.stackPointer && BodyOk(a.body)
  }

  /** The contexts that a body calls into. */
  ghost predicate Within(b: Body, contexts: set<VMContext>) {
    forall i :: 0 <= i < |b.actions| ==> ActionWithin(b.actions[i], contexts)
  }

  ghost predicate ActionWithin(a: Action, contexts: set<VMContext>) {
    a.Call? ==> a.callee in contexts && Within(a.body, contexts)
  }

  /** What running code finds: the stack limit and the registers in its context, the head of the chain and the state under
      that; and what the calls it makes find. */
  datatype Seen = Seen(limit: int, registers: (int, int, int), head: CallThreadState?, under: CallThreadState?, nested: Option<Log>)

  /** A call's own state, and what its code finds before each of its actions and at its end. */
  datatype Log = Log(state: CallThreadState, seen: seq<Seen>)

  /** Throughout the call, between nested calls and in them, the limit in force is that of the innermost call running, and that
      call's state is the head of the chain, with its caller's state under it. Registers are as the code itself set them last. */
  ghost predicate LogOk(log: Log, callee: VMContext, stackPointer: nat, body: Body, under: CallThreadState?)
    decreases body, 1
  {
    && log.state.vmctx == callee && |log.seen| == |body.actions| + 1
    && (forall k :: 0 <= k < |log.seen| ==> SeenOk(log.seen[k], log.state, stackPointer, body, k, under))
    && forall k :: 0 <= k < |body.actions| ==> Follows(body.actions[k], log.seen[k], log.seen[k + 1])
  }

  /** What an action does to the registers that the code finds: calls leave them alone. */
  predicate Follows(a: Action, before: Seen, after: Seen) {
    after.registers == if a.SetRegisters? then (a.exitFp, a.exitPc, a.entryFp) else before.registers
  }

  ghost predicate SeenOk(s: Seen, state: CallThreadState, stackPointer: nat, body: Body, k: nat, under: CallThreadState?)
    decreases body, 0
  {
    && s.limit == stackPointer - MAX_WASM_STACK && s.head == state && s.under == under
    && (s.nested.Some? <==> k < |body.actions| && body.actions[k].Call?)
    && (k < |body.actions| && body.actions[k].Call? ==>
          s.nested.Some? && LogOk(s.nested.value, body.actions[k].callee, body.actions[k].stackPointer, body.actions[k].body, state))
  }

  class CallThreadState {
    var unwind: Option<nat>
    var prev: CallThreadState?
    const vmctx: VMContext
    const oldLastWasmExitFp: int
    const oldLastWasmExitPc: int
    const oldLastWasmEntryFp: int

    constructor (vmctx: VMContext)
      ensures prev == null && unwind == None && this.vmctx == vmctx
      ensures oldLastWasmExitFp == vmctx.lastWasmExitFp && oldLastWasmExitPc == vmctx.lastWasmExitPc
      ensures oldLastWasmEntryFp == vmctx.lastWasmEntryFp
    {
      this.vmctx := vmctx;
      unwind, prev := None, null;
      oldLastWasmExitFp, oldLastWasmExitPc := vmctx.lastWasmExitFp, vmctx.lastWasmExitPc;
      oldLastWasmEntryFp := vmctx.lastWasmEntryFp;
    }

    /** Restores the registers of the context, as dropping the state does. */
    method Drop()
      modifies vmctx
      ensures vmctx.lastWasmExitFp == oldLastWasmExitFp && vmctx.lastWasmExitPc == oldLastWasmExitPc
      ensures vmctx.lastWasmEntryFp == oldLastWasmEntryFp && vmctx.stackLimit == old(vmctx.stackLimit)
    {
      vmctx.lastWasmExitFp := oldLastWasmExitFp;
      vmctx.lastWasmExitPc := oldLastWasmExitPc;
      vmctx.lastWasmEntryFp := oldLastWasmEntryFp;
    }
  }

  /** The thread-local head of the chain. Before the first call it is not set; afterwards it may be a null pointer. */
  class Thread {
    var tls: Option<CallThreadState?>

    constructor ()
      ensures tls == None
    {
      tls := None;
    }

    /** The head of the chain, if any. */
    ghost function Head(): CallThreadState?
      reads this
    {
      if tls.Some? then tls.value else null
    }

    method Push(state: CallThreadState)
      requires state.prev == null
      modifies this, state`prev
      ensures tls == Some(state) && state.prev == old(Head())
    {
      var old_ := tls;
      tls := Some(state);
      state.prev := if old_.Some? then old_.value else null;
    }

    method Pop(state: CallThreadState)
      requires Head() == state
      modifies this, state`prev
      ensures Head() == old(state.prev) && tls.Some? && state.prev == null
    {
      var prev := state.prev;
      state.prev := null;
      tls := Some(prev);
    }

    /** A trap reaches the state at the head of the chain. */
    method RaiseTrap(reason: nat) returns (target: CallThreadState)
      requires Head() != null
      modifies Head()`unwind
      ensures target == Head() && target.unwind == Some(reason)
    {
      target := tls.value;
      target.unwind := Some(reason);
    }

    /** Calls into `callee`. The outcome is that of the body; while it runs its code finds what `LogOk` says; afterwards the chain's
        head, the callee's stack limit and the registers of all contexts are what they were, whether the body and the calls in it
        returned or trapped. */
    method CallIntoWasm(callee: VMContext, stackPointer: nat, body: Body, ghost contexts: set<VMContext>)
      returns (r: Option<nat>, ghost log: Log)
      requires MAX_WASM_STACK <= stackPointer && BodyOk(body) && Within(body, contexts) && callee in contexts
      modifies this, contexts
      ensures r == if body.end.Traps? then Some(body.end.reason) else None
      ensures LogOk(log, callee, stackPointer, body, old(Head()))
      ensures Head() == old(Head())
      ensures forall c :: c in contexts ==> c.Fields() == old(c.Fields())
      decreases body, 1
    {
      // enter_wasm
      var prevStack := callee.stackLimit;
      callee.stackLimit := stackPointer - MAX_WASM_STACK;
      // catch_traps
      var state := new CallThreadState(callee);
      Push(state);
      ghost var seen := RunActions(callee, state, stackPointer, body, 0, contexts);
      log := Log(state, seen);
      assert forall j :: 0 <= j < |seen| ==> SeenOk(seen[j], state, stackPointer, body, 0 + j, state.prev);
      assert forall j :: 0 <= j < |seen| - 1 ==> Follows(body.actions[0 + j], seen[j], seen[j + 1]);
      ghost var target: CallThreadState? := null;
      if body.end.Traps? {
        target := RaiseTrap(body.end.reason);
        assert target == state;
      }
      Pop(state);
      r := state.unwind;
      state.Drop();
      // the guard is dropped
      callee.stackLimit := prevStack;
    }

    /** Runs the actions of a body from the `i`-th on, below `state`. */
    method RunActions(ctx: VMContext, state: CallThreadState, ghost stackPointer: nat, body: Body, i: nat, ghost contexts: set<VMContext>)
      returns (ghost seen: seq<Seen>)
      requires i <= |body.actions| && BodyOk(body) && Within(body, contexts) && ctx in contexts
      requires Head() == state && ctx.stackLimit == stackPointer - MAX_WASM_STACK
      modifies this, contexts
      ensures |seen| == |body.actions| + 1 - i
      ensures forall j :: 0 <= j < |seen| ==> SeenOk(seen[j], state, stackPointer, body, i + j, state.prev)
      ensures forall j :: 0 <= j < |seen| - 1 ==> Follows(body.actions[i + j], seen[j], seen[j + 1])
      ensures seen[0].registers == old((ctx.lastWasmExitFp, ctx.lastWasmExitPc, ctx.lastWasmEntryFp))
      ensures Head() == state
      ensures ctx.stackLimit == old(ctx.stackLimit) && forall c :: c in contexts && c != ctx ==> c.Fields() == old(c.Fields())
      decreases body, 0, |body.actions| - i
    {
      ghost var registers := (ctx.lastWasmExitFp, ctx.lastWasmExitPc, ctx.lastWasmEntryFp);
      ghost var now := Seen(ctx.stackLimit, registers, Head(), Head().prev, None);
      if i < |body.actions| {
        assert ActionOk(body.actions[i]) && ActionWithin(body.actions[i], contexts);
        match body.actions[i] {
          case SetRegisters(fp, pc, entry) =>
            ctx.lastWasmExitFp, ctx.lastWasmExitPc, ctx.lastWasmEntryFp := fp, pc, entry;
          case Call(callee, sp, inner) =>
            var _, log := CallIntoWasm(callee, sp, inner, contexts);
            now := now.(nested := Some(log));
        }
        ghost var rest := RunActions(ctx, state, stackPointer, body, i + 1, contexts);
        seen := [now] + rest;
        forall j | 0 <= j < |seen| ensures SeenOk(seen[j], state, stackPointer, body, i + j, state.prev) {
          if j > 0 {
            assert SeenOk(rest[j - 1], state, stackPointer, body, i + 1 + (j - 1), state.prev);
          }
        }
        forall j | 0 <= j < |seen| - 1 ensures Follows(body.actions[i + j], seen[j], seen[j + 1]) {
          if j > 0 {
            assert Follows(body.actions[i + 1 + (j - 1)], rest[j - 1], rest[j - 1 + 1]);
          }
        }
      } else {
        seen := [now];
      }
    }
  }
}
