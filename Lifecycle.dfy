/**
 * A target's life as any sequence of the operations that change it: plug,
 * unplug, notification (un)registration and the id setters, each made
 * under the session the client has at that moment (connected, disconnected
 * or freed in between). Facts that hold after every such sequence are
 * proved here.
 */
module Lifecycle {
  import opened Types
  import opened Bus
  import opened Targets
  import opened Plug
  import opened Notify

  /** One operation on a target, with the driver's answers it will get. */
  datatype TargetOp =
    | AddOp(accepting: set<nat>, waitReady: Completion, unplug: Completion)
    | RemoveOp(unplug: Completion)
    | RegisterOp(callback: Address, userData: Address)
    | UnregisterOp
    | SetVidOp(vid: u16)
    | SetPidOp(pid: u16)

  function Step(s: Session, t: TargetView, op: TargetOp): TargetView
  {
    match op
    case AddOp(a, w, u) => AddSpec(s, t, a, w, u).target
    case RemoveOp(u) => RemoveSpec(s, t, u).target
    case RegisterOp(cb, ud) => RegisterSpec(s, t, cb, ud).target
    case UnregisterOp => UnregisterSpec(t)
    case SetVidOp(v) => t.(vendorId := v)
    case SetPidOp(p) => t.(productId := p)
  }

  /** One call on the target: an operation and the session it is made under. */
  datatype Call = Call(session: Session, op: TargetOp)

  function Run(t: TargetView, calls: seq<Call>): TargetView
    decreases |calls|
  {
    if calls == [] then t else Run(Step(calls[0].session, t, calls[0].op), calls[1..])
  }

  /** A Connected target holds a serial of a real slot. */
  predicate ConnectedHasSlot(t: TargetView)
  {
    t.state == Connected ==> 1 <= t.serialNo <= TargetsMax
  }

  lemma StepKeepsSlotAndFlag(s: Session, t: TargetView, op: TargetOp)
    requires ConnectedHasSlot(t)
    ensures ConnectedHasSlot(Step(s, t, op))
    ensures t.waitReadyUnsupported ==> Step(s, t, op).waitReadyUnsupported
    ensures Step(s, t, op).kind == t.kind
  {
    if op.AddOp? && AddPrecheck(s, true, t.state).None? {
      var serial := FirstAccepted(op.accepting, 1);
      if serial <= TargetsMax && op.waitReady.Failed? && op.waitReady.lastError != ErrorInvalidParameter {
        assert RemovePrecheck(s, true, t.state) == Some(TargetNotPluggedIn);
      }
    }
  }

  /**
   * Every operation sequence keeps a Connected target on a slot in
   * [1, TargetsMax], keeps the target's type, and never clears the legacy
   * wait flag once a plug has set it.
   */
  lemma {:induction false} RunKeepsSlotTypeAndFlag(t: TargetView, calls: seq<Call>)
    requires ConnectedHasSlot(t)
    ensures ConnectedHasSlot(Run(t, calls))
    ensures t.waitReadyUnsupported ==> Run(t, calls).waitReadyUnsupported
    ensures Run(t, calls).kind == t.kind
    decreases |calls|
  {
    if calls != [] {
      StepKeepsSlotAndFlag(calls[0].session, t, calls[0].op);
      RunKeepsSlotTypeAndFlag(Step(calls[0].session, t, calls[0].op), calls[1..]);
    }
  }

  /**
   * A plug that meets a driver without the wait-ready request still
   * succeeds, and from then on, whatever happens to the target, the
   * capability probe reports the wait-ready path as unsupported.
   */
  lemma {:induction false} LegacyPlugDisablesWaitableAdd(s: Session, t: TargetView, accepting: set<nat>, unplug: Completion, later: seq<Call>)
    requires AddPrecheck(s, true, t.state).None? && ConnectedHasSlot(t)
    requires exists k :: 1 <= k <= TargetsMax && k in accepting
    ensures var p := AddSpec(s, t, accepting, Failed(ErrorInvalidParameter), unplug);
      && p.error == NoError && p.target.state == Connected
      && !WaitableAddSupported(Some(Run(p.target, later)))
  {
    AddSucceedsAtFirstAcceptedSlot(s, t, accepting, Failed(ErrorInvalidParameter), unplug);
    var p := AddSpec(s, t, accepting, Failed(ErrorInvalidParameter), unplug);
    RunKeepsSlotTypeAndFlag(p.target, later);
  }

  /**
   * Targets that come from the allocators start with no slot and keep the
   * Connected-has-a-slot property and their type through any sequence of
   * operations.
   */
  lemma AllocatedTargetsKeepSlotInvariant(kind: TargetType, calls: seq<Call>)
    ensures ConnectedHasSlot(Run(Allocated(kind), calls))
    ensures Run(Allocated(kind), calls).kind == kind
  {
    RunKeepsSlotTypeAndFlag(Allocated(kind), calls);
  }
}
