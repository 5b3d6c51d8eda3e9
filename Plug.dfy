/**
 * Plugging a target into the bus and unplugging it. The client probes the
 * slot space itself: it offers serial 1, 2, ... to the driver until one
 * plugin request is accepted, then waits for the new device to come up.
 */
module Plug {
  import opened Types
  import opened Bus
  import opened Targets

  /** What a plug or unplug returns, the target it leaves, and the requests it sent, in order. */
  datatype Plugged = Plugged(error: Error, target: TargetView, sent: seq<Request>)

  /**
   * The checks vigem_target_add and vigem_target_add_async make, in this
   * order, before any request: the session checks, then the target must
   * come from an allocator and must not be plugged in already.
   */
  function AddPrecheck(s: Session, targetPresent: bool, state: TargetState): (e: Option<Error>)
    ensures e == None <==> SessionCheck(s, targetPresent) == None && state != New && state != Connected
    ensures SessionCheck(s, targetPresent).Some? ==> e == SessionCheck(s, targetPresent)
    ensures SessionCheck(s, targetPresent) == None && state == New ==> e == Some(TargetUninitialized)
    ensures SessionCheck(s, targetPresent) == None && state == Connected ==> e == Some(AlreadyConnected)
  {
    var e := SessionCheck(s, targetPresent);
    if e.Some? then e
    else if state == New then Some(TargetUninitialized)
    else if state == Connected then Some(AlreadyConnected)
    else None
  }

  /**
   * The checks of vigem_target_remove: the same first four as a plug, then
   * the target must be Connected.
   */
  function RemovePrecheck(s: Session, targetPresent: bool, state: TargetState): (e: Option<Error>)
    ensures e == None <==> SessionCheck(s, targetPresent) == None && state == Connected
    ensures SessionCheck(s, targetPresent).Some? ==> e == SessionCheck(s, targetPresent)
    ensures SessionCheck(s, targetPresent) == None && state == New ==> e == Some(TargetUninitialized)
    ensures SessionCheck(s, targetPresent) == None && state in {Initialized, Disconnected} ==> e == Some(TargetNotPluggedIn)
  {
    var e := SessionCheck(s, targetPresent);
    if e.Some? then e
    else if state == New then Some(TargetUninitialized)
    else if state != Connected then Some(TargetNotPluggedIn)
    else None
  }

  /**
   * The serial the plug loop stops at when it starts from `from`: the
   * first one in [from, TargetsMax] whose plugin request the driver
   * accepts, or TargetsMax + 1 when the driver accepts none of them.
   */
  function FirstAccepted(accepting: set<nat>, from: nat): (serial: nat)
    requires from <= TargetsMax + 1
    ensures from <= serial <= TargetsMax + 1
    ensures serial <= TargetsMax ==> serial in accepting
    ensures forall k :: from <= k < serial ==> k !in accepting
    decreases TargetsMax + 1 - from
  {
    if from > TargetsMax || from in accepting then from
    else FirstAccepted(accepting, from + 1)
  }

  /** The plugin requests for serials 1 to n, each carrying the target's type and ids. */
  function ProbeRequests(t: TargetView, n: nat): (rs: seq<Request>)
    ensures |rs| == n
    ensures forall i :: 0 <= i < n ==> rs[i] == Plugin(i + 1, t.kind, t.vendorId, t.productId)
  {
    seq(n, (i: nat) => Plugin(i + 1, t.kind, t.vendorId, t.productId))
  }

  /** vigem_target_remove on a target's fields, given how the driver completes the unplug request. */
  function RemoveSpec(s: Session, t: TargetView, unplug: Completion): Plugged
  {
    var pre := RemovePrecheck(s, true, t.state);
    if pre.Some? then Plugged(pre.value, t, [])
    else if unplug.Completed? then Plugged(NoError, t.(state := Disconnected), [Unplug(t.serialNo)])
    else Plugged(RemovalFailed, t, [Unplug(t.serialNo)])
  }

  /**
   * vigem_target_add on a target's fields, given the serials whose plugin
   * request the driver accepts, how it completes the wait-ready request,
   * and how it would complete an unplug request.
   */
  function AddSpec(s: Session, t: TargetView, accepting: set<nat>, waitReady: Completion, unplug: Completion): Plugged
  {
    var pre := AddPrecheck(s, true, t.state);
    if pre.Some? then Plugged(pre.value, t, [])
    else
      var serial := FirstAccepted(accepting, 1);
      if serial > TargetsMax then
        Plugged(NoFreeSlot, t.(serialNo := serial), ProbeRequests(t, TargetsMax))
      else
        var probed := t.(serialNo := serial);
        var sent := ProbeRequests(t, serial) + [WaitDeviceReady(serial)];
        match waitReady
        case Completed =>
          Plugged(NoError, probed.(state := Connected), sent)
        case Failed(e) =>
          if e == ErrorInvalidParameter then
            Plugged(NoError, probed.(state := Connected, waitReadyUnsupported := true), sent)
          else
            var undo := RemoveSpec(s, probed, unplug);
            Plugged(undo.error, undo.target, sent + undo.sent)
  }

  /** vigem_target_remove */
  method Remove(c: Client?, t: Target?, unplug: Completion) returns (r: Error, sent: seq<Request>)
    modifies t
    ensures t == null ==> Some(r) == SessionCheck(SessionOf(c), false) && sent == []
    ensures t != null ==> Plugged(r, t.View(), sent) == RemoveSpec(SessionOf(c), old(t.View()), unplug)
  {
    sent := [];
    if c == null {
      return BusInvalidHandle, sent;
    }
    if t == null {
      return InvalidTarget, sent;
    }
    if !c.busOpen {
      return BusNotFound, sent;
    }
    if t.state == New {
      return TargetUninitialized, sent;
    }
    if t.state != Connected {
      return TargetNotPluggedIn, sent;
    }
    sent := [Unplug(t.serialNo)];
    if unplug.Completed? {
      t.state := Disconnected;
      return NoError, sent;
    }
    return RemovalFailed, sent;
  }

  /** vigem_target_add: the checks, then the slot-probing loop over t.serialNo. */
  method Add(c: Client?, t: Target?, accepting: set<nat>, waitReady: Completion, unplug: Completion)
    returns (r: Error, sent: seq<Request>)
    modifies t
    ensures t == null ==> Some(r) == SessionCheck(SessionOf(c), false) && sent == []
    ensures t != null ==>
      Plugged(r, t.View(), sent) == AddSpec(SessionOf(c), old(t.View()), accepting, waitReady, unplug)
  {
    r, sent := NoFreeSlot, [];
    if c == null {
      return BusInvalidHandle, sent;
    }
    if t == null {
      return InvalidTarget, sent;
    }
    if !c.busOpen {
      return BusNotFound, sent;
    }
    if t.state == New {
      return TargetUninitialized, sent;
    }
    if t.state == Connected {
      return AlreadyConnected, sent;
    }
    ghost var t0 := t.View();
    t.serialNo := 1;
    while t.serialNo <= TargetsMax
      invariant 1 <= t.serialNo <= TargetsMax + 1
      invariant t.View() == t0.(serialNo := t.serialNo)
      invariant forall k :: 1 <= k < t.serialNo ==> k !in accepting
      invariant sent == ProbeRequests(t0, t.serialNo - 1)
      decreases TargetsMax + 1 - t.serialNo
    {
      sent := sent + [Plugin(t.serialNo, t.kind, t.vendorId, t.productId)];
      assert sent == ProbeRequests(t0, t.serialNo);
      if t.serialNo in accepting {
        assert FirstAccepted(accepting, 1) == t.serialNo;
        sent := sent + [WaitDeviceReady(t.serialNo)];
        match waitReady {
          case Completed =>
            t.state := Connected;
            r := NoError;
          case Failed(e) =>
            if e == ErrorInvalidParameter {
              t.state := Connected;
              t.isWaitReadyUnsupported := true;
              r := NoError;
            } else {
              var undo;
              r, undo := Remove(c, t, unplug);
              sent := sent + undo;
            }
        }
        return;
      }
      t.serialNo := t.serialNo + 1;
    }
    assert FirstAccepted(accepting, 1) == TargetsMax + 1;
  }

  /**
   * vigem_target_add_async, up to the point where it hands the plug to a
   * worker: the same checks as vigem_target_add in the same order, and
   * NONE once they pass.
   */
  method AddAsync(c: Client?, t: Target?) returns (r: Error)
    ensures var pre := AddPrecheck(SessionOf(c), t != null, if t == null then New else t.state);
      r == if pre.Some? then pre.value else NoError
  {
    if c == null {
      return BusInvalidHandle;
    }
    if t == null {
      return InvalidTarget;
    }
    if !c.busOpen {
      return BusNotFound;
    }
    if t.state == New {
      return TargetUninitialized;
    }
    if t.state == Connected {
      return AlreadyConnected;
    }
    return NoError;
  }

  /**
   * A plug whose checks fail returns the first failing check, sends no
   * request and leaves the target as it was; a plug whose checks pass
   * always sends at least one plugin request.
   */
  lemma PlugChecksHaveNoEffect(s: Session, t: TargetView, accepting: set<nat>, waitReady: Completion, unplug: Completion)
    ensures var p := AddSpec(s, t, accepting, waitReady, unplug);
      && (AddPrecheck(s, true, t.state).Some? <==> p.sent == [])
      && (AddPrecheck(s, true, t.state).Some? ==> p == Plugged(AddPrecheck(s, true, t.state).value, t, []))
  {
    var p := AddSpec(s, t, accepting, waitReady, unplug);
    if AddPrecheck(s, true, t.state).None? {
      assert p.sent[0] == Plugin(1, t.kind, t.vendorId, t.productId);
    }
  }

  /**
   * A plug succeeds exactly when the driver accepts some serial in
   * [1, TargetsMax] and then either completes the wait-ready request or
   * rejects it as an unknown request (a driver older than 1.17). The
   * target is then Connected with the lowest accepted serial, after plugin
   * requests for every serial up to it; the legacy flag is set by the
   * second route and never cleared.
   */
  lemma {:induction false} AddSucceedsAtFirstAcceptedSlot(s: Session, t: TargetView, accepting: set<nat>, waitReady: Completion, unplug: Completion)
    requires AddPrecheck(s, true, t.state).None?
    ensures var p := AddSpec(s, t, accepting, waitReady, unplug);
      p.error == NoError <==>
        (exists k :: 1 <= k <= TargetsMax && k in accepting) &&
        (waitReady.Completed? || waitReady == Failed(ErrorInvalidParameter))
    ensures var p := AddSpec(s, t, accepting, waitReady, unplug);
      p.error == NoError ==>
        && p.target.state == Connected
        && 1 <= p.target.serialNo <= TargetsMax
        && p.target.serialNo in accepting
        && (forall k :: 1 <= k < p.target.serialNo ==> k !in accepting)
        && p.sent == ProbeRequests(t, p.target.serialNo) + [WaitDeviceReady(p.target.serialNo)]
        && p.target.waitReadyUnsupported == (t.waitReadyUnsupported || waitReady.Failed?)
        && p.target == t.(state := Connected, serialNo := p.target.serialNo,
                          waitReadyUnsupported := p.target.waitReadyUnsupported)
  {
    var serial := FirstAccepted(accepting, 1);
    if serial <= TargetsMax {
      assert 1 <= serial <= TargetsMax && serial in accepting;
    } else {
      forall k | 1 <= k <= TargetsMax
        ensures k !in accepting
      {
      }
    }
    if serial <= TargetsMax && waitReady.Failed? && waitReady.lastError != ErrorInvalidParameter {
      assert RemovePrecheck(s, true, t.state) == Some(TargetNotPluggedIn);
    }
  }

  /**
   * When the driver accepts no serial, the plug returns NO_FREE_SLOT after
   * one plugin request per serial, leaves the state alone and leaves the
   * serial one past the last slot.
   */
  lemma NoFreeSlotLeavesSerialPastMax(s: Session, t: TargetView, accepting: set<nat>, waitReady: Completion, unplug: Completion)
    requires AddPrecheck(s, true, t.state).None?
    requires forall k :: 1 <= k <= TargetsMax ==> k !in accepting
    ensures AddSpec(s, t, accepting, waitReady, unplug)
      == Plugged(NoFreeSlot, t.(serialNo := TargetsMax + 1), ProbeRequests(t, TargetsMax))
  {
  }

  /**
   * When the wait-ready request fails with anything but INVALID_PARAMETER,
   * the plug returns what its compensating remove returns. The state is
   * still not Connected at that point, so that remove always answers
   * TARGET_NOT_PLUGGED_IN and never sends an unplug: the accepted slot
   * stays plugged in the driver while the target keeps its old state.
   */
  lemma CompensatingRemoveNeverUnplugs(s: Session, t: TargetView, accepting: set<nat>, waitReady: Completion, unplug: Completion)
    requires AddPrecheck(s, true, t.state).None?
    requires FirstAccepted(accepting, 1) <= TargetsMax
    requires waitReady.Failed? && waitReady.lastError != ErrorInvalidParameter
    ensures var p := AddSpec(s, t, accepting, waitReady, unplug);
      && p.error == TargetNotPluggedIn
      && p.target == t.(serialNo := FirstAccepted(accepting, 1))
      && p.sent == ProbeRequests(t, FirstAccepted(accepting, 1)) + [WaitDeviceReady(FirstAccepted(accepting, 1))]
      && (forall i :: 0 <= i < |p.sent| ==> !p.sent[i].Unplug?)
  {
    assert RemovePrecheck(s, true, t.state) == Some(TargetNotPluggedIn);
  }

  /**
   * An unplug whose checks pass sends one unplug request for the target's
   * serial; if the driver completes it the target becomes Disconnected
   * with its serial kept, otherwise REMOVAL_FAILED and nothing changes.
   */
  lemma RemoveOutcome(s: Session, t: TargetView, unplug: Completion)
    requires RemovePrecheck(s, true, t.state).None?
    ensures var p := RemoveSpec(s, t, unplug);
      && p.sent == [Unplug(t.serialNo)]
      && (p.error == NoError <==> unplug.Completed?)
      && (p.error == NoError ==> p.target == t.(state := Disconnected))
      && (p.error != NoError ==> p.error == RemovalFailed && p.target == t)
  {
  }

  /** A second plug of a Connected target is refused without any request. */
  lemma DoubleAddRejected(s: Session, t: TargetView, accepting: set<nat>, waitReady: Completion, unplug: Completion)
    requires s == Session(true) && t.state == Connected
    ensures AddSpec(s, t, accepting, waitReady, unplug) == Plugged(AlreadyConnected, t, [])
  {
  }

  /**
   * Unplugging after a successful plug detaches the target and keeps its
   * serial; plugging it again then succeeds as soon as the driver accepts
   * some serial and completes the wait-ready request, and may land on a
   * different serial.
   */
  lemma {:induction false} RemoveThenAddAgain(t: TargetView, a1: set<nat>, a2: set<nat>, w: Completion, u: Completion)
    requires AddPrecheck(Session(true), true, t.state).None?
    requires AddSpec(Session(true), t, a1, w, u).error == NoError
    requires exists k :: 1 <= k <= TargetsMax && k in a2
    ensures var added := AddSpec(Session(true), t, a1, w, u).target;
      var removed := RemoveSpec(Session(true), added, Completed).target;
      var again := AddSpec(Session(true), removed, a2, Completed, u);
      && removed.state == Disconnected && removed.serialNo == added.serialNo
      && again.error == NoError && again.target.state == Connected
      && again.target.serialNo == FirstAccepted(a2, 1)
  {
    AddSucceedsAtFirstAcceptedSlot(Session(true), t, a1, w, u);
    var added := AddSpec(Session(true), t, a1, w, u).target;
    var removed := RemoveSpec(Session(true), added, Completed).target;
    AddSucceedsAtFirstAcceptedSlot(Session(true), removed, a2, Completed, u);
  }
}
