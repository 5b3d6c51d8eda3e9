/**
 * Notification bookkeeping: at most one callback per target, identified by
 * its address, with the user data handed back to it and a cancel event
 * that lives as long as the registration. A worker then re-issues the
 * driver's notification request and decides, per completion, whether to
 * stop, to call the callback, or to issue the request again.
 */
module Notify {
  import opened Types
  import opened Bus
  import opened Targets

  datatype Registered = Registered(error: Error, target: TargetView)

  /**
   * The checks of both register entry points, in order: the session
   * checks, then a target with a serial and a non-null callback, then a
   * callback other than the one already stored.
   */
  function RegisterPrecheck(s: Session, targetPresent: bool, serialNo: nat, stored: Address, callback: Address): (e: Option<Error>)
    ensures e == None <==>
      SessionCheck(s, targetPresent) == None && serialNo != 0 && callback != Null && stored != callback
    ensures SessionCheck(s, targetPresent).Some? ==> e == SessionCheck(s, targetPresent)
    ensures SessionCheck(s, targetPresent) == None && (serialNo == 0 || callback == Null) ==> e == Some(InvalidTarget)
    ensures SessionCheck(s, targetPresent) == None && serialNo != 0 && callback != Null && stored == callback ==>
      e == Some(CallbackAlreadyRegistered)
  {
    var e := SessionCheck(s, targetPresent);
    if e.Some? then e
    else if serialNo == 0 || callback == Null then Some(InvalidTarget)
    else if stored == callback then Some(CallbackAlreadyRegistered)
    else None
  }

  /**
   * Registration on a target's fields: on success the callback and user
   * data are stored and the cancel event exists, not signaled, whether it
   * was created now or reset.
   */
  function RegisterSpec(s: Session, t: TargetView, callback: Address, userData: Address): Registered
  {
    var pre := RegisterPrecheck(s, true, t.serialNo, t.notification, callback);
    if pre.Some? then Registered(pre.value, t)
    else Registered(NoError, t.(notification := callback, userData := userData, cancelEvent := Event(false)))
  }

  /** Unregistration on a target's fields: callback, user data and cancel event are all gone. */
  function UnregisterSpec(t: TargetView): TargetView
  {
    t.(notification := Null, userData := Null, cancelEvent := NoEvent)
  }

  /**
   * vigem_target_x360_register_notification; the DS4 entry point runs the
   * same bookkeeping and differs only in the request its worker issues.
   */
  method RegisterNotification(c: Client?, t: Target?, callback: Address, userData: Address) returns (r: Error)
    modifies t
    ensures t == null ==> Some(r) == SessionCheck(SessionOf(c), false)
    ensures t != null ==> Registered(r, t.View()) == RegisterSpec(SessionOf(c), old(t.View()), callback, userData)
  {
    if c == null {
      return BusInvalidHandle;
    }
    if t == null {
      return InvalidTarget;
    }
    if !c.busOpen {
      return BusNotFound;
    }
    if t.serialNo == 0 || callback == Null {
      return InvalidTarget;
    }
    if t.notification == callback {
      return CallbackAlreadyRegistered;
    }
    t.notification := callback;
    t.notificationUserData := userData;
    if t.cancelEvent == NoEvent {
      t.cancelEvent := Event(false);
    } else {
      t.cancelEvent := t.cancelEvent.(signaled := false);
    }
    return NoError;
  }

  /**
   * vigem_target_x360_unregister_notification (and its DS4 alias): signal
   * and close the cancel event if there is one, then clear callback and
   * user data.
   */
  method UnregisterNotification(t: Target)
    modifies t
    ensures t.View() == UnregisterSpec(old(t.View()))
  {
    if t.cancelEvent != NoEvent {
      t.cancelEvent := Event(true);
    }
    if t.cancelEvent != NoEvent {
      t.cancelEvent := NoEvent;
    }
    t.notification := Null;
    t.notificationUserData := Null;
  }

  /** What a notification worker does after one request completes. */
  datatype WorkerAction = Exit | Deliver(callback: Address, userData: Address) | Reissue

  /**
   * One turn of the worker loop, given the completion, the callback stored
   * on the target when the completion is seen, and the user data the
   * worker captured when it was started.
   */
  function WorkerStep(completion: Completion, stored: Address, spawnUserData: Address): (a: WorkerAction)
    ensures a.Deliver? <==> completion.Completed? && stored != Null
    ensures a.Deliver? ==> a == Deliver(stored, spawnUserData)
    ensures a.Exit? <==>
      (completion.Completed? && stored == Null) ||
      (completion.Failed? && completion.lastError in {ErrorAccessDenied, ErrorOperationAborted})
  {
    match completion
    case Completed => if stored == Null then Exit else Deliver(stored, spawnUserData)
    case Failed(e) => if e == ErrorAccessDenied || e == ErrorOperationAborted then Exit else Reissue
  }

  /**
   * Registering the callback that is already stored is refused and
   * changes nothing, whatever user data comes with it.
   */
  lemma RegisterTwiceRefused(s: Session, t: TargetView, callback: Address, ud1: Address, ud2: Address)
    requires RegisterSpec(s, t, callback, ud1).error == NoError
    ensures var once := RegisterSpec(s, t, callback, ud1).target;
      RegisterSpec(s, once, callback, ud2) == Registered(CallbackAlreadyRegistered, once)
  {
  }

  /**
   * A different callback replaces the stored one without unregistering
   * first: the target still holds a single callback, the new one.
   */
  lemma RegisterReplacesOtherCallback(s: Session, t: TargetView, cb1: Address, cb2: Address, ud1: Address, ud2: Address)
    requires RegisterSpec(s, t, cb1, ud1).error == NoError
    requires cb2 != cb1 && cb2 != Null
    ensures var twice := RegisterSpec(s, RegisterSpec(s, t, cb1, ud1).target, cb2, ud2);
      twice.error == NoError && twice.target.notification == cb2 && twice.target.userData == ud2
      && twice.target.cancelEvent == Event(false)
  {
  }

  /**
   * Unregistering twice is the same as once; afterwards the same callback
   * can be registered again on a target that still has a serial.
   */
  lemma UnregisterIdempotentAndReregistrable(s: Session, t: TargetView, callback: Address, userData: Address)
    requires SessionCheck(s, true) == None && t.serialNo != 0 && callback != Null
    ensures UnregisterSpec(UnregisterSpec(t)) == UnregisterSpec(t)
    ensures RegisterSpec(s, UnregisterSpec(t), callback, userData).error == NoError
  {
  }

  /**
   * Once unregistration has cleared the stored callback, a worker never
   * calls back again: a completed request makes it exit, access-denied or
   * aborted make it exit, and any other failure makes it re-issue.
   */
  lemma WorkerAfterUnregister(t: TargetView, completion: Completion, spawnUserData: Address)
    ensures var a := WorkerStep(completion, UnregisterSpec(t).notification, spawnUserData);
      && !a.Deliver?
      && (completion.Completed? ==> a == Exit)
      && (completion.Failed? && completion.lastError !in {ErrorAccessDenied, ErrorOperationAborted} ==> a == Reissue)
  {
  }
}
