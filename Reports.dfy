/**
 * Report traffic between the client and a plugged target: input reports
 * submitted to the driver, the user index of an Xbox 360 pad, and DS4
 * output reports awaited from a queue the driver shares among all DS4
 * targets. What matters here is how each completion becomes a library
 * error, and which replies the await loop skips.
 */
module Reports {
  import opened Types
  import opened Bus
  import opened Targets

  /** The checks of the update and await entry points: the session checks, then a target with a serial. */
  function SubmitCheck(s: Session, targetPresent: bool, serialNo: nat): (e: Option<Error>)
    ensures e == None <==> SessionCheck(s, targetPresent) == None && serialNo != 0
    ensures SessionCheck(s, targetPresent).Some? ==> e == SessionCheck(s, targetPresent)
    ensures SessionCheck(s, targetPresent) == None && serialNo == 0 ==> e == Some(InvalidTarget)
  {
    var e := SessionCheck(s, targetPresent);
    if e.Some? then e
    else if serialNo == 0 then Some(InvalidTarget)
    else None
  }

  /** The serial of a possibly null target, read only once the target is known to be there. */
  function SerialOf(t: Target?): nat
    reads t
  {
    if t == null then 0 else t.serialNo
  }

  /**
   * The error of x360_update and ds4_update for a submitted report: only
   * access-denied is reported (as INVALID_TARGET); every other failure
   * of the driver is reported as success.
   */
  function UpdateError(c: Completion): (r: Error)
    ensures r == InvalidTarget <==> c == Failed(ErrorAccessDenied)
    ensures r != InvalidTarget ==> r == NoError
  {
    if c.Failed? && c.lastError == ErrorAccessDenied then InvalidTarget else NoError
  }

  /**
   * The error of ds4_update_ex: access-denied is INVALID_TARGET, a driver
   * that rejects the extended report size (before 1.17) is NOT_SUPPORTED,
   * anything else is success.
   */
  function UpdateExError(c: Completion): (r: Error)
    ensures r == InvalidTarget <==> c == Failed(ErrorAccessDenied)
    ensures r == NotSupported <==> c == Failed(ErrorInvalidParameter)
    ensures r !in {InvalidTarget, NotSupported} ==> r == NoError
  {
    if c.Failed? && c.lastError == ErrorAccessDenied then InvalidTarget
    else if c.Failed? && c.lastError == ErrorInvalidParameter then NotSupported
    else NoError
  }

  /** vigem_target_x360_update; the report itself is opaque to the model. */
  method X360Update(c: Client?, t: Target?, completion: Completion) returns (r: Error)
    ensures var pre := SubmitCheck(SessionOf(c), t != null, SerialOf(t));
      r == if pre.Some? then pre.value else UpdateError(completion)
  {
    if c == null {
      return BusInvalidHandle;
    }
    if t == null {
      return InvalidTarget;
    }
    if !c.busOpen {
      return BusNotFound;
    }
    if t.serialNo == 0 {
      return InvalidTarget;
    }
    if completion.Failed? {
      if completion.lastError == ErrorAccessDenied {
        return InvalidTarget;
      }
    }
    return NoError;
  }

  /** vigem_target_ds4_update */
  method Ds4Update(c: Client?, t: Target?, completion: Completion) returns (r: Error)
    ensures var pre := SubmitCheck(SessionOf(c), t != null, SerialOf(t));
      r == if pre.Some? then pre.value else UpdateError(completion)
  {
    if c == null {
      return BusInvalidHandle;
    }
    if t == null {
      return InvalidTarget;
    }
    if !c.busOpen {
      return BusNotFound;
    }
    if t.serialNo == 0 {
      return InvalidTarget;
    }
    if completion.Failed? {
      if completion.lastError == ErrorAccessDenied {
        return InvalidTarget;
      }
    }
    return NoError;
  }

  /** vigem_target_ds4_update_ex */
  method Ds4UpdateEx(c: Client?, t: Target?, completion: Completion) returns (r: Error)
    ensures var pre := SubmitCheck(SessionOf(c), t != null, SerialOf(t));
      r == if pre.Some? then pre.value else UpdateExError(completion)
  {
    if c == null {
      return BusInvalidHandle;
    }
    if t == null {
      return InvalidTarget;
    }
    if !c.busOpen {
      return BusNotFound;
    }
    if t.serialNo == 0 {
      return InvalidTarget;
    }
    if completion.Failed? {
      if completion.lastError == ErrorAccessDenied {
        return InvalidTarget;
      }
      if completion.lastError == ErrorInvalidParameter {
        return NotSupported;
      }
    }
    return NoError;
  }

  /**
   * vigem_target_x360_get_user_index. The driver's reply leaves the user
   * index field of the request buffer at `replyIndex`; the client writes
   * that field to the caller's variable on success and on every failure
   * other than the two it maps.
   */
  method X360GetUserIndex(c: Client?, t: Target?, indexPresent: bool, completion: Completion, replyIndex: nat)
    returns (r: Error, index: Option<nat>)
    ensures var pre := SessionCheck(SessionOf(c), t != null);
      && (pre.Some? ==> r == pre.value && index == None)
      && (pre.None? && (SerialOf(t) == 0 || t.kind != Xbox360Wired) ==> r == InvalidTarget && index == None)
      && (pre.None? && SerialOf(t) != 0 && t.kind == Xbox360Wired && !indexPresent ==> r == InvalidParameter && index == None)
    ensures SessionCheck(SessionOf(c), t != null).None? && SerialOf(t) != 0 && t.kind == Xbox360Wired && indexPresent ==>
      && (r == InvalidTarget <==> completion == Failed(ErrorAccessDenied))
      && (r == XusbUserIndexOutOfRange <==> completion == Failed(ErrorInvalidDeviceObjectParameter))
      && (r !in {InvalidTarget, XusbUserIndexOutOfRange} ==> r == NoError && index == Some(replyIndex))
      && (r != NoError ==> index == None)
    ensures index.Some? ==> r == NoError
  {
    index := None;
    if c == null {
      return BusInvalidHandle, index;
    }
    if t == null {
      return InvalidTarget, index;
    }
    if !c.busOpen {
      return BusNotFound, index;
    }
    if t.serialNo == 0 || t.kind != Xbox360Wired {
      return InvalidTarget, index;
    }
    if !indexPresent {
      return InvalidParameter, index;
    }
    if completion.Failed? {
      if completion.lastError == ErrorAccessDenied {
        return InvalidTarget, index;
      }
      if completion.lastError == ErrorInvalidDeviceObjectParameter {
        return XusbUserIndexOutOfRange, index;
      }
    }
    index := Some(replyIndex);
    return NoError, index;
  }

  /**
   * The driver's answer to one await-output request: how it completed,
   * the serial the driver left in the reply, and the output buffer.
   */
  datatype OutputReply = OutputReply(completion: Completion, serialNo: nat, report: seq<bv8>)

  /**
   * Where an await call stands: it returned (error, the buffer copied to
   * the caller if any, whether it cancelled its request), or it is still
   * waiting on a re-issued request.
   */
  datatype Awaited = Returned(error: Error, buffer: Option<seq<bv8>>, cancelled: bool) | Waiting

  /**
   * One reply as both await functions treat it; `timed` selects the
   * variant with a timeout. The serial is compared only when the request
   * failed and the last error is ERROR_SUCCESS.
   */
  function AwaitClassify(own: nat, reply: OutputReply, timed: bool): (a: Awaited)
    ensures a == Waiting <==>
      reply.completion == Failed(ErrorSuccess) && reply.serialNo != own
    ensures reply.completion.Completed? ==> a == Returned(NoError, Some(reply.report), false)
    ensures a.Returned? && a.error == NoError ==> reply.completion.Completed?
    ensures reply.completion == Failed(ErrorAccessDenied) ==> a == Returned(InvalidTarget, None, false)
    ensures reply.completion.Failed? && reply.completion.lastError in {ErrorIoIncomplete, WaitTimeout} ==>
      a == Returned(if timed then TimedOut else Winapi, None, timed)
    ensures a.Returned? && a.cancelled <==> a.Returned? && a.error == TimedOut
    ensures (&& reply.completion.Failed?
             && reply.completion.lastError != ErrorAccessDenied
             && !(timed && reply.completion.lastError in {ErrorIoIncomplete, WaitTimeout})
             && !(reply.completion.lastError == ErrorSuccess && reply.serialNo != own))
      ==> a == Returned(Winapi, None, false)
  {
    match reply.completion
    case Completed => Returned(NoError, Some(reply.report), false)
    case Failed(e) =>
      if e == ErrorAccessDenied then Returned(InvalidTarget, None, false)
      else if timed && (e == ErrorIoIncomplete || e == WaitTimeout) then Returned(TimedOut, None, true)
      else if e == ErrorSuccess && reply.serialNo != own then Waiting
      else Returned(Winapi, None, false)
  }

  /**
   * The retry loop over the replies to successive requests: the outcome
   * and how many requests it issued. When every reply is skipped the call
   * is still waiting after all of them.
   */
  function AwaitLoop(own: nat, replies: seq<OutputReply>, timed: bool): (Awaited, nat)
    decreases |replies|
  {
    if replies == [] then (Waiting, 0)
    else
      var a := AwaitClassify(own, replies[0], timed);
      if a.Waiting? then
        var rest := AwaitLoop(own, replies[1..], timed);
        (rest.0, rest.1 + 1)
      else (a, 1)
  }

  /** The checks of both await entry points: SubmitCheck, then a destination buffer. */
  function AwaitPrecheck(s: Session, targetPresent: bool, serialNo: nat, bufferPresent: bool): (e: Option<Error>)
    ensures e == None <==> SubmitCheck(s, targetPresent, serialNo) == None && bufferPresent
    ensures SubmitCheck(s, targetPresent, serialNo).Some? ==> e == SubmitCheck(s, targetPresent, serialNo)
    ensures SubmitCheck(s, targetPresent, serialNo) == None && !bufferPresent ==> e == Some(InvalidParameter)
  {
    var e := SubmitCheck(s, targetPresent, serialNo);
    if e.Some? then e
    else if !bufferPresent then Some(InvalidParameter)
    else None
  }

  /** The await call: its checks, then the retry loop against the given replies. */
  method AwaitOutput(c: Client?, t: Target?, timed: bool, bufferPresent: bool, replies: seq<OutputReply>)
    returns (a: Awaited, issued: nat)
    ensures var pre := AwaitPrecheck(SessionOf(c), t != null, SerialOf(t), bufferPresent);
      && (pre.Some? ==> a == Returned(pre.value, None, false) && issued == 0)
      && (pre.None? ==> (a, issued) == AwaitLoop(t.serialNo, replies, timed))
  {
    if c == null {
      return Returned(BusInvalidHandle, None, false), 0;
    }
    if t == null {
      return Returned(InvalidTarget, None, false), 0;
    }
    if !c.busOpen {
      return Returned(BusNotFound, None, false), 0;
    }
    if t.serialNo == 0 {
      return Returned(InvalidTarget, None, false), 0;
    }
    if !bufferPresent {
      return Returned(InvalidParameter, None, false), 0;
    }
    issued := 0;
    a := Waiting;
    while issued < |replies|
      invariant 0 <= issued <= |replies|
      invariant AwaitLoop(t.serialNo, replies, timed).0 == AwaitLoop(t.serialNo, replies[issued..], timed).0
      invariant AwaitLoop(t.serialNo, replies, timed).1 == AwaitLoop(t.serialNo, replies[issued..], timed).1 + issued
    {
      var reply := replies[issued];
      issued := issued + 1;
      match reply.completion {
        case Completed =>
          // the buffer is copied without looking at reply.serialNo
          return Returned(NoError, Some(reply.report), false), issued;
        case Failed(e) =>
          if e == ErrorAccessDenied {
            return Returned(InvalidTarget, None, false), issued;
          }
          if timed && (e == ErrorIoIncomplete || e == WaitTimeout) {
            return Returned(TimedOut, None, true), issued;
          }
          if !(e == ErrorSuccess && reply.serialNo != t.serialNo) {
            return Returned(Winapi, None, false), issued;
          }
      }
    }
  }

  /** vigem_target_ds4_await_output_report */
  method Ds4AwaitOutputReport(c: Client?, t: Target?, bufferPresent: bool, replies: seq<OutputReply>)
    returns (a: Awaited, issued: nat)
    ensures var pre := AwaitPrecheck(SessionOf(c), t != null, SerialOf(t), bufferPresent);
      && (pre.Some? ==> a == Returned(pre.value, None, false) && issued == 0)
      && (pre.None? ==> (a, issued) == AwaitLoop(t.serialNo, replies, false))
    ensures a.Returned? ==> a.error != TimedOut && !a.cancelled
  {
    a, issued := AwaitOutput(c, t, false, bufferPresent, replies);
    if a.Returned? && AwaitPrecheck(SessionOf(c), t != null, SerialOf(t), bufferPresent).None? {
      AwaitLoopOutcome(t.serialNo, replies, false);
    }
  }

  /** vigem_target_ds4_await_output_report_timeout; how long the wait lasts is not modelled. */
  method Ds4AwaitOutputReportTimeout(c: Client?, t: Target?, milliseconds: nat, bufferPresent: bool, replies: seq<OutputReply>)
    returns (a: Awaited, issued: nat)
    ensures var pre := AwaitPrecheck(SessionOf(c), t != null, SerialOf(t), bufferPresent);
      && (pre.Some? ==> a == Returned(pre.value, None, false) && issued == 0)
      && (pre.None? ==> (a, issued) == AwaitLoop(t.serialNo, replies, true))
  {
    a, issued := AwaitOutput(c, t, true, bufferPresent, replies);
  }

  /**
   * The retry loop issues one request per reply it reads and stops at the
   * first reply it does not skip, returning that reply's classification;
   * every reply before it failed with ERROR_SUCCESS and a foreign serial.
   * If it skips them all it is still waiting after |replies| requests.
   */
  lemma {:induction false} AwaitLoopOutcome(own: nat, replies: seq<OutputReply>, timed: bool)
    ensures var (a, n) := AwaitLoop(own, replies, timed);
      && n <= |replies|
      && (forall j :: 0 <= j < n && j < |replies| && !(a.Returned? && j == n - 1) ==>
            AwaitClassify(own, replies[j], timed) == Waiting)
      && (a.Returned? ==> 1 <= n && a == AwaitClassify(own, replies[n - 1], timed))
      && (a == Waiting ==> n == |replies|)
    decreases |replies|
  {
    if replies != [] && AwaitClassify(own, replies[0], timed).Waiting? {
      AwaitLoopOutcome(own, replies[1..], timed);
      var (a, n) := AwaitLoop(own, replies, timed);
      forall j | 0 <= j < n && j < |replies| && !(a.Returned? && j == n - 1)
        ensures AwaitClassify(own, replies[j], timed) == Waiting
      {
        if j > 0 {
          assert replies[j] == replies[1..][j - 1];
        }
      }
    }
  }

  /**
   * As written, a report that completes successfully is copied to the
   * caller whatever serial the driver put in it: the first completed reply
   * ends the call, even when it belongs to another DS4 target.
   */
  lemma AwaitCopiesForeignReport(own: nat, replies: seq<OutputReply>, timed: bool)
    requires replies != [] && replies[0].completion.Completed? && replies[0].serialNo != own
    ensures AwaitLoop(own, replies, timed) == (Returned(NoError, Some(replies[0].report), false), 1)
  {
  }

  /**
   * The serial check as the comment beside it describes it: a reply for
   * another target, completed or failed with ERROR_SUCCESS, is skipped and
   * the request issued again.
   */
  function AwaitClassifyFiltered(own: nat, reply: OutputReply, timed: bool): (a: Awaited)
    ensures a.Returned? && a.buffer.Some? ==> reply.completion.Completed? && reply.serialNo == own
  {
    if reply.serialNo != own && (reply.completion.Completed? || reply.completion == Failed(ErrorSuccess)) then Waiting
    else AwaitClassify(own, reply, timed)
  }

  /** The retry loop with the corrected serial check. */
  function AwaitLoopFiltered(own: nat, replies: seq<OutputReply>, timed: bool): (Awaited, nat)
    decreases |replies|
  {
    if replies == [] then (Waiting, 0)
    else
      var a := AwaitClassifyFiltered(own, replies[0], timed);
      if a.Waiting? then
        var rest := AwaitLoopFiltered(own, replies[1..], timed);
        (rest.0, rest.1 + 1)
      else (a, 1)
  }

  /**
   * With the corrected check, a buffer handed to the caller is always the
   * report of a reply that completed and carries the caller's own serial,
   * and a reply for the caller that completes is never skipped.
   */
  lemma {:induction false} FilteredAwaitReturnsOwnReport(own: nat, replies: seq<OutputReply>, timed: bool)
    ensures var (a, n) := AwaitLoopFiltered(own, replies, timed);
      a.Returned? && a.buffer.Some? ==>
        1 <= n <= |replies| && replies[n - 1].completion.Completed?
        && replies[n - 1].serialNo == own && a.buffer.value == replies[n - 1].report
    ensures replies != [] && replies[0].completion.Completed? && replies[0].serialNo == own ==>
      AwaitLoopFiltered(own, replies, timed) == (Returned(NoError, Some(replies[0].report), false), 1)
    decreases |replies|
  {
    if replies != [] && AwaitClassifyFiltered(own, replies[0], timed).Waiting? {
      FilteredAwaitReturnsOwnReport(own, replies[1..], timed);
      var (a, n) := AwaitLoopFiltered(own, replies[1..], timed);
      if a.Returned? && a.buffer.Some? {
        assert replies[n] == replies[1..][n - 1];
      }
    }
  }
}
