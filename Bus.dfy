/**
 * The bus session: a client holds one handle to the bus device, either
 * open or the invalid sentinel. Connecting walks the enumerated device
 * interfaces of the bus class and keeps the first one that opens and
 * accepts the client's protocol version.
 */
module Bus {
  import opened Types

  /** VIGEM_CLIENT; busOpen stands for hBusDevice != INVALID_HANDLE_VALUE. */
  class Client {
    var busOpen: bool

    /** vigem_alloc: a zeroed client whose handle is the invalid sentinel. */
    constructor ()
      ensures !busOpen
    {
      busOpen := false;
    }
  }

  /** What the caller's session looks like to an operation: no client at all, or one with its handle state. */
  datatype Session = NoClient | Session(busOpen: bool)

  function SessionOf(c: Client?): (s: Session)
    reads c
    ensures s.NoClient? <==> c == null
    ensures c != null ==> s.busOpen == c.busOpen
  {
    if c == null then NoClient else Session(c.busOpen)
  }

  /**
   * The three checks, in this order, that every bus operation on a target
   * makes before anything else: a client, a target, an open bus.
   */
  function SessionCheck(s: Session, targetPresent: bool): (e: Option<Error>)
    ensures e == None <==> s.Session? && targetPresent && s.busOpen
    ensures e.Some? ==> e.value in {BusInvalidHandle, InvalidTarget, BusNotFound}
    ensures s.NoClient? ==> e == Some(BusInvalidHandle)
    ensures s.Session? && !targetPresent ==> e == Some(InvalidTarget)
    ensures s.Session? && targetPresent && !s.busOpen ==> e == Some(BusNotFound)
  {
    if s.NoClient? then Some(BusInvalidHandle)
    else if !targetPresent then Some(InvalidTarget)
    else if !s.busOpen then Some(BusNotFound)
    else None
  }

  /**
   * What happens to one enumerated bus interface: its detail data cannot
   * be fetched, the path cannot be opened, the driver rejects the version
   * check, or the driver accepts it.
   */
  datatype Candidate = DetailFails | OpenFails | VersionMismatch | VersionAccepted

  /**
   * The enumeration loop of vigem_connect as written, from the error and
   * handle state reached so far: the error recorded and whether the handle
   * is open when the loop ends.
   */
  function ScanBus(cs: seq<Candidate>, error: Error, open: bool): (Error, bool)
    decreases |cs|
  {
    if cs == [] then (error, open)
    else match cs[0]
      case DetailFails => ScanBus(cs[1..], BusNotFound, open)
      case OpenFails => ScanBus(cs[1..], BusAccessFailed, false)
      // the handle of a rejected version check is neither closed nor reset
      case VersionMismatch => ScanBus(cs[1..], BusVersionMismatch, true)
      case VersionAccepted => (NoError, true)
  }

  /** The error vigem_connect records for one candidate it examined. */
  function CandidateError(c: Candidate): (e: Error)
    ensures e == NoError <==> c == VersionAccepted
  {
    match c
    case DetailFails => BusNotFound
    case OpenFails => BusAccessFailed
    case VersionMismatch => BusVersionMismatch
    case VersionAccepted => NoError
  }

  /**
   * vigem_connect: on a null client BUS_INVALID_HANDLE; on an open client
   * BUS_ALREADY_CONNECTED with the handle untouched; otherwise the outcome
   * of the enumeration loop over the candidates the bus class offers.
   */
  method Connect(c: Client?, candidates: seq<Candidate>) returns (r: Error)
    modifies c
    ensures c == null ==> r == BusInvalidHandle
    ensures c != null && old(c.busOpen) ==> r == BusAlreadyConnected && c.busOpen
    ensures c != null && !old(c.busOpen) ==> (r, c.busOpen) == ScanBus(candidates, BusNotFound, false)
  {
    if c == null {
      return BusInvalidHandle;
    }
    if c.busOpen {
      return BusAlreadyConnected;
    }
    var error := BusNotFound;
    var i := 0;
    while i < |candidates|
      invariant 0 <= i <= |candidates|
      invariant ScanBus(candidates[i..], error, c.busOpen) == ScanBus(candidates, BusNotFound, false)
    {
      match candidates[i] {
        case DetailFails =>
          error := BusNotFound;
        case OpenFails =>
          c.busOpen := false;
          error := BusAccessFailed;
        case VersionMismatch =>
          c.busOpen := true;
          error := BusVersionMismatch;
        case VersionAccepted =>
          c.busOpen := true;
          error := NoError;
          break;
      }
      i := i + 1;
    }
    r := error;
  }

  /**
   * vigem_disconnect: closes an open handle and resets the client; a null
   * or unopened client is left as it is.
   */
  method Disconnect(c: Client?)
    modifies c
    ensures c != null ==> !c.busOpen
  {
    if c == null {
      return;
    }
    if c.busOpen {
      c.busOpen := false;
    }
  }

  /**
   * The enumeration loop ends with success exactly when some candidate
   * accepts the version; without candidates it returns the starting error
   * and handle; otherwise it returns the error of the last candidate.
   */
  lemma {:induction false} ScanBusOutcome(cs: seq<Candidate>, error: Error, open: bool)
    requires error != NoError
    ensures var (r, o) := ScanBus(cs, error, open);
      && (r == NoError <==> VersionAccepted in cs)
      && (r == NoError ==> o)
      && (cs == [] ==> r == error && o == open)
      && (cs != [] && VersionAccepted !in cs ==> r == CandidateError(cs[|cs| - 1]))
    decreases |cs|
  {
    if cs != [] && cs[0] != VersionAccepted {
      var e := CandidateError(cs[0]);
      var o := match cs[0] case OpenFails => false case VersionMismatch => true case _ => open;
      assert ScanBus(cs, error, open) == ScanBus(cs[1..], e, o);
      ScanBusOutcome(cs[1..], e, o);
      assert VersionAccepted in cs <==> VersionAccepted in cs[1..];
      if cs[1..] != [] {
        assert cs[1..][|cs[1..]| - 1] == cs[|cs| - 1];
      }
    }
  }

  /**
   * As written, a connect whose last candidate fails the version check
   * reports BUS_VERSION_MISMATCH and yet leaves the handle open, so the
   * client counts as connected to a driver it rejected.
   */
  lemma {:induction false} MismatchLeavesBusOpen(cs: seq<Candidate>, error: Error, open: bool)
    requires cs != [] && VersionAccepted !in cs && cs[|cs| - 1] == VersionMismatch
    ensures ScanBus(cs, error, open) == (BusVersionMismatch, true)
    decreases |cs|
  {
    if |cs| > 1 {
      var e := CandidateError(cs[0]);
      var o := match cs[0] case OpenFails => false case VersionMismatch => true case _ => open;
      assert ScanBus(cs, error, open) == ScanBus(cs[1..], e, o);
      assert cs[1..][|cs[1..]| - 1] == cs[|cs| - 1];
      MismatchLeavesBusOpen(cs[1..], e, o);
    }
  }

  /** One candidate after which connect fails and the client is still open. */
  lemma MismatchCounterexample()
    ensures ScanBus([VersionMismatch], BusNotFound, false) == (BusVersionMismatch, true)
  {
  }

  /**
   * The enumeration loop with a rejected handle closed and reset before
   * the next candidate is examined.
   */
  function ScanBusClosing(cs: seq<Candidate>, error: Error, open: bool): (Error, bool)
    decreases |cs|
  {
    if cs == [] then (error, open)
    else match cs[0]
      case DetailFails => ScanBusClosing(cs[1..], BusNotFound, open)
      case OpenFails => ScanBusClosing(cs[1..], BusAccessFailed, false)
      case VersionMismatch => ScanBusClosing(cs[1..], BusVersionMismatch, false)
      case VersionAccepted => (NoError, true)
  }

  /**
   * With the handle closed on a rejected version, a connect that starts
   * from an unopened client leaves it open exactly when it returns success,
   * and it succeeds exactly when some candidate accepts the version.
   */
  lemma {:induction false} ClosingScanOpenIffConnected(cs: seq<Candidate>, error: Error)
    requires error != NoError
    ensures ScanBusClosing(cs, error, false).1 <==> ScanBusClosing(cs, error, false).0 == NoError
    ensures ScanBusClosing(cs, error, false).0 == NoError <==> VersionAccepted in cs
    decreases |cs|
  {
    if cs != [] && cs[0] != VersionAccepted {
      var e := CandidateError(cs[0]);
      assert ScanBusClosing(cs, error, false) == ScanBusClosing(cs[1..], e, false);
      ClosingScanOpenIffConnected(cs[1..], e);
      assert VersionAccepted in cs <==> VersionAccepted in cs[1..];
    }
  }
}
