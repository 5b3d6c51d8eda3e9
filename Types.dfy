/**
 * Values shared by the whole client model: the error codes the library
 * returns to its caller, the Win32 last-error codes it inspects, the
 * completion of one overlapped request as seen by the caller, and the
 * requests the client sends to the bus driver.
 */
module Types {

  datatype Option<+T> = None | Some(value: T)

  /** An unsigned 16-bit value (USHORT): vendor and product ids. */
  newtype u16 = x: int | 0 <= x < 0x1_0000

  /** A pointer value (callback, user data); 0 is the null pointer. */
  type Address = nat

  const Null: Address := 0

  /**
   * Inclusive upper bound of the slot (serial number) space probed by the
   * plug loop: VIGEM_TARGETS_MAX of the driver's shared header. The proofs
   * use only that it is at least 1.
   */
  const TargetsMax: nat := 0xFFFF

  /** VIGEM_ERROR: what every library entry point returns. */
  datatype Error =
    | NoError
    | BusNotFound
    | NoFreeSlot
    | InvalidTarget
    | RemovalFailed
    | AlreadyConnected
    | TargetUninitialized
    | TargetNotPluggedIn
    | BusVersionMismatch
    | BusAccessFailed
    | CallbackAlreadyRegistered
    | CallbackNotFound
    | BusAlreadyConnected
    | BusInvalidHandle
    | XusbUserIndexOutOfRange
    | InvalidParameter
    | NotSupported
    | Winapi
    | TimedOut

  // Win32 last-error values (winerror.h) that the library compares against.
  const ErrorSuccess: nat := 0
  const ErrorAccessDenied: nat := 5
  const ErrorInvalidParameter: nat := 87
  const WaitTimeout: nat := 258
  const ErrorInvalidDeviceObjectParameter: nat := 650
  const ErrorOperationAborted: nat := 995
  const ErrorIoIncomplete: nat := 996

  /**
   * How one overlapped request ended, as the client observes it:
   * GetOverlappedResult(Ex) returned non-zero (Completed), or it returned
   * zero and GetLastError() then gave lastError.
   */
  datatype Completion = Completed | Failed(lastError: nat)

  /** VIGEM_TARGET_TYPE */
  datatype TargetType = Xbox360Wired | DualShock4Wired

  /** VIGEM_TARGET_STATE; New is the all-zero sentinel of a target no allocator produced. */
  datatype TargetState = New | Initialized | Connected | Disconnected

  /** The per-target cancel event: absent, or present and signaled or not. */
  datatype CancelEvent = NoEvent | Event(signaled: bool)

  /** The plug-and-play requests the client sends to the bus driver. */
  datatype Request =
    | Plugin(serial: nat, kind: TargetType, vendorId: u16, productId: u16)
    | WaitDeviceReady(serial: nat)
    | Unplug(serial: nat)
}
