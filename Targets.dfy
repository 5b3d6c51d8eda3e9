/**
 * One virtual controller as the client sees it: its type, state, slot
 * serial, ids, the legacy-driver flag, the registered notification and the
 * cancel event that belongs to that registration.
 */
module Targets {
  import opened Types

  /** The value of every field of a target at one moment. */
  datatype TargetView = TargetView(
    state: TargetState,
    kind: TargetType,
    serialNo: nat,
    vendorId: u16,
    productId: u16,
    waitReadyUnsupported: bool,
    notification: Address,
    userData: Address,
    cancelEvent: CancelEvent)

  /** The default vendor and product ids of a target type. */
  function DefaultIds(kind: TargetType): (u16, u16)
  {
    match kind
    case Xbox360Wired => (0x045E, 0x028E)
    case DualShock4Wired => (0x054C, 0x05C4)
  }

  /** What the allocator of the given type returns. */
  function Allocated(kind: TargetType): TargetView
  {
    TargetView(Initialized, kind, 0, DefaultIds(kind).0, DefaultIds(kind).1, false, Null, Null, NoEvent)
  }

  /** VIGEM_TARGET */
  class Target {
    var state: TargetState
    var kind: TargetType
    var serialNo: nat
    var vendorId: u16
    var productId: u16
    var isWaitReadyUnsupported: bool
    var notification: Address
    var notificationUserData: Address
    var cancelEvent: CancelEvent

    function View(): TargetView
      reads this
    {
      TargetView(state, kind, serialNo, vendorId, productId, isWaitReadyUnsupported,
                 notification, notificationUserData, cancelEvent)
    }

    /**
     * VIGEM_TARGET_ALLOC_INIT: every field zero, then the state set to
     * Initialized and the type recorded.
     */
    constructor AllocInit(kind: TargetType)
      ensures View() == TargetView(Initialized, kind, 0, 0, 0, false, Null, Null, NoEvent)
    {
      state := Initialized;
      this.kind := kind;
      serialNo := 0;
      vendorId := 0;
      productId := 0;
      isWaitReadyUnsupported := false;
      notification := Null;
      notificationUserData := Null;
      cancelEvent := NoEvent;
    }

    /** vigem_target_set_vid */
    method SetVid(vid: u16)
      modifies this
      ensures View() == old(View()).(vendorId := vid)
    {
      vendorId := vid;
    }

    /** vigem_target_set_pid */
    method SetPid(pid: u16)
      modifies this
      ensures View() == old(View()).(productId := pid)
    {
      productId := pid;
    }

    /** vigem_target_get_vid */
    function GetVid(): (vid: u16)
      reads this
      ensures vid == View().vendorId
    {
      vendorId
    }

    /** vigem_target_get_pid */
    function GetPid(): (pid: u16)
      reads this
      ensures pid == View().productId
    {
      productId
    }

    /** vigem_target_get_index: the slot serial, 0 while none was ever probed. */
    function GetIndex(): (serial: nat)
      reads this
      ensures serial == View().serialNo
    {
      serialNo
    }

    /** vigem_target_get_type */
    function GetType(): (kind: TargetType)
      reads this
      ensures kind == View().kind
    {
      this.kind
    }

    /** vigem_target_is_attached: plugged in and ready, i.e. Connected. */
    function IsAttached(): (attached: bool)
      reads this
      ensures attached <==> View().state == Connected
    {
      state == Connected
    }
  }

  /** vigem_target_x360_alloc */
  method X360Alloc() returns (t: Target)
    ensures fresh(t)
    ensures t.View() == Allocated(Xbox360Wired)
  {
    t := new Target.AllocInit(Xbox360Wired);
    t.vendorId := 0x045E;
    t.productId := 0x028E;
  }

  /** vigem_target_ds4_alloc */
  method Ds4Alloc() returns (t: Target)
    ensures fresh(t)
    ensures t.View() == Allocated(DualShock4Wired)
  {
    t := new Target.AllocInit(DualShock4Wired);
    t.vendorId := 0x054C;
    t.productId := 0x05C4;
  }

  /**
   * vigem_target_is_waitable_add_supported on a target's fields: false
   * for a null target, otherwise true unless a plug found the driver
   * without the wait-ready request.
   */
  function WaitableAddSupported(t: Option<TargetView>): (supported: bool)
  {
    t.Some? && !t.value.waitReadyUnsupported
  }

  /** vigem_target_is_waitable_add_supported */
  function IsWaitableAddSupported(t: Target?): (supported: bool)
    reads t
    ensures supported == WaitableAddSupported(if t == null then None else Some(t.View()))
  {
    t != null && !t.isWaitReadyUnsupported
  }

  /**
   * A freshly allocated target is not attached, has serial 0, carries the
   * default ids of its type, has no notification and no cancel event, and
   * reports the wait-ready path as supported.
   */
  lemma FreshTargetDefaults(kind: TargetType)
    ensures var v := Allocated(kind);
      && v.state != Connected && v.serialNo == 0
      && (kind == Xbox360Wired ==> v.vendorId == 0x045E && v.productId == 0x028E)
      && (kind == DualShock4Wired ==> v.vendorId == 0x054C && v.productId == 0x05C4)
      && v.notification == Null && v.cancelEvent == NoEvent
      && WaitableAddSupported(Some(v))
  {
  }
}
