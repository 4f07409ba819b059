/** The point catalog and the runtime publisher's resolution of link requests. */
module Catalog {
  import opened Bytes
  import opened Isa
  import opened Literals
  import opened ObjectFile

  datatype Direction = Input | Output | InOut

  /** A point definition. `details` stands for the fields not modelled: polling, unit, scale and the like. */
  datatype Point = Point(id: Identity, display: string, local: bool, direction: Direction, valueType: byte,
                         details: nat)

  /** The details of a slot variable, and those of a definition nobody has filled in. */
  const SLOT_DETAILS: nat := 0
  const DEFAULT_DETAILS: nat := 1

  type Points = seq<Point>

  const MAX_POINTS: nat := 1024
  const INVALID_INDEX: u16 := 0xFFFF

  /** The size of one point state record, and where in it the quality is. */
  const STATE_SIZE: nat := 80
  const QUALITY_OFFSET: nat := 68

  /** The publisher: whether its region is available, and the size of one point state record. */
  datatype Publisher = Publisher(ready: bool, stride: u32)

  datatype LinkStatus = Resolved | NotFound | UnsupportedPointType | TypeMismatch | AccessDenied

  datatype LinkResult = LinkResult(status: LinkStatus, index: u16, offset: u32)

  function Failed(status: LinkStatus): LinkResult {
    LinkResult(status, INVALID_INDEX, 0)
  }

  /** findIndex: the last point with the identity, or the number of points. Identities are hashed in the order
      of the points, and a later one replaces an equal earlier one. */
  function FindIndex(points: Points, id: Identity): (i: nat)
    ensures i <= |points|
    ensures i < |points| ==> points[i].id == id && forall k | i < k < |points| :: points[k].id != id
    ensures i == |points| ==> forall k | 0 <= k < |points| :: points[k].id != id
  {
    if points == [] then 0
    else
      var last := |points| - 1;
      if points[last].id == id then last
      else
        var i := FindIndex(points[..last], id);
        if i == last then |points| else i
  }

  /** mapValueType: enumerations are linked as 16-bit integers. */
  function RuntimeType(valueType: byte): Option<byte> {
    if valueType == TYPE_BOOL then Some(1)
    else if valueType == TYPE_UINT16 then Some(2)
    else if valueType == TYPE_INT16 then Some(3)
    else if valueType == TYPE_UINT32 then Some(4)
    else if valueType == TYPE_INT32 then Some(5)
    else if valueType == TYPE_FLOAT then Some(6)
    else if valueType == TYPE_ENUM then Some(3)
    else None
  }

  const SLOT_FEATURE: string := "plc.slot"

  /** Points every slot has, which are never slot variables to the firmware. */
  const BUILTIN_POINTS: set<string> := {
    "loaded", "state", "runEnabled", "status", "cycleCounter", "faultCode", "faultInfo", "bytecodeSize",
    "loadEpoch", "objectSize", "paramsSummary", "start", "stop", "reset", "clearFault"
  }

  predicate AllDigits(s: string) {
    forall i | 0 <= i < |s| :: IsDigit(s[i])
  }

  predicate IsDynamicSlotVariable(id: Identity) {
    && |SLOT_FEATURE| < |id.feature|
    && id.feature[..|SLOT_FEATURE|] == SLOT_FEATURE
    && AllDigits(id.feature[|SLOT_FEATURE|..])
    && id.point !in BUILTIN_POINTS
    && id.point != ""
  }

  /** The writable flag of mapFlags; every point is readable. */
  predicate IsWritable(point: Point) {
    IsDynamicSlotVariable(point.id) || point.direction == Output || point.direction == InOut
  }

  predicate AccessAllowed(point: Point, access: byte) {
    access == ACCESS_READ || ((access == ACCESS_WRITE || access == ACCESS_READ_WRITE) && IsWritable(point))
  }

  function StateIndex(publisher: Publisher, i: nat): u16 {
    if !publisher.ready || MAX_POINTS <= i then INVALID_INDEX else i
  }

  function StateOffset(publisher: Publisher, i: nat): u32 {
    if !publisher.ready || MAX_POINTS <= i then 0 else i * publisher.stride % 0x1_0000_0000
  }

  function ResolveLinkRequest(publisher: Publisher, points: Points, id: Identity, expectedType: byte, access: byte)
    : LinkResult
  {
    var i := FindIndex(points, id);
    if i == |points| then Failed(NotFound)
    else
      var actual := RuntimeType(points[i].valueType);
      if actual.None? then Failed(UnsupportedPointType)
      else if RuntimeType(expectedType) != actual then Failed(TypeMismatch)
      else if !AccessAllowed(points[i], access) then Failed(AccessDenied)
      else if StateIndex(publisher, i) == INVALID_INDEX then Failed(UnsupportedPointType)
      else LinkResult(Resolved, StateIndex(publisher, i), StateOffset(publisher, i))
  }

  // Slot variables

  predicate SupportedSlotVariableType(valueType: byte) {
    valueType <= TYPE_ENUM
  }

  function SlotFeature(slot: u16): string {
    SLOT_FEATURE + Decimal(slot)
  }

  /** The device of the first local point of the slot's feature, or of the first point of all. */
  function SlotDevice(points: Points, feature: string): string
    requires points != []
  {
    var device := FirstLocalDevice(points, feature);
    if device.Some? && device.value != "" then device.value else points[0].id.device
  }

  function FirstLocalDevice(points: Points, feature: string): Option<string> {
    if points == [] then None
    else if points[0].local && points[0].id.feature == feature then Some(points[0].id.device)
    else FirstLocalDevice(points[1..], feature)
  }
}
