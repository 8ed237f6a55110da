/**
 The message table of the protocol dialect: payload layout, field orders and checksum seed of every fixed-arity message.
 Declaring a constant of type `Entry` proves that decoding undoes the field order of packing.
 */
module MavlinkTable {
  import opened Bytes
  import opened Collections

  /** The byte offset of every wire field and, last, the payload size, which fits the one-byte length field. */
  type Layout = l: seq<nat> | |l| > 0 && l[0] == 0 && l[|l| - 1] < 256 && Ascending(l) witness [0]

  predicate Ascending(l: seq<nat>) {
    forall j: nat :: j < |l| - 1 ==> Slot(l, j)
  }

  /** Field j ends where the next one begins, and does not end before it begins. */
  predicate Slot(l: seq<nat>, j: nat)
    requires j < |l| - 1
  {
    l[j] <= l[j + 1]
  }

  /**
   `wire[j]` is the constructor argument that is packed as wire field j; `order[i]` is the wire field that becomes
   constructor argument i when decoding.
   */
  datatype Orders = Orders(wire: seq<nat>, order: seq<nat>)

  type FieldOrder = o: Orders | Undone(o) witness Orders([], [])

  predicate Undone(o: Orders) {
    |o.order| == |o.wire| && InverseFrom(o, 0)
  }

  predicate InverseFrom(o: Orders, i: nat)
    requires |o.wire| == |o.order|
    decreases |o.wire| - i
  {
    if i < |o.wire| then Inverse(o, i) && InverseFrom(o, i + 1) else true
  }

  predicate Inverse(o: Orders, i: nat)
    requires i < |o.wire| == |o.order|
  {
    && o.order[i] < |o.wire| && o.wire[o.order[i]] == i
    && o.wire[i] < |o.order| && o.order[o.wire[i]] == i
  }

  lemma {:induction false} InverseAt(o: Orders, start: nat, i: nat)
    requires start <= i < |o.wire| == |o.order| && InverseFrom(o, start)
    ensures Inverse(o, i)
    decreases i - start
  {
    if start == i {
    } else {
      InverseAt(o, start + 1, i);
    }
  }

  lemma {:induction false} AllInverse(o: Orders, start: nat)
    requires |o.wire| == |o.order| && forall i: nat :: start <= i < |o.wire| ==> Inverse(o, i)
    ensures InverseFrom(o, start)
    decreases |o.wire| - start
  {
    if start >= |o.wire| {
    } else {
      AllInverse(o, start + 1);
    }
  }

  function Straight(n: nat): FieldOrder {
    var o := Orders(seq(n, i => i), seq(n, i => i));
    AllInverse(o, 0);
    o
  }

  datatype Row = Row(layout: Layout, fields: FieldOrder, crcExtra: byte)

  type Entry = r: Row | |r.layout| == |r.fields.wire| + 1 witness Row([0], Orders([], []), 0)

  const HEARTBEAT: Entry := Row([0, 4, 5, 6, 7, 8, 9], Orders([3, 0, 1, 2, 4, 5], [1, 2, 3, 0, 4, 5]), 50)
  const SYS_STATUS_FIELDS: FieldOrder :=
    assert InverseFrom(SYS_STATUS_ORDERS, 9);
    assert InverseFrom(SYS_STATUS_ORDERS, 5);
    SYS_STATUS_ORDERS
  const SYS_STATUS_ORDERS := Orders([0, 1, 2, 3, 4, 5, 7, 8, 9, 10, 11, 12, 6],
    [0, 1, 2, 3, 4, 5, 12, 6, 7, 8, 9, 10, 11])
  const SYS_STATUS: Entry := Row([0, 4, 8, 12, 14, 16, 18, 20, 22, 24, 26, 28, 30, 31], SYS_STATUS_FIELDS, 124)
  const SYSTEM_TIME: Entry := Row([0, 8, 12], Straight(2), 137)
  const PING: Entry := Row([0, 8, 12, 13, 14], Straight(4), 237)
  const CHANGE_OPERATOR_CONTROL: Entry := Row([0, 1, 2, 3, 28], Straight(4), 217)
  const CHANGE_OPERATOR_CONTROL_ACK: Entry := Row([0, 1, 2, 3], Straight(3), 104)
  const AUTH_KEY: Entry := Row([0, 32], Straight(1), 119)
  const SET_MODE: Entry := Row([0, 4, 5, 6], Orders([2, 0, 1], [1, 2, 0]), 89)
  const PARAM_REQUEST_READ: Entry := Row([0, 2, 3, 4, 20], Orders([3, 0, 1, 2], [1, 2, 3, 0]), 214)
  const PARAM_REQUEST_LIST: Entry := Row([0, 1, 2], Straight(2), 159)
  const PARAM_VALUE: Entry := Row([0, 4, 6, 8, 24, 25], Orders([1, 3, 4, 0, 2], [3, 0, 4, 1, 2]), 220)
  const PARAM_SET: Entry := Row([0, 4, 5, 6, 22, 23], Orders([3, 0, 1, 2, 4], [1, 2, 3, 0, 4]), 168)
  const GPS_RAW_INT: Entry := Row([0, 8, 12, 16, 20, 22, 24, 26, 28, 29, 30],
    Orders([0, 2, 3, 4, 5, 6, 7, 8, 1, 9], [0, 8, 1, 2, 3, 4, 5, 6, 7, 9]), 24)
  const GPS_STATUS: Entry := Row([0, 1, 21, 41, 61, 81, 101], Straight(6), 23)
  const SCALED_IMU: Entry := Row([0, 4, 6, 8, 10, 12, 14, 16, 18, 20, 22], Straight(10), 170)
  const RAW_IMU: Entry := Row([0, 8, 10, 12, 14, 16, 18, 20, 22, 24, 26], Straight(10), 144)
  const RAW_PRESSURE: Entry := Row([0, 8, 10, 12, 14, 16], Straight(5), 67)
  const SCALED_PRESSURE: Entry := Row([0, 4, 8, 12, 14], Straight(4), 115)
  const ATTITUDE: Entry := Row([0, 4, 8, 12, 16, 20, 24, 28], Straight(7), 39)
  const ATTITUDE_QUATERNION: Entry := Row([0, 4, 8, 12, 16, 20, 24, 28, 32], Straight(8), 246)
  const LOCAL_POSITION_NED: Entry := Row([0, 4, 8, 12, 16, 20, 24, 28], Straight(7), 185)
  const GLOBAL_POSITION_INT: Entry := Row([0, 4, 8, 12, 16, 20, 22, 24, 26, 28], Straight(9), 104)
  const RC_CHANNELS_FIELDS: FieldOrder := Orders([0, 2, 3, 4, 5, 6, 7, 8, 9, 1, 10],
    [0, 9, 1, 2, 3, 4, 5, 6, 7, 8, 10])
  const RC_CHANNELS_SCALED: Entry := Row([0, 4, 6, 8, 10, 12, 14, 16, 18, 20, 21, 22], RC_CHANNELS_FIELDS, 237)
  const RC_CHANNELS_RAW: Entry := Row([0, 4, 6, 8, 10, 12, 14, 16, 18, 20, 21, 22], RC_CHANNELS_FIELDS, 244)
  const SERVO_OUTPUT_RAW: Entry := Row([0, 4, 6, 8, 10, 12, 14, 16, 18, 20, 21],
    Orders([0, 2, 3, 4, 5, 6, 7, 8, 9, 1], [0, 9, 1, 2, 3, 4, 5, 6, 7, 8]), 242)
  const MISSION_REQUEST_PARTIAL_LIST: Entry := Row([0, 2, 4, 5, 6], Orders([2, 3, 0, 1], [2, 3, 0, 1]), 212)
  const MISSION_WRITE_PARTIAL_LIST: Entry := Row([0, 2, 4, 5, 6], Orders([2, 3, 0, 1], [2, 3, 0, 1]), 9)
  const MISSION_ITEM_FIELDS: FieldOrder :=
    assert InverseFrom(MISSION_ITEM_ORDERS, 10);
    assert InverseFrom(MISSION_ITEM_ORDERS, 5);
    MISSION_ITEM_ORDERS
  const MISSION_ITEM_ORDERS := Orders([7, 8, 9, 10, 11, 12, 13, 2, 4, 0, 1, 3, 5, 6],
    [9, 10, 7, 11, 8, 12, 13, 0, 1, 2, 3, 4, 5, 6])
  const MISSION_ITEM: Entry := Row([0, 4, 8, 12, 16, 20, 24, 28, 30, 32, 33, 34, 35, 36, 37],
    MISSION_ITEM_FIELDS, 254)
  const MISSION_REQUEST: Entry := Row([0, 2, 3, 4], Orders([2, 0, 1], [1, 2, 0]), 230)
  const MISSION_SET_CURRENT: Entry := Row([0, 2, 3, 4], Orders([2, 0, 1], [1, 2, 0]), 28)
  const MISSION_CURRENT: Entry := Row([0, 2], Straight(1), 28)
  const MISSION_REQUEST_LIST: Entry := Row([0, 1, 2], Straight(2), 132)
  const MISSION_COUNT: Entry := Row([0, 2, 3, 4], Orders([2, 0, 1], [1, 2, 0]), 221)
  const MISSION_CLEAR_ALL: Entry := Row([0, 1, 2], Straight(2), 232)
  const MISSION_ITEM_REACHED: Entry := Row([0, 2], Straight(1), 11)
  const MISSION_ACK: Entry := Row([0, 1, 2, 3], Straight(3), 153)
  const SET_GPS_GLOBAL_ORIGIN: Entry := Row([0, 4, 8, 12, 13], Orders([1, 2, 3, 0], [3, 0, 1, 2]), 41)
  const GPS_GLOBAL_ORIGIN: Entry := Row([0, 4, 8, 12], Straight(3), 39)
  const SET_LOCAL_POSITION_SETPOINT: Entry := Row([0, 4, 8, 12, 16, 17, 18, 19],
    Orders([3, 4, 5, 6, 0, 1, 2], [4, 5, 6, 0, 1, 2, 3]), 214)
  const LOCAL_POSITION_SETPOINT: Entry := Row([0, 4, 8, 12, 16, 17], Orders([1, 2, 3, 4, 0], [4, 0, 1, 2, 3]), 223)
  const GLOBAL_POSITION_SETPOINT_INT: Entry := Row([0, 4, 8, 12, 14, 15],
    Orders([1, 2, 3, 4, 0], [4, 0, 1, 2, 3]), 141)
  const SET_GLOBAL_POSITION_SETPOINT_INT: Entry := Row([0, 4, 8, 12, 14, 15],
    Orders([1, 2, 3, 4, 0], [4, 0, 1, 2, 3]), 33)
  const SAFETY_SET_ALLOWED_AREA: Entry := Row([0, 4, 8, 12, 16, 20, 24, 25, 26, 27],
    Orders([3, 4, 5, 6, 7, 8, 0, 1, 2], [6, 7, 8, 0, 1, 2, 3, 4, 5]), 15)
  const SAFETY_ALLOWED_AREA: Entry := Row([0, 4, 8, 12, 16, 20, 24, 25],
    Orders([1, 2, 3, 4, 5, 6, 0], [6, 0, 1, 2, 3, 4, 5]), 3)
  const SET_ROLL_PITCH_YAW_THRUST: Entry := Row([0, 4, 8, 12, 16, 17, 18],
    Orders([2, 3, 4, 5, 0, 1], [4, 5, 0, 1, 2, 3]), 100)
  const SET_ROLL_PITCH_YAW_SPEED_THRUST: Entry := Row([0, 4, 8, 12, 16, 17, 18],
    Orders([2, 3, 4, 5, 0, 1], [4, 5, 0, 1, 2, 3]), 24)
  const ROLL_PITCH_YAW_THRUST_SETPOINT: Entry := Row([0, 4, 8, 12, 16, 20], Straight(5), 239)
  const ROLL_PITCH_YAW_SPEED_THRUST_SETPOINT: Entry := Row([0, 4, 8, 12, 16, 20], Straight(5), 238)
  const SET_QUAD_MOTORS_SETPOINT: Entry := Row([0, 2, 4, 6, 8, 9], Orders([1, 2, 3, 4, 0], [4, 0, 1, 2, 3]), 30)
  const NAV_CONTROLLER_OUTPUT: Entry := Row([0, 4, 8, 12, 16, 20, 22, 24, 26],
    Orders([0, 1, 5, 6, 7, 2, 3, 4], [0, 1, 5, 6, 7, 2, 3, 4]), 183)
  const STATE_CORRECTION: Entry := Row([0, 4, 8, 12, 16, 20, 24, 28, 32, 36], Straight(9), 130)
  const REQUEST_DATA_STREAM: Entry := Row([0, 2, 3, 4, 5, 6], Orders([3, 0, 1, 2, 4], [1, 2, 3, 0, 4]), 148)
  const DATA_STREAM: Entry := Row([0, 2, 3, 4], Orders([1, 0, 2], [1, 0, 2]), 21)
  const MANUAL_CONTROL: Entry := Row([0, 2, 4, 6, 8, 10, 11], Orders([1, 2, 3, 4, 5, 0], [5, 0, 1, 2, 3, 4]), 243)
  const RC_CHANNELS_OVERRIDE: Entry := Row([0, 2, 4, 6, 8, 10, 12, 14, 16, 17, 18],
    Orders([2, 3, 4, 5, 6, 7, 8, 9, 0, 1], [8, 9, 0, 1, 2, 3, 4, 5, 6, 7]), 124)
  const VFR_HUD: Entry := Row([0, 4, 8, 12, 16, 18, 20], Orders([0, 1, 4, 5, 2, 3], [0, 1, 4, 5, 2, 3]), 20)
  const COMMAND_LONG_FIELDS: FieldOrder := Orders([4, 5, 6, 7, 8, 9, 10, 2, 0, 1, 3],
    [8, 9, 7, 10, 0, 1, 2, 3, 4, 5, 6])
  const COMMAND_LONG: Entry := Row([0, 4, 8, 12, 16, 20, 24, 28, 30, 31, 32, 33], COMMAND_LONG_FIELDS, 152)
  const COMMAND_ACK: Entry := Row([0, 2, 3], Straight(2), 143)
  const ROLL_PITCH_YAW_RATES_THRUST_SETPOINT: Entry := Row([0, 4, 8, 12, 16, 20], Straight(5), 127)
  const MANUAL_SETPOINT: Entry := Row([0, 4, 8, 12, 16, 20, 21, 22], Straight(7), 106)
  const LOCAL_POSITION_NED_SYSTEM_GLOBAL_OFFSET: Entry := Row([0, 4, 8, 12, 16, 20, 24, 28], Straight(7), 231)
  const HIL_STATE: Entry := Row([0, 8, 12, 16, 20, 24, 28, 32, 36, 40, 44, 46, 48, 50, 52, 54, 56], Straight(16), 183)
  const HIL_CONTROLS: Entry := Row([0, 8, 12, 16, 20, 24, 28, 32, 36, 40, 41, 42], Straight(11), 63)
  const HIL_RC_INPUTS_RAW: Entry := Row([0, 8, 10, 12, 14, 16, 18, 20, 22, 24, 26, 28, 30, 32, 33], Straight(14), 54)
  const OPTICAL_FLOW: Entry := Row([0, 8, 12, 16, 20, 22, 24, 25, 26],
    Orders([0, 4, 5, 7, 2, 3, 1, 6], [0, 6, 4, 5, 1, 2, 7, 3]), 175)
  const GLOBAL_VISION_POSITION_ESTIMATE: Entry := Row([0, 8, 12, 16, 20, 24, 28, 32], Straight(7), 102)
  const VISION_POSITION_ESTIMATE: Entry := Row([0, 8, 12, 16, 20, 24, 28, 32], Straight(7), 158)
  const VISION_SPEED_ESTIMATE: Entry := Row([0, 8, 12, 16, 20], Straight(4), 208)
  const VICON_POSITION_ESTIMATE: Entry := Row([0, 8, 12, 16, 20, 24, 28, 32], Straight(7), 56)
  const HIGHRES_IMU: Entry := Row([0, 8, 12, 16, 20, 24, 28, 32, 36, 40, 44, 48, 52, 56, 60, 62], Straight(15), 93)
  const FILE_TRANSFER_START: Entry := Row([0, 8, 12, 252, 253, 254], Orders([0, 3, 1, 2, 4], [0, 2, 3, 1, 4]), 235)
  const FILE_TRANSFER_DIR_LIST: Entry := Row([0, 8, 248, 249], Straight(3), 93)
  const FILE_TRANSFER_RES: Entry := Row([0, 8, 9], Straight(2), 124)
  const BATTERY_STATUS: Entry := Row([0, 2, 4, 6, 8, 10, 12, 14, 15, 16],
    Orders([1, 2, 3, 4, 5, 6, 7, 0, 8], [7, 0, 1, 2, 3, 4, 5, 6, 8]), 42)
  const SETPOINT_8DOF_FIELDS: FieldOrder := Orders([1, 2, 3, 4, 5, 6, 7, 8, 0], [8, 0, 1, 2, 3, 4, 5, 6, 7])
  const SETPOINT_8DOF: Entry := Row([0, 4, 8, 12, 16, 20, 24, 28, 32, 33], SETPOINT_8DOF_FIELDS, 241)
  const SETPOINT_6DOF: Entry := Row([0, 4, 8, 12, 16, 20, 24, 25],
    Orders([1, 2, 3, 4, 5, 6, 0], [6, 0, 1, 2, 3, 4, 5]), 15)
  const MEMORY_VECT: Entry := Row([0, 2, 3, 4, 36], Straight(4), 204)
  const DEBUG_VECT: Entry := Row([0, 8, 12, 16, 20, 30], Orders([1, 2, 3, 4, 0], [4, 0, 1, 2, 3]), 49)
  const NAMED_VALUE_FLOAT: Entry := Row([0, 4, 8, 18], Orders([0, 2, 1], [0, 2, 1]), 170)
  const NAMED_VALUE_INT: Entry := Row([0, 4, 8, 18], Orders([0, 2, 1], [0, 2, 1]), 44)
  const STATUSTEXT: Entry := Row([0, 1, 51], Straight(2), 83)
  const DEBUG: Entry := Row([0, 4, 8, 9], Orders([0, 2, 1], [0, 2, 1]), 46)

  function LowIds(id: byte): Option<Entry> {
    match id
    case 0 => Some(HEARTBEAT)
    case 1 => Some(SYS_STATUS)
    case 2 => Some(SYSTEM_TIME)
    case 4 => Some(PING)
    case 5 => Some(CHANGE_OPERATOR_CONTROL)
    case 6 => Some(CHANGE_OPERATOR_CONTROL_ACK)
    case 7 => Some(AUTH_KEY)
    case 11 => Some(SET_MODE)
    case 20 => Some(PARAM_REQUEST_READ)
    case 21 => Some(PARAM_REQUEST_LIST)
    case 22 => Some(PARAM_VALUE)
    case 23 => Some(PARAM_SET)
    case 24 => Some(GPS_RAW_INT)
    case 25 => Some(GPS_STATUS)
    case 26 => Some(SCALED_IMU)
    case 27 => Some(RAW_IMU)
    case 28 => Some(RAW_PRESSURE)
    case 29 => Some(SCALED_PRESSURE)
    case 30 => Some(ATTITUDE)
    case 31 => Some(ATTITUDE_QUATERNION)
    case 32 => Some(LOCAL_POSITION_NED)
    case _ => None
  }

  function MiddleIds(id: byte): Option<Entry> {
    match id
    case 33 => Some(GLOBAL_POSITION_INT)
    case 34 => Some(RC_CHANNELS_SCALED)
    case 35 => Some(RC_CHANNELS_RAW)
    case 36 => Some(SERVO_OUTPUT_RAW)
    case 37 => Some(MISSION_REQUEST_PARTIAL_LIST)
    case 38 => Some(MISSION_WRITE_PARTIAL_LIST)
    case 39 => Some(MISSION_ITEM)
    case 40 => Some(MISSION_REQUEST)
    case 41 => Some(MISSION_SET_CURRENT)
    case 42 => Some(MISSION_CURRENT)
    case 43 => Some(MISSION_REQUEST_LIST)
    case 44 => Some(MISSION_COUNT)
    case 45 => Some(MISSION_CLEAR_ALL)
    case 46 => Some(MISSION_ITEM_REACHED)
    case 47 => Some(MISSION_ACK)
    case 48 => Some(SET_GPS_GLOBAL_ORIGIN)
    case 49 => Some(GPS_GLOBAL_ORIGIN)
    case 50 => Some(SET_LOCAL_POSITION_SETPOINT)
    case 51 => Some(LOCAL_POSITION_SETPOINT)
    case 52 => Some(GLOBAL_POSITION_SETPOINT_INT)
    case 53 => Some(SET_GLOBAL_POSITION_SETPOINT_INT)
    case 54 => Some(SAFETY_SET_ALLOWED_AREA)
    case 55 => Some(SAFETY_ALLOWED_AREA)
    case _ => None
  }

  function HighIds(id: byte): Option<Entry> {
    match id
    case 56 => Some(SET_ROLL_PITCH_YAW_THRUST)
    case 57 => Some(SET_ROLL_PITCH_YAW_SPEED_THRUST)
    case 58 => Some(ROLL_PITCH_YAW_THRUST_SETPOINT)
    case 59 => Some(ROLL_PITCH_YAW_SPEED_THRUST_SETPOINT)
    case 60 => Some(SET_QUAD_MOTORS_SETPOINT)
    case 62 => Some(NAV_CONTROLLER_OUTPUT)
    case 64 => Some(STATE_CORRECTION)
    case 66 => Some(REQUEST_DATA_STREAM)
    case 67 => Some(DATA_STREAM)
    case 69 => Some(MANUAL_CONTROL)
    case 70 => Some(RC_CHANNELS_OVERRIDE)
    case 74 => Some(VFR_HUD)
    case 76 => Some(COMMAND_LONG)
    case 77 => Some(COMMAND_ACK)
    case 80 => Some(ROLL_PITCH_YAW_RATES_THRUST_SETPOINT)
    case 81 => Some(MANUAL_SETPOINT)
    case 89 => Some(LOCAL_POSITION_NED_SYSTEM_GLOBAL_OFFSET)
    case 90 => Some(HIL_STATE)
    case 91 => Some(HIL_CONTROLS)
    case 92 => Some(HIL_RC_INPUTS_RAW)
    case 100 => Some(OPTICAL_FLOW)
    case 101 => Some(GLOBAL_VISION_POSITION_ESTIMATE)
    case 102 => Some(VISION_POSITION_ESTIMATE)
    case 103 => Some(VISION_SPEED_ESTIMATE)
    case 104 => Some(VICON_POSITION_ESTIMATE)
    case 105 => Some(HIGHRES_IMU)
    case 110 => Some(FILE_TRANSFER_START)
    case 111 => Some(FILE_TRANSFER_DIR_LIST)
    case 112 => Some(FILE_TRANSFER_RES)
    case 147 => Some(BATTERY_STATUS)
    case 148 => Some(SETPOINT_8DOF)
    case 149 => Some(SETPOINT_6DOF)
    case 249 => Some(MEMORY_VECT)
    case 250 => Some(DEBUG_VECT)
    case 251 => Some(NAMED_VALUE_FLOAT)
    case 252 => Some(NAMED_VALUE_INT)
    case 253 => Some(STATUSTEXT)
    case 254 => Some(DEBUG)
    case _ => None
  }

  /** All messages except the two whose order map is shorter than the tuple their format unpacks to. */
  function MavlinkMap(id: byte): Option<Entry> {
    if id < 33 then LowIds(id) else if id < 56 then MiddleIds(id) else HighIds(id)
  }

  /**
   In every entry the order map inverts the order in which the constructor packs, and the payload length fits one
   byte. `MavlinkMap` holds nothing but entries.
   */
  lemma {:induction false} TableUndoesOrder(e: Entry, i: nat)
    requires i < |e.fields.wire|
    ensures |e.layout| == |e.fields.order| + 1 && e.layout[|e.fields.order|] < 256
    ensures |e.fields.order| == |e.fields.wire|
    ensures e.fields.order[i] < |e.fields.wire| && e.fields.wire[e.fields.order[i]] == i
    ensures e.fields.wire[i] < |e.fields.order| && e.fields.order[e.fields.wire[i]] == i
  {
    InverseAt(e.fields, 0, i);
  }
}
