/**
 The data of the host-side LE privacy module: bytes, addresses, keys, the HCI
 commands it sends, the events it leaves behind, and the module's own state.
 */
module PvcyTypes {

  /** C `uint8_t` and `uint16_t`. */
  type U8 = x: int | 0 <= x < 0x100
  type U16 = x: int | 0 <= x < 0x1_0000

  /** A 6-byte device address (BLE_DEV_ADDR_LEN). */
  type Addr = a: seq<U8> | |a| == 6 witness [0, 0, 0, 0, 0, 0]

  /** A 16-byte Identity Resolving Key. */
  type Irk = k: seq<U8> | |k| == 16 witness [0, 0, 0, 0, 0, 0, 0, 0, 0, 0, 0, 0, 0, 0, 0, 0]

  /** Address types: only public (0) and random (1) are valid identity address types. */
  const AddrPublic: U8 := 0
  const AddrRandom: U8 := 1

  /** Privacy modes of the LE Set Privacy Mode command. */
  const PrivateModeNetwork: U8 := 0
  const PrivateModeDevice: U8 := 1

  /** HCI error code 0x12, Invalid HCI Command Parameters. */
  const ErrInvHciCmdParms: int := 0x12

  /** Upper bound of the LE Set Resolvable Private Address Timeout parameter (seconds). */
  const RpaTimeoutMax: U16 := 0xA1B8

  const ZeroAddr: Addr := [0, 0, 0, 0, 0, 0]
  const ZeroIrk: Irk := [0, 0, 0, 0, 0, 0, 0, 0, 0, 0, 0, 0, 0, 0, 0, 0]

  /** The key installed when the caller supplies none. */
  const DefaultIrk: Irk := [0xef, 0x8d, 0xe2, 0x16, 0x4f, 0xec, 0x43, 0x0d,
                            0xbf, 0x5b, 0xdd, 0x34, 0xc0, 0x53, 0x1e, 0xb8]

  /** `ble_addr_t`: an address type byte and the 6 address bytes. */
  datatype BleAddr = BleAddr(addrType: U8, val: Addr)

  datatype Option<T> = None | Some(value: T)

  /** The HCI LE commands the module sends, with their logical parameters. */
  datatype Command =
    | SetRpaTimeout(timeout: U16)
    | SetAddrResolution(enable: bool)
    | AddToResolvingList(peerAddrType: U8, peerIdAddr: Addr, peerIrk: Irk, localIrk: Irk)
    | RemoveFromResolvingList(peerAddrType: U8, peerIdAddr: Addr)
    | ClearResolvingList
    | SetPrivacyMode(peerAddrType: U8, peerIdAddr: Addr, mode: U8)

  /** What the module leaves in the observable trace: a command sent together
      with the status the controller answered, or a GAP preemption marker. */
  datatype Event =
    | Hci(cmd: Command, rc: int)
    | Preempt
    | PreemptDone

  /** The controller's answer to a command; it may depend on everything sent before. */
  type Controller = (seq<Event>, Command) -> int

  /** The module's process-wide state plus the trace of everything it has done. */
  datatype Host = Host(started: bool, irk: Irk, trace: seq<Event>)

  /** A status code (0 is success) and the host afterwards. */
  datatype Ret = Ret(rc: int, host: Host)

  /** The pair returned by `ble_hs_pvcy_our_irk`: status and key. */
  datatype IrkReply = IrkReply(rc: int, irk: Irk)
}
