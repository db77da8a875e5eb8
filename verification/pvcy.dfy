/**
 The host-side LE privacy module: the operations of `ble_hs_pvcy.c`, one
 function per C function. Every operation takes the host state and the
 controller, and returns its status together with the host afterwards; the
 host's trace records every command sent (with the controller's answer) and
 every GAP preemption bracket.
 */
module Pvcy {
  import opened PvcyTypes
  import opened Trace

  /** `ble_hs_hci_cmd_tx`: send one command and wait for the controller's status. */
  function Transmit(h: Host, ctrl: Controller, c: Command): (r: Ret)
    ensures r.host == h.(trace := h.trace + [Hci(c, r.rc)])
    ensures Recorded(ctrl, h.trace, r.host.trace)
  {
    var rc := ctrl(h.trace, c);
    var t := h.trace + [Hci(c, rc)];
    assert t[..|h.trace|] == h.trace;
    Ret(rc, h.(trace := t))
  }

  /** `ble_gap_preempt` and `ble_gap_preempt_done`, seen only as trace markers. */
  function Mark(h: Host, e: Event): (r: Host)
    requires !e.Hci?
    ensures r == h.(trace := h.trace + [e])
    ensures forall ctrl: Controller :: Recorded(ctrl, h.trace, r.trace)
  {
    var t := h.trace + [e];
    assert t[..|h.trace|] == h.trace;
    h.(trace := t)
  }

  /** The conversion of an `int` configuration value to a `uint16_t` parameter. */
  function AsU16(v: int): (r: U16)
    ensures 0 <= v < 0x1_0000 ==> r == v
    ensures (v - r) % 0x1_0000 == 0
  {
    v % 0x1_0000
  }

  /** `ble_hs_pvcy_set_addr_timeout`: the timeout is checked before anything is sent. */
  function SetAddrTimeout(h: Host, ctrl: Controller, timeout: U16): (r: Ret)
    ensures r.host.started == h.started && r.host.irk == h.irk
    ensures Recorded(ctrl, h.trace, r.host.trace)
    ensures timeout == 0 || timeout > RpaTimeoutMax ==> r == Ret(ErrInvHciCmdParms, h)
    ensures 0 < timeout <= RpaTimeoutMax ==>
              r.host.trace == h.trace + [Hci(SetRpaTimeout(timeout), r.rc)]
  {
    if timeout == 0 || timeout > RpaTimeoutMax then
      Ret(ErrInvHciCmdParms, h)
    else
      Transmit(h, ctrl, SetRpaTimeout(timeout))
  }

  /** `ble_hs_pvcy_set_resolve_enabled`. */
  function SetResolveEnabled(h: Host, ctrl: Controller, enable: bool): (r: Ret)
    ensures r.host.started == h.started && r.host.irk == h.irk
    ensures Recorded(ctrl, h.trace, r.host.trace)
    ensures r.host.trace == h.trace + [Hci(SetAddrResolution(enable), r.rc)]
  {
    Transmit(h, ctrl, SetAddrResolution(enable))
  }

  /** `ble_hs_pvcy_remove_entry_hci`: an address type above random is not
      rejected but reduced modulo 2. */
  function RemoveEntryHci(h: Host, ctrl: Controller, addrType: U8, addr: Addr): (r: Ret)
    ensures r.host.started == h.started && r.host.irk == h.irk
    ensures Recorded(ctrl, h.trace, r.host.trace)
    ensures r.host.trace == h.trace + [Hci(RemoveFromResolvingList(addrType % 2, addr), r.rc)]
  {
    var t: U8 := if addrType > AddrRandom then addrType % 2 else addrType;
    Transmit(h, ctrl, RemoveFromResolvingList(t, addr))
  }

  /** `ble_hs_pvcy_remove_entry`: the removal, bracketed by a GAP preemption
      whatever its outcome. */
  function RemoveEntry(h: Host, ctrl: Controller, addrType: U8, addr: Addr): (r: Ret)
    ensures r.host.started == h.started && r.host.irk == h.irk
    ensures Recorded(ctrl, h.trace, r.host.trace)
    ensures r.host.trace ==
              h.trace + [Preempt, Hci(RemoveFromResolvingList(addrType % 2, addr), r.rc), PreemptDone]
  {
    var p := Mark(h, Preempt);
    var x := RemoveEntryHci(p, ctrl, addrType, addr);
    var d := Mark(x.host, PreemptDone);
    RecordedTrans(ctrl, h.trace, p.trace, x.host.trace);
    RecordedTrans(ctrl, h.trace, x.host.trace, d.trace);
    Ret(x.rc, d)
  }

  /** `ble_hs_pvcy_clear_entries`: not bracketed by a preemption. */
  function ClearEntries(h: Host, ctrl: Controller): (r: Ret)
    ensures r.host.started == h.started && r.host.irk == h.irk
    ensures Recorded(ctrl, h.trace, r.host.trace)
    ensures r.host.trace == h.trace + [Hci(ClearResolvingList, r.rc)]
  {
    Transmit(h, ctrl, ClearResolvingList)
  }

  /** The commands adding a peer sends when nothing fails: the entry, then
      device privacy mode for the same identity address. */
  function AddScript(addrType: U8, addr: Addr, peerIrk: Irk, localIrk: Irk): seq<Command>
  {
    [AddToResolvingList(addrType, addr, peerIrk, localIrk),
     SetPrivacyMode(addrType, addr, PrivateModeDevice)]
  }

  /** `ble_hs_pvcy_set_mode`: an address type above random is rejected
      before anything is sent; no preemption of its own. */
  function SetMode(h: Host, ctrl: Controller, addr: BleAddr, mode: U8): (r: Ret)
    ensures r.host.started == h.started && r.host.irk == h.irk
    ensures Recorded(ctrl, h.trace, r.host.trace)
    ensures addr.addrType > AddrRandom ==> r == Ret(ErrInvHciCmdParms, h)
    ensures addr.addrType <= AddrRandom ==>
              r.host.trace == h.trace + [Hci(SetPrivacyMode(addr.addrType, addr.val, mode), r.rc)]
  {
    if addr.addrType > AddrRandom then
      Ret(ErrInvHciCmdParms, h)
    else
      Transmit(h, ctrl, SetPrivacyMode(addr.addrType, addr.val, mode))
  }

  /** `ble_hs_pvcy_add_entry_hci`: rejects an address type above random;
      otherwise runs the add script, the local IRK field being the current
      key, and reports the first failure. */
  function AddEntryHci(h: Host, ctrl: Controller, addr: Addr, addrType: U8, irk: Irk): (r: Ret)
    ensures r.host.started == h.started && r.host.irk == h.irk
    ensures Recorded(ctrl, h.trace, r.host.trace)
    ensures addrType > AddrRandom ==> r == Ret(ErrInvHciCmdParms, h)
    ensures addrType <= AddrRandom ==>
              var sent := r.host.trace[|h.trace|..];
              && FollowsScript(sent, AddScript(addrType, addr, irk, h.irk))
              && r.rc == FirstFailure(sent)
  {
    if addrType > AddrRandom then
      Ret(ErrInvHciCmdParms, h)
    else
      var a := Transmit(h, ctrl, AddToResolvingList(addrType, addr, irk, h.irk));
      if a.rc != 0 then
        assert a.host.trace[|h.trace|..] == [Hci(AddToResolvingList(addrType, addr, irk, h.irk), a.rc)];
        a
      else
        var m := SetMode(a.host, ctrl, BleAddr(addrType, addr), PrivateModeDevice);
        RecordedTrans(ctrl, h.trace, a.host.trace, m.host.trace);
        var sent := m.host.trace[|h.trace|..];
        assert sent == [Hci(AddToResolvingList(addrType, addr, irk, h.irk), 0),
                        Hci(SetPrivacyMode(addrType, addr, PrivateModeDevice), m.rc)];
        FollowsScriptResult(sent, AddScript(addrType, addr, irk, h.irk));
        if m.rc != 0 then m else Ret(0, m.host)
  }

  /** `ble_hs_pvcy_add_entry`: the add, bracketed by a GAP preemption
      whatever its outcome. */
  function AddEntry(h: Host, ctrl: Controller, addr: Addr, addrType: U8, irk: Irk): (r: Ret)
    ensures r.host.started == h.started && r.host.irk == h.irk
    ensures Recorded(ctrl, h.trace, r.host.trace)
    ensures |h.trace| + 2 <= |r.host.trace|
    ensures var inner := r.host.trace[|h.trace| + 1 .. |r.host.trace| - 1];
            && r.host.trace == h.trace + [Preempt] + inner + [PreemptDone]
            && (addrType > AddrRandom ==> inner == [] && r.rc == ErrInvHciCmdParms)
            && (addrType <= AddrRandom ==>
                  FollowsScript(inner, AddScript(addrType, addr, irk, h.irk)) && r.rc == FirstFailure(inner))
  {
    var p := Mark(h, Preempt);
    var x := AddEntryHci(p, ctrl, addr, addrType, irk);
    var d := Mark(x.host, PreemptDone);
    RecordedTrans(ctrl, h.trace, p.trace, x.host.trace);
    RecordedTrans(ctrl, h.trace, x.host.trace, d.trace);
    assert d.trace[|h.trace| + 1 .. |d.trace| - 1] == x.host.trace[|p.trace|..];
    Ret(x.rc, d)
  }

  /** `ble_hs_pvcy_ensure_started`: sends the configured RPA timeout once;
      `started` is set only when the controller accepted it. */
  function EnsureStarted(h: Host, ctrl: Controller, rpaTimeout: int): (r: Ret)
    ensures r.host.irk == h.irk
    ensures Recorded(ctrl, h.trace, r.host.trace)
    ensures r.host.started <==> h.started || r.rc == 0
    ensures h.started ==> r == Ret(0, h)
    ensures !h.started ==>
              var t := AsU16(rpaTimeout);
              && (t == 0 || t > RpaTimeoutMax ==> r == Ret(ErrInvHciCmdParms, h))
              && (0 < t <= RpaTimeoutMax ==> r.host.trace == h.trace + [Hci(SetRpaTimeout(t), r.rc)])
  {
    if h.started then
      Ret(0, h)
    else
      var s := SetAddrTimeout(h, ctrl, AsU16(rpaTimeout));
      if s.rc != 0 then s else Ret(0, s.host.(started := true))
  }

  /** The key `ble_hs_pvcy_set_our_irk` installs: the caller's, or the default. */
  function CandidateIrk(irk: Option<Irk>): Irk
  {
    if irk.Some? then irk.value else DefaultIrk
  }

  /** The commands a key rotation sends when nothing fails: address
      resolution off, resolving list cleared, resolution on, then the
      self-entry (all-zero public address, all-zero peer IRK) and its
      privacy mode. */
  function RotationScript(k: Irk): seq<Command>
  {
    [SetAddrResolution(false), ClearResolvingList, SetAddrResolution(true)]
      + AddScript(AddrPublic, ZeroAddr, ZeroIrk, k)
  }

  /** `ble_hs_pvcy_set_our_irk`: a no-op when the candidate key is already
      current; otherwise the key is stored first and the resolving list is
      rebuilt, stopping at the first failure. `started` is never touched. */
  function SetOurIrk(h: Host, ctrl: Controller, irk: Option<Irk>): (r: Ret)
    ensures r.host.started == h.started
    ensures Recorded(ctrl, h.trace, r.host.trace)
    ensures CandidateIrk(irk) == h.irk ==> r == Ret(0, h)
    ensures CandidateIrk(irk) != h.irk ==> r.host.irk == CandidateIrk(irk)
  {
    var k := CandidateIrk(irk);
    if h.irk == k then
      Ret(0, h)
    else
      var h1 := h.(irk := k);
      var d := SetResolveEnabled(h1, ctrl, false);
      if d.rc != 0 then d
      else
        var c := ClearEntries(d.host, ctrl);
        RecordedTrans(ctrl, h.trace, d.host.trace, c.host.trace);
        if c.rc != 0 then c
        else
          var e := SetResolveEnabled(c.host, ctrl, true);
          RecordedTrans(ctrl, h.trace, c.host.trace, e.host.trace);
          if e.rc != 0 then e
          else
            var a := AddEntry(e.host, ctrl, ZeroAddr, AddrPublic, ZeroIrk);
            RecordedTrans(ctrl, h.trace, e.host.trace, a.host.trace);
            if a.rc != 0 then a else Ret(0, a.host)
  }

  /** `ble_hs_pvcy_our_irk`: the current key, always with status 0. */
  function OurIrk(h: Host): (r: IrkReply)
    ensures r.rc == 0 && r.irk == h.irk
  {
    IrkReply(0, h.irk)
  }

  /** `ble_hs_pvcy_reset`: no command; not started, all-zero key. */
  function Reset(h: Host): (r: Host)
    ensures !r.started && r.irk == ZeroIrk && r.trace == h.trace
  {
    h.(started := false, irk := ZeroIrk)
  }
}
