/**
 What the privacy module promises across calls: the exact shape of a key
 rotation, idempotence of starting and of setting the key, what a reset
 leaves behind, and the address-type policy of removal.
 */
module PvcyProperties {
  import opened PvcyTypes
  import opened Trace
  import opened Pvcy

  /** Removal never rejects an address type: the type sent is always public
      or random, and a valid type is sent unchanged. */
  lemma RemoveEntryNormalizesType(h: Host, ctrl: Controller, addrType: U8, addr: Addr)
    ensures var r := RemoveEntry(h, ctrl, addrType, addr);
            var cmd := r.host.trace[|h.trace| + 1].cmd;
            && cmd.RemoveFromResolvingList?
            && cmd.peerAddrType <= AddrRandom
            && (addrType <= AddrRandom ==> cmd.peerAddrType == addrType)
            && r.rc == ctrl(h.trace + [Preempt], cmd)
  {
  }

  /** Starting is idempotent: once a start succeeded, starting again answers
      0 and sends nothing; over both calls at most one command is sent. */
  lemma EnsureStartedIdempotent(h: Host, ctrl: Controller, rpaTimeout: int)
    ensures var r1 := EnsureStarted(h, ctrl, rpaTimeout);
            var r2 := EnsureStarted(r1.host, ctrl, rpaTimeout);
            && (r1.rc == 0 ==> r2 == Ret(0, r1.host))
            && (r1.rc == 0 ==> |r2.host.trace| <= |h.trace| + 1)
  {
  }

  /** Starting is retryable: a start the controller refused leaves the module
      not started, and the next call sends the timeout again. */
  lemma EnsureStartedRetry(h: Host, ctrl: Controller, rpaTimeout: int)
    requires !h.started && 0 < AsU16(rpaTimeout) <= RpaTimeoutMax
    ensures var r1 := EnsureStarted(h, ctrl, rpaTimeout);
            var r2 := EnsureStarted(r1.host, ctrl, rpaTimeout);
            && (r1.rc != 0 ==> !r1.host.started)
            && (r1.rc != 0 ==> r2.host.trace == r1.host.trace + [Hci(SetRpaTimeout(AsU16(rpaTimeout)), r2.rc)])
  {
  }

  /** A reset forgets the key: reading it afterwards yields the all-zero key
      with status 0. */
  lemma ResetThenOurIrk(h: Host)
    ensures OurIrk(Reset(h)) == IrkReply(0, ZeroIrk)
  {
  }

  /** A reset makes the next start behave as the very first one: a valid
      configured timeout is sent once and the module is started exactly when
      the controller accepted it; an invalid one is refused with nothing sent
      and the module stays not started. */
  lemma ResetThenEnsureStarted(h: Host, ctrl: Controller, rpaTimeout: int)
    ensures var r := EnsureStarted(Reset(h), ctrl, rpaTimeout);
            var t := AsU16(rpaTimeout);
            && r.host.irk == ZeroIrk
            && (0 < t <= RpaTimeoutMax ==>
                  && r.host.trace == h.trace + [Hci(SetRpaTimeout(t), r.rc)]
                  && r.rc == ctrl(h.trace, SetRpaTimeout(t))
                  && (r.host.started <==> r.rc == 0))
            && (t == 0 || t > RpaTimeoutMax ==>
                  && r.rc == ErrInvHciCmdParms
                  && r.host.trace == h.trace
                  && !r.host.started)
  {
  }

  /** Reading the key after setting it yields the candidate key (or the key
      already held when they were equal), whether or not the rotation
      completed, with status 0. */
  lemma SetOurIrkThenOurIrk(h: Host, ctrl: Controller, irk: Option<Irk>)
    ensures OurIrk(SetOurIrk(h, ctrl, irk).host) == IrkReply(0, CandidateIrk(irk))
  {
  }

  /** An add that succeeded leaves the peer in device mode; an application
      that wants network mode switches it afterwards. The whole exchange is
      the bracketed add script followed by one unbracketed set-privacy-mode
      command with network mode for the same identity address. An add that
      reports 0 had a valid address type, so no precondition is needed. */
  lemma SwitchPeerToNetworkMode(h: Host, ctrl: Controller, addr: Addr, addrType: U8, peerIrk: Irk)
    ensures var r1 := AddEntry(h, ctrl, addr, addrType, peerIrk);
            var r2 := SetMode(r1.host, ctrl, BleAddr(addrType, addr), PrivateModeNetwork);
            r1.rc == 0 ==>
              && addrType <= AddrRandom
              && r2.host.trace == h.trace + [Preempt,
                                             Hci(AddToResolvingList(addrType, addr, peerIrk, h.irk), 0),
                                             Hci(SetPrivacyMode(addrType, addr, PrivateModeDevice), 0),
                                             PreemptDone,
                                             Hci(SetPrivacyMode(addrType, addr, PrivateModeNetwork), r2.rc)]
              && r2.rc == ctrl(r1.host.trace, SetPrivacyMode(addrType, addr, PrivateModeNetwork))
              && r2.host.irk == h.irk && r2.host.started == h.started
  {
  }

  /** Setting the key twice to the same value: the second call is a no-op,
      whatever became of the first. In particular a rotation that failed
      part-way is not redone by repeating it, because the key was stored
      before the first command. */
  lemma SetOurIrkIdempotent(h: Host, ctrl: Controller, irk: Option<Irk>)
    ensures var r1 := SetOurIrk(h, ctrl, irk);
            SetOurIrk(r1.host, ctrl, irk) == Ret(0, r1.host)
  {
  }

  /** With the default key already installed, asking for the default sends
      nothing and changes nothing. */
  lemma DefaultIrkAgainIsNoOp(h: Host, ctrl: Controller)
    requires h.irk == DefaultIrk
    ensures SetOurIrk(h, ctrl, None) == Ret(0, h)
  {
  }

  /** A run of commands that all succeeded, followed by a run of another
      script, is a run of the two scripts joined. */
  lemma {:induction false} FollowsScriptJoin(pre: seq<Event>, first: seq<Command>,
                                            rest: seq<Event>, second: seq<Command>)
    requires |pre| == |first|
    requires forall i :: 0 <= i < |pre| ==> pre[i] == Hci(first[i], 0)
    requires FollowsScript(rest, second) && 0 < |second|
    ensures FollowsScript(pre + rest, first + second)
    ensures FirstFailure(pre + rest) == FirstFailure(rest)
    ensures Sent(pre + rest) == pre + rest
  {
    var s := pre + rest;
    var script := first + second;
    FollowsScriptResult(rest, second);
    forall i | 0 <= i < |s|
      ensures s[i].Hci? && s[i].cmd == script[i]
    {
      if i < |pre| {
        assert s[i] == pre[i] && script[i] == first[i];
      } else {
        assert s[i] == rest[i - |pre|] && script[i] == second[i - |pre|];
      }
    }
    forall i | 0 <= i < |s| - 1
      ensures s[i].rc == 0
    {
      if i < |pre| {
        assert s[i] == pre[i];
      } else {
        assert s[i] == rest[i - |pre|];
      }
    }
    assert s[|s| - 1] == rest[|rest| - 1];
    AllSucceeded(pre);
    FirstFailureAppend(pre, rest);
    AllHciSent(s);
  }

  /** The trace segment of a rotation to key `k` that reported `rc`: the
      commands sent are a run of the rotation script that stops at the first
      failure and reports it, and only the self-entry's commands sit inside a
      preemption bracket. */
  predicate RotationShape(seg: seq<Event>, rc: int, k: Irk)
  {
    var sent := Sent(seg);
    && FollowsScript(sent, RotationScript(k))
    && rc == FirstFailure(sent)
    && (|sent| <= 3 ==> seg == sent)
    && (|sent| > 3 ==> seg == sent[..3] + [Preempt] + sent[3..] + [PreemptDone])
  }

  /** A rotation that stopped within its first three commands. */
  lemma RotationShapeEarly(pre: seq<Event>, last: Event, k: Irk)
    requires |pre| < 3
    requires forall i :: 0 <= i < |pre| ==> pre[i] == Hci(RotationScript(k)[i], 0)
    requires last.Hci? && last.cmd == RotationScript(k)[|pre|] && last.rc != 0
    ensures RotationShape(pre + [last], last.rc, k)
  {
    var script := RotationScript(k);
    var n := |pre|;
    assert FollowsScript([last], script[n..]);
    FollowsScriptJoin(pre, script[..n], [last], script[n..]);
    assert script[..n] + script[n..] == script;
    assert [last][0] == last;
  }

  /** A rotation that reached the self-entry. */
  lemma RotationShapeFull(pre: seq<Event>, inner: seq<Event>, k: Irk)
    requires |pre| == 3
    requires forall i :: 0 <= i < 3 ==> pre[i] == Hci(RotationScript(k)[i], 0)
    requires FollowsScript(inner, AddScript(AddrPublic, ZeroAddr, ZeroIrk, k))
    ensures RotationShape(pre + [Preempt] + inner + [PreemptDone], FirstFailure(inner), k)
  {
    var script := RotationScript(k);
    var seg := pre + [Preempt] + inner + [PreemptDone];
    assert script[3..] == AddScript(AddrPublic, ZeroAddr, ZeroIrk, k);
    FollowsScriptJoin(pre, script[..3], inner, script[3..]);
    assert script[..3] + script[3..] == script;
    FollowsScriptResult(inner, script[3..]);
    AllHciSent(inner);
    AllHciSent(pre);
    SentAppend(pre + [Preempt], inner + [PreemptDone]);
    SentAppend(pre, [Preempt]);
    SentAppend(inner, [PreemptDone]);
    assert seg == (pre + [Preempt]) + (inner + [PreemptDone]);
    assert Sent(seg) == pre + inner;
    assert (pre + inner)[..3] == pre;
    assert (pre + inner)[3..] == inner;
  }

  /** Key rotation: when the candidate key differs from the current one, the
      key is stored, `started` is untouched, and the trace has the rotation
      shape: script order, abort on the first failure reported as the
      result, preemption around the self-entry only. */
  lemma {:induction false} RotationProtocol(h: Host, ctrl: Controller, irk: Option<Irk>)
    requires CandidateIrk(irk) != h.irk
    ensures var r := SetOurIrk(h, ctrl, irk);
            && r.host.irk == CandidateIrk(irk)
            && r.host.started == h.started
            && RotationShape(r.host.trace[|h.trace|..], r.rc, CandidateIrk(irk))
  {
    var k := CandidateIrk(irk);
    var r := SetOurIrk(h, ctrl, irk);
    var d := SetResolveEnabled(h.(irk := k), ctrl, false);
    var e1 := Hci(SetAddrResolution(false), d.rc);
    assert d.host.trace == h.trace + [e1];
    if d.rc != 0 {
      assert r == d;
      assert r.host.trace[|h.trace|..] == [] + [e1];
      RotationShapeEarly([], e1, k);
    } else {
      var c := ClearEntries(d.host, ctrl);
      var e2 := Hci(ClearResolvingList, c.rc);
      assert c.host.trace == h.trace + [e1, e2];
      if c.rc != 0 {
        assert r == c;
        assert r.host.trace[|h.trace|..] == [e1] + [e2];
        RotationShapeEarly([e1], e2, k);
      } else {
        RotationTail(h, ctrl, k, c.host, e1, e2);
      }
    }
  }

  /** The rotation once resolution is off and the list is cleared. */
  lemma RotationTail(h: Host, ctrl: Controller, k: Irk, c: Host, e1: Event, e2: Event)
    requires e1 == Hci(SetAddrResolution(false), 0) && e2 == Hci(ClearResolvingList, 0)
    requires c == Host(h.started, k, h.trace + [e1, e2])
    ensures var e := SetResolveEnabled(c, ctrl, true);
            var r := if e.rc != 0 then e
                     else var a := AddEntry(e.host, ctrl, ZeroAddr, AddrPublic, ZeroIrk);
                          if a.rc != 0 then a else Ret(0, a.host);
            && r.host.irk == k && r.host.started == h.started
            && RotationShape(r.host.trace[|h.trace|..], r.rc, k)
  {
    var e := SetResolveEnabled(c, ctrl, true);
    var e3 := Hci(SetAddrResolution(true), e.rc);
    assert e.host.trace == h.trace + [e1, e2, e3];
    if e.rc != 0 {
      assert e.host.trace[|h.trace|..] == [e1, e2] + [e3];
      RotationShapeEarly([e1, e2], e3, k);
    } else {
      RotationSelfEntry(h.trace, ctrl, k, e.host, [e1, e2, e3]);
    }
  }

  /** The rotation's last step: the self-entry, added through the normal add path. */
  lemma RotationSelfEntry(t0: seq<Event>, ctrl: Controller, k: Irk, e: Host, pre: seq<Event>)
    requires |pre| == 3
    requires forall i :: 0 <= i < 3 ==> pre[i] == Hci(RotationScript(k)[i], 0)
    requires e.irk == k && e.trace == t0 + pre
    ensures var a := AddEntry(e, ctrl, ZeroAddr, AddrPublic, ZeroIrk);
            var r := if a.rc != 0 then a else Ret(0, a.host);
            && r.host.irk == k && r.host.started == e.started
            && RotationShape(r.host.trace[|t0|..], r.rc, k)
  {
    var a := AddEntry(e, ctrl, ZeroAddr, AddrPublic, ZeroIrk);
    var inner := a.host.trace[|e.trace| + 1 .. |a.host.trace| - 1];
    assert a.host.trace == t0 + pre + [Preempt] + inner + [PreemptDone];
    assert a.host.trace[|t0|..] == pre + [Preempt] + inner + [PreemptDone];
    RotationShapeFull(pre, inner, k);
  }

  /** The scenario of adding a random-address peer with IRK 0x11 repeated,
      against a controller that accepts everything: the entry, then device
      privacy mode, inside one preemption bracket, and success. */
  lemma AddPeerScenario(h: Host)
    ensures var addr: Addr := [0xAA, 0xBB, 0xCC, 0xDD, 0xEE, 0xFF];
            var irk: Irk := seq(16, _ => 0x11);
            var r := AddEntry(h, (t, c) => 0, addr, AddrRandom, irk);
            && r.rc == 0
            && r.host.trace == h.trace + [Preempt,
                                          Hci(AddToResolvingList(AddrRandom, addr, irk, h.irk), 0),
                                          Hci(SetPrivacyMode(AddrRandom, addr, PrivateModeDevice), 0),
                                          PreemptDone]
  {
  }
}
