/**
 Any sequence of calls into the privacy module, and what holds of the trace
 such a sequence leaves: the controller's answers are recorded faithfully,
 GAP preemption is never nested and always released, every resolving-list
 mutation is sent while GAP is preempted or address resolution is
 acknowledged off, and every resolving-list entry carries the local IRK the
 module holds when the call returns.
 */
module Session {
  import opened PvcyTypes
  import opened Trace
  import opened Pvcy
  import opened PvcyProperties

  /** The entry points the rest of the host stack calls. */
  datatype Call =
    | EnsureStartedCall
    | SetOurIrkCall(key: Option<Irk>)
    | OurIrkCall
    | AddEntryCall(addr: Addr, addrType: U8, peerIrk: Irk)
    | RemoveEntryCall(addrType: U8, peerAddr: Addr)
    | SetModeCall(peer: BleAddr, mode: U8)
    | ResetCall

  function Apply(h: Host, ctrl: Controller, rpaTimeout: int, call: Call): Ret
  {
    match call
    case EnsureStartedCall => EnsureStarted(h, ctrl, rpaTimeout)
    case SetOurIrkCall(k) => SetOurIrk(h, ctrl, k)
    case OurIrkCall => Ret(OurIrk(h).rc, h)
    case AddEntryCall(a, t, k) => AddEntry(h, ctrl, a, t, k)
    case RemoveEntryCall(t, a) => RemoveEntry(h, ctrl, t, a)
    case SetModeCall(p, m) => SetMode(h, ctrl, p, m)
    case ResetCall => Ret(0, Reset(h))
  }

  function Run(h: Host, ctrl: Controller, rpaTimeout: int, calls: seq<Call>): Host
    decreases |calls|
  {
    if calls == [] then h
    else Run(Apply(h, ctrl, rpaTimeout, calls[0]).host, ctrl, rpaTimeout, calls[1..])
  }

  /** Every resolving-list entry sent in `seg` carries `irk` as its local IRK. */
  predicate AddsCarry(seg: seq<Event>, irk: Irk)
  {
    forall i :: 0 <= i < |seg| && seg[i].Hci? && seg[i].cmd.AddToResolvingList? ==>
      seg[i].cmd.localIrk == irk
  }

  /** The first three rotation commands, stopped at the first failure, are
      safe: the list is cleared only after resolution was acknowledged off. */
  lemma RotationHeadSafe(p: seq<Event>, k: Irk)
    requires |p| <= 3
    requires forall i :: 0 <= i < |p| ==> p[i].Hci? && p[i].cmd == RotationScript(k)[i]
    requires forall i :: 0 <= i < |p| - 1 ==> p[i].rc == 0
    ensures Safe(p)
  {
    if |p| > 0 {
      var g1 := Next(Closed, p[0]);
      SafeAppend(Closed, [p[0]], p[1..]);
      assert p == [p[0]] + p[1..];
      if |p| > 1 {
        assert g1 == Gate(false, true);
        var g2 := Next(g1, p[1]);
        SafeAppend(g1, [p[1]], p[2..]);
        assert p[1..] == [p[1]] + p[2..];
        if |p| > 2 {
          assert p[2..] == [p[2]];
        }
      }
    }
  }

  lemma RotationSafe(seg: seq<Event>, rc: int, k: Irk)
    requires RotationShape(seg, rc, k)
    ensures Safe(seg)
    ensures AddsCarry(seg, k)
  {
    var sent := Sent(seg);
    var script := RotationScript(k);
    if |sent| <= 3 {
      RotationHeadSafe(sent, k);
    } else {
      var head := sent[..3];
      var inner := sent[3..];
      RotationHeadSafe(head, k);
      SafeBracket(inner);
      assert seg == head + ([Preempt] + inner + [PreemptDone]);
      SafeConcat(head, [Preempt] + inner + [PreemptDone]);
      forall i | 0 <= i < |seg| && seg[i].Hci? && seg[i].cmd.AddToResolvingList?
        ensures seg[i].cmd.localIrk == k
      {
        if 3 < i < |seg| - 1 {
          assert seg[i] == sent[i - 1] && script[i - 1] == seg[i].cmd;
        }
      }
    }
  }

  /** The contract every call meets: answers recorded, trace segment safe,
      every resolving-list entry carrying the key held afterwards. */
  predicate CallContract(ctrl: Controller, h: Host, r: Ret)
  {
    && Recorded(ctrl, h.trace, r.host.trace)
    && Safe(r.host.trace[|h.trace|..])
    && AddsCarry(r.host.trace[|h.trace|..], r.host.irk)
  }

  lemma EnsureStartedMeetsContract(h: Host, ctrl: Controller, rpaTimeout: int)
    ensures CallContract(ctrl, h, EnsureStarted(h, ctrl, rpaTimeout))
  {
    var r := EnsureStarted(h, ctrl, rpaTimeout);
    PlainCommandsSafe(r.host.trace[|h.trace|..]);
  }

  lemma SetOurIrkMeetsContract(h: Host, ctrl: Controller, k: Option<Irk>)
    ensures CallContract(ctrl, h, SetOurIrk(h, ctrl, k))
  {
    var r := SetOurIrk(h, ctrl, k);
    var seg := r.host.trace[|h.trace|..];
    if CandidateIrk(k) != h.irk {
      RotationProtocol(h, ctrl, k);
      RotationSafe(seg, r.rc, CandidateIrk(k));
    } else {
      assert seg == [];
    }
  }

  lemma AddEntryMeetsContract(h: Host, ctrl: Controller, a: Addr, t: U8, k: Irk)
    ensures CallContract(ctrl, h, AddEntry(h, ctrl, a, t, k))
  {
    var r := AddEntry(h, ctrl, a, t, k);
    var seg := r.host.trace[|h.trace|..];
    var inner := r.host.trace[|h.trace| + 1 .. |r.host.trace| - 1];
    assert seg == [Preempt] + inner + [PreemptDone];
    SafeBracket(inner);
    forall i | 0 <= i < |seg| && seg[i].Hci? && seg[i].cmd.AddToResolvingList?
      ensures seg[i].cmd.localIrk == r.host.irk
    {
      assert seg[i] == inner[i - 1];
    }
  }

  lemma RemoveEntryMeetsContract(h: Host, ctrl: Controller, t: U8, a: Addr)
    ensures CallContract(ctrl, h, RemoveEntry(h, ctrl, t, a))
  {
    var r := RemoveEntry(h, ctrl, t, a);
    var seg := r.host.trace[|h.trace|..];
    assert seg == [Preempt] + [seg[1]] + [PreemptDone];
    SafeBracket([seg[1]]);
  }

  lemma SetModeMeetsContract(h: Host, ctrl: Controller, p: BleAddr, m: U8)
    ensures CallContract(ctrl, h, SetMode(h, ctrl, p, m))
  {
    var r := SetMode(h, ctrl, p, m);
    PlainCommandsSafe(r.host.trace[|h.trace|..]);
  }

  /** One call of any kind meets the contract. */
  lemma ApplyContract(h: Host, ctrl: Controller, rpaTimeout: int, call: Call)
    ensures CallContract(ctrl, h, Apply(h, ctrl, rpaTimeout, call))
  {
    match call
    case EnsureStartedCall => EnsureStartedMeetsContract(h, ctrl, rpaTimeout);
    case SetOurIrkCall(k) => SetOurIrkMeetsContract(h, ctrl, k);
    case OurIrkCall => assert h.trace[|h.trace|..] == [];
    case AddEntryCall(a, t, k) => AddEntryMeetsContract(h, ctrl, a, t, k);
    case RemoveEntryCall(t, a) => RemoveEntryMeetsContract(h, ctrl, t, a);
    case SetModeCall(p, m) => SetModeMeetsContract(h, ctrl, p, m);
    case ResetCall => assert h.trace[|h.trace|..] == [];
  }

  /** Any sequence of calls: the whole trace it appends is recorded and safe. */
  lemma {:induction false} RunContract(h: Host, ctrl: Controller, rpaTimeout: int, calls: seq<Call>)
    ensures var h' := Run(h, ctrl, rpaTimeout, calls);
            && Recorded(ctrl, h.trace, h'.trace)
            && Safe(h'.trace[|h.trace|..])
    decreases |calls|
  {
    var h' := Run(h, ctrl, rpaTimeout, calls);
    if calls == [] {
      assert h'.trace[|h.trace|..] == [];
    } else {
      var h1 := Apply(h, ctrl, rpaTimeout, calls[0]).host;
      ApplyContract(h, ctrl, rpaTimeout, calls[0]);
      RunContract(h1, ctrl, rpaTimeout, calls[1..]);
      RecordedTrans(ctrl, h.trace, h1.trace, h'.trace);
      assert h'.trace[|h.trace|..] == h1.trace[|h.trace|..] + h'.trace[|h1.trace|..];
      SafeConcat(h1.trace[|h.trace|..], h'.trace[|h1.trace|..]);
    }
  }

  /** Only setting the key and resetting change the key: a run of other calls
      leaves it as it was. */
  lemma {:induction false} RunKeepsIrk(h: Host, ctrl: Controller, rpaTimeout: int, calls: seq<Call>)
    requires forall i :: 0 <= i < |calls| ==> !calls[i].SetOurIrkCall? && !calls[i].ResetCall?
    ensures Run(h, ctrl, rpaTimeout, calls).irk == h.irk
    decreases |calls|
  {
    if calls != [] {
      RunKeepsIrk(Apply(h, ctrl, rpaTimeout, calls[0]).host, ctrl, rpaTimeout, calls[1..]);
    }
  }

  /** Only a reset clears `started`: a run without one never loses it. */
  lemma {:induction false} RunKeepsStarted(h: Host, ctrl: Controller, rpaTimeout: int, calls: seq<Call>)
    requires h.started
    requires forall i :: 0 <= i < |calls| ==> !calls[i].ResetCall?
    ensures Run(h, ctrl, rpaTimeout, calls).started
    decreases |calls|
  {
    if calls != [] {
      RunKeepsStarted(Apply(h, ctrl, rpaTimeout, calls[0]).host, ctrl, rpaTimeout, calls[1..]);
    }
  }
}
