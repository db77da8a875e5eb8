/**
 Reference notions over traces, independent of how the module produces them:
 which commands a segment sent, what running a command script with
 abort-on-first-failure looks like, the status such a run reports, and the
 gate that a resolving-list mutation must pass (GAP preempted, or address
 resolution acknowledged off).
 */
module Trace {
  import opened PvcyTypes

  /** `t1` extends `t0`, and every command added after `t0` carries the reply
      the controller gives to it after everything before it. */
  predicate Recorded(ctrl: Controller, t0: seq<Event>, t1: seq<Event>)
  {
    && |t0| <= |t1|
    && t1[..|t0|] == t0
    && forall i :: |t0| <= i < |t1| && t1[i].Hci? ==> t1[i].rc == ctrl(t1[..i], t1[i].cmd)
  }

  lemma RecordedTrans(ctrl: Controller, t0: seq<Event>, t1: seq<Event>, t2: seq<Event>)
    requires Recorded(ctrl, t0, t1) && Recorded(ctrl, t1, t2)
    ensures Recorded(ctrl, t0, t2)
  {
    assert t2[..|t0|] == t1[..|t1|][..|t0|];
    forall i | |t0| <= i < |t2| && t2[i].Hci?
      ensures t2[i].rc == ctrl(t2[..i], t2[i].cmd)
    {
      if i < |t1| {
        assert t2[i] == t1[i];
        assert t2[..i] == t1[..i];
      }
    }
  }

  /** The HCI exchanges of a segment, in order, GAP markers dropped. */
  function Sent(seg: seq<Event>): (r: seq<Event>)
    ensures |r| <= |seg|
    ensures forall i :: 0 <= i < |r| ==> r[i].Hci?
  {
    if seg == [] then []
    else (if seg[0].Hci? then [seg[0]] else []) + Sent(seg[1..])
  }

  lemma {:induction false} SentAppend(a: seq<Event>, b: seq<Event>)
    ensures Sent(a + b) == Sent(a) + Sent(b)
  {
    if a == [] {
      assert a + b == b;
    } else {
      assert (a + b)[0] == a[0];
      assert (a + b)[1..] == a[1..] + b;
      SentAppend(a[1..], b);
    }
  }

  /** The status of the first command that failed, or 0 when none did. */
  function FirstFailure(seg: seq<Event>): int
  {
    if seg == [] then 0
    else if seg[0].Hci? && seg[0].rc != 0 then seg[0].rc
    else FirstFailure(seg[1..])
  }

  lemma {:induction false} FirstFailureAppend(a: seq<Event>, b: seq<Event>)
    ensures FirstFailure(a + b) == if FirstFailure(a) != 0 then FirstFailure(a) else FirstFailure(b)
  {
    if a == [] {
      assert a + b == b;
    } else {
      assert (a + b)[0] == a[0];
      assert (a + b)[1..] == a[1..] + b;
      FirstFailureAppend(a[1..], b);
    }
  }

  /** `sent` is what running `script` command by command, stopping at the
      first nonzero status, sends: a prefix of the script, every command but
      the last answered 0, and the run stops short only after a failure. */
  predicate FollowsScript(sent: seq<Event>, script: seq<Command>)
  {
    && |sent| <= |script|
    && (forall i :: 0 <= i < |sent| ==> sent[i].Hci? && sent[i].cmd == script[i])
    && (forall i :: 0 <= i < |sent| - 1 ==> sent[i].rc == 0)
    && (|sent| < |script| ==> 0 < |sent| && sent[|sent| - 1].rc != 0)
  }

  /** A run that follows its script reports the status of its last command,
      and reports success only when the whole script went through. */
  lemma {:induction false} FollowsScriptResult(sent: seq<Event>, script: seq<Command>)
    requires FollowsScript(sent, script) && 0 < |script|
    ensures 0 < |sent|
    ensures FirstFailure(sent) == sent[|sent| - 1].rc
    ensures FirstFailure(sent) == 0 ==> |sent| == |script|
    ensures Sent(sent) == sent
  {
    var n := |sent| - 1;
    assert sent == sent[..n] + [sent[n]];
    AllSucceeded(sent[..n]);
    FirstFailureAppend(sent[..n], [sent[n]]);
    assert [sent[n]][1..] == [];
    AllHciSent(sent);
  }

  lemma {:induction false} AllSucceeded(s: seq<Event>)
    requires forall i :: 0 <= i < |s| ==> s[i].Hci? && s[i].rc == 0
    ensures FirstFailure(s) == 0
  {
    if s != [] {
      AllSucceeded(s[1..]);
    }
  }

  lemma {:induction false} AllHciSent(s: seq<Event>)
    requires forall i :: 0 <= i < |s| ==> s[i].Hci?
    ensures Sent(s) == s
  {
    if s != [] {
      AllHciSent(s[1..]);
      assert s == [s[0]] + s[1..];
    }
  }

  /** Resolving-list mutations: LE Add Device To, Remove Device From and
      Clear Resolving List (sections 7.8.38 to 7.8.40 of the HCI functional
      specification in the Bluetooth Core Specification). */
  predicate MutatesResolvingList(c: Command)
  {
    c.AddToResolvingList? || c.RemoveFromResolvingList? || c.ClearResolvingList?
  }

  /** What the trace tells about the link layer: whether GAP procedures are
      preempted, and whether address resolution is known to be disabled. */
  datatype Gate = Gate(preempted: bool, resolutionOff: bool)

  /** Nothing preempted, nothing known about address resolution. */
  const Closed: Gate := Gate(false, false)

  function Next(g: Gate, e: Event): Gate
  {
    match e
    case Preempt => g.(preempted := true)
    case PreemptDone => g.(preempted := false)
    case Hci(c, rc) =>
      if c.SetAddrResolution? then g.(resolutionOff := rc == 0 && !c.enable) else g
  }

  /** A preemption is never nested, a release always matches one, and a
      resolving-list mutation is only sent while no GAP procedure can run or
      while the controller has acknowledged that address resolution is off. */
  predicate Allowed(g: Gate, e: Event)
  {
    match e
    case Preempt => !g.preempted
    case PreemptDone => g.preempted
    case Hci(c, _) => MutatesResolvingList(c) ==> g.preempted || g.resolutionOff
  }

  function After(g: Gate, seg: seq<Event>): Gate
    decreases |seg|
  {
    if seg == [] then g else After(Next(g, seg[0]), seg[1..])
  }

  predicate SafeFrom(g: Gate, seg: seq<Event>)
    decreases |seg|
  {
    seg == [] || (Allowed(g, seg[0]) && SafeFrom(Next(g, seg[0]), seg[1..]))
  }

  /** Every step allowed starting from nothing preempted, and the preemption
      released again at the end. */
  predicate Safe(seg: seq<Event>)
  {
    SafeFrom(Closed, seg) && !After(Closed, seg).preempted
  }

  lemma {:induction false} SafeAppend(g: Gate, a: seq<Event>, b: seq<Event>)
    ensures After(g, a + b) == After(After(g, a), b)
    ensures SafeFrom(g, a + b) <==> SafeFrom(g, a) && SafeFrom(After(g, a), b)
    decreases |a|
  {
    if a == [] {
      assert a + b == b;
    } else {
      assert (a + b)[0] == a[0];
      assert (a + b)[1..] == a[1..] + b;
      SafeAppend(Next(g, a[0]), a[1..], b);
    }
  }

  /** Knowing more (address resolution off) never makes a segment unsafe. */
  lemma {:induction false} SafeWeaken(g: Gate, g': Gate, seg: seq<Event>)
    requires SafeFrom(g, seg)
    requires g'.preempted == g.preempted && (g.resolutionOff ==> g'.resolutionOff)
    ensures SafeFrom(g', seg)
    ensures After(g', seg).preempted == After(g, seg).preempted
    decreases |seg|
  {
    if seg != [] {
      SafeWeaken(Next(g, seg[0]), Next(g', seg[0]), seg[1..]);
    }
  }

  /** Safe segments compose. */
  lemma SafeConcat(a: seq<Event>, b: seq<Event>)
    requires Safe(a) && Safe(b)
    ensures Safe(a + b)
  {
    SafeAppend(Closed, a, b);
    SafeWeaken(Closed, After(Closed, a), b);
  }

  /** Commands bracketed by one preemption are always safe. */
  lemma SafeBracket(sent: seq<Event>)
    requires forall i :: 0 <= i < |sent| ==> sent[i].Hci?
    ensures Safe([Preempt] + sent + [PreemptDone])
  {
    var g := Next(Closed, Preempt);
    InsideBracket(g, sent);
    SafeAppend(Closed, [Preempt], sent + [PreemptDone]);
    SafeAppend(g, sent, [PreemptDone]);
    assert [Preempt] + sent + [PreemptDone] == [Preempt] + (sent + [PreemptDone]);
  }

  lemma {:induction false} InsideBracket(g: Gate, sent: seq<Event>)
    requires g.preempted
    requires forall i :: 0 <= i < |sent| ==> sent[i].Hci?
    ensures SafeFrom(g, sent) && After(g, sent).preempted
    decreases |sent|
  {
    if sent != [] {
      InsideBracket(Next(g, sent[0]), sent[1..]);
    }
  }

  /** Commands that mutate nothing and leave no preemption are always safe. */
  lemma PlainCommandsSafe(sent: seq<Event>)
    requires forall i :: 0 <= i < |sent| ==> sent[i].Hci? && !MutatesResolvingList(sent[i].cmd)
    ensures Safe(sent)
  {
    PlainFrom(Closed, sent);
  }

  lemma {:induction false} PlainFrom(g: Gate, sent: seq<Event>)
    requires !g.preempted
    requires forall i :: 0 <= i < |sent| ==> sent[i].Hci? && !MutatesResolvingList(sent[i].cmd)
    ensures SafeFrom(g, sent) && !After(g, sent).preempted
    decreases |sent|
  {
    if sent != [] {
      PlainFrom(Next(g, sent[0]), sent[1..]);
    }
  }
}
