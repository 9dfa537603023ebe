/** What can be relied on when copies are split: the accepted commands tell
    where the block is right, and every reset still ends in the boot state. */
module SplitHistories {
  import Sequences
  import opened Wrappers
  import opened Api
  import opened SpillDevice
  import opened TwoThreads
  import opened ThreadTheorems
  import opened SplitCopies
  import opened Controllers
  import opened CommandHistories

  /** The last command is a FAULT, and there is no thread. */
  predicate Faulted(cs: seq<Command>) {
    cs != [] && cs[|cs| - 1] == CommandFault && !Live(cs)
  }

  /** The live START came directly after a FAULT, and only FAULTs since: the
      thread finds the device in FAULT and ends without a transition. */
  predicate Tame(cs: seq<Command>) {
    cs != [] &&
    var front, last := cs[..|cs| - 1], cs[|cs| - 1];
    (last == CommandStart && Faulted(front)) || (last == CommandFault && Tame(front))
  }

  /** What these commands say of the device and its thread. */
  predicate Subdued(s: System, cs: seq<Command>) {
    && (Faulted(cs) && (s.ctl.Busy? ==> s.ctl.pos > 0) ==> s.dev.state == Fault)
    && (Tame(cs) ==> s.dev.state == Fault && (s.ssm == Absent || s.ssm == Check || s.ssm == Finished))
  }

  /** No thread makes transitions or publishes. */
  predicate Calm(s: System, cs: seq<Command>) {
    s.ssm == Absent || Tame(cs)
  }

  /** stop() has ended the thread and has not yet copied f. */
  predicate Stopping(ctl: Ctl, f: Field) {
    ctl.Busy? && (ctl.op == ResetOp || ctl.op == StopOp) && 3 <= ctl.pos <= 4 + Rank(f)
  }

  predicate Fine(s: System, f: Field) {
    Agrees(s, f) || CtlOwes(s.ctl, f) || Stopping(s.ctl, f)
  }

  predicate ReadsSound(m: Machine) {
    Sound(m) && (m.ctlRead.Some? ==> AtCopy(m.sys.ctl))
  }

  predicate ReadIsFresh(m: Machine) {
    m.ctlRead.Some? ==> m.ctlRead.value == Snapshot(m.sys.dev, m.sys.handle)
  }

  /** While no thread interferes, a field that differs is still to be copied,
      and what the controller has read is current. */
  predicate Undisturbed(m: Machine, cs: seq<Command>) {
    && Follows(m.sys, cs) && ReadsSound(m) && Subdued(m.sys, cs)
    && (Calm(m.sys, cs) ==> ReadIsFresh(m) && forall f: Field :: Fine(m.sys, f))
  }

  // ------------------------------------------------------ steps of a system

  lemma SameFollows(s: System, t: System, cs: seq<Command>)
    requires SameButBlock(s, t)
    ensures Follows(s, cs) == Follows(t, cs) && Subdued(s, cs) == Subdued(t, cs) && Calm(s, cs) == Calm(t, cs)
  {
  }

  lemma TameIsLive(cs: seq<Command>)
    ensures Tame(cs) ==> Live(cs) && (cs[|cs| - 1] == CommandStart || cs[|cs| - 1] == CommandFault)
  {
    if Tame(cs) {
      LastDecides(cs);
      if cs[|cs| - 1] == CommandFault {
        TameIsLive(cs[..|cs| - 1]);
      }
    }
  }

  lemma FaultedHasNoThread(s: System, cs: seq<Command>)
    requires Follows(s, cs) && Faulted(cs)
    ensures s.ssm == Absent && !s.handle && (s.ctl == Waiting || (s.ctl.Busy? && s.ctl.op == FaultOp))
  {
    assert OpOf(cs[|cs| - 1]) == FaultOp;
    assert !SecondStart(cs) && !Over(cs);
  }

  lemma TameIsBusyWith(s: System, cs: seq<Command>)
    requires Follows(s, cs) && Tame(cs)
    ensures s.ctl == Waiting || (s.ctl.Busy? && (s.ctl.op == RunOp || s.ctl.op == FaultOp))
  {
    TameIsLive(cs);
    var last := cs[|cs| - 1];
    assert last == CommandStart ==> !Live(cs[..|cs| - 1]);
    assert !SecondStart(cs) && !Over(cs);
  }

  lemma CtlKeepsSubdued(s: System, cs: seq<Command>)
    requires Follows(s, cs) && Subdued(s, cs) && Enabled(s, CtlEvent)
    ensures Subdued(CtlStep(s), cs)
  {
    var Busy(op, pos) := s.ctl;
    var act := Script(op)[pos];
    ThreadActs(op, pos);
    SequenceActs(op, pos);
    ThreadEffect(s, act);
    SequenceEffect(s, act);
    if Faulted(cs) {
      FaultedHasNoThread(s, cs);
      assert op == FaultOp && (pos == 0 ==> act == WriteState(Fault));
    }
    if Tame(cs) {
      TameIsBusyWith(s, cs);
    }
  }

  /** The copies at the end of stop(). */
  lemma StopCopies(op: Op, pos: nat)
    requires (op == ResetOp || op == StopOp) && 3 <= pos < 9
    ensures |Script(op)| >= 9 && Script(op)[pos] == if pos == 3 then WriteLed(false) else PUBLISH[pos - 4]
    ensures op == StopOp ==> |Script(op)| == 9
    ensures op == ResetOp ==> |Script(op)| == 20
  {
  }

  lemma StoppingStep(s: System, f: Field)
    requires Enabled(s, CtlEvent) && Stopping(s.ctl, f)
    ensures Fine(CtlStep(s), f)
  {
    var Busy(op, pos) := s.ctl;
    StopCopies(op, pos);
    var act := Script(op)[pos];
    if pos == 4 + Rank(f) {
      assert act == Copy(f);
      ActKeepsField(s.(ssm := Absent), act, true, f);
      MoveKeepsDirt(op, pos, f);
    }
  }

  lemma CtlKeepsFine(s: System, f: Field)
    requires ThreadInv(s) && Enabled(s, CtlEvent) && Fine(s, f)
    requires s.ssm == Absent || s.ssm == Check || s.ssm == Finished
    ensures Fine(CtlStep(s), f)
  {
    var Busy(op, pos) := s.ctl;
    var act := Script(op)[pos];
    if Stopping(s.ctl, f) {
      StoppingStep(s, f);
    } else {
      CtlKeepsField(s, f);
      ThreadActs(op, pos);
      ThreadEffect(s, act);
    }
  }

  /** Dropping the handle ends the interference; all fields are to be copied. */
  lemma DropIsFine(s: System, f: Field)
    requires Enabled(s, CtlEvent) && Script(s.ctl.op)[s.ctl.pos] == DropHandle
    ensures Fine(CtlStep(s), f)
  {
    var Busy(op, pos) := s.ctl;
    ThreadActs(op, pos);
    StopCopies(op, 3);
  }

  lemma CtlStepIsFine(s: System, cs: seq<Command>)
    requires Follows(s, cs) && Subdued(s, cs) && Enabled(s, CtlEvent)
    requires Calm(s, cs) ==> forall f: Field :: Fine(s, f)
    ensures Calm(CtlStep(s), cs) ==> forall f: Field :: Fine(CtlStep(s), f)
  {
    var act := Script(s.ctl.op)[s.ctl.pos];
    ThreadEffect(s, act);
    if Calm(CtlStep(s), cs) {
      forall f: Field ensures Fine(CtlStep(s), f) {
        if act == DropHandle {
          DropIsFine(s, f);
        } else {
          assert Calm(s, cs) && Fine(s, f);
          CtlKeepsFine(s, f);
        }
      }
    }
  }

  // ----------------------------------------------------- steps of a machine

  /** A controller step is a read, or does what the whole step does: also to the
      block, if what it read is current. */
  lemma CtlOfMachine(m: Machine)
    requires Enabled(m.sys, CtlEvent) && ReadsSound(m)
    ensures var t := Stepped(true, m, CtlEvent);
            && t.ssmRead == m.ssmRead
            && if AtCopy(m.sys.ctl) && m.ctlRead.None?
               then t == m.(ctlRead := Some(Snapshot(m.sys.dev, m.sys.handle)))
               else && t.ctlRead == None && SameButBlock(t.sys, CtlStep(m.sys))
                    && (ReadIsFresh(m) ==> t.sys == CtlStep(m.sys))
  {
  }

  lemma CtlKeepsUndisturbed(m: Machine, cs: seq<Command>)
    requires Undisturbed(m, cs) && Enabled(m.sys, CtlEvent)
    ensures Undisturbed(Stepped(true, m, CtlEvent), cs)
  {
    var t, u := Stepped(true, m, CtlEvent), CtlStep(m.sys);
    CtlOfMachine(m);
    if t.sys != m.sys || t.ctlRead.None? {
      CtlFollows(m.sys, cs);
      CtlKeepsSubdued(m.sys, cs);
      CtlStepIsFine(m.sys, cs);
      SameFollows(t.sys, u, cs);
      CtlKeepsSound(m);
      if Calm(u, cs) {
        ReadWasFresh(m, cs);
      }
    }
  }

  lemma CtlKeepsSound(m: Machine)
    requires Enabled(m.sys, CtlEvent) && ReadsSound(m) && ThreadInv(m.sys)
    ensures Sound(Stepped(true, m, CtlEvent))
  {
    var act := Script(m.sys.ctl.op)[m.sys.ctl.pos];
    CtlOfMachine(m);
    ThreadActs(m.sys.ctl.op, m.sys.ctl.pos);
    ThreadEffect(m.sys, act);
  }

  /** Only an act that is no copy ends the thread. */
  lemma ReadWasFresh(m: Machine, cs: seq<Command>)
    requires Undisturbed(m, cs) && Enabled(m.sys, CtlEvent) && Calm(CtlStep(m.sys), cs)
    ensures ReadIsFresh(m)
  {
    ThreadEffect(m.sys, Script(m.sys.ctl.op)[m.sys.ctl.pos]);
  }

  lemma SsmKeepsUndisturbed(m: Machine, cs: seq<Command>)
    requires Undisturbed(m, cs) && Enabled(m.sys, SsmEvent)
    ensures Undisturbed(Stepped(true, m, SsmEvent), cs)
  {
    var t := Stepped(true, m, SsmEvent);
    StepIsAStep(m, m.sys, SsmEvent);
    SsmKeepsThreadInv(m.sys);
    if Faulted(cs) {
      FaultedHasNoThread(m.sys, cs);
    }
    SsmOfMachine(m);
    SsmFollows(m.sys, t.sys, cs);
    if Calm(t.sys, cs) {
      assert m.sys.ssm == Check && m.sys.dev.state == Fault;
      forall f: Field ensures Fine(t.sys, f) {
        assert Fine(m.sys, f);
      }
    }
  }

  lemma SsmOfMachine(m: Machine)
    requires Enabled(m.sys, SsmEvent) && ReadsSound(m)
    ensures var t := Stepped(true, m, SsmEvent);
            && ReadsSound(t) && t.ctlRead == m.ctlRead && t.sys.ctl == m.sys.ctl && t.sys.handle == m.sys.handle
            && t.sys.ssm != Absent
            && (m.sys.ssm == Check ==> t.sys == m.sys.(ssm := if m.sys.dev.state == Fault then Finished else Wait))
  {
  }

  lemma SsmFollows(s: System, t: System, cs: seq<Command>)
    requires Follows(s, cs) && t.ctl == s.ctl && t.handle == s.handle && s.ssm != Absent && t.ssm != Absent
    requires s.ssm != Finished
    ensures Follows(t, cs)
  {
  }

  lemma AcceptKeepsUndisturbed(m: Machine, cs: seq<Command>, c: Command)
    requires Undisturbed(m, cs) && Enabled(m.sys, AcceptEvent(c))
    ensures Undisturbed(Stepped(true, m, AcceptEvent(c)), cs + [c])
  {
    var t, next := Stepped(true, m, AcceptEvent(c)), cs + [c];
    assert next[..|next| - 1] == cs;
    AcceptFollows(m.sys, cs, c);
    LiveAfter(cs, c);
    if Faulted(cs) {
      FaultedHasNoThread(m.sys, cs);
    }
    if Calm(t.sys, next) {
      assert Calm(m.sys, cs);
      forall f: Field ensures Fine(t.sys, f) {
        assert Fine(m.sys, f);
      }
    }
  }

  lemma {:induction false} RunIsUndisturbed(m: Machine, cs: seq<Command>, es: seq<Event>)
    requires Undisturbed(m, cs) && Possible(true, m, es)
    ensures Undisturbed(Last(true, m, es), cs + Accepted(es))
    decreases |es|
  {
    if es == [] {
      assert cs + [] == cs;
    } else {
      var t := Stepped(true, m, es[0]);
      match es[0] {
        case CtlEvent =>
          CtlKeepsUndisturbed(m, cs);
          RunIsUndisturbed(t, cs, es[1..]);
        case SsmEvent =>
          SsmKeepsUndisturbed(m, cs);
          RunIsUndisturbed(t, cs, es[1..]);
        case AcceptEvent(c) =>
          AcceptKeepsUndisturbed(m, cs, c);
          RunIsUndisturbed(t, cs + [c], es[1..]);
          Sequences.Associative(cs, [c], Accepted(es[1..]));
      }
    }
  }

  lemma EveryRunIsUndisturbed(sequence: seq<SpillState>, es: seq<Event>)
    requires Possible(true, Settled(Boot(sequence)), es)
    ensures Undisturbed(Last(true, Settled(Boot(sequence)), es), Accepted(es))
  {
    BootInv(sequence);
    RunIsUndisturbed(Settled(Boot(sequence)), [], es);
    assert [] + Accepted(es) == Accepted(es);
  }

  // ---------------------------------------------------------------- results

  /** In every run with split copies, a controller that waits and has accepted
      no START that is still live, or only one that found the device in FAULT and
      no initialize since, has left the block right. */
  lemma QuietBlockIsCurrent(sequence: seq<SpillState>, es: seq<Event>)
    requires Possible(true, Settled(Boot(sequence)), es)
    requires Last(true, Settled(Boot(sequence)), es).sys.ctl == Waiting
    ensures var m := Last(true, Settled(Boot(sequence)), es);
            && (m.sys.handle <==> Live(Accepted(es)))
            && m.ctlRead == None
            && (!Live(Accepted(es)) || Tame(Accepted(es)) ==> m.sys.block == Snapshot(m.sys.dev, m.sys.handle))
            && (!Live(Accepted(es)) ==> m == Settled(m.sys) && m.sys.ssm == Absent)
  {
    EveryRunIsUndisturbed(sequence, es);
    var m, cs := Last(true, Settled(Boot(sequence)), es), Accepted(es);
    if !Live(cs) || Tame(cs) {
      assert Calm(m.sys, cs);
      assert Fine(m.sys, StateField) && Fine(m.sys, SpillField) && Fine(m.sys, TimeField)
          && Fine(m.sys, RunningField) && Fine(m.sys, LedField);
    }
  }

  /** After any history with split copies a RESET is over within a bounded number
      of steps, is never stuck, and ends exactly in the boot state, block included. */
  lemma EverySplitResetCompletes(sequence: seq<SpillState>, history: seq<Event>, es: seq<Event>)
    requires Possible(true, Settled(Boot(sequence)), history)
    requires Last(true, Settled(Boot(sequence)), history).sys.ctl == Waiting
    requires Possible(true, Stepped(true, Last(true, Settled(Boot(sequence)), history), AcceptEvent(CommandReset)), es)
    requires OnlyThreads(es)
    ensures var m := Last(true, Settled(Boot(sequence)), history);
            var t := Last(true, Stepped(true, m, AcceptEvent(CommandReset)), es);
            && |es| <= 20 * |m.sys.dev.pending| + 80
            && (Enabled(t.sys, CtlEvent) || Enabled(t.sys, SsmEvent) || t == Settled(Boot(sequence)))
  {
    var boot, e := Settled(Boot(sequence)), AcceptEvent(CommandReset);
    var m := Last(true, boot, history);
    var r := Stepped(true, m, e);
    var t := Last(true, r, es);
    var before := SplitRunsAreRuns(boot, Boot(sequence), history);
    var whole := SplitRunsAreRuns(r, Step(Final(Boot(sequence), before), e), es);
    EveryResetCompletes(sequence, before, whole);
    if !Enabled(t.sys, CtlEvent) && !Enabled(t.sys, SsmEvent) {
      ResetIsPublished(sequence, history, es);
    }
  }

  lemma ResetIsPublished(sequence: seq<SpillState>, history: seq<Event>, es: seq<Event>)
    requires Possible(true, Settled(Boot(sequence)), history)
    requires Last(true, Settled(Boot(sequence)), history).sys.ctl == Waiting
    requires Possible(true, Stepped(true, Last(true, Settled(Boot(sequence)), history), AcceptEvent(CommandReset)), es)
    requires OnlyThreads(es)
    ensures var m := Last(true, Settled(Boot(sequence)), history);
            var t := Last(true, Stepped(true, m, AcceptEvent(CommandReset)), es);
            t.sys.ctl == Waiting ==> t == Settled(t.sys) && t.sys.block == Snapshot(t.sys.dev, t.sys.handle)
  {
    var boot, e := Settled(Boot(sequence)), AcceptEvent(CommandReset);
    var m := Last(true, boot, history);
    if Last(true, Stepped(true, m, e), es).sys.ctl == Waiting {
      Prepend(true, m, e, es);
      Onward(true, boot, history, [e] + es);
      ResetIsAccepted(history, e, es);
      EndsWithReset(Accepted(history));
      QuietBlockIsCurrent(sequence, history + ([e] + es));
    }
  }

  lemma EndsWithReset(cs: seq<Command>)
    ensures !Live(cs + [CommandReset])
  {
    LiveAfter(cs, CommandReset);
  }

  lemma ResetIsAccepted(history: seq<Event>, e: Event, es: seq<Event>)
    requires e.AcceptEvent? && OnlyThreads(es)
    ensures Accepted(history + ([e] + es)) == Accepted(history) + [e.command]
  {
    AcceptedConcat(history, [e] + es);
    Sequences.RestOfCons(e, es);
    NothingAccepted(es);
  }

  lemma {:induction false} NothingAccepted(es: seq<Event>)
    requires OnlyThreads(es)
    ensures Accepted(es) == []
  {
    if es != [] {
      NothingAccepted(es[1..]);
    }
  }

  lemma {:induction false} AcceptedConcat(a: seq<Event>, b: seq<Event>)
    ensures Accepted(a + b) == Accepted(a) + Accepted(b)
  {
    if a == [] {
      assert a + b == b;
      assert [] + Accepted(b) == Accepted(b);
    } else {
      AcceptedConcat(a[1..], b);
      Sequences.FirstOfConcat(a, b);
      Sequences.RestOfCons(a[0], a[1..] + b);
      if a[0].AcceptEvent? {
        Sequences.Associative([a[0].command], Accepted(a[1..]), Accepted(b));
      }
    }
  }
}
