/** The other side: after all other commands some run with split copies leaves
    the block wrong for good.  The thread, or the controller, reads a field and
    writes it when everything else is over. */
module StaleBlocks {
  import Sequences
  import opened Wrappers
  import opened Api
  import opened SpillDevice
  import opened TwoThreads
  import opened ThreadTheorems
  import opened SpillStateMachines
  import opened SplitCopies
  import opened Controllers
  import opened CommandHistories
  import opened SplitHistories

  /** Whatever is loaded: where a run that accepted these commands waits for the
      next and neither thread owes a copy, the block is right. */
  ghost predicate RightAfter(cs: seq<Command>) {
    forall sequence: seq<SpillState>, es: seq<Event> ::
      Possible(true, Settled(Boot(sequence)), es) && Accepted(es) == cs ==>
        !Wrong(Last(true, Settled(Boot(sequence)), es))
  }

  /** At rest between two commands, with a block that is not the device. */
  predicate Wrong(m: Machine) {
    m.sys.ctl == Waiting && !Owing(m) && m.sys.block != Snapshot(m.sys.dev, m.sys.handle)
  }

  /** A sequence of commands that can be accepted and carried out. */
  predicate Open(cs: seq<Command>) {
    OpenBefore(cs) && !Closed(cs)
  }

  /** With split copies the accepted commands decide: the block can be trusted
      exactly if no START is live, or the live one came directly after a FAULT
      and only FAULTs since. */
  lemma RightAfterIff(cs: seq<Command>)
    requires Open(cs)
    ensures RightAfter(cs) <==> !Live(cs) || Tame(cs)
  {
    if !Live(cs) || Tame(cs) {
      forall sequence: seq<SpillState>, es: seq<Event> |
        Possible(true, Settled(Boot(sequence)), es) && Accepted(es) == cs
        ensures !Wrong(Last(true, Settled(Boot(sequence)), es))
      {
        if Last(true, Settled(Boot(sequence)), es).sys.ctl == Waiting {
          QuietBlockIsCurrent(sequence, es);
        }
      }
    } else {
      var es := GoesStale(cs);
      assert Wrong(Last(true, Settled(Boot(WITNESS)), es));
    }
  }

  /** Two different states, neither of them FAULT. */
  const WITNESS: seq<SpillState> := [BetweenCycles, StartCycle]

  // -------------------------------------------------- whole runs, doubled

  /** A run with whole copies is one with split copies, if each read is followed
      by its write; a thread that makes no steps may hold a read. */
  lemma {:induction false} DoubledRun(m: Machine, es: seq<Event>) returns (ds: seq<Event>)
    requires Valid(m.sys, es) && m.ctlRead == None && (m.ssmRead == None || OnlyControls(es))
    ensures Possible(true, m, ds) && Last(true, m, ds) == m.(sys := Final(m.sys, es))
    ensures Accepted(ds) == Accepted(es)
    decreases |es|
  {
    if es == [] {
      ds := [];
    } else {
      var t := m.(sys := Step(m.sys, es[0]));
      var rest := DoubledRun(t, es[1..]);
      var first := DoubledStep(m, es[0]);
      Onward(true, m, first, rest);
      AcceptedConcat(first, rest);
      AcceptedConcat([es[0]], es[1..]);
      assert es == [es[0]] + es[1..];
      ds := first + rest;
    }
  }

  lemma DoubledStep(m: Machine, e: Event) returns (ds: seq<Event>)
    requires Enabled(m.sys, e) && m.ctlRead == None && (m.ssmRead == None || e == CtlEvent)
    ensures Possible(true, m, ds) && Last(true, m, ds) == m.(sys := Step(m.sys, e))
    ensures Accepted(ds) == Accepted([e])
  {
    var t := Stepped(true, m, e);
    OneStep(true, m, e);
    if t.sys == m.sys && Reads(t) > Reads(m) {
      DoubledCopy(m, e);
      OneStep(true, t, e);
      Prepend(true, m, e, [e]);
      NothingAccepted([e]);
      NothingAccepted([e] + [e]);
      ds := [e] + [e];
    } else {
      ds := [e];
    }
  }

  lemma DoubledCopy(m: Machine, e: Event)
    requires Enabled(m.sys, e) && m.ctlRead == None && (m.ssmRead == None || e == CtlEvent)
    requires var t := Stepped(true, m, e); t.sys == m.sys && Reads(t) > Reads(m)
    ensures var t := Stepped(true, m, e);
            !e.AcceptEvent? && Enabled(t.sys, e) && Stepped(true, t, e) == m.(sys := Step(m.sys, e))
  {
  }

  // ------------------------------------------------------------- commands

  predicate Harmless(cs: seq<Command>) {
    forall i :: 0 <= i < |cs| ==> cs[i] == CommandFault || cs[i] == CommandSSMInit
  }

  lemma HandledAlone(s: System, c: Command)
    requires s.ctl == Waiting && (c == CommandFault || c == CommandSSMInit)
    ensures ReachesAlone(Step(s, AcceptEvent(c)), Handled(s, c))
  {
    if c == CommandFault {
      FaultAlone(s);
    } else {
      InitializeAlone(s);
    }
  }

  /** The controller carries out a command while the thread makes no step. */
  lemma CommandAlone(m: Machine, c: Command, t: System) returns (ds: seq<Event>)
    requires m.sys.ctl == Waiting && m.ctlRead == None && ReachesAlone(Step(m.sys, AcceptEvent(c)), t)
    ensures Possible(true, m, ds) && Last(true, m, ds) == m.(sys := t) && Accepted(ds) == [c]
  {
    var a, s := AcceptEvent(c), Step(m.sys, AcceptEvent(c));
    var es: seq<Event> :| Valid(s, es) && OnlyControls(es) && Final(s, es) == t;
    assert OnlyThreads(es);
    NothingAccepted(es);
    var rest := DoubledRun(m.(sys := s), es);
    assert Stepped(true, m, a) == m.(sys := s);
    Prepend(true, m, a, rest);
    ds := [a] + rest;
    Sequences.RestOfCons(a, rest);
  }

  lemma {:induction false} CommandsAlone(m: Machine, cs: seq<Command>) returns (ds: seq<Event>)
    requires m.sys.ctl == Waiting && m.ctlRead == None && Harmless(cs)
    ensures Possible(true, m, ds) && Last(true, m, ds) == m.(sys := Fold(m.sys, cs)) && Accepted(ds) == cs
    decreases |cs|
  {
    if cs == [] {
      ds := [];
    } else {
      HandledAlone(m.sys, cs[0]);
      var first := CommandAlone(m, cs[0], Handled(m.sys, cs[0]));
      var rest := CommandsAlone(m.(sys := Handled(m.sys, cs[0])), cs[1..]);
      Onward(true, m, first, rest);
      AcceptedConcat(first, rest);
      assert cs == [cs[0]] + cs[1..];
      ds := first + rest;
    }
  }

  lemma {:induction false} FoldLast(s: System, cs: seq<Command>)
    requires cs != []
    ensures Fold(s, cs) == Handled(Fold(s, cs[..|cs| - 1]), cs[|cs| - 1])
    decreases |cs|
  {
    if |cs| > 1 {
      FoldLast(Handled(s, cs[0]), cs[1..]);
      assert cs[1..][..|cs| - 2] == cs[..|cs| - 1][1..];
    }
  }

  lemma {:induction false} FoldKeeps(s: System, cs: seq<Command>)
    requires Harmless(cs)
    ensures var t := Fold(s, cs);
            t.ctl == s.ctl && t.ssm == s.ssm && t.handle == s.handle && t.dev.initial == s.dev.initial
    decreases |cs|
  {
    if cs != [] {
      FoldKeeps(Handled(s, cs[0]), cs[1..]);
    }
  }

  /** The state after the last of these commands. */
  lemma FoldState(s: System, cs: seq<Command>)
    requires Harmless(cs) && cs != []
    ensures cs[|cs| - 1] == CommandFault ==> Fold(s, cs).dev.state == Fault
    ensures cs[|cs| - 1] == CommandSSMInit && s.dev.initial == WITNESS ==>
              Fold(s, cs).dev.state == BetweenCycles && Fold(s, cs).dev.pending == [StartCycle]
  {
    FoldLast(s, cs);
    FoldKeeps(s, cs[..|cs| - 1]);
    assert WITNESS[1..] == [StartCycle];
  }

  // -------------------------------------------------- the commands in parts

  /** The live START, with what came before and after it. */
  lemma SplitAtStart(cs: seq<Command>) returns (i: nat)
    requires Open(cs) && Live(cs)
    ensures i < |cs| && cs[i] == CommandStart && Harmless(cs[i + 1..])
    ensures Open(cs[..i]) && !Live(cs[..i])
  {
    i :| 0 <= i < |cs| && cs[i] == CommandStart && forall j :: i < j < |cs| ==> Keeps(cs[j]);
    PrefixIsOpen(cs, i);
    NoSecondStart(cs, i);
    forall j | i < j < |cs| ensures cs[j] == CommandFault || cs[j] == CommandSSMInit {
      LiveUpTo(cs, i, j);
      if cs[j] == CommandStart {
        NoSecondStart(cs, j);
      }
    }
  }

  lemma LiveUpTo(cs: seq<Command>, i: nat, j: nat)
    requires i < j <= |cs| && cs[i] == CommandStart && forall k :: i < k < |cs| ==> Keeps(cs[k])
    ensures Live(cs[..j])
  {
    assert cs[..j][i] == CommandStart;
  }

  lemma PrefixIsOpen(cs: seq<Command>, i: nat)
    requires Open(cs) && i <= |cs|
    ensures Open(cs[..i])
  {
    assert i == |cs| ==> cs[..i] == cs;
    forall k | 0 <= k < i ensures !Closed(cs[..i][..k]) {
      assert cs[..i][..k] == cs[..k];
    }
  }

  lemma NoSecondStart(cs: seq<Command>, j: nat)
    requires Open(cs) && j < |cs| && cs[j] == CommandStart
    ensures !Live(cs[..j])
  {
    PrefixIsOpen(cs, j + 1);
    assert cs[..j + 1][..j] == cs[..j] && cs[..j + 1][j] == CommandStart;
  }

  /** If only FAULTs follow a START that is not tame, no FAULT came directly before it. */
  lemma {:induction false} FaultsKeepTame(cs: seq<Command>, i: nat)
    requires i < |cs| && cs[i] == CommandStart && Faulted(cs[..i])
    requires forall j :: i < j < |cs| ==> cs[j] == CommandFault
    ensures Tame(cs)
    decreases |cs|
  {
    var front := cs[..|cs| - 1];
    if i < |cs| - 1 {
      assert front[..i] == cs[..i];
      FaultsKeepTame(front, i);
    }
  }

  // ----------------------------------------------------------- the histories

  /** A run that carries out open commands and leaves no thread. */
  lemma ReachOpen(cs: seq<Command>) returns (es: seq<Event>, s: System)
    requires Open(cs) && !Live(cs)
    ensures Possible(true, Settled(Boot(WITNESS)), es) && Accepted(es) == cs
    ensures Last(true, Settled(Boot(WITNESS)), es) == Settled(s)
    ensures s.ctl == Waiting && !s.handle && s.ssm == Absent && !s.block.running && s.dev.initial == WITNESS
    ensures !Faulted(cs) ==> s.dev.state != Fault
  {
    var boot, inbox := Boot(WITNESS), Messages(cs);
    s := Process(boot, inbox).sys;
    ExecutesAll(cs);
    BootInv(WITNESS);
    InboxIsARun(boot, inbox);
    var whole: seq<Event> :| Valid(boot, whole) && Final(boot, whole) == s && Accepted(whole) == cs;
    es := DoubledRun(Settled(boot), whole);
    QuietBlockIsCurrent(WITNESS, es);
    RunKeepsInitial(boot, whole);
    if !Faulted(cs) {
      StateAfter(cs);
    }
  }

  lemma ExecutesAll(cs: seq<Command>)
    requires Open(cs)
    ensures var o := Process(Boot(WITNESS), Messages(cs));
            o.executed == cs && o.sys == Fold(Boot(WITNESS), cs) && o.sys.ctl == Waiting
    ensures forall i :: 0 <= i < |cs| ==> Handlable(Message(cs[i]))
  {
    LoopRunsOut(cs);
    ExecutesLongestPrefix(Boot(WITNESS), Messages(cs));
    ProcessWaits(Boot(WITNESS), Messages(cs));
    forall i | 0 <= i < |cs| ensures Handlable(Message(cs[i])) {
      assert Messages(cs)[i] == Message(cs[i]);
    }
  }

  lemma LoopRunsOut(cs: seq<Command>)
    requires Open(cs)
    ensures Process(Boot(WITNESS), Messages(cs)).executed == cs
  {
    LoopRunsOpen(WITNESS, cs);
    LoopStopsAtClosing(WITNESS, cs);
    OpenIsNotStopped(cs, Executed(WITNESS, cs));
    assert cs[..|cs|] == cs;
  }

  lemma OpenIsNotStopped(cs: seq<Command>, n: nat)
    requires Open(cs) && n <= |cs| && (n < |cs| ==> Closed(cs[..n + 1]))
    ensures n == |cs|
  {
    assert cs[..|cs|] == cs;
  }

  /** Without a thread only a FAULT leaves the state FAULT. */
  lemma StateAfter(cs: seq<Command>)
    requires Open(cs) && !Live(cs) && !Faulted(cs)
    ensures Fold(Boot(WITNESS), cs).dev.state != Fault
  {
    if cs != [] {
      var front, last := cs[..|cs| - 1], cs[|cs| - 1];
      ExecutesAll(cs);
      LastDecides(cs);
      FoldLast(Boot(WITNESS), cs);
      assert Handlable(Message(last)) && last != CommandStart && last != CommandFault;
      FoldKeepsInitial(Boot(WITNESS), front);
    }
  }

  lemma {:induction false} FoldKeepsInitial(s: System, cs: seq<Command>)
    ensures Fold(s, cs).dev.initial == s.dev.initial
    decreases |cs|
  {
    if cs != [] {
      FoldKeepsInitial(Handled(s, cs[0]), cs[1..]);
    }
  }

  // ------------------------------------------------------------ the schedules

  /** The thread completes its publication, from a copy that it has not begun. */
  lemma {:induction false} FinishPublish(m: Machine, f: Field) returns (es: seq<Event>)
    requires m.sys.ssm == Publish(f) && m.ssmRead == None && m.sys.ctl == Waiting
    ensures Possible(true, m, es) && OnlyThreads(es)
    ensures var t := Last(true, m, es);
            && t == m.(sys := m.sys.(ssm := Check, block := t.sys.block))
            && (Rank(f) > 0 ==> t.sys.block.state == m.sys.block.state)
            && (Rank(f) > 3 ==> t.sys.block.running == m.sys.block.running)
    decreases 4 - Rank(f)
  {
    var read := Stepped(true, m, SsmEvent);
    var written := Stepped(true, read, SsmEvent);
    var rest := [];
    if f != LedField {
      rest := FinishPublish(written, written.sys.ssm.field);
    }
    Prepend(true, read, SsmEvent, rest);
    Prepend(true, m, SsmEvent, [SsmEvent] + rest);
    es := [SsmEvent] + ([SsmEvent] + rest);
  }

  /** The thread writes what it read before, and completes its publication. */
  lemma WriteStale(m: Machine) returns (es: seq<Event>)
    requires m.sys.ctl == Waiting && m.ctlRead == None && m.ssmRead.Some?
    requires m.sys.ssm == Publish(StateField) || m.sys.ssm == Publish(RunningField)
    ensures Possible(true, m, es) && OnlyThreads(es)
    ensures var t := Last(true, m, es);
            && t == Settled(m.sys.(ssm := Check, block := t.sys.block))
            && (m.sys.ssm == Publish(StateField) ==> t.sys.block.state == m.ssmRead.value.state)
            && (m.sys.ssm == Publish(RunningField) ==> t.sys.block.running == m.ssmRead.value.running)
  {
    var written := Stepped(true, m, SsmEvent);
    var rest := FinishPublish(written, written.sys.ssm.field);
    Prepend(true, m, SsmEvent, rest);
    es := [SsmEvent] + rest;
  }

  lemma SettledIsNotOwing(m: Machine)
    requires m == Settled(m.sys) && m.sys.ctl == Waiting && (m.sys.ssm == Check || m.sys.ssm == Finished)
    ensures !Owing(m)
  {
  }

  /** A thread holds an old flag while the remaining commands are carried out. */
  lemma OldFlag(s: System, post: seq<Command>) returns (es: seq<Event>)
    requires s.ctl == Waiting && !s.handle && s.ssm == Absent && !s.block.running && s.dev.state != Fault
    requires Harmless(post)
    ensures Possible(true, Settled(s), es) && Accepted(es) == [CommandStart] + post
    ensures Wrong(Last(true, Settled(s), es))
  {
    var m, a := Settled(s), AcceptEvent(CommandStart);
    var started := Stepped(true, m, a);
    var danger := FlagGetsInDanger(started);
    var held := Last(true, started, danger);
    var commands := CommandsAlone(held, post);
    FoldKeeps(held.sys, post);
    var later := Last(true, held, commands);
    var write := WriteStale(later);
    SettledIsNotOwing(Last(true, later, write));
    Onward(true, held, commands, write);
    Onward(true, started, danger, commands + write);
    Prepend(true, m, a, danger + (commands + write));
    es := [a] + (danger + (commands + write));
    AcceptedInParts(a, danger, commands, write);
  }

  lemma AcceptedInParts(a: Event, before: seq<Event>, commands: seq<Event>, after: seq<Event>)
    requires a.AcceptEvent? && OnlyThreads(before) && OnlyThreads(after)
    ensures Accepted([a] + (before + (commands + after))) == [a.command] + Accepted(commands)
  {
    NothingAccepted(before);
    NothingAccepted(after);
    AcceptedConcat(commands, after);
    AcceptedConcat(before, commands + after);
    Sequences.RestOfCons(a, before + (commands + after));
    assert [] + (Accepted(commands) + []) == Accepted(commands);
  }

  /** A thread that the commands so far have left at its check. */
  predicate AtCheck(m: Machine) {
    m == Settled(m.sys) && m.sys.ctl == Waiting && m.sys.ssm == Check && m.sys.handle && m.sys.dev.initial == WITNESS
  }

  lemma StartAtCheck(s: System, post: seq<Command>) returns (es: seq<Event>, m: Machine)
    requires s.ctl == Waiting && !s.handle && s.ssm == Absent && s.dev.initial == WITNESS && Harmless(post)
    ensures Possible(true, Settled(s), es) && Last(true, Settled(s), es) == m
    ensures Accepted(es) == [CommandStart] + post && AtCheck(m)
    ensures post != [] && post[|post| - 1] == CommandSSMInit ==>
              m.sys.dev.state == BetweenCycles && m.sys.dev.pending == [StartCycle]
  {
    RunAlone(s);
    var start := CommandAlone(Settled(s), CommandStart, AfterRun(s));
    var begun := Settled(AfterRun(s));
    var commands := CommandsAlone(begun, post);
    m := Last(true, begun, commands);
    FoldKeeps(begun.sys, post);
    if post != [] {
      FoldState(begun.sys, post);
    }
    Onward(true, Settled(s), start, commands);
    AcceptedConcat(start, commands);
    es := start + commands;
  }

  /** From its check the thread gets to hold the second state. */
  lemma ReadState(m: Machine) returns (es: seq<Event>)
    requires AtCheck(m) && m.sys.dev.state == BetweenCycles && m.sys.dev.pending == [StartCycle]
    ensures Possible(true, m, es) && OnlyThreads(es)
    ensures var t := Last(true, m, es);
            && t.sys.ctl == Waiting && t.ctlRead == None && t.sys.ssm == Publish(StateField)
            && t.ssmRead.Some? && t.ssmRead.value.state == StartCycle
  {
    var wait := Stepped(true, m, SsmEvent);
    var count := Stepped(true, wait, SsmEvent);
    var mark := Stepped(true, count, SsmEvent);
    var darken := Stepped(true, mark, SsmEvent);
    var publish := Stepped(true, darken, SsmEvent);
    OneStep(true, publish, SsmEvent);
    Prepend(true, darken, SsmEvent, [SsmEvent]);
    Prepend(true, mark, SsmEvent, [SsmEvent] + [SsmEvent]);
    Prepend(true, count, SsmEvent, [SsmEvent] + ([SsmEvent] + [SsmEvent]));
    Prepend(true, wait, SsmEvent, [SsmEvent] + ([SsmEvent] + ([SsmEvent] + [SsmEvent])));
    es := [SsmEvent] + ([SsmEvent] + ([SsmEvent] + ([SsmEvent] + ([SsmEvent] + [SsmEvent]))));
    Prepend(true, m, SsmEvent, [SsmEvent] + ([SsmEvent] + ([SsmEvent] + ([SsmEvent] + [SsmEvent]))));
  }

  /** An initialize wakes the thread, which holds a state until the last FAULT is over. */
  lemma OldState(s: System, pre: seq<Command>, post: seq<Command>) returns (es: seq<Event>)
    requires s.ctl == Waiting && !s.handle && s.ssm == Absent && s.dev.initial == WITNESS
    requires Harmless(pre) && pre != [] && pre[|pre| - 1] == CommandSSMInit
    requires Harmless(post) && post != [] && post[|post| - 1] == CommandFault
    ensures Possible(true, Settled(s), es) && Accepted(es) == [CommandStart] + (pre + post)
    ensures Wrong(Last(true, Settled(s), es))
  {
    var start, m := StartAtCheck(s, pre);
    var look := ReadState(m);
    var held := Last(true, m, look);
    var commands := CommandsAlone(held, post);
    FoldKeeps(held.sys, post);
    FoldState(held.sys, post);
    var later := Last(true, held, commands);
    var write := WriteStale(later);
    SettledIsNotOwing(Last(true, later, write));
    Onward(true, held, commands, write);
    Onward(true, m, look, commands + write);
    Onward(true, Settled(s), start, look + (commands + write));
    es := start + (look + (commands + write));
    NothingAccepted(look);
    NothingAccepted(write);
    AcceptedConcat(commands, write);
    AcceptedConcat(look, commands + write);
    AcceptedConcat(start, look + (commands + write));
    assert [] + (post + []) == post;
    Sequences.Associative([CommandStart], pre, post);
  }

  /** The controller alone, up to the copies of an initialize. */
  lemma {:induction false} UpToPublish(m: Machine, pos: nat) returns (es: seq<Event>)
    requires m.sys.ctl == Busy(InitializeOp, pos) && pos <= 6 && m.ctlRead == None
    requires pos == 4 ==> m.sys.dev.pending == m.sys.dev.initial
    requires m.sys.dev.initial == WITNESS && (pos > 4 ==> m.sys.dev.state == BetweenCycles)
    ensures Possible(true, m, es) && OnlyThreads(es)
    ensures var t := Last(true, m, es);
            && t == m.(sys := t.sys) && t.sys.ctl == Busy(InitializeOp, 6) && t.sys.ssm == m.sys.ssm
            && t.sys.dev.state == BetweenCycles
    decreases 6 - pos
  {
    if pos == 6 {
      es := [];
    } else {
      WriteOfInitialize(m, pos);
      var rest := UpToPublish(Stepped(true, m, CtlEvent), pos + 1);
      es := [CtlEvent] + rest;
      Prepend(true, m, CtlEvent, rest);
    }
  }

  lemma WriteOfInitialize(m: Machine, pos: nat)
    requires m.sys.ctl == Busy(InitializeOp, pos) && pos < 6
    ensures Enabled(m.sys, CtlEvent)
    ensures var t := Stepped(true, m, CtlEvent);
            && t == m.(sys := Done(m.sys, InitializeAct(pos)).(ctl := Busy(InitializeOp, pos + 1)))
            && t.sys.ssm == m.sys.ssm && t.sys.dev.initial == m.sys.dev.initial
            && (pos == 3 ==> t.sys.dev.pending == m.sys.dev.initial)
            && (pos == 4 && m.sys.dev.pending != [] ==> t.sys.dev.state == m.sys.dev.pending[0])
            && (pos != 4 ==> t.sys.dev.state == m.sys.dev.state)
  {
    InitializeStep(m.sys, pos);
  }

  /** The controller reads the state in the last initialize and writes it when
      the thread has run to its end. */
  lemma OldRead(s: System, pre: seq<Command>) returns (es: seq<Event>)
    requires s.ctl == Waiting && !s.handle && s.ssm == Absent && s.dev.initial == WITNESS && Harmless(pre)
    ensures Possible(true, Settled(s), es) && Accepted(es) == [CommandStart] + (pre + [CommandSSMInit])
    ensures Wrong(Last(true, Settled(s), es))
  {
    var a := AcceptEvent(CommandSSMInit);
    var start, m := StartAtCheck(s, pre);
    var busy := Stepped(true, m, a);
    var writes := UpToPublish(busy, 0);
    var before := Last(true, busy, writes);
    var finish := ReadAndFinish(before);
    Onward(true, busy, writes, finish);
    Prepend(true, m, a, writes + finish);
    Onward(true, Settled(s), start, [a] + (writes + finish));
    es := start + ([a] + (writes + finish));
    NothingAccepted(writes);
    NothingAccepted(finish);
    AcceptedConcat(writes, finish);
    Sequences.RestOfCons(a, writes + finish);
    AcceptedConcat(start, [a] + (writes + finish));
    assert [CommandSSMInit] + ([] + []) == [CommandSSMInit];
    Sequences.Associative([CommandStart], pre, [CommandSSMInit]);
  }

  lemma ReadAndFinish(m: Machine) returns (es: seq<Event>)
    requires m.sys.ctl == Busy(InitializeOp, 6) && m.sys.ssm == Check && m.ctlRead == None && m.ssmRead == None
    requires m.sys.dev.state == BetweenCycles
    ensures Possible(true, m, es) && OnlyThreads(es) && Wrong(Last(true, m, es))
  {
    InitializeScript(6);
    HalfCopyOfTail(m);
    var looked := CtlHalfCopy(m);
    var out := ThreadRunsOut(looked);
    var ran := Last(true, looked, out);
    var finish := CompletePublish(ran);
    SettledIsNotOwing(Last(true, ran, finish));
    Onward(true, looked, out, finish);
    Prepend(true, m, CtlEvent, out + finish);
    es := [CtlEvent] + (out + finish);
  }

  /** All together: a wrong block after any other open commands. */
  lemma GoesStale(cs: seq<Command>) returns (es: seq<Event>)
    requires Open(cs) && Live(cs) && !Tame(cs)
    ensures Possible(true, Settled(Boot(WITNESS)), es) && Accepted(es) == cs
    ensures Wrong(Last(true, Settled(Boot(WITNESS)), es))
  {
    var i := SplitAtStart(cs);
    var history, s := ReachOpen(cs[..i]);
    var rest := AfterStart(cs, i, s);
    Onward(true, Settled(Boot(WITNESS)), history, rest);
    AcceptedConcat(history, rest);
    Sequences.AroundIndex(cs, i);
    es := history + rest;
  }

  lemma AfterStart(cs: seq<Command>, i: nat, s: System) returns (es: seq<Event>)
    requires i < |cs| && cs[i] == CommandStart && Harmless(cs[i + 1..]) && !Tame(cs)
    requires s.ctl == Waiting && !s.handle && s.ssm == Absent && !s.block.running && s.dev.initial == WITNESS
    requires !Faulted(cs[..i]) ==> s.dev.state != Fault
    ensures Possible(true, Settled(s), es) && Accepted(es) == [CommandStart] + cs[i + 1..]
    ensures Wrong(Last(true, Settled(s), es))
  {
    var post := cs[i + 1..];
    if !Faulted(cs[..i]) {
      es := OldFlag(s, post);
    } else {
      var k := SomeInitialize(cs, i);
      if post[|post| - 1] == CommandSSMInit {
        assert post == post[..|post| - 1] + [CommandSSMInit];
        es := OldRead(s, post[..|post| - 1]);
      } else {
        assert post == post[..k + 1] + post[k + 1..];
        assert post[k + 1..][|post| - k - 2] == post[|post| - 1];
        es := OldState(s, post[..k + 1], post[k + 1..]);
      }
    }
  }

  lemma SomeInitialize(cs: seq<Command>, i: nat) returns (k: nat)
    requires i < |cs| && cs[i] == CommandStart && Harmless(cs[i + 1..]) && !Tame(cs) && Faulted(cs[..i])
    ensures k < |cs| - i - 1 && cs[i + 1..][k] == CommandSSMInit
  {
    if forall j :: i < j < |cs| ==> cs[j] == CommandFault {
      FaultsKeepTame(cs, i);
      assert false;
    }
    var j :| i < j < |cs| && cs[j] != CommandFault;
    k := j - i - 1;
    assert cs[i + 1..][k] == cs[j];
  }
}
