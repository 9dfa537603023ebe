/** What a SHUTDOWN, or an unknown command, makes of the machine: the destructor
    joins the thread, whatever the thread is doing. */
module Stops {
  import Sequences
  import opened Api
  import opened SpillDevice
  import opened TwoThreads
  import opened ThreadTheorems
  import opened SpillStateMachines

  /** The device once the thread has ended; a finished thread changes nothing more. */
  function LeftBehind(s: System): Device {
    if s.ssm == Absent || s.ssm == Finished then s.dev else Forecast(s)
  }

  /** The end of a stop: with a handle the LED was put out and all published. */
  function StoppedAs(d: Device, had: bool): System {
    var e := if had then d.(led := false) else d;
    System(e, false, Snapshot(e, false), Halted, Absent)
  }

  /** A stop that will leave `d`, on a system that had a handle or not. */
  predicate BeingStopped(s: System, d: Device, had: bool) {
    && Inv(s) && s.ctl.Busy? && s.ctl.op == StopOp
    && (s.ctl.pos == 0 ==> s.handle == had) && (s.ctl.pos > 0 ==> had)
    && LeftBehind(s) == if s.ctl.pos <= 3 then d else d.(led := false)
  }

  function StopWork(s: System): nat
    requires s.ctl.Busy? && s.ctl.pos < |Script(s.ctl.op)|
  {
    |Script(s.ctl.op)| - s.ctl.pos + SsmWork(s)
  }

  lemma StopScript(pos: nat)
    requires pos < 9
    ensures |Script(StopOp)| == 9
    ensures Script(StopOp)[pos] == match pos
                                   case 0 => SkipIfNull
                                   case 1 => Join
                                   case 2 => DropHandle
                                   case 3 => WriteLed(false)
                                   case _ => PUBLISH[pos - 4]
    ensures pos > 3 ==> Script(StopOp)[pos].Copy?
  {
    if pos > 3 {
      assert Script(StopOp)[pos] == PUBLISH[pos - 4];
    }
  }

  /** A stop is never stuck: while join blocks, the thread can step. */
  lemma StopProceeds(s: System, d: Device, had: bool)
    requires BeingStopped(s, d, had)
    ensures Enabled(s, CtlEvent) || Enabled(s, SsmEvent)
  {
    StopScript(s.ctl.pos);
  }

  lemma StopCtlStep(s: System, d: Device, had: bool)
    requires BeingStopped(s, d, had) && Enabled(s, CtlEvent)
    ensures var t := CtlStep(s);
            if t.ctl == Halted then t == StoppedAs(d, had)
            else BeingStopped(t, d, had) && StopWork(t) < StopWork(s)
  {
    var t := CtlStep(s);
    StepKeepsInv(s, CtlEvent);
    StopScript(s.ctl.pos);
    if t.ctl == Halted {
      QuiescentBlockIsCurrent(t);
    }
  }

  lemma StopSsmStep(s: System, d: Device, had: bool)
    requires BeingStopped(s, d, had) && Enabled(s, SsmEvent)
    ensures BeingStopped(SsmStep(s), d, had) && StopWork(SsmStep(s)) < StopWork(s)
  {
    StepKeepsInv(s, SsmEvent);
    SsmStepWorks(s);
    SsmKeepsForecast(s);
    SsmStaysOnItsSide(s);
    ThreadStaysOrEnds(s);
  }

  lemma ThreadStaysOrEnds(s: System)
    requires Enabled(s, SsmEvent)
    ensures LeftBehind(SsmStep(s)) == Forecast(SsmStep(s))
  {
  }

  lemma {:induction false} StopCompletes(s: System, d: Device, had: bool, es: seq<Event>)
    requires BeingStopped(s, d, had) && Valid(s, es) && OnlyThreads(es)
    ensures |es| <= StopWork(s)
    ensures BeingStopped(Final(s, es), d, had) || Final(s, es) == StoppedAs(d, had)
    decreases |es|
  {
    if es != [] {
      assert !es[0].AcceptEvent?;
      if es[0] == CtlEvent {
        StopCtlStep(s, d, had);
      } else {
        StopSsmStep(s, d, had);
      }
      var t := Step(s, es[0]);
      if t.ctl == Halted {
        HaltedIsTheEnd(t, es[1..]);
      } else {
        StopCompletes(t, d, had, es[1..]);
      }
    }
  }

  lemma HaltedIsTheEnd(s: System, es: seq<Event>)
    requires s.ctl == Halted && s.ssm == Absent && Valid(s, es)
    ensures es == []
  {
  }

  lemma AcceptedStop(s: System, command: Command)
    requires Inv(s) && s.ctl == Waiting && OpOf(command) == StopOp
    ensures var r := Step(s, AcceptEvent(command));
            BeingStopped(r, LeftBehind(s), s.handle) && StopWork(r) <= 10 * |s.dev.pending| + 28
  {
    StepKeepsInv(s, AcceptEvent(command));
    StopScript(0);
  }

  /** After any history a SHUTDOWN or an unknown command is over within a bounded
      number of steps, is never stuck, and ends with the device that the thread
      leaves behind, dark if there was a thread, and published. */
  lemma EveryStopEnds(sequence: seq<SpillState>, history: seq<Event>, command: Command, es: seq<Event>)
    requires command == CommandShutdown || command == CommandInvalid
    requires Valid(Boot(sequence), history) && Final(Boot(sequence), history).ctl == Waiting
    requires Valid(Step(Final(Boot(sequence), history), AcceptEvent(command)), es) && OnlyThreads(es)
    ensures var s := Final(Boot(sequence), history);
            var t := Final(Step(s, AcceptEvent(command)), es);
            && |es| <= 10 * |s.dev.pending| + 28
            && (Enabled(t, CtlEvent) || Enabled(t, SsmEvent) || t == StoppedAs(LeftBehind(s), s.handle))
  {
    var s := Final(Boot(sequence), history);
    var r := Step(s, AcceptEvent(command));
    EveryRunIsPublished(sequence, history);
    AcceptedStop(s, command);
    StopCompletes(r, LeftBehind(s), s.handle, es);
    if BeingStopped(Final(r, es), LeftBehind(s), s.handle) {
      StopProceeds(Final(r, es), LeftBehind(s), s.handle);
    }
  }

  lemma {:induction false} StopRun(s: System, d: Device, had: bool) returns (es: seq<Event>)
    requires BeingStopped(s, d, had)
    ensures Valid(s, es) && OnlyThreads(es) && Final(s, es) == StoppedAs(d, had)
    decreases StopWork(s)
  {
    StopProceeds(s, d, had);
    var e := if Enabled(s, CtlEvent) then CtlEvent else SsmEvent;
    if e == CtlEvent {
      StopCtlStep(s, d, had);
    } else {
      StopSsmStep(s, d, had);
    }
    var t, rest := Step(s, e), [];
    if t.ctl != Halted {
      rest := StopRun(t, d, had);
    }
    es := [e] + rest;
    StepThenRun(s, e, rest);
  }

  /** The stop() call is such a run. */
  lemma StopIsARun(s: System)
    requires Inv(s) && s.ctl == Waiting && (s.handle ==> s.ssm == Check)
    ensures Leads(s, CommandShutdown, AfterStop(s).(ctl := Halted))
  {
    AcceptedStop(s, CommandShutdown);
    var es := StopRun(Step(s, AcceptEvent(CommandShutdown)), LeftBehind(s), s.handle);
    if !s.handle {
      QuiescentBlockIsCurrent(s);
    }
  }

  /** What it leaves when a sequence without FAULT was pending: FAULT, dark,
      nothing pending, and all pending spills counted; the block shows it. */
  lemma StopCountsSpills(s: System)
    requires s.handle && s.dev.state != Fault && Fault !in s.dev.pending
    ensures var t := AfterStop(s);
            && t.dev.state == Fault && !t.dev.led && t.dev.pending == [] && t.dev.initial == s.dev.initial
            && t.dev.spills == s.dev.spills + Count(s.dev.pending, Spill)
            && t.dev.timeInSpill == (if AfterSpill in s.dev.pending then 107 else s.dev.timeInSpill)
            && !t.handle && t.ssm == Absent && Shows(t.block, t.dev, false)
  {
    FirstFault(s.dev);
  }
}
