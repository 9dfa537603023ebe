/** What the two threads do together: every reset completes in one state, a
    fault request is never lost, and a started run ends as the loop alone would. */
module ThreadTheorems {
  import opened SpillDevice
  import opened Api
  import opened TwoThreads

  // -------------------------------------------------------------- measures

  /** Transitions the SSM thread can still make if nobody else writes. */
  function Moves(s: System): nat {
    var more := if s.dev.state == Fault then 0 else |s.dev.pending| + 1;
    match s.ssm
    case Absent => 0
    case Finished => 0
    case Wait => |s.dev.pending| + 1
    case _ => more
  }

  /** Steps the SSM thread can still make if nobody else writes. */
  function SsmWork(s: System): nat {
    match s.ssm
    case Absent => 0
    case Finished => 0
    case Check => 10 * Moves(s) + 1
    case Wait => 10 * Moves(s)
    case CountSpill(_) => 10 * Moves(s) + 9
    case MarkTime(_) => 10 * Moves(s) + 8
    case DarkenLed(_) => 10 * Moves(s) + 7
    case Publish(f) => 10 * Moves(s) + 6 - Rank(f)
  }

  predicate IsTransition(s: System, e: Event) {
    e == SsmEvent && s.ssm == Wait
  }

  /** How many transitions a run makes. */
  function Transitions(s: System, es: seq<Event>): nat
    requires Valid(s, es)
    decreases |es|
  {
    if es == [] then 0
    else (if IsTransition(s, es[0]) then 1 else 0) + Transitions(Step(s, es[0]), es[1..])
  }

  function SsmEvents(es: seq<Event>): nat {
    if es == [] then 0 else (if es[0] == SsmEvent then 1 else 0) + SsmEvents(es[1..])
  }

  lemma SsmStepWorks(s: System)
    requires Enabled(s, SsmEvent)
    ensures SsmWork(SsmStep(s)) < SsmWork(s)
    ensures Moves(SsmStep(s)) + (if IsTransition(s, SsmEvent) then 1 else 0) <= Moves(s)
  {
  }

  // ----------------------------------------------------------------- reset

  /** What reset has already made of the device at position `pos`. */
  predicate ResetProgress(s: System, pos: nat) {
    && (pos > 10 ==> s.dev.spills == 0)
    && (pos > 11 ==> s.dev.state == Idle)
    && (pos > 12 ==> s.dev.timeInSpill == 0)
    && (pos > 13 ==> !s.dev.led)
    && (pos > 14 ==> s.dev.pending == s.dev.initial)
  }

  predicate Resetting(s: System, initial: seq<SpillState>) {
    && Inv(s) && s.dev.initial == initial
    && s.ctl.Busy? && s.ctl.op == ResetOp && ResetProgress(s, s.ctl.pos)
  }

  /** Steps both threads can still make before the reset is over. */
  function ResetWork(s: System): nat
    requires s.ctl.Busy? && s.ctl.pos < |Script(s.ctl.op)|
  {
    |Script(s.ctl.op)| - s.ctl.pos + SsmWork(s)
  }

  /** A reset is never stuck: while join blocks, the SSM thread can step. */
  lemma ResetProceeds(s: System, initial: seq<SpillState>)
    requires Resetting(s, initial)
    ensures Enabled(s, CtlEvent) || Enabled(s, SsmEvent)
  {
  }

  lemma ResetScript(pos: nat)
    requires pos < 20
    ensures |Script(ResetOp)| == 20
    ensures Script(ResetOp)[pos] == SkipIfNull <==> pos == 0
    ensures Script(ResetOp)[pos] == Join <==> pos == 1
    ensures Script(ResetOp)[pos] == DropHandle <==> pos == 2
    ensures Script(ResetOp)[pos] == ZeroSpills <==> pos == 10
    ensures Script(ResetOp)[pos] == WriteState(Idle) <==> pos == 11
    ensures Script(ResetOp)[pos] == ZeroTime <==> pos == 12
    ensures Script(ResetOp)[pos] == WriteLed(false) <==> pos in {3, 9, 13}
    ensures Script(ResetOp)[pos] == RefillSequence <==> pos == 14
    ensures Script(ResetOp)[pos].Copy? <==> 4 <= pos <= 8 || 15 <= pos
  {
  }

  lemma ResetCtlStep(s: System, initial: seq<SpillState>)
    requires Resetting(s, initial) && Enabled(s, CtlEvent)
    ensures var t := CtlStep(s);
            if t.ctl == Waiting then t == Boot(initial)
            else Resetting(t, initial) && ResetWork(t) < ResetWork(s) && Moves(t) <= Moves(s)
  {
    StepKeepsInv(s, CtlEvent);
    ResetProgresses(s);
    ResetWorks(s);
    var t := CtlStep(s);
    if t.ctl == Waiting {
      QuiescentBlockIsCurrent(t);
    }
  }

  lemma ResetProgresses(s: System)
    requires s.ctl.Busy? && s.ctl.op == ResetOp && Enabled(s, CtlEvent)
    requires ResetProgress(s, s.ctl.pos) && ThreadInv(s)
    ensures var t := CtlStep(s);
            && t.dev.initial == s.dev.initial
            && (t.ctl == Waiting || (t.ctl.Busy? && t.ctl.op == ResetOp))
            && ResetProgress(t, if t.ctl == Waiting then 20 else t.ctl.pos)
  {
    ResetScript(s.ctl.pos);
  }

  /** A step of the controller costs the thread nothing. */
  lemma ResetWorks(s: System)
    requires s.ctl.Busy? && s.ctl.op == ResetOp && ThreadInv(s) && Enabled(s, CtlEvent)
    ensures var t := CtlStep(s);
            || t.ctl == Waiting
            || (t.ctl.Busy? && t.ctl.pos < |Script(t.ctl.op)| && ResetWork(t) < ResetWork(s) && Moves(t) <= Moves(s))
  {
    ResetScript(s.ctl.pos);
  }

  lemma ResetSsmStep(s: System, initial: seq<SpillState>)
    requires Resetting(s, initial) && Enabled(s, SsmEvent)
    ensures var t := SsmStep(s);
            && Resetting(t, initial) && ResetWork(t) < ResetWork(s)
            && Moves(t) + (if s.ssm == Wait then 1 else 0) <= Moves(s)
  {
    StepKeepsInv(s, SsmEvent);
    SsmStepWorks(s);
  }

  /** However the threads interleave, a reset that was accepted in any reachable
      state makes at most `ResetWork` steps, among them at most one transition
      more than the sequence has states, and can stop only in the boot state. */
  lemma {:induction false} ResetCompletes(s: System, es: seq<Event>)
    requires Resetting(s, s.dev.initial)
    requires Valid(s, es) && OnlyThreads(es)
    ensures |es| <= ResetWork(s)
    ensures Transitions(s, es) <= Moves(s) <= |s.dev.pending| + 1
    ensures Resetting(Final(s, es), s.dev.initial) || Final(s, es) == Boot(s.dev.initial)
    decreases |es|
  {
    if es != [] {
      var e := es[0];
      assert !e.AcceptEvent?;
      if e == CtlEvent {
        ResetCtlStep(s, s.dev.initial);
      } else {
        ResetSsmStep(s, s.dev.initial);
      }
      var t := Step(s, e);
      if t.ctl == Waiting {
        NothingMoves(t, es[1..]);
      } else {
        ResetCompletes(t, es[1..]);
      }
    }
  }

  /** With no thread and an idle controller only a command can do anything. */
  lemma NothingMoves(s: System, es: seq<Event>)
    requires s.ctl == Waiting && s.ssm == Absent && Valid(s, es) && OnlyThreads(es)
    ensures es == []
  {
  }

  lemma StepKeepsInitial(s: System, e: Event)
    requires Enabled(s, e)
    ensures Step(s, e).dev.initial == s.dev.initial
  {
  }

  lemma {:induction false} RunKeepsInitial(s: System, es: seq<Event>)
    requires Valid(s, es)
    ensures Final(s, es).dev.initial == s.dev.initial
    decreases |es|
  {
    if es != [] {
      StepKeepsInitial(s, es[0]);
      RunKeepsInitial(Step(s, es[0]), es[1..]);
    }
  }

  /** Whatever the history, a RESET brings the system back to its boot state:
      any run of the two threads that follows is bounded, and where neither
      thread can move any more the reset is over. */
  lemma EveryResetCompletes(sequence: seq<SpillState>, history: seq<Event>, es: seq<Event>)
    requires Valid(Boot(sequence), history)
    requires Final(Boot(sequence), history).ctl == Waiting
    requires Valid(Step(Final(Boot(sequence), history), AcceptEvent(CommandReset)), es) && OnlyThreads(es)
    ensures var s := Final(Boot(sequence), history);
            var r := Step(s, AcceptEvent(CommandReset));
            && |es| <= 10 * |s.dev.pending| + 39
            && Transitions(r, es) <= |s.dev.pending| + 1
            && (Enabled(Final(r, es), CtlEvent) || Enabled(Final(r, es), SsmEvent)
                || Final(r, es) == Boot(sequence))
  {
    var r := Step(Final(Boot(sequence), history), AcceptEvent(CommandReset));
    AcceptedReset(sequence, history);
    ResetCompletes(r, es);
    if Resetting(Final(r, es), sequence) {
      ResetProceeds(Final(r, es), sequence);
    }
  }

  lemma AcceptedReset(sequence: seq<SpillState>, history: seq<Event>)
    requires Valid(Boot(sequence), history)
    requires Final(Boot(sequence), history).ctl == Waiting
    ensures var s := Final(Boot(sequence), history);
            var r := Step(s, AcceptEvent(CommandReset));
            Resetting(r, sequence) && ResetWork(r) <= 10 * |s.dev.pending| + 39
  {
    EveryRunIsPublished(sequence, history);
    RunKeepsInitial(Boot(sequence), history);
    StepKeepsInv(Final(Boot(sequence), history), AcceptEvent(CommandReset));
    ResetScript(0);
  }

  // ----------------------------------------------------------------- fault

  /** Commands that put a new sequence and a new state into the device. */
  predicate Restarts(e: Event) {
    e.AcceptEvent? && (e.command == CommandSSMInit || e.command == CommandReset)
  }

  predicate NoRestart(es: seq<Event>) {
    forall i :: 0 <= i < |es| ==> !Restarts(es[i])
  }

  predicate Looping(s: System) {
    s.ssm != Absent && s.ssm != Finished
  }

  /** What fault() has already made true at position `pos`. */
  predicate FaultProgress(s: System, pos: nat) {
    && (pos > 0 ==> s.dev.state == Fault || Looping(s))
    && (pos > 1 ==> !s.dev.led)
    && (pos > 2 ==> s.dev.pending == [])
  }

  /** The request is held: nothing is left to replay, the LED is dark, and the
      state is FAULT or the thread is still looping and will find out. */
  predicate FaultHeld(s: System) {
    && Inv(s) && FaultProgress(s, 3)
    && !(s.ctl.Busy? && (s.ctl.op == InitializeOp || s.ctl.op == ResetOp))
  }

  predicate Faulting(s: System) {
    Inv(s) && s.ctl.Busy? && s.ctl.op == FaultOp && FaultProgress(s, s.ctl.pos)
  }

  lemma FaultingStep(s: System, e: Event)
    requires Faulting(s) && Enabled(s, e)
    ensures var t := Step(s, e); if t.ctl.Busy? then Faulting(t) else FaultHeld(t)
  {
    StepKeepsInv(s, e);
    ScriptTail(FaultOp);
  }

  /** The three writes of fault(), interleaved with the loop in any way, lose nothing. */
  lemma {:induction false} FaultIsNeverLost(s: System, es: seq<Event>)
    requires Faulting(s)
    requires Valid(s, es) && OnlyThreads(es)
    ensures Faulting(Final(s, es)) || FaultHeld(Final(s, es))
    decreases |es|
  {
    if es != [] {
      FaultingStep(s, es[0]);
      assert OnlyThreads(es[1..]);
      var t := Step(s, es[0]);
      if t.ctl.Busy? {
        FaultIsNeverLost(t, es[1..]);
      } else {
        FaultStays(t, es[1..]);
      }
    }
  }

  lemma HeldStep(s: System, e: Event)
    requires FaultHeld(s) && Enabled(s, e) && !Restarts(e)
    ensures FaultHeld(Step(s, e))
    ensures s.dev.state == Fault || IsTransition(s, e) ==> Step(s, e).dev.state == Fault
  {
    StepKeepsInv(s, e);
    if e == CtlEvent {
      HeldCtlStep(s);
    }
  }

  lemma HeldCtlStep(s: System)
    requires FaultHeld(s) && Enabled(s, CtlEvent)
    ensures var t := CtlStep(s);
            && t.dev.state in {s.dev.state, Fault} && t.dev.pending == [] && !t.dev.led
            && (t.dev.state == Fault || Looping(t))
            && !(t.ctl.Busy? && t.ctl.op != s.ctl.op)
  {
  }

  /** As long as FAULT is not reached the SSM thread can step, and does work. */
  lemma HeldWork(s: System, e: Event)
    requires FaultHeld(s) && Enabled(s, e) && !Restarts(e) && s.dev.state != Fault
    ensures Enabled(s, SsmEvent)
    ensures var t := Step(s, e);
            t.dev.state == Fault || SsmWork(t) + (if e == SsmEvent then 1 else 0) <= SsmWork(s)
  {
    if e == SsmEvent {
      SsmStepWorks(s);
    } else if e == CtlEvent {
      HeldCtlStep(s);
      LoopingThreadStays(s);
    }
  }

  lemma LoopingThreadStays(s: System)
    requires Inv(s) && Looping(s) && Enabled(s, CtlEvent)
    ensures CtlStep(s).ssm == s.ssm
  {
    ScriptTail(s.ctl.op);
  }

  /** Until the next initialize or reset the request stays held; one more
      transition, or nineteen steps of the thread, put the machine in FAULT,
      where it stays with the LED dark. */
  lemma {:induction false} FaultStays(s: System, es: seq<Event>)
    requires FaultHeld(s)
    requires Valid(s, es) && NoRestart(es)
    ensures FaultHeld(Final(s, es))
    ensures s.dev.state == Fault || Transitions(s, es) >= 1 || SsmEvents(es) >= SsmWork(s) ==>
              Final(s, es).dev.state == Fault
    ensures SsmWork(s) <= 19
    decreases |es|
  {
    if es != [] {
      HeldStep(s, es[0]);
      if s.dev.state != Fault {
        HeldWork(s, es[0]);
      }
      FaultStays(Step(s, es[0]), es[1..]);
    }
  }

  lemma EveryFaultIsHeld(sequence: seq<SpillState>, history: seq<Event>, es: seq<Event>)
    requires Valid(Boot(sequence), history)
    requires Final(Boot(sequence), history).ctl == Waiting
    requires Valid(Step(Final(Boot(sequence), history), AcceptEvent(CommandFault)), es) && OnlyThreads(es)
    ensures var t := Final(Step(Final(Boot(sequence), history), AcceptEvent(CommandFault)), es);
            t.ctl == Waiting ==> FaultHeld(t)
  {
    EveryRunIsPublished(sequence, history);
    StepKeepsInv(Final(Boot(sequence), history), AcceptEvent(CommandFault));
    FaultIsNeverLost(Step(Final(Boot(sequence), history), AcceptEvent(CommandFault)), es);
  }

  /** Clients see it too, at every quiescent point after those nineteen steps. */
  lemma FaultReachesTheBlock(s: System, es: seq<Event>)
    requires FaultHeld(s) && Valid(s, es) && NoRestart(es)
    requires SsmEvents(es) >= 19 && Quiescent(Final(s, es))
    ensures Final(s, es).block.state == Fault && !Final(s, es).block.led
  {
    FaultStays(s, es);
    QuiescentBlockIsCurrent(Final(s, es));
  }

  // -------------------------------------------------------------- full run

  /** The device as it will be when the bookkeeping of a transition is done. */
  function Outlook(s: System): Device {
    match s.ssm
    case Wait => s.dev.Waited()
    case CountSpill(ret) => s.dev.Recorded(ret)
    case MarkTime(ret) => s.dev.Recorded(ret).(spills := s.dev.spills)
    case DarkenLed(ret) => s.dev.(led := s.dev.led && ret != Fault)
    case _ => s.dev
  }

  /** The device the SSM thread will leave behind if nobody else writes. */
  function Forecast(s: System): Device {
    Outlook(s).RunToFault()
  }

  /** A run() was accepted on device `d` and no other command since. */
  predicate Running(s: System, d: Device) {
    && Inv(s) && Forecast(s) == d.RunToFault()
    && (s.ssm == Finished ==> s.dev.state == Fault)
    && match s.ctl
       case Waiting => s.handle
       case Busy(RunOp, pos) => pos == 0 ==> !s.handle
       case _ => false
  }

  function RunWork(s: System): nat {
    match s.ctl
    case Busy(RunOp, pos) =>
      if pos == 0 then 10 * |s.dev.pending| + 18
      else if pos <= 7 then 7 - pos + SsmWork(s) else SsmWork(s)
    case _ => SsmWork(s)
  }

  lemma SsmKeepsOutlook(s: System)
    requires Enabled(s, SsmEvent) && s.ssm != Check
    ensures Outlook(SsmStep(s)) == if s.ssm.Publish? then s.dev else Outlook(s)
  {
  }

  /** The thread's own steps do not change what it will leave behind. */
  lemma SsmKeepsForecast(s: System)
    requires Enabled(s, SsmEvent)
    ensures Forecast(SsmStep(s)) == Forecast(s)
  {
    if s.ssm != Check {
      SsmKeepsOutlook(s);
    }
  }

  lemma RunScript(pos: nat)
    requires pos < 7
    ensures |Script(RunOp)| == 7
    ensures Script(RunOp)[pos] == if pos == 0 then Spawn else if pos == 1 then AssignHandle else PUBLISH[pos - 2]
    ensures pos > 1 ==> Script(RunOp)[pos].Copy?
  {
  }

  function InitializeAct(pos: nat): Act
    requires pos < 11
  {
    match pos
    case 0 => ZeroSpills
    case 1 => ZeroTime
    case 2 => WriteLed(true)
    case 3 => RefillSequence
    case 4 => Advance
    case 5 => WriteLed(true)
    case _ => PUBLISH[pos - 6]
  }

  lemma InitializeScript(pos: nat)
    requires pos < 11
    ensures |Script(InitializeOp)| == 11 && Script(InitializeOp)[pos] == InitializeAct(pos)
    ensures pos > 5 ==> InitializeAct(pos).Copy?
  {
    if pos > 5 {
      assert Script(InitializeOp)[pos] == PUBLISH[pos - 6];
    }
  }

  lemma InitializeStep(s: System, pos: nat)
    requires s.ctl == Busy(InitializeOp, pos) && pos < 11
    ensures Enabled(s, CtlEvent) && Script(InitializeOp)[pos] == InitializeAct(pos)
    ensures CtlStep(s) == Done(s, InitializeAct(pos)).(ctl := if pos < 10 then Busy(InitializeOp, pos + 1) else Waiting)
  {
    InitializeScript(pos);
  }

  /** The steps of run() itself neither touch the device nor add work. */
  lemma RunStepIsHarmless(s: System)
    requires Inv(s) && s.ctl.Busy? && s.ctl.op == RunOp && Enabled(s, CtlEvent)
    requires s.ctl.pos == 0 ==> !s.handle
    ensures var t := CtlStep(s);
            && t.dev == s.dev && t.ssm == (if s.ctl.pos == 0 then Check else s.ssm)
            && (s.ctl.pos == 0 ==> s.ssm == Absent)
            && t.ctl == (if s.ctl.pos == 6 then Waiting else Busy(RunOp, s.ctl.pos + 1))
            && (s.ctl.pos == 6 ==> t.handle)
  {
  }

  lemma RunningCtlStep(s: System, d: Device)
    requires Running(s, d) && Enabled(s, CtlEvent)
    ensures Running(CtlStep(s), d) && RunWork(CtlStep(s)) < RunWork(s)
  {
    StepKeepsInv(s, CtlEvent);
    RunStepIsHarmless(s);
    RunScript(s.ctl.pos);
  }

  lemma RunningSsmStep(s: System, d: Device)
    requires Running(s, d) && Enabled(s, SsmEvent)
    ensures Running(SsmStep(s), d) && RunWork(SsmStep(s)) < RunWork(s)
  {
    StepKeepsInv(s, SsmEvent);
    SsmStepWorks(s);
    SsmKeepsForecast(s);
    SsmStaysOnItsSide(s);
  }

  lemma SsmStaysOnItsSide(s: System)
    requires Enabled(s, SsmEvent)
    ensures var t := SsmStep(s);
            t.ctl == s.ctl && t.handle == s.handle && (t.ssm == Finished ==> t.dev.state == Fault)
  {
  }

  /** However run() and its thread interleave, the run is bounded and ends with
      the device that the loop alone would have made of it, published in full. */
  lemma {:induction false} StartedRunEnds(s: System, d: Device, es: seq<Event>)
    requires Running(s, d) && Valid(s, es) && OnlyThreads(es)
    ensures |es| <= RunWork(s)
    ensures var t := Final(s, es);
            || Enabled(t, CtlEvent) || Enabled(t, SsmEvent)
            || t == Ended(d)
    decreases |es|
  {
    if es != [] {
      assert !es[0].AcceptEvent?;
      if es[0] == CtlEvent {
        RunningCtlStep(s, d);
      } else {
        RunningSsmStep(s, d);
      }
      StartedRunEnds(Step(s, es[0]), d, es[1..]);
    } else if !Enabled(s, CtlEvent) && !Enabled(s, SsmEvent) {
      RunningStops(s, d);
    }
  }

  lemma RunningStops(s: System, d: Device)
    requires Running(s, d) && !Enabled(s, CtlEvent) && !Enabled(s, SsmEvent)
    ensures s == Ended(d)
  {
    ScriptTail(RunOp);
    QuiescentBlockIsCurrent(s);
  }

  /** A START accepted without a thread, whatever the device. */
  lemma AcceptedStart(s: System)
    requires Inv(s) && s.ctl == Waiting && !s.handle
    ensures var t := Step(s, AcceptEvent(CommandStart));
            Running(t, s.dev) && RunWork(t) == 10 * |s.dev.pending| + 18
  {
    StepKeepsInv(s, AcceptEvent(CommandStart));
  }

  /** What a complete run leaves behind. */
  function Ended(d: Device): System {
    System(d.RunToFault(), true, Snapshot(d.RunToFault(), true), Waiting, Finished)
  }

  /** After any history a START that finds no thread has a bounded run, which
      can end only with what the loop alone makes of the device, published. */
  lemma EveryStartEnds(sequence: seq<SpillState>, history: seq<Event>, es: seq<Event>)
    requires Valid(Boot(sequence), history)
    requires Final(Boot(sequence), history).ctl == Waiting && !Final(Boot(sequence), history).handle
    requires Valid(Step(Final(Boot(sequence), history), AcceptEvent(CommandStart)), es) && OnlyThreads(es)
    ensures var s := Final(Boot(sequence), history);
            var t := Final(Step(s, AcceptEvent(CommandStart)), es);
            && |es| <= 10 * |s.dev.pending| + 18
            && (Enabled(t, CtlEvent) || Enabled(t, SsmEvent) || t == Ended(s.dev))
  {
    var s := Final(Boot(sequence), history);
    EveryRunIsPublished(sequence, history);
    AcceptedStart(s);
    StartedRunEnds(Step(s, AcceptEvent(CommandStart)), s.dev, es);
  }

  /** What initialize has already made of the device at position `pos`. */
  predicate InitializeProgress(d: Device, pos: nat, before: Device) {
    && d.initial == before.initial
    && (pos > 0 ==> d.spills == 0)
    && (pos > 1 ==> d.timeInSpill == 0)
    && (pos > 2 ==> d.led)
    && (pos == 4 ==> d.pending == before.initial)
    && (pos > 4 ==> d.pending == before.Initialized().pending && d.state == before.Initialized().state)
  }

  predicate Initializing(s: System, before: Device) {
    && Inv(s) && !s.handle && s.ctl.Busy? && s.ctl.op == InitializeOp
    && InitializeProgress(s.dev, s.ctl.pos, before)
  }

  lemma InitializeProgresses(d: Device, pos: nat, before: Device, s: System)
    requires pos < 11 && s.dev == d && InitializeProgress(d, pos, before)
    ensures InitializeProgress(Done(s, InitializeAct(pos)).dev, pos + 1, before)
  {
    InitializeScript(pos);
  }

  lemma InitializingStep(s: System, before: Device)
    requires Initializing(s, before) && Enabled(s, CtlEvent)
    ensures var t := CtlStep(s);
            if s.ctl.pos == 10 then t == Idling(before.Initialized())
            else Initializing(t, before) && t.ctl.pos == s.ctl.pos + 1
  {
    StepKeepsInv(s, CtlEvent);
    InitializeStep(s, s.ctl.pos);
    InitializeProgresses(s.dev, s.ctl.pos, before, s);
    ThreadEffect(s, InitializeAct(s.ctl.pos));
    InitializeScript(s.ctl.pos);
    if s.ctl.pos == 10 {
      QuiescentBlockIsCurrent(CtlStep(s));
      assert CtlStep(s).dev == before.Initialized();
    }
  }

  /** A system without a thread that shows this device. */
  function Idling(d: Device): System {
    System(d, false, Snapshot(d, false), Waiting, Absent)
  }

  /** The block of an initialized machine: the first state, nothing counted, lit. */
  predicate ShowsFirst(block: Block, sequence: seq<SpillState>) {
    && block.state == (if sequence == [] then Fault else sequence[0])
    && block.spills == 0 && block.timeInSpill == 0 && !block.running && block.led
  }

  /** Without a thread an initialize has only one course. */
  lemma {:induction false} InitializeCompletes(s: System, before: Device, es: seq<Event>)
    requires Initializing(s, before) && Valid(s, es) && OnlyThreads(es)
    ensures |es| <= 11 - s.ctl.pos
    ensures Enabled(Final(s, es), CtlEvent) || Final(s, es) == Idling(before.Initialized())
    ensures Enabled(Final(s, es), CtlEvent) || ShowsFirst(Final(s, es).block, before.initial)
    decreases |es|
  {
    InitializeStep(s, s.ctl.pos);
    if es != [] {
      assert es[0] == CtlEvent;
      InitializingStep(s, before);
      if s.ctl.pos == 10 {
        NothingMoves(CtlStep(s), es[1..]);
      } else {
        InitializeCompletes(CtlStep(s), before, es[1..]);
      }
    }
  }

  /** Conservation of spills across both threads: START after a reset of a
      machine loaded with n spills counts all n of them and shows them in the block. */
  lemma EverySpillIsCounted(n: nat, es: seq<Event>)
    requires n > 0
    requires Valid(Step(Boot(SpillSequence(n)), AcceptEvent(CommandStart)), es) && OnlyThreads(es)
    ensures |es| <= 80 * n + 18
    ensures var t := Final(Step(Boot(SpillSequence(n)), AcceptEvent(CommandStart)), es);
            Enabled(t, CtlEvent) || Enabled(t, SsmEvent) || ShowsSpills(t, n)
  {
    SpillSequenceFacts(n);
    FullRunAfterReset(n, Fresh(SpillSequence(n)));
    EveryStartEnds(SpillSequence(n), [], es);
  }

  /** Both threads are at rest after n spills, and the block says so. */
  predicate ShowsSpills(s: System, n: nat) {
    s.block == Block(Fault, n, 107, true, false) && s.ctl == Waiting && s.ssm == Finished
  }

  /** The same after any history, when an initialize comes first and finds no
      thread: both operations are bounded and the n spills are counted. */
  lemma InitializedSpillsAreCounted(n: nat, history: seq<Event>, mid: seq<Event>, es: seq<Event>)
    requires n > 0 && Valid(Boot(SpillSequence(n)), history)
    requires Final(Boot(SpillSequence(n)), history).ctl == Waiting && !Final(Boot(SpillSequence(n)), history).handle
    requires var r := Step(Final(Boot(SpillSequence(n)), history), AcceptEvent(CommandSSMInit));
             && Valid(r, mid) && OnlyThreads(mid) && Final(r, mid).ctl == Waiting
             && Valid(Step(Final(r, mid), AcceptEvent(CommandStart)), es) && OnlyThreads(es)
    ensures |mid| <= 11 && |es| <= 80 * n + 8
    ensures var r := Step(Final(Boot(SpillSequence(n)), history), AcceptEvent(CommandSSMInit));
            var t := Final(Step(Final(r, mid), AcceptEvent(CommandStart)), es);
            Enabled(t, CtlEvent) || Enabled(t, SsmEvent) || ShowsSpills(t, n)
  {
    var s := Final(Boot(SpillSequence(n)), history);
    EveryRunIsPublished(SpillSequence(n), history);
    RunKeepsInitial(Boot(SpillSequence(n)), history);
    AcceptedInitialize(s, mid);
    StartAfterInitialize(n, s.dev, es);
  }

  lemma AcceptedInitialize(s: System, mid: seq<Event>)
    requires Inv(s) && s.ctl == Waiting && !s.handle
    requires Valid(Step(s, AcceptEvent(CommandSSMInit)), mid) && OnlyThreads(mid)
    requires Final(Step(s, AcceptEvent(CommandSSMInit)), mid).ctl == Waiting
    ensures |mid| <= 11 && Final(Step(s, AcceptEvent(CommandSSMInit)), mid) == Idling(s.dev.Initialized())
  {
    AcceptedIsInitializing(s);
    InitializeCompletes(Step(s, AcceptEvent(CommandSSMInit)), s.dev, mid);
  }

  lemma AcceptedIsInitializing(s: System)
    requires Inv(s) && s.ctl == Waiting && !s.handle
    ensures Initializing(Step(s, AcceptEvent(CommandSSMInit)), s.dev)
    ensures Step(s, AcceptEvent(CommandSSMInit)).ctl.pos == 0
  {
    StepKeepsInv(s, AcceptEvent(CommandSSMInit));
  }

  lemma StartAfterInitialize(n: nat, before: Device, es: seq<Event>)
    requires n > 0 && before.initial == SpillSequence(n)
    requires Valid(Step(Idling(before.Initialized()), AcceptEvent(CommandStart)), es) && OnlyThreads(es)
    ensures |es| <= 80 * n + 8
    ensures var t := Final(Step(Idling(before.Initialized()), AcceptEvent(CommandStart)), es);
            Enabled(t, CtlEvent) || Enabled(t, SsmEvent) || ShowsSpills(t, n)
  {
    var d := before.Initialized();
    InitializedFacts(n, before);
    FullRunAfterInitialize(n, before);
    IdlingInv(d);
    AcceptedStart(Idling(d));
    StartedRunEnds(Step(Idling(d), AcceptEvent(CommandStart)), d, es);
  }

  lemma IdlingInv(d: Device)
    ensures Inv(Idling(d))
  {
  }
}
