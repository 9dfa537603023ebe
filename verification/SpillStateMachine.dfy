/** The facade the daemon calls, in place and one call at a time: the thread
    that run() starts makes its steps when stop() joins it.  Every call is one
    of the runs of the two-thread model. */
module SpillStateMachines {
  import opened Api
  import opened SpillDevice
  import opened SSMDeviceDriver
  import opened SharedBlock
  import opened TwoThreads
  import opened ThreadTheorems

  /** The sequence ISSMDeviceDriver::factory loads. */
  function FactorySequence(driverId: string): seq<SpillState> {
    if driverId == "mock" then [BetweenCycles, StartCycle, BetweenSpills, Ramp, SpillState.Fault]
    else [SpillState.Fault]
  }

  function LoadedSequence(driverId: string, mockSpills: nat): seq<SpillState> {
    if mockSpills > 0 then SpillSequence(mockSpills) else FactorySequence(driverId)
  }

  /** What is loaded, in literals: as many spills as configured, else what the
      factory gives the mock driver, and a single FAULT for any other. */
  lemma LoadedIs(driverId: string, mockSpills: nat)
    ensures mockSpills > 0 ==>
              && |LoadedSequence(driverId, mockSpills)| == 8 * mockSpills
              && Count(LoadedSequence(driverId, mockSpills), Spill) == mockSpills
    ensures mockSpills == 0 && driverId == "mock" ==>
              LoadedSequence(driverId, mockSpills) == [BetweenCycles, StartCycle, BetweenSpills, Ramp, SpillState.Fault]
    ensures mockSpills == 0 && driverId != "mock" ==> LoadedSequence(driverId, mockSpills) == [SpillState.Fault]
  {
    SpillSequenceFacts(mockSpills);
  }

  function AfterFault(s: System): System {
    var d := s.dev.Faulted();
    s.(dev := d, block := Snapshot(d, s.handle))
  }

  function AfterInitialize(s: System): System {
    var d := s.dev.Initialized().(led := true);
    s.(dev := d, block := Snapshot(d, s.handle))
  }

  function AfterRun(s: System): System {
    s.(handle := true, ssm := Check, block := Snapshot(s.dev, true))
  }

  /** join lets the loop finish; without a thread stop() does nothing at all. */
  function AfterStop(s: System): System {
    if !s.handle then s
    else
      var d := s.dev.RunToFault().(led := false);
      System(d, false, Snapshot(d, false), s.ctl, Absent)
  }

  class SpillStateMachine {
    const ssmDev: SSMDeviceDriverMock
    const smb: SpillStateMachineSMB
    var thread: bool

    function Value(): System
      reads this, ssmDev, smb
    {
      System(ssmDev.Value(), thread, smb.Fields(), Waiting, if thread then Check else Absent)
    }

    ghost predicate Valid()
      reads this, smb, smb.actualSpillWaveFormData, smb.circularBuffer, smb.circularBuffer.buffer
    {
      smb.Valid()
    }

    ghost function Footprint(): set<object> {
      {this, ssmDev, smb, smb.idealSpillWaveFormData, smb.actualSpillWaveFormData, smb.errorSignalWaveFormData}
    }

    constructor (driverId: string, mockSpills: nat, mockDelay: nat, smb: SpillStateMachineSMB)
      requires smb.Valid()
      modifies smb, smb.idealSpillWaveFormData, smb.actualSpillWaveFormData, smb.errorSignalWaveFormData
      ensures Valid() && this.smb == smb && fresh(ssmDev) && smb.Drawn()
      ensures Value() == Boot(LoadedSequence(driverId, mockSpills)) && ssmDev.delay == mockDelay
    {
      ssmDev := new SSMDeviceDriverMock.FromSequence(FactorySequence(driverId));
      this.smb := smb;
      thread := false;
      new;
      ssmDev.Configure(mockSpills, mockDelay);
      SmbUpdate();
    }

    method Fault()
      requires Valid()
      modifies Footprint()
      ensures Valid() && smb.Drawn() && Value() == AfterFault(old(Value())) && ssmDev.delay == old(ssmDev.delay)
    {
      ssmDev.Fault();
      ssmDev.LedOff();
      SmbUpdate();
    }

    method Initialize()
      requires Valid()
      modifies Footprint()
      ensures Valid() && smb.Drawn() && Value() == AfterInitialize(old(Value()))
      ensures ssmDev.delay == old(ssmDev.delay)
      ensures ssmDev.led && smb.led && smb.spillCounter == 0 && smb.timeInSpill == 0
      ensures ssmDev.initialSequence != [] ==> smb.currentState == ssmDev.initialSequence[0]
    {
      ssmDev.Initialize();
      ssmDev.LedOn();
      SmbUpdate();
    }

    method Reset()
      requires Valid()
      modifies Footprint()
      ensures Valid() && smb.Drawn() && Value() == Boot(old(Value()).dev.initial) && ssmDev.delay == 0
    {
      RunKeepsSequence(ssmDev.Value());
      Stop();
      ssmDev.LedOff();
      ssmDev.Reset();
      SmbUpdate();
    }

    /** Replacing a live handle terminates the process before anything is published. */
    method Run() returns (terminated: bool)
      requires Valid()
      modifies Footprint()
      ensures Valid() && terminated == old(thread)
      ensures if terminated then Value() == old(Value()) else Value() == AfterRun(old(Value())) && smb.Drawn()
    {
      if thread {
        return true;
      }
      thread := true;
      SmbUpdate();
      terminated := false;
    }

    method Stop()
      requires Valid()
      modifies Footprint()
      ensures Valid() && Value() == AfterStop(old(Value())) && ssmDev.delay == old(ssmDev.delay)
    {
      if !thread {
        return;
      }
      ThreadBody();
      thread := false;
      ssmDev.LedOff();
      SmbUpdate();
    }

    /** The body of the SSM thread; it ends because a sequence that runs out is a FAULT. */
    method ThreadBody()
      requires Valid()
      modifies Footprint() - {this}
      ensures Valid() && ssmDev.Value() == old(ssmDev.Value()).RunToFault() && ssmDev.state == SpillState.Fault
      ensures ssmDev.delay == old(ssmDev.delay)
      ensures old(ssmDev.state) != SpillState.Fault ==> smb.Fields() == Snapshot(ssmDev.Value(), thread)
    {
      while ssmDev.state != SpillState.Fault
        invariant Valid() && ssmDev.delay == old(ssmDev.delay)
        invariant ssmDev.Value().RunToFault() == old(ssmDev.Value()).RunToFault()
        invariant ssmDev.Value() == old(ssmDev.Value()) || smb.Fields() == Snapshot(ssmDev.Value(), thread)
        decreases if ssmDev.state == SpillState.Fault then 0 else |ssmDev.stateSequence| + 1
      {
        var _ := ssmDev.WaitForStateChange();
        SmbUpdate();
      }
    }

    method SmbUpdate()
      requires Valid()
      modifies Footprint() - {this, ssmDev}
      ensures Valid() && smb.Drawn() && smb.Fields() == Snapshot(ssmDev.Value(), thread)
      ensures smb.currentState == ssmDev.state && smb.spillCounter == ssmDev.spillCount
      ensures smb.timeInSpill == ssmDev.timeInSpill && smb.threadRunning == thread && smb.led == ssmDev.led
    {
      smb.currentState := ssmDev.state;
      smb.spillCounter := ssmDev.spillCount;
      smb.timeInSpill := ssmDev.timeInSpill;
      smb.threadRunning := thread;
      smb.led := ssmDev.led;
      smb.Initialize();
    }
  }

  lemma {:induction false} RunKeepsSequence(d: Device)
    ensures d.RunToFault().initial == d.initial && d.RunToFault().state == SpillState.Fault
    decreases if d.state == SpillState.Fault then 0 else |d.pending| + 1
  {
    if d.state != SpillState.Fault {
      RunKeepsSequence(d.Waited());
    }
  }

  // ---------------------------------------------- calls are runs of the model

  /** Executing the rest of a script that neither waits nor branches. */
  function Effect(s: System, acts: seq<Act>): System
    decreases |acts|
  {
    if acts == [] then s else Effect(Done(s, acts[0]), acts[1..])
  }

  predicate Straight(acts: seq<Act>) {
    forall i :: 0 <= i < |acts| ==> acts[i] != SkipIfNull && acts[i] != Join && acts[i] != Spawn
  }

  lemma PlainStep(s: System, op: Op, pos: nat)
    requires s.ctl == Busy(op, pos) && pos < |Script(op)| && Straight(Script(op)[pos..])
    ensures Enabled(s, CtlEvent) && CtlStep(s) == Done(s, Script(op)[pos]).(ctl := MoveTo(op, pos + 1))
  {
    assert Script(op)[pos..][0] == Script(op)[pos];
  }

  /** Some run of the two threads alone leads from s to t. */
  ghost predicate Reaches(s: System, t: System) {
    exists es: seq<Event> :: Valid(s, es) && OnlyThreads(es) && Final(s, es) == t
  }

  predicate OnlyControls(es: seq<Event>) {
    forall i :: 0 <= i < |es| ==> es[i] == CtlEvent
  }

  /** Some run of the controller alone does. */
  ghost predicate ReachesAlone(s: System, t: System) {
    exists es: seq<Event> :: Valid(s, es) && OnlyControls(es) && Final(s, es) == t
  }

  lemma AloneReaches(s: System, t: System)
    requires ReachesAlone(s, t)
    ensures Reaches(s, t)
  {
    var es: seq<Event> :| Valid(s, es) && OnlyControls(es) && Final(s, es) == t;
    assert OnlyThreads(es);
  }

  lemma StepReaches(s: System, t: System)
    requires Enabled(s, CtlEvent) && ReachesAlone(CtlStep(s), t)
    ensures ReachesAlone(s, t)
  {
    var es: seq<Event> :| Valid(CtlStep(s), es) && OnlyControls(es) && Final(CtlStep(s), es) == t;
    StepThenRun(s, CtlEvent, es);
    assert OnlyControls([CtlEvent] + es);
  }

  lemma StaysReaches(s: System)
    ensures ReachesAlone(s, s)
  {
    assert Valid(s, []) && OnlyControls([]) && Final(s, []) == s;
  }

  /** The controller alone completes a script from any position. */
  lemma {:induction false} ScriptAlone(s: System, op: Op, pos: nat)
    requires op != StopOp && pos <= |Script(op)| && Straight(Script(op)[pos..])
    requires s.ctl == if pos == |Script(op)| then Waiting else Busy(op, pos)
    ensures ReachesAlone(s, Effect(s, Script(op)[pos..]).(ctl := Waiting))
    decreases |Script(op)| - pos
  {
    var acts := Script(op)[pos..];
    if acts == [] {
      StaysReaches(s);
    } else {
      PlainStep(s, op, pos);
      var t := CtlStep(s);
      assert acts[1..] == Script(op)[pos + 1..];
      ScriptAlone(t, op, pos + 1);
      EffectIgnoresCtl(Done(s, acts[0]), acts[1..], t.ctl);
      StepReaches(s, Effect(s, acts).(ctl := Waiting));
    }
  }

  lemma {:induction false} EffectIgnoresCtl(s: System, acts: seq<Act>, ctl: Ctl)
    ensures Effect(s.(ctl := ctl), acts) == Effect(s, acts).(ctl := ctl)
    ensures Effect(s, acts).ctl == s.ctl
    decreases |acts|
  {
    if acts != [] {
      EffectIgnoresCtl(Done(s, acts[0]), acts[1..], ctl);
    }
  }

  lemma {:induction false} EffectConcat(s: System, a: seq<Act>, b: seq<Act>)
    ensures Effect(s, a + b) == Effect(Effect(s, a), b)
    decreases |a|
  {
    if a == [] {
      assert a + b == b;
    } else {
      assert (a + b)[0] == a[0] && (a + b)[1..] == a[1..] + b;
      EffectConcat(Done(s, a[0]), a[1..], b);
    }
  }

  lemma EffectOfOne(s: System, a: Act)
    ensures Effect(s, [a]) == Done(s, a)
  {
  }

  lemma EffectOfTwo(s: System, a: Act, b: Act)
    ensures Effect(s, [a, b]) == Done(Done(s, a), b)
  {
    assert [a, b][1..] == [b];
    EffectOfOne(Done(s, a), b);
  }

  lemma EffectOfFour(s: System, a: Act, b: Act, c: Act, d: Act)
    ensures Effect(s, [a, b, c, d]) == Done(Done(Done(Done(s, a), b), c), d)
  {
    EffectOfTwo(s, a, b);
    EffectOfTwo(Done(Done(s, a), b), c, d);
    EffectConcat(s, [a, b], [c, d]);
    assert [a, b, c, d] == [a, b] + [c, d];
  }

  lemma PublishEffect(s: System)
    ensures Effect(s, PUBLISH) == s.(block := Snapshot(s.dev, s.handle))
  {
  }

  lemma FaultEffect(s: System)
    ensures Effect(s, Script(FaultOp)) == AfterFault(s)
  {
  }

  const INITIALIZE_WRITES: seq<Act> :=
    [ZeroSpills, ZeroTime, WriteLed(true), RefillSequence] + [Advance, WriteLed(true)]

  lemma InitializeWrites(s: System)
    ensures Effect(s, INITIALIZE_WRITES) == s.(dev := s.dev.Initialized().(led := true))
  {
    var a, b := [ZeroSpills, ZeroTime, WriteLed(true), RefillSequence], [Advance, WriteLed(true)];
    EffectConcat(s, a, b);
    EffectOfFour(s, ZeroSpills, ZeroTime, WriteLed(true), RefillSequence);
    EffectOfTwo(Effect(s, a), Advance, WriteLed(true));
  }

  lemma InitializeEffect(s: System)
    ensures Effect(s, Script(InitializeOp)) == AfterInitialize(s)
  {
    assert Script(InitializeOp) == INITIALIZE_WRITES + PUBLISH;
    EffectConcat(s, INITIALIZE_WRITES, PUBLISH);
    InitializeWrites(s);
    PublishEffect(s.(dev := s.dev.Initialized().(led := true)));
  }

  /** Some run of the two threads takes an accepted command from s to t. */
  ghost predicate Leads(s: System, command: Command, t: System) {
    Enabled(s, AcceptEvent(command)) && Reaches(Step(s, AcceptEvent(command)), t)
  }

  lemma FaultAlone(s: System)
    requires s.ctl == Waiting
    ensures ReachesAlone(Step(s, AcceptEvent(CommandFault)), AfterFault(s))
  {
    WholeReaches(s.(ctl := Busy(FaultOp, 0)), FaultOp);
    FaultEffect(s.(ctl := Busy(FaultOp, 0)));
  }

  lemma FaultIsARun(s: System)
    requires s.ctl == Waiting
    ensures Leads(s, CommandFault, AfterFault(s))
  {
    FaultAlone(s);
    AloneReaches(Step(s, AcceptEvent(CommandFault)), AfterFault(s));
  }

  lemma InitializeAlone(s: System)
    requires s.ctl == Waiting
    ensures ReachesAlone(Step(s, AcceptEvent(CommandSSMInit)), AfterInitialize(s))
  {
    WholeReaches(s.(ctl := Busy(InitializeOp, 0)), InitializeOp);
    InitializeEffect(s.(ctl := Busy(InitializeOp, 0)));
  }

  lemma InitializeIsARun(s: System)
    requires s.ctl == Waiting
    ensures Leads(s, CommandSSMInit, AfterInitialize(s))
  {
    InitializeAlone(s);
    AloneReaches(Step(s, AcceptEvent(CommandSSMInit)), AfterInitialize(s));
  }

  lemma WholeReaches(s: System, op: Op)
    requires (op == FaultOp || op == InitializeOp) && s.ctl == Busy(op, 0)
    ensures ReachesAlone(s, Effect(s, Script(op)).(ctl := Waiting))
  {
    NoBranches(op);
    ScriptTail(op);
    assert Script(op)[0..] == Script(op);
    ScriptAlone(s, op, 0);
  }

  lemma NoBranches(op: Op)
    requires op == FaultOp || op == InitializeOp
    ensures Straight(Script(op))
  {
  }

  /** run() after the thread was spawned. */
  lemma RunEffect(t: System)
    ensures Effect(t, Script(RunOp)[1..]) == t.(handle := true, block := Snapshot(t.dev, true))
    ensures Straight(Script(RunOp)[1..])
  {
    assert Script(RunOp)[1..] == [AssignHandle] + PUBLISH;
    EffectConcat(t, [AssignHandle], PUBLISH);
    EffectOfOne(t, AssignHandle);
    PublishEffect(Done(t, AssignHandle));
  }

  lemma SpawnStep(s: System)
    requires s.ctl == Busy(RunOp, 0) && !s.handle
    ensures Enabled(s, CtlEvent) && CtlStep(s) == s.(ssm := Check, ctl := Busy(RunOp, 1))
  {
  }

  lemma RunAlone(s: System)
    requires s.ctl == Waiting && !s.handle && s.ssm == Absent
    ensures ReachesAlone(Step(s, AcceptEvent(CommandStart)), AfterRun(s))
  {
    var r := Step(s, AcceptEvent(CommandStart));
    SpawnStep(r);
    RunEffect(CtlStep(r));
    ScriptAlone(CtlStep(r), RunOp, 1);
    StepReaches(r, AfterRun(s));
  }

  lemma RunIsARun(s: System)
    requires s.ctl == Waiting && !s.handle && s.ssm == Absent
    ensures Leads(s, CommandStart, AfterRun(s))
  {
    RunAlone(s);
    AloneReaches(Step(s, AcceptEvent(CommandStart)), AfterRun(s));
  }

  lemma ResetIsARun(s: System)
    requires Inv(s) && s.ctl == Waiting
    ensures Leads(s, CommandReset, Boot(s.dev.initial))
  {
    var r := Step(s, AcceptEvent(CommandReset));
    StepKeepsInv(s, AcceptEvent(CommandReset));
    ResetScript(0);
    var es := ResetRun(r);
  }

  /** A schedule that completes a reset. */
  lemma {:induction false} ResetRun(s: System) returns (es: seq<Event>)
    requires Resetting(s, s.dev.initial)
    ensures Valid(s, es) && OnlyThreads(es) && Final(s, es) == Boot(s.dev.initial)
    decreases ResetWork(s)
  {
    ResetProceeds(s, s.dev.initial);
    var e := if Enabled(s, CtlEvent) then CtlEvent else SsmEvent;
    if e == CtlEvent {
      ResetCtlStep(s, s.dev.initial);
    } else {
      ResetSsmStep(s, s.dev.initial);
    }
    var t := Step(s, e);
    var rest := [];
    if t.ctl != Waiting {
      rest := ResetRun(t);
    }
    es := [e] + rest;
    assert es[1..] == rest;
  }
}
