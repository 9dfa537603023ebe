/** What publication owes to whole copies.  The source copies a field with a
    getter and a setter; here a thread may read the device in one step and write
    the block in a later one.  With `split` off this is the model of TwoThreads. */
module SplitCopies {
  import Sequences
  import opened Wrappers
  import opened Api
  import opened SpillDevice
  import opened TwoThreads
  import opened ThreadTheorems

  /** A system, and what each thread has read and not yet written. */
  datatype Machine = Machine(sys: System, ctlRead: Option<Block>, ssmRead: Option<Block>)

  function Settled(s: System): Machine {
    Machine(s, None, None)
  }

  predicate AtCopy(ctl: Ctl) {
    ctl.Busy? && ctl.pos < |Script(ctl.op)| && Script(ctl.op)[ctl.pos].Copy?
  }

  function Stepped(split: bool, m: Machine, e: Event): Machine
    requires Enabled(m.sys, e)
  {
    if split && e == CtlEvent && AtCopy(m.sys.ctl) then CtlHalfCopy(m)
    else if split && e == SsmEvent && m.sys.ssm.Publish? then SsmHalfCopy(m)
    else m.(sys := Step(m.sys, e))
  }

  function CtlHalfCopy(m: Machine): Machine
    requires AtCopy(m.sys.ctl)
  {
    var Busy(op, pos) := m.sys.ctl;
    match m.ctlRead
    case None => m.(ctlRead := Some(Snapshot(m.sys.dev, m.sys.handle)))
    case Some(read) =>
      m.(sys := m.sys.(block := m.sys.block.Written(Script(op)[pos].field, read), ctl := MoveTo(op, pos + 1)),
         ctlRead := None)
  }

  function SsmHalfCopy(m: Machine): Machine
    requires m.sys.ssm.Publish?
  {
    var f := m.sys.ssm.field;
    match m.ssmRead
    case None => m.(ssmRead := Some(Snapshot(m.sys.dev, m.sys.handle)))
    case Some(read) =>
      m.(sys := m.sys.(block := m.sys.block.Written(f, read), ssm := AfterCopy(f)), ssmRead := None)
  }

  predicate Possible(split: bool, m: Machine, es: seq<Event>)
    decreases |es|
  {
    es == [] || (Enabled(m.sys, es[0]) && Possible(split, Stepped(split, m, es[0]), es[1..]))
  }

  function Last(split: bool, m: Machine, es: seq<Event>): Machine
    requires Possible(split, m, es)
    decreases |es|
  {
    if es == [] then m else Last(split, Stepped(split, m, es[0]), es[1..])
  }

  lemma {:induction false} WholeCopies(m: Machine, es: seq<Event>)
    ensures Possible(false, m, es) <==> Valid(m.sys, es)
    ensures Possible(false, m, es) ==> Last(false, m, es) == m.(sys := Final(m.sys, es))
    decreases |es|
  {
    if es != [] && Enabled(m.sys, es[0]) {
      WholeCopies(Stepped(false, m, es[0]), es[1..]);
    }
  }

  lemma {:induction false} Onward(split: bool, m: Machine, a: seq<Event>, b: seq<Event>)
    requires Possible(split, m, a) && Possible(split, Last(split, m, a), b)
    ensures Possible(split, m, a + b) && Last(split, m, a + b) == Last(split, Last(split, m, a), b)
    decreases |a|
  {
    if a == [] {
      assert a + b == b;
    } else {
      Onward(split, Stepped(split, m, a[0]), a[1..], b);
      Prepend(split, m, a[0], a[1..] + b);
      Sequences.FirstOfConcat(a, b);
    }
  }

  lemma OneStep(split: bool, m: Machine, e: Event)
    requires Enabled(m.sys, e)
    ensures Possible(split, m, [e]) && Last(split, m, [e]) == Stepped(split, m, e)
  {
    assert [e][1..] == [];
  }

  lemma Prepend(split: bool, m: Machine, e: Event, es: seq<Event>)
    requires Enabled(m.sys, e) && Possible(split, Stepped(split, m, e), es)
    ensures Possible(split, m, [e] + es) && Last(split, m, [e] + es) == Last(split, Stepped(split, m, e), es)
  {
    Sequences.RestOfCons(e, es);
  }

  // ------------------------------------------------- what does not depend on it

  /** The same up to what the block shows. */
  predicate SameButBlock(s: System, t: System) {
    s.(block := t.block) == t
  }

  /** How many reads are waiting for their write. */
  function Reads(m: Machine): nat {
    (if m.ctlRead.Some? then 1 else 0) + (if m.ssmRead.Some? then 1 else 0)
  }

  /** Only the block can tell a run with split copies from one with whole ones:
      leaving out the reads makes it a run of TwoThreads with the same device,
      handle and positions. */
  lemma {:induction false} SplitRunsAreRuns(m: Machine, s: System, es: seq<Event>) returns (whole: seq<Event>)
    requires SameButBlock(m.sys, s) && Possible(true, m, es)
    ensures Valid(s, whole) && SameButBlock(Last(true, m, es).sys, Final(s, whole))
    ensures |es| + Reads(m) <= 2 * |whole| + Reads(Last(true, m, es))
    ensures OnlyThreads(es) ==> OnlyThreads(whole)
    decreases |es|
  {
    whole := [];
    if es != [] {
      var t := Stepped(true, m, es[0]);
      StepIsAStep(m, s, es[0]);
      if SameButBlock(t.sys, s) {
        whole := SplitRunsAreRuns(t, s, es[1..]);
      } else {
        var rest := SplitRunsAreRuns(t, Step(s, es[0]), es[1..]);
        whole := [es[0]] + rest;
        Sequences.RestOfCons(es[0], rest);
      }
    }
  }

  lemma StepIsAStep(m: Machine, s: System, e: Event)
    requires SameButBlock(m.sys, s) && Enabled(m.sys, e)
    ensures Enabled(s, e)
    ensures var t := Stepped(true, m, e); SameButBlock(t.sys, s) || SameButBlock(t.sys, Step(s, e))
  {
  }

  // ------------------------------------------------------ parts of schedules

  /** What the complete rest of a publication leaves in the field of this rank. */
  function Left<T>(place: nat, rank: nat, read: Option<T>, written: T, now: T): T {
    if place > rank then written else if place == rank && read.Some? then read.value else now
  }

  /** The controller is at one of the final copies of an operation. */
  predicate InPublish(m: Machine) {
    && m.sys.ctl.Busy? && m.sys.ctl.op != StopOp
    && |Script(m.sys.ctl.op)| - 5 <= m.sys.ctl.pos < |Script(m.sys.ctl.op)|
  }

  /** At which of them. */
  function Place(m: Machine): nat
    requires InPublish(m)
  {
    m.sys.ctl.pos - (|Script(m.sys.ctl.op)| - 5)
  }

  function StateRead(m: Machine): Option<SpillState> {
    if m.ctlRead.Some? then Some(m.ctlRead.value.state) else None
  }

  function FlagRead(m: Machine): Option<bool> {
    if m.ctlRead.Some? then Some(m.ctlRead.value.running) else None
  }

  /** The controller completes the operation undisturbed. */
  predicate PublishCompleted(m: Machine, t: Machine)
    requires InPublish(m)
  {
    && t == m.(sys := m.sys.(ctl := Waiting, block := t.sys.block), ctlRead := None)
    && t.sys.block.state == Left(Place(m), 0, StateRead(m), m.sys.block.state, m.sys.dev.state)
    && t.sys.block.running == Left(Place(m), 3, FlagRead(m), m.sys.block.running, m.sys.handle)
  }

  lemma HalfCopyOfTail(m: Machine)
    requires InPublish(m)
    ensures AtCopy(m.sys.ctl) && Enabled(m.sys, CtlEvent) && Stepped(true, m, CtlEvent) == CtlHalfCopy(m)
    ensures var Busy(op, pos) := m.sys.ctl;
            CtlHalfCopy(m) == match m.ctlRead
                              case None => m.(ctlRead := Some(Snapshot(m.sys.dev, m.sys.handle)))
                              case Some(read) =>
                                m.(sys := m.sys.(block := m.sys.block.Written(PUBLISH[Place(m)].field, read),
                                                 ctl := if Place(m) == 4 then Waiting else Busy(op, pos + 1)),
                                   ctlRead := None)
  {
    var Busy(op, pos) := m.sys.ctl;
    ScriptTail(op);
    assert Script(op)[pos] == PUBLISH[Place(m)];
  }

  lemma {:induction false} CompletePublish(m: Machine) returns (es: seq<Event>)
    requires InPublish(m)
    ensures Possible(true, m, es) && OnlyThreads(es) && PublishCompleted(m, Last(true, m, es))
    decreases 5 - Place(m), if m.ctlRead.None? then 1 else 0
  {
    HalfCopyOfTail(m);
    var t := CtlHalfCopy(m);
    if InPublish(t) {
      var rest := CompletePublish(t);
      es := [CtlEvent] + rest;
      Prepend(true, m, CtlEvent, rest);
    } else {
      es := [CtlEvent];
      OneStep(true, m, CtlEvent);
    }
  }

  /** The thread has read nothing unless it stands at a copy. */
  predicate Sound(m: Machine) {
    m.ssmRead.Some? ==> m.sys.ssm.Publish?
  }

  /** The thread runs until it ends, while the controller rests. */
  lemma {:induction false} ThreadRunsOut(m: Machine) returns (es: seq<Event>)
    requires Sound(m) && Looping(m.sys) && m.sys.ctl != Crashed
    ensures Possible(true, m, es) && OnlyThreads(es)
    ensures var t := Last(true, m, es);
            && t.sys.ssm == Finished && t.sys.dev.state == Fault && t.ssmRead == None
            && t.sys.ctl == m.sys.ctl && t.sys.handle == m.sys.handle && t.ctlRead == m.ctlRead
    decreases SsmWork(m.sys), if m.ssmRead.None? then 1 else 0
  {
    SsmStepWorks(m.sys);
    ThreadSteps(m);
    var t := Stepped(true, m, SsmEvent);
    if t.sys.ssm == Finished {
      es := [SsmEvent];
      OneStep(true, m, SsmEvent);
    } else {
      var rest := ThreadRunsOut(t);
      es := [SsmEvent] + rest;
      Prepend(true, m, SsmEvent, rest);
    }
  }

  /** A step of the thread, whole or half. */
  lemma ThreadSteps(m: Machine)
    requires Sound(m) && Looping(m.sys) && m.sys.ctl != Crashed
    ensures Enabled(m.sys, SsmEvent)
    ensures var t := Stepped(true, m, SsmEvent);
            && Sound(t) && t.sys.ctl == m.sys.ctl && t.sys.handle == m.sys.handle && t.ctlRead == m.ctlRead
            && (Looping(t.sys) || (t.sys.ssm == Finished && t.sys.dev.state == Fault && t.ssmRead == None))
            && if m.sys.ssm.Publish? && m.ssmRead.None? then t.ssmRead.Some? && t.sys == m.sys
               else t.ssmRead == None && SsmWork(t.sys) == SsmWork(SsmStep(m.sys))
  {
  }

  /** The thread is on its way to the copy of its flag, which it has not read as set. */
  predicate BeforeFlag(m: Machine) {
    && Sound(m) && !m.sys.handle && !m.sys.block.running && m.sys.ctl != Crashed
    && (m.ssmRead.Some? ==> !m.ssmRead.value.running)
    && match m.sys.ssm
       case Absent => false
       case Finished => false
       case Check => m.sys.dev.state != Fault
       case Publish(f) => Rank(f) <= 3
       case _ => true
  }

  function FlagWork(m: Machine): nat
    requires BeforeFlag(m)
  {
    match m.sys.ssm
    case Check => 12
    case Wait => 11
    case CountSpill(_) => 10
    case MarkTime(_) => 9
    case DarkenLed(_) => 8
    case Publish(f) => 2 * (3 - Rank(f)) + (if m.ssmRead.None? then 1 else 0)
  }

  predicate HoldsOldFlag(m: Machine) {
    m.sys.ssm == Publish(RunningField) && m.ssmRead.Some? && !m.ssmRead.value.running
  }

  lemma {:induction false} ReadFlag(m: Machine) returns (es: seq<Event>)
    requires BeforeFlag(m)
    ensures Possible(true, m, es) && OnlyThreads(es)
    ensures var t := Last(true, m, es);
            && BeforeFlag(t) && HoldsOldFlag(t) && t.sys.ctl == m.sys.ctl && t.ctlRead == m.ctlRead
    decreases FlagWork(m)
  {
    if HoldsOldFlag(m) {
      es := [];
    } else {
      TowardsFlag(m);
      var rest := ReadFlag(Stepped(true, m, SsmEvent));
      es := [SsmEvent] + rest;
      Prepend(true, m, SsmEvent, rest);
    }
  }

  lemma TowardsFlag(m: Machine)
    requires BeforeFlag(m) && !HoldsOldFlag(m)
    ensures Enabled(m.sys, SsmEvent)
    ensures var t := Stepped(true, m, SsmEvent);
            BeforeFlag(t) && FlagWork(t) < FlagWork(m) && t.sys.ctl == m.sys.ctl && t.ctlRead == m.ctlRead
  {
  }

  // ------------------------------------------------------------ stale copies

  /** A START was just received by a machine without a thread. */
  predicate Starting(m: Machine) {
    && m.sys.ctl == Busy(RunOp, 0) && m.ctlRead == None && m.ssmRead == None
    && !m.sys.handle && m.sys.ssm == Absent && !m.sys.block.running && m.sys.dev.state != Fault
  }

  /** run() is over and has published its flag, and the thread is about to
      write the flag it read before. */
  predicate FlagInDanger(m: Machine) {
    && m.sys.ctl == Waiting && m.sys.handle && m.sys.block.running && m.ctlRead == None && HoldsOldFlag(m)
  }

  lemma FlagGetsInDanger(m: Machine) returns (es: seq<Event>)
    requires Starting(m)
    ensures Possible(true, m, es) && OnlyThreads(es) && FlagInDanger(Last(true, m, es))
  {
    var spawned := SpawnedBy(m);
    var look := ReadFlag(spawned);
    var looked := Last(true, spawned, look);
    var holding := AssignedBy(looked);
    var finish := CompletePublish(holding);
    Prepend(true, looked, CtlEvent, finish);
    Onward(true, spawned, look, [CtlEvent] + finish);
    Prepend(true, m, CtlEvent, look + ([CtlEvent] + finish));
    es := [CtlEvent] + (look + ([CtlEvent] + finish));
  }

  lemma SpawnedBy(m: Machine) returns (t: Machine)
    requires Starting(m)
    ensures Enabled(m.sys, CtlEvent) && t == Stepped(true, m, CtlEvent)
    ensures t == m.(sys := m.sys.(ctl := Busy(RunOp, 1), ssm := Check))
  {
    RunScript(0);
    t := Stepped(true, m, CtlEvent);
  }

  lemma AssignedBy(m: Machine) returns (t: Machine)
    requires m.sys.ctl == Busy(RunOp, 1)
    ensures Enabled(m.sys, CtlEvent) && t == Stepped(true, m, CtlEvent)
    ensures t == m.(sys := m.sys.(ctl := Busy(RunOp, 2), handle := true))
  {
    RunScript(1);
    t := Stepped(true, m, CtlEvent);
  }

  /** The thread then clears the flag of a machine that has a handle. */
  lemma FlagIsCleared(m: Machine)
    requires FlagInDanger(m)
    ensures Enabled(m.sys, SsmEvent)
    ensures var t := Stepped(true, m, SsmEvent);
            t.sys.ctl == Waiting && t.sys.handle && !t.sys.block.running && t.ctlRead == None && t.ssmRead == None
  {
  }

  // ----------------------------------------------------- what depends on it

  /** Both threads are at rest, with the device in FAULT. */
  predicate AtRestInFault(m: Machine) {
    && m.sys.ctl == Waiting && m.sys.ssm == Finished && m.ctlRead == None && m.ssmRead == None
    && m.sys.dev.state == Fault
  }

  predicate Owing(m: Machine) {
    m.ctlRead.Some? || m.ssmRead.Some? || !Quiescent(m.sys)
  }

  /** In every run the block is current wherever neither thread owes a copy. */
  ghost predicate AlwaysCurrent(split: bool, sequence: seq<SpillState>) {
    forall es: seq<Event> :: Possible(split, Settled(Boot(sequence)), es) ==>
      var m := Last(split, Settled(Boot(sequence)), es);
      Owing(m) || m.sys.block == Snapshot(m.sys.dev, m.sys.handle)
  }

  /** In every run a machine that came to rest in FAULT shows it. */
  ghost predicate FaultsAreShown(split: bool, sequence: seq<SpillState>) {
    forall es: seq<Event> :: Possible(split, Settled(Boot(sequence)), es) ==>
      var m := Last(split, Settled(Boot(sequence)), es);
      AtRestInFault(m) ==> m.sys.block.state == Fault
  }

  lemma FaultRestIsSettled(m: Machine)
    requires AtRestInFault(m)
    ensures !Owing(m)
  {
  }

  /** run() reads IDLE, the thread runs to its end, and run() writes IDLE. */
  lemma FaultGetsHidden(sequence: seq<SpillState>) returns (es: seq<Event>)
    ensures Possible(true, Settled(Boot(sequence)), es)
    ensures AtRestInFault(Last(true, Settled(Boot(sequence)), es))
    ensures Last(true, Settled(Boot(sequence)), es).sys.block.state == Idle
  {
    var m := Settled(Boot(sequence));
    var started := Stepped(true, m, AcceptEvent(CommandStart));
    var spawned := SpawnedBy(started);
    var holding := AssignedBy(spawned);
    HalfCopyOfTail(holding);
    var looked := CtlHalfCopy(holding);
    var out := ThreadRunsOut(looked);
    var finish := CompletePublish(Last(true, looked, out));
    Onward(true, looked, out, finish);
    Prepend(true, holding, CtlEvent, out + finish);
    Prepend(true, spawned, CtlEvent, [CtlEvent] + (out + finish));
    Prepend(true, started, CtlEvent, [CtlEvent] + ([CtlEvent] + (out + finish)));
    Prepend(true, m, AcceptEvent(CommandStart), [CtlEvent] + ([CtlEvent] + ([CtlEvent] + (out + finish))));
    es := [AcceptEvent(CommandStart)] + ([CtlEvent] + ([CtlEvent] + ([CtlEvent] + (out + finish))));
  }

  /** Whatever the loaded sequence, publication is right in every run exactly if
      no copy can be interrupted between its read and its write. */
  lemma PublishedIffWhole(split: bool, sequence: seq<SpillState>)
    ensures AlwaysCurrent(split, sequence) <==> !split
    ensures FaultsAreShown(split, sequence) <==> !split
  {
    var boot := Settled(Boot(sequence));
    if split {
      var es := FaultGetsHidden(sequence);
      FaultRestIsSettled(Last(true, boot, es));
    } else {
      forall es: seq<Event> | Possible(false, boot, es)
        ensures var m := Last(false, boot, es);
                && (Owing(m) || m.sys.block == Snapshot(m.sys.dev, m.sys.handle))
                && (AtRestInFault(m) ==> m.sys.block.state == Fault)
      {
        WholeCopies(boot, es);
        EveryRunIsPublished(sequence, es);
        var m := Last(false, boot, es);
        if AtRestInFault(m) {
          FaultRestIsSettled(m);
        }
        if !Owing(m) {
          QuiescentBlockIsCurrent(m.sys);
        }
      }
    }
  }
}
