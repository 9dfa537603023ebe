/** The controller thread and the SSM thread on one unlocked driver and one
    shared block, step by step.  The controller's program counter is a position
    in the script of the operation it executes; every script line is one step. */
module TwoThreads {
  import Sequences
  import opened Api
  import opened SpillDevice

  /** The published fields, in the order in which they are copied. */
  datatype Field = StateField | SpillField | TimeField | RunningField | LedField

  function Rank(f: Field): nat {
    match f
    case StateField => 0
    case SpillField => 1
    case TimeField => 2
    case RunningField => 3
    case LedField => 4
  }

  datatype Block = Block(state: SpillState, spills: nat, timeInSpill: nat, running: bool, led: bool)
  {
    /** Field f set to what an earlier look at the device showed. */
    function Written(f: Field, read: Block): Block {
      match f
      case StateField => this.(state := read.state)
      case SpillField => this.(spills := read.spills)
      case TimeField => this.(timeInSpill := read.timeInSpill)
      case RunningField => this.(running := read.running)
      case LedField => this.(led := read.led)
    }

    function Copied(f: Field, d: Device, handle: bool): Block {
      Written(f, Snapshot(d, handle))
    }
  }

  function Snapshot(d: Device, handle: bool): Block {
    Block(d.state, d.spills, d.timeInSpill, handle, d.led)
  }

  /** What one step of the controller does. */
  datatype Act =
    | WriteState(state: SpillState) | WriteLed(led: bool) | ZeroSpills | ZeroTime
    | ClearSequence | RefillSequence | Advance
    | SkipIfNull | Join | DropHandle    // stop()
    | Spawn | AssignHandle              // run()
    | Copy(field: Field)                // _smbUpdate()

  datatype Op = FaultOp | InitializeOp | ResetOp | RunOp | StopOp

  const PUBLISH: seq<Act> :=
    [Copy(StateField), Copy(SpillField), Copy(TimeField), Copy(RunningField), Copy(LedField)]

  const STOP: seq<Act> := [SkipIfNull, Join, DropHandle, WriteLed(false)] + PUBLISH

  function Script(op: Op): seq<Act> {
    match op
    case FaultOp => [WriteState(Fault), WriteLed(false), ClearSequence, WriteLed(false)] + PUBLISH
    case InitializeOp =>
      [ZeroSpills, ZeroTime, WriteLed(true), RefillSequence, Advance, WriteLed(true)] + PUBLISH
    case ResetOp =>
      STOP + [WriteLed(false), ZeroSpills, WriteState(Idle), ZeroTime, WriteLed(false), RefillSequence] + PUBLISH
    case RunOp => [Spawn, AssignHandle] + PUBLISH
    case StopOp => STOP
  }

  /** SHUTDOWN returns from the message loop and an unknown command throws out
      of it; both destroy the controller, whose destructor calls stop(). */
  function OpOf(command: Command): Op {
    match command
    case CommandFault => FaultOp
    case CommandSSMInit => InitializeOp
    case CommandReset => ResetOp
    case CommandStart => RunOp
    case CommandShutdown => StopOp
    case CommandInvalid => StopOp
  }

  /** Crashed: run() replaced a live std::thread handle, which ends the process. */
  datatype Ctl = Waiting | Busy(op: Op, pos: nat) | Halted | Crashed

  datatype Pc =
    | Absent | Check | Wait
    | CountSpill(ret: SpillState) | MarkTime(ret: SpillState) | DarkenLed(ret: SpillState)
    | Publish(field: Field) | Finished

  datatype System = System(dev: Device, handle: bool, block: Block, ctl: Ctl, ssm: Pc)

  function Boot(sequence: seq<SpillState>): System {
    System(Fresh(sequence), false, Snapshot(Fresh(sequence), false), Waiting, Absent)
  }

  datatype Event = CtlEvent | SsmEvent | AcceptEvent(command: Command)

  predicate Enabled(s: System, e: Event) {
    match e
    case CtlEvent =>
      && s.ctl.Busy? && s.ctl.pos < |Script(s.ctl.op)|
      && (Script(s.ctl.op)[s.ctl.pos] == Join ==> s.ssm == Finished)
    case SsmEvent => s.ssm != Absent && s.ssm != Finished && s.ctl != Crashed
    case AcceptEvent(_) => s.ctl == Waiting
  }

  function Step(s: System, e: Event): System
    requires Enabled(s, e)
  {
    match e
    case CtlEvent => CtlStep(s)
    case SsmEvent => SsmStep(s)
    case AcceptEvent(command) => s.(ctl := Busy(OpOf(command), 0))
  }

  function MoveTo(op: Op, pos: nat): Ctl {
    if pos < |Script(op)| then Busy(op, pos) else if op == StopOp then Halted else Waiting
  }

  function CtlStep(s: System): System
    requires Enabled(s, CtlEvent)
  {
    var Busy(op, pos) := s.ctl;
    var act := Script(op)[pos];
    if act == SkipIfNull && !s.handle then s.(ctl := MoveTo(op, pos + |STOP|))
    else if act == Spawn && s.handle then s.(ctl := Crashed)
    else Done(s, act).(ctl := MoveTo(op, pos + 1))
  }

  /** The effect of one act on the shared state. */
  function Done(s: System, act: Act): System {
    match act
    case WriteState(x) => s.(dev := s.dev.(state := x))
    case WriteLed(b) => s.(dev := s.dev.(led := b))
    case ZeroSpills => s.(dev := s.dev.(spills := 0))
    case ZeroTime => s.(dev := s.dev.(timeInSpill := 0))
    case ClearSequence => s.(dev := s.dev.(pending := []))
    case RefillSequence => s.(dev := s.dev.Refilled())
    case Advance => s.(dev := s.dev.Next())
    case SkipIfNull => s
    case Join => s
    case DropHandle => s.(handle := false, ssm := Absent)
    case Spawn => s.(ssm := Check)
    case AssignHandle => s.(handle := true)
    case Copy(f) => s.(block := s.block.Copied(f, s.dev, s.handle))
  }

  function SsmStep(s: System): System
    requires Enabled(s, SsmEvent)
  {
    match s.ssm
    case Check => s.(ssm := if s.dev.state == Fault then Finished else Wait)
    case Wait => s.(dev := s.dev.Next(), ssm := CountSpill(s.dev.Next().state))
    case CountSpill(ret) =>
      s.(dev := s.dev.(spills := if ret == Spill then s.dev.spills + 1 else s.dev.spills), ssm := MarkTime(ret))
    case MarkTime(ret) =>
      s.(dev := s.dev.(timeInSpill := if ret == AfterSpill then TIME_IN_SPILL else s.dev.timeInSpill),
         ssm := DarkenLed(ret))
    case DarkenLed(ret) => s.(dev := s.dev.(led := s.dev.led && ret != Fault), ssm := Publish(StateField))
    case Publish(f) => s.(block := s.block.Copied(f, s.dev, s.handle), ssm := AfterCopy(f))
  }

  function AfterCopy(f: Field): Pc {
    match f
    case StateField => Publish(SpillField)
    case SpillField => Publish(TimeField)
    case TimeField => Publish(RunningField)
    case RunningField => Publish(LedField)
    case LedField => Check
  }

  // ------------------------------------------------------------------ runs

  predicate Valid(s: System, es: seq<Event>)
    decreases |es|
  {
    es == [] || (Enabled(s, es[0]) && Valid(Step(s, es[0]), es[1..]))
  }

  function Final(s: System, es: seq<Event>): System
    requires Valid(s, es)
    decreases |es|
  {
    if es == [] then s else Final(Step(s, es[0]), es[1..])
  }

  lemma {:induction false} RunsConcat(s: System, a: seq<Event>, b: seq<Event>)
    requires Valid(s, a) && Valid(Final(s, a), b)
    ensures Valid(s, a + b) && Final(s, a + b) == Final(Final(s, a), b)
    decreases |a|
  {
    if a == [] {
      assert a + b == b;
    } else {
      RunsConcat(Step(s, a[0]), a[1..], b);
      StepThenRun(s, a[0], a[1..] + b);
      Sequences.FirstOfConcat(a, b);
    }
  }

  lemma StepThenRun(s: System, e: Event, es: seq<Event>)
    requires Enabled(s, e) && Valid(Step(s, e), es)
    ensures Valid(s, [e] + es) && Final(s, [e] + es) == Final(Step(s, e), es)
  {
    Sequences.RestOfCons(e, es);
  }

  predicate OnlyThreads(es: seq<Event>) {
    forall i :: 0 <= i < |es| ==> !es[i].AcceptEvent?
  }

  // ------------------------------------------------------------ invariants

  /** How the handle, the thread and the controller's position go together. */
  predicate ThreadInv(s: System) {
    && (s.ctl.Busy? ==> s.ctl.pos < |Script(s.ctl.op)|)
    && match s.ctl
       case Halted => !s.handle && s.ssm == Absent
       case Busy(RunOp, pos) =>
         if pos == 0 then s.handle <==> s.ssm != Absent
         else s.ssm != Absent && (s.handle <==> pos > 1)
       case Busy(ResetOp, pos) => StopInv(s, pos)
       case Busy(StopOp, pos) => StopInv(s, pos)
       case _ => s.handle <==> s.ssm != Absent
  }

  predicate StopInv(s: System, pos: nat) {
    if pos == 0 then s.handle <==> s.ssm != Absent
    else if pos <= 2 then s.handle && s.ssm != Absent && (pos == 2 ==> s.ssm == Finished)
    else !s.handle && s.ssm == Absent
  }

  predicate Agrees(s: System, f: Field) {
    s.block.Copied(f, s.dev, s.handle) == s.block
  }

  /** The acts that write what is published as f. */
  predicate Writes(act: Act, f: Field) {
    match f
    case StateField => act.WriteState? || act == Advance
    case SpillField => act == ZeroSpills
    case TimeField => act == ZeroTime
    case RunningField => act == DropHandle || act == AssignHandle
    case LedField => act.WriteLed?
  }

  /** Among its first `pos` acts the operation wrote f after its last copy of f. */
  predicate Dirty(op: Op, pos: nat, f: Field)
    requires pos <= |Script(op)|
  {
    pos > 0 && (Writes(Script(op)[pos - 1], f) || (Script(op)[pos - 1] != Copy(f) && Dirty(op, pos - 1, f)))
  }

  predicate CtlOwes(ctl: Ctl, f: Field) {
    ctl.Busy? && ctl.pos <= |Script(ctl.op)| && Dirty(ctl.op, ctl.pos, f)
  }

  predicate SsmOwes(pc: Pc, f: Field) {
    match pc
    case CountSpill(_) => true
    case MarkTime(_) => true
    case DarkenLed(_) => true
    case Publish(g) => Rank(g) <= Rank(f)
    case _ => false
  }

  /** A field may differ from the device only while a thread that wrote it has
      not copied it again. */
  predicate Accounted(s: System, f: Field) {
    Agrees(s, f) || CtlOwes(s.ctl, f) || SsmOwes(s.ssm, f)
  }

  predicate Published(s: System) {
    forall f: Field :: Accounted(s, f)
  }

  predicate Inv(s: System) {
    ThreadInv(s) && Published(s)
  }

  /** Every script ends with the five copies. */
  lemma ScriptTail(op: Op)
    ensures |Script(op)| >= 5
    ensures Script(op)[|Script(op)| - 5..] == PUBLISH
    ensures op == FaultOp ==> |Script(op)| == 9
    ensures op == InitializeOp ==> |Script(op)| == 11
    ensures op == ResetOp ==> |Script(op)| == 20
    ensures op == RunOp ==> |Script(op)| == 7
    ensures op == StopOp ==> |Script(op)| == 9
  {
  }

  /** Where the scripts touch the thread and its handle. */
  lemma ThreadActs(op: Op, pos: nat)
    requires pos < |Script(op)|
    ensures Script(op)[pos] == Spawn <==> op == RunOp && pos == 0
    ensures Script(op)[pos] == AssignHandle <==> op == RunOp && pos == 1
    ensures Script(op)[pos] == SkipIfNull <==> (op == ResetOp || op == StopOp) && pos == 0
    ensures Script(op)[pos] == Join <==> (op == ResetOp || op == StopOp) && pos == 1
    ensures Script(op)[pos] == DropHandle <==> (op == ResetOp || op == StopOp) && pos == 2
  {
  }

  /** The effect of an act on the thread and its handle. */
  lemma ThreadEffect(s: System, act: Act)
    ensures var t := Done(s, act);
            && t.ctl == s.ctl
            && t.handle == (act == AssignHandle || (s.handle && act != DropHandle))
            && t.ssm == (if act == Spawn then Check else if act == DropHandle then Absent else s.ssm)
  {
  }

  /** Where the scripts touch the sequence and the state. */
  lemma SequenceActs(op: Op, pos: nat)
    requires pos < |Script(op)|
    ensures Script(op)[pos] == RefillSequence <==> (op == InitializeOp && pos == 3) || (op == ResetOp && pos == 14)
    ensures Script(op)[pos] == Advance <==> op == InitializeOp && pos == 4
    ensures Script(op)[pos].WriteState? <==> (op == FaultOp && pos == 0) || (op == ResetOp && pos == 11)
    ensures Script(op)[pos].WriteState? && op == FaultOp ==> Script(op)[pos].state == Fault
  {
  }

  /** The effect of an act on the sequence and the state. */
  lemma SequenceEffect(s: System, act: Act)
    ensures var t := Done(s, act);
            && t.dev.initial == s.dev.initial
            && (act == RefillSequence ==> t.dev.pending == s.dev.initial)
            && (act == ClearSequence ==> t.dev.pending == [])
            && (act == Advance ==> t.dev == s.dev.Next())
            && (act != RefillSequence && act != ClearSequence && act != Advance ==> t.dev.pending == s.dev.pending)
            && (act != Advance ==> t.dev.state == if act.WriteState? then act.state else s.dev.state)
  {
  }

  lemma CtlKeepsThreadInv(s: System)
    requires ThreadInv(s) && Enabled(s, CtlEvent)
    ensures ThreadInv(CtlStep(s))
  {
    var Busy(op, pos) := s.ctl;
    ScriptTail(op);
    ThreadActs(op, pos);
    ThreadEffect(s, Script(op)[pos]);
  }

  /** A complete operation leaves nothing to copy. */
  lemma CleanAtEnd(op: Op, f: Field)
    ensures !Dirty(op, |Script(op)|, f)
  {
    ScriptTail(op);
    CleanAfterCopy(op, |Script(op)|, f);
  }

  lemma {:induction false} CleanAfterCopy(op: Op, pos: nat, f: Field)
    requires |Script(op)| - 5 + Rank(f) < pos <= |Script(op)|
    ensures !Dirty(op, pos, f)
  {
    TailAct(op, pos - 1, f);
    if Script(op)[pos - 1] != Copy(f) {
      CleanAfterCopy(op, pos - 1, f);
    }
  }

  lemma TailAct(op: Op, pos: nat, f: Field)
    requires |Script(op)| - 5 <= pos < |Script(op)|
    ensures !Writes(Script(op)[pos], f)
    ensures Script(op)[pos] == Copy(f) <==> pos == |Script(op)| - 5 + Rank(f)
  {
    ScriptTail(op);
    assert Script(op)[pos] == PUBLISH[pos - (|Script(op)| - 5)];
  }

  /** One act, given whether f was dirty before it. */
  lemma ActKeepsField(s: System, act: Act, dirty: bool, f: Field)
    requires Agrees(s, f) || dirty || SsmOwes(s.ssm, f)
    requires act == DropHandle || act == Spawn ==> !SsmOwes(s.ssm, f)
    ensures var t := Done(s, act);
            Agrees(t, f) || Writes(act, f) || (act != Copy(f) && dirty) || SsmOwes(t.ssm, f)
  {
  }

  lemma CtlKeepsField(s: System, f: Field)
    requires ThreadInv(s) && Enabled(s, CtlEvent) && Accounted(s, f)
    ensures Accounted(CtlStep(s), f)
  {
    var Busy(op, pos) := s.ctl;
    var act := Script(op)[pos];
    ThreadActs(op, pos);
    if pos == 0 {
      FirstActKeepsField(s, f);
    } else {
      ActKeepsField(s, act, Dirty(op, pos, f), f);
      MoveKeepsDirt(op, pos, f);
      assert CtlStep(s) == Done(s, act).(ctl := MoveTo(op, pos + 1));
    }
  }

  /** Only the first act of a script may branch; nothing was written before it. */
  lemma FirstActKeepsField(s: System, f: Field)
    requires ThreadInv(s) && Enabled(s, CtlEvent) && s.ctl.pos == 0 && Accounted(s, f)
    ensures Accounted(CtlStep(s), f)
  {
    var op := s.ctl.op;
    ThreadActs(op, 0);
    assert !CtlOwes(s.ctl, f);
    if Script(op)[0] != SkipIfNull && !(Script(op)[0] == Spawn && s.handle) {
      ActKeepsField(s, Script(op)[0], false, f);
      MoveKeepsDirt(op, 0, f);
    }
  }

  lemma MoveKeepsDirt(op: Op, pos: nat, f: Field)
    requires pos < |Script(op)|
    ensures CtlOwes(MoveTo(op, pos + 1), f)
       <==> Writes(Script(op)[pos], f) || (Script(op)[pos] != Copy(f) && Dirty(op, pos, f))
  {
    CleanAtEnd(op, f);
  }

  lemma CtlKeepsInv(s: System)
    requires Inv(s) && Enabled(s, CtlEvent)
    ensures Inv(CtlStep(s))
  {
    CtlKeepsThreadInv(s);
    forall f: Field ensures Accounted(CtlStep(s), f) {
      assert Accounted(s, f);
      CtlKeepsField(s, f);
    }
  }

  lemma SsmKeepsThreadInv(s: System)
    requires ThreadInv(s) && Enabled(s, SsmEvent)
    ensures ThreadInv(SsmStep(s))
  {
  }

  lemma SsmKeepsField(s: System, f: Field)
    requires Enabled(s, SsmEvent) && Accounted(s, f)
    ensures Accounted(SsmStep(s), f)
  {
  }

  lemma SsmKeepsInv(s: System)
    requires Inv(s) && Enabled(s, SsmEvent)
    ensures Inv(SsmStep(s))
  {
    SsmKeepsThreadInv(s);
    forall f: Field ensures Accounted(SsmStep(s), f) {
      assert Accounted(s, f);
      SsmKeepsField(s, f);
    }
  }

  lemma AcceptKeepsInv(s: System, command: Command)
    requires Inv(s) && Enabled(s, AcceptEvent(command))
    ensures Inv(Step(s, AcceptEvent(command)))
  {
    ScriptTail(OpOf(command));
    forall f: Field ensures Accounted(Step(s, AcceptEvent(command)), f) {
      assert Accounted(s, f);
    }
  }

  lemma StepKeepsInv(s: System, e: Event)
    requires Inv(s) && Enabled(s, e)
    ensures Inv(Step(s, e))
  {
    match e
    case CtlEvent => CtlKeepsInv(s);
    case SsmEvent => SsmKeepsInv(s);
    case AcceptEvent(command) => AcceptKeepsInv(s, command);
  }

  lemma {:induction false} RunKeepsInv(s: System, es: seq<Event>)
    requires Inv(s) && Valid(s, es)
    ensures Inv(Final(s, es))
    decreases |es|
  {
    if es != [] {
      StepKeepsInv(s, es[0]);
      RunKeepsInv(Step(s, es[0]), es[1..]);
    }
  }

  lemma BootInv(sequence: seq<SpillState>)
    ensures Inv(Boot(sequence))
  {
  }

  /** The publication invariant over every interleaving of every command history. */
  lemma EveryRunIsPublished(sequence: seq<SpillState>, es: seq<Event>)
    requires Valid(Boot(sequence), es)
    ensures Inv(Final(Boot(sequence), es))
  {
    BootInv(sequence);
    RunKeepsInv(Boot(sequence), es);
  }

  /** Neither thread owes a copy.  A controller that waits for a command or
      blocks in join owes none. */
  predicate Quiescent(s: System) {
    && (forall f: Field :: !CtlOwes(s.ctl, f))
    && (s.ssm == Absent || s.ssm == Check || s.ssm == Wait || s.ssm == Finished)
  }

  /** The block shows the device and the handle, field by field. */
  predicate Shows(block: Block, d: Device, handle: bool) {
    && block.state == d.state
    && block.spills == d.spills
    && block.timeInSpill == d.timeInSpill
    && block.running == handle
    && block.led == d.led
  }

  lemma QuiescentBlockIsCurrent(s: System)
    requires Inv(s) && Quiescent(s)
    ensures s.block == Snapshot(s.dev, s.handle)
    ensures Shows(s.block, s.dev, s.handle)
  {
    assert Accounted(s, StateField) && Accounted(s, SpillField) && Accounted(s, TimeField)
        && Accounted(s, RunningField) && Accounted(s, LedField);
  }

  /** A controller that blocks in join has written nothing yet, so the block is
      current whenever the thread is between two publications. */
  lemma JoinOwesNothing(s: System)
    requires Inv(s) && s.ctl.Busy? && (s.ctl.op == ResetOp || s.ctl.op == StopOp) && s.ctl.pos <= 2
    ensures forall f: Field :: !CtlOwes(s.ctl, f)
    ensures s.ssm == Check || s.ssm == Wait || s.ssm == Finished ==> s.block == Snapshot(s.dev, s.handle)
  {
    var op := s.ctl.op;
    ScriptTail(op);
    ThreadActs(op, 0);
    ThreadActs(op, 1);
    forall f: Field ensures !CtlOwes(s.ctl, f) {
      assert !Dirty(op, 0, f) && !Dirty(op, 1, f);
    }
    if s.ssm == Check || s.ssm == Wait || s.ssm == Finished {
      QuiescentBlockIsCurrent(s);
    }
  }
}
