/** What the accepted commands alone decide, however the threads interleave. */
module CommandHistories {
  import Sequences
  import opened Api
  import opened SpillDevice
  import opened TwoThreads
  import opened ThreadTheorems
  import opened Controllers

  /** Commands that leave a thread handle where it is. */
  predicate Keeps(command: Command) {
    command == CommandFault || command == CommandSSMInit || command == CommandStart
  }

  /** A START was accepted, and nothing since that ends its thread. */
  predicate Live(cs: seq<Command>) {
    exists i :: 0 <= i < |cs| && cs[i] == CommandStart && forall j :: i < j < |cs| ==> Keeps(cs[j])
  }

  predicate SecondStart(cs: seq<Command>) {
    cs != [] && cs[|cs| - 1] == CommandStart && Live(cs[..|cs| - 1])
  }

  /** The last command ended the message loop. */
  predicate Over(cs: seq<Command>) {
    cs != [] && OpOf(cs[|cs| - 1]) == StopOp
  }

  /** Nothing is accepted after these commands. */
  predicate Closed(cs: seq<Command>) {
    SecondStart(cs) || Over(cs)
  }

  predicate OpenBefore(cs: seq<Command>) {
    forall k :: 0 <= k < |cs| ==> !Closed(cs[..k])
  }

  /** Where a system stands that accepted these commands. */
  predicate Follows(s: System, cs: seq<Command>) {
    && ThreadInv(s) && OpenBefore(cs)
    && match s.ctl
       case Waiting => !Closed(cs) && (s.handle <==> Live(cs))
       case Busy(op, pos) => cs != [] && OpOf(cs[|cs| - 1]) == op && BusyWith(s.handle, op, pos, cs)
       case Halted => Over(cs)
       case Crashed => SecondStart(cs)
  }

  predicate BusyWith(handle: bool, op: Op, pos: nat, cs: seq<Command>)
    requires cs != []
  {
    match op
    case RunOp => if pos == 0 then handle <==> Live(cs[..|cs| - 1]) else !Live(cs[..|cs| - 1])
    case ResetOp => true
    case StopOp => true
    case _ => handle <==> Live(cs)
  }

  lemma LiveAfter(cs: seq<Command>, c: Command)
    ensures Live(cs + [c]) <==> c == CommandStart || (Keeps(c) && Live(cs))
  {
    var next := cs + [c];
    if Live(cs) && Keeps(c) {
      var i :| 0 <= i < |cs| && cs[i] == CommandStart && forall j :: i < j < |cs| ==> Keeps(cs[j]);
      assert next[i] == CommandStart;
    }
    if Live(next) && c != CommandStart {
      var i :| 0 <= i < |next| && next[i] == CommandStart && forall j :: i < j < |next| ==> Keeps(next[j]);
      assert next[|cs|] == c;
      assert cs[i] == CommandStart && forall j :: i < j < |cs| ==> cs[j] == next[j];
    }
    if c == CommandStart {
      assert next[|cs|] == CommandStart;
    }
  }

  lemma LastDecides(cs: seq<Command>)
    requires cs != []
    ensures var last := cs[|cs| - 1];
            Live(cs) <==> last == CommandStart || (Keeps(last) && Live(cs[..|cs| - 1]))
  {
    assert cs == cs[..|cs| - 1] + [cs[|cs| - 1]];
    LiveAfter(cs[..|cs| - 1], cs[|cs| - 1]);
  }

  lemma CtlFollows(s: System, cs: seq<Command>)
    requires Follows(s, cs) && Enabled(s, CtlEvent)
    ensures Follows(CtlStep(s), cs)
  {
    var Busy(op, pos) := s.ctl;
    CtlKeepsThreadInv(s);
    ScriptTail(op);
    ThreadActs(op, pos);
    ThreadEffect(s, Script(op)[pos]);
    LastDecides(cs);
  }

  lemma AcceptFollows(s: System, cs: seq<Command>, c: Command)
    requires Follows(s, cs) && s.ctl == Waiting
    ensures Follows(s.(ctl := Busy(OpOf(c), 0)), cs + [c])
  {
    var next := cs + [c];
    ScriptTail(OpOf(c));
    LiveAfter(cs, c);
    assert next[..|cs|] == cs;
    forall k | 0 <= k < |next| ensures !Closed(next[..k]) {
      if k < |cs| {
        assert next[..k] == cs[..k];
      }
    }
  }

  lemma {:induction false} RunFollows(s: System, cs: seq<Command>, es: seq<Event>)
    requires Follows(s, cs) && Valid(s, es)
    ensures Follows(Final(s, es), cs + Accepted(es))
    decreases |es|
  {
    if es == [] {
      assert cs + [] == cs;
    } else {
      StepFollows(s, cs, es[0]);
      RunFollows(Step(s, es[0]), Grown(cs, es[0]), es[1..]);
      if es[0].AcceptEvent? {
        Sequences.Associative(cs, [es[0].command], Accepted(es[1..]));
      }
    }
  }

  function Grown(cs: seq<Command>, e: Event): seq<Command> {
    if e.AcceptEvent? then cs + [e.command] else cs
  }

  lemma StepFollows(s: System, cs: seq<Command>, e: Event)
    requires Follows(s, cs) && Enabled(s, e)
    ensures Follows(Step(s, e), Grown(cs, e))
  {
    match e
    case CtlEvent => CtlFollows(s, cs);
    case SsmEvent => SsmKeepsThreadInv(s);
    case AcceptEvent(c) => AcceptFollows(s, cs, c);
  }

  lemma BootFollows(sequence: seq<SpillState>, es: seq<Event>)
    requires Valid(Boot(sequence), es)
    ensures Follows(Final(Boot(sequence), es), Accepted(es))
  {
    BootInv(sequence);
    RunFollows(Boot(sequence), [], es);
    assert [] + Accepted(es) == Accepted(es);
  }

  /** In every run the process dies of a START exactly if an earlier START was
      accepted and nothing since that ends its thread; the next step of the
      controller is then the fatal one. */
  lemma CrashIffSecondStart(sequence: seq<SpillState>, es: seq<Event>)
    requires Valid(Boot(sequence), es)
    ensures var s, cs := Final(Boot(sequence), es), Accepted(es);
            && (SecondStart(cs) <==> s.ctl == Crashed || (s.ctl == Busy(RunOp, 0) && s.handle))
            && (s.ctl == Busy(RunOp, 0) && s.handle ==> Enabled(s, CtlEvent) && CtlStep(s).ctl == Crashed)
            && (s.ctl == Waiting ==> (s.handle <==> Live(cs)))
  {
    var s := Final(Boot(sequence), es);
    BootFollows(sequence, es);
    ScriptTail(RunOp);
    ThreadActs(RunOp, 0);
  }

  // --------------------------------------------------------------- lengths

  /** Steps the controller has left in its operation. */
  function Left(ctl: Ctl): nat {
    if ctl.Busy? && ctl.pos <= |Script(ctl.op)| then |Script(ctl.op)| - ctl.pos else 0
  }

  /** The work of a step of the controller, or of its acceptance, with all that
      the thread can do after it when the sequence has n states. */
  function Cost(steps: nat, n: nat): nat {
    if steps == 0 then 0 else Cost(steps - 1, n) + 10 * n + 20
  }

  lemma {:induction false} CostIsProduct(steps: nat, n: nat)
    ensures Cost(steps, n) == steps * (10 * n + 20)
  {
    if steps > 0 {
      CostIsProduct(steps - 1, n);
      assert steps * (10 * n + 20) == (steps - 1) * (10 * n + 20) + (10 * n + 20);
    }
  }

  predicate Sized(s: System, n: nat) {
    ThreadInv(s) && |s.dev.initial| == n && |s.dev.pending| <= n
  }

  lemma SizedStep(s: System, e: Event, n: nat)
    requires Sized(s, n) && Enabled(s, e)
    ensures Sized(Step(s, e), n)
  {
    match e
    case CtlEvent =>
      CtlKeepsThreadInv(s);
      SequenceEffect(s, Script(s.ctl.op)[s.ctl.pos]);
    case SsmEvent => SsmKeepsThreadInv(s);
    case AcceptEvent(command) => ScriptTail(OpOf(command));
  }

  lemma WorkIsSized(s: System, n: nat)
    requires Sized(s, n)
    ensures SsmWork(s) <= 10 * n + 19
  {
  }

  lemma LeftAfter(s: System, e: Event)
    requires ThreadInv(s) && Enabled(s, e)
    ensures ThreadInv(Step(s, e))
    ensures var t := Step(s, e);
            match e
            case CtlEvent => Left(t.ctl) < Left(s.ctl)
            case SsmEvent => Left(t.ctl) == Left(s.ctl)
            case AcceptEvent(_) => Left(s.ctl) == 0 && Left(t.ctl) <= 20
  {
    match e
    case AcceptEvent(command) => ScriptTail(OpOf(command));
    case CtlEvent =>
      ScriptTail(s.ctl.op);
      CtlKeepsThreadInv(s);
    case SsmEvent => SsmKeepsThreadInv(s);
  }

  lemma {:induction false} CostGrows(a: nat, b: nat, n: nat)
    requires a <= b
    ensures Cost(a, n) <= Cost(b, n)
  {
    if a < b {
      CostGrows(a, b - 1, n);
    }
  }

  /** The events that are not the thread's. */
  function Others(es: seq<Event>): nat {
    if es == [] then 0 else (if es[0] == SsmEvent then 0 else 1) + Others(es[1..])
  }

  lemma {:induction false} OthersAreBounded(s: System, es: seq<Event>)
    requires ThreadInv(s) && Valid(s, es)
    ensures Others(es) <= Left(s.ctl) + 21 * |Accepted(es)|
    decreases |es|
  {
    if es != [] {
      LeftAfter(s, es[0]);
      OthersAreBounded(Step(s, es[0]), es[1..]);
    }
  }

  /** All the thread's work is paid for. */
  predicate Paid(s: System, length: nat, others: nat, n: nat) {
    length <= Cost(others, n) + SsmWork(s)
  }

  lemma {:induction false} RunIsBounded(s: System, es: seq<Event>, n: nat)
    requires Sized(s, n) && Valid(s, es)
    ensures Paid(s, |es|, Others(es), n)
    decreases |es|
  {
    if es != [] {
      var e, rest := es[0], es[1..];
      SizedStep(s, e, n);
      RunIsBounded(Step(s, e), rest, n);
      PaidBefore(s, e, |rest|, Others(rest), n);
    }
  }

  lemma PaidBefore(s: System, e: Event, length: nat, others: nat, n: nat)
    requires Sized(s, n) && Enabled(s, e) && Paid(Step(s, e), length, others, n)
    ensures Paid(s, length + 1, if e == SsmEvent then others else others + 1, n)
  {
    StepIsPaid(s, e, n, others);
  }

  lemma StepIsPaid(s: System, e: Event, n: nat, later: nat)
    requires Sized(s, n) && Enabled(s, e)
    ensures 1 + Cost(later, n) + SsmWork(Step(s, e)) <= Cost(if e == SsmEvent then later else later + 1, n) + SsmWork(s)
  {
    if e == SsmEvent {
      SsmStepWorks(s);
    } else {
      SizedStep(s, e, n);
      WorkIsSized(Step(s, e), n);
    }
  }

  lemma CostOfCommands(k: nat, n: nat)
    ensures Cost(21 * k, n) == 210 * (k * (n + 2))
  {
    CostIsProduct(21 * k, n);
    assert 21 * k * (10 * n + 20) == 210 * (k * (n + 2));
  }

  lemma BootIsSized(sequence: seq<SpillState>)
    ensures Sized(Boot(sequence), |sequence|) && SsmWork(Boot(sequence)) == 0 && Left(Boot(sequence).ctl) == 0
  {
    BootInv(sequence);
  }

  /** Every run is bounded by the commands it accepted and the loaded sequence;
      so every inbox comes to rest. */
  lemma EveryRunIsBounded(sequence: seq<SpillState>, es: seq<Event>)
    requires Valid(Boot(sequence), es)
    ensures |es| <= 210 * (|Accepted(es)| * (|sequence| + 2))
  {
    var k, n := |Accepted(es)|, |sequence|;
    BootIsSized(sequence);
    RunIsBounded(Boot(sequence), es, n);
    OthersAreBounded(Boot(sequence), es);
    CostGrows(Others(es), 21 * k, n);
    CostOfCommands(k, n);
  }

  // ----------------------------------------------------------------- inboxes

  function Messages(commands: seq<Command>): seq<Received> {
    seq(|commands|, i requires 0 <= i < |commands| => Message(commands[i]))
  }

  /** Neither thread can make a step. */
  predicate AtRest(s: System) {
    !Enabled(s, CtlEvent) && !Enabled(s, SsmEvent)
  }

  lemma RestingController(s: System)
    requires ThreadInv(s) && AtRest(s)
    ensures !s.ctl.Busy?
  {
    if s.ctl.Busy? {
      ThreadActs(s.ctl.op, s.ctl.pos);
    }
  }

  /** How many commands the loop executes. */
  function Executed(sequence: seq<SpillState>, commands: seq<Command>): nat {
    |Process(Boot(sequence), Messages(commands)).executed|
  }

  /** What the loop executes is an open prefix. */
  lemma LoopRunsOpen(sequence: seq<SpillState>, commands: seq<Command>)
    ensures var o, n := Process(Boot(sequence), Messages(commands)), Executed(sequence, commands);
            && n <= |commands| && o.executed == commands[..n]
            && !Closed(commands[..n]) && OpenBefore(commands[..n])
            && (o.sys.handle <==> Live(commands[..n]))
  {
    var boot, inbox := Boot(sequence), Messages(commands);
    var o := Process(boot, inbox);
    ExecutesLongestPrefix(boot, inbox);
    assert o.executed == commands[..|o.executed|];
    BootInv(sequence);
    InboxIsARun(boot, inbox);
    var es: seq<Event> :| Valid(boot, es) && Final(boot, es) == o.sys && Accepted(es) == o.executed;
    BootFollows(sequence, es);
    ProcessWaits(boot, inbox);
  }

  /** The message after it closes it, and says how the loop ends. */
  lemma LoopStopsAtClosing(sequence: seq<SpillState>, commands: seq<Command>)
    ensures var o, n := Process(Boot(sequence), Messages(commands)), Executed(sequence, commands);
            && n <= |commands|
            && (o.exit == Blocked <==> n == |commands|)
            && (o.exit == Terminated <==> n < |commands| && SecondStart(commands[..n + 1]))
            && (o.exit == Stopped || o.exit == Threw(InvalidCommand) <==> n < |commands| && Over(commands[..n + 1]))
            && (n < |commands| ==> Closed(commands[..n + 1]))
  {
    var n := Executed(sequence, commands);
    ExecutesLongestPrefix(Boot(sequence), Messages(commands));
    LoopRunsOpen(sequence, commands);
    if n < |commands| {
      assert Messages(commands)[n] == Message(commands[n]);
      assert commands[..n + 1] == commands[..n] + [commands[n]];
      NextCloses(commands[..n], commands[n]);
    }
  }

  lemma NextCloses(cs: seq<Command>, c: Command)
    ensures SecondStart(cs + [c]) <==> c == CommandStart && Live(cs)
    ensures Over(cs + [c]) <==> c == CommandShutdown || c == CommandInvalid
  {
    assert (cs + [c])[..|cs|] == cs;
  }

  lemma {:induction false} ProcessWaits(s: System, inbox: seq<Received>)
    requires s.ctl == Waiting
    ensures Process(s, inbox).sys.ctl == Waiting
    decreases |inbox|
  {
    if inbox != [] && Handlable(inbox[0]) {
      ProcessWaits(Handled(s, inbox[0].command), inbox[1..]);
    }
  }

  /** Every interleaving executes the same commands of an inbox and ends the
      loop in the same way: a run that has come to rest, with nothing left to
      receive if it still waits, accepted what the loop executes and the
      message that stopped it. */
  lemma EveryInterleavingExecutesTheSame(sequence: seq<SpillState>, commands: seq<Command>, es: seq<Event>)
    requires Valid(Boot(sequence), es) && Accepted(es) <= commands
    requires AtRest(Final(Boot(sequence), es))
    requires Final(Boot(sequence), es).ctl == Waiting ==> Accepted(es) == commands
    ensures var s, o := Final(Boot(sequence), es), Process(Boot(sequence), Messages(commands));
            var n := |o.executed|;
            && n <= |commands| && o.executed == commands[..n]
            && Accepted(es) == commands[..if n < |commands| then n + 1 else n]
            && (o.exit == Blocked <==> s.ctl == Waiting)
            && (o.exit == Terminated <==> s.ctl == Crashed)
            && (o.exit == Stopped || o.exit == Threw(InvalidCommand) <==> s.ctl == Halted)
  {
    BootFollows(sequence, es);
    RestingController(Final(Boot(sequence), es));
    LoopRunsOpen(sequence, commands);
    LoopStopsAtClosing(sequence, commands);
    var cs, n := Accepted(es), Executed(sequence, commands);
    assert cs == commands[..|cs|];
    SameEnd(commands, |cs|, n);
  }

  lemma SameEnd(commands: seq<Command>, k: nat, n: nat)
    requires k <= |commands| && n <= |commands|
    requires OpenBefore(commands[..k]) && OpenBefore(commands[..n]) && !Closed(commands[..n])
    requires n < |commands| ==> Closed(commands[..n + 1])
    requires k == |commands| || Closed(commands[..k])
    ensures k == if n < |commands| then n + 1 else n
  {
    OpenPrefix(commands, n, k);
    OpenPrefix(commands, k, n + 1);
  }

  lemma OpenPrefix(commands: seq<Command>, k: nat, j: nat)
    requires k <= |commands| && OpenBefore(commands[..k])
    ensures j < k ==> !Closed(commands[..j])
  {
    if j < k {
      assert commands[..k][..j] == commands[..j];
    }
  }
}
