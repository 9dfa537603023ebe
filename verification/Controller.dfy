/** The daemon's life cycle and its command loop. */
module Controllers {
  import Sequences
  import opened Api
  import opened SpillDevice
  import opened TwoThreads
  import opened ThreadTheorems
  import opened SpillStateMachines

  datatype DaemonState = Initializing | Startup | Running | ShutDown

  /** What mq_receive delivers. */
  datatype Received = Interrupted | Failed | WrongSize | Message(command: Command)

  datatype ControllerError = MqInterrupted | MqFailure | InvalidMessage | InvalidCommand

  /** How the command loop ends: returned, threw, took the process down by
      starting the thread twice, or still waits for a message. */
  datatype Exit = Stopped | Threw(error: ControllerError) | Terminated | Blocked

  datatype Outcome = Outcome(sys: System, executed: seq<Command>, exit: Exit)

  predicate Handlable(m: Received) {
    m.Message? && m.command != CommandShutdown && m.command != CommandInvalid
  }

  function Handled(s: System, command: Command): System {
    match command
    case CommandFault => AfterFault(s)
    case CommandSSMInit => AfterInitialize(s)
    case CommandReset => Boot(s.dev.initial)
    case CommandStart => AfterRun(s)
    case _ => s
  }

  function Refused(m: Received): Exit
    requires !Handlable(m)
  {
    match m
    case Interrupted => Threw(MqInterrupted)
    case Failed => Threw(MqFailure)
    case WrongSize => Threw(InvalidMessage)
    case Message(command) => if command == CommandShutdown then Stopped else Threw(InvalidCommand)
  }

  function Process(s: System, inbox: seq<Received>): Outcome
    decreases |inbox|
  {
    if inbox == [] then Outcome(s, [], Blocked)
    else if !Handlable(inbox[0]) then Outcome(s, [], Refused(inbox[0]))
    else if inbox[0].command == CommandStart && s.handle then Outcome(s, [], Terminated)
    else
      var rest := Process(Handled(s, inbox[0].command), inbox[1..]);
      rest.(executed := [inbox[0].command] + rest.executed)
  }

  class Controller {
    const ssm: SpillStateMachine
    var currentState: DaemonState
    ghost var published: seq<DaemonState>   // every value currentState has had

    ghost predicate Valid()
      reads this, ssm, ssm.smb, ssm.smb.actualSpillWaveFormData
      reads ssm.smb.circularBuffer, ssm.smb.circularBuffer.buffer
    {
      ssm.Valid() && published != [] && published[|published| - 1] == currentState
    }

    constructor (ssm: SpillStateMachine)
      requires ssm.Valid()
      ensures Valid() && this.ssm == ssm && published == [Initializing]
    {
      this.ssm := ssm;
      currentState := Initializing;
      published := [Initializing];
    }

    method CurrentStateSet(state: DaemonState)
      requires Valid()
      modifies this
      ensures Valid() && published == old(published) + [state]
    {
      currentState := state;
      published := published + [state];
    }

    method Handle(command: Command) returns (terminated: bool)
      requires Valid() && Handlable(Message(command))
      modifies ssm.Footprint()
      ensures Valid() && (terminated <==> command == CommandStart && old(ssm.thread))
      ensures ssm.Value() == if terminated then old(ssm.Value()) else Handled(old(ssm.Value()), command)
    {
      terminated := false;
      match command
      case CommandFault => ssm.Fault();
      case CommandSSMInit => ssm.Initialize();
      case CommandReset => ssm.Reset();
      case CommandStart => terminated := ssm.Run();
    }

    method ProcessMessages(inbox: seq<Received>) returns (exit: Exit, executed: seq<Command>)
      requires Valid()
      modifies ssm.Footprint()
      ensures Valid() && Outcome(ssm.Value(), executed, exit) == Process(old(ssm.Value()), inbox)
    {
      executed := [];
      var i := 0;
      while i < |inbox|
        invariant 0 <= i <= |inbox| && Valid()
        invariant var rest := Process(ssm.Value(), inbox[i..]);
                  Process(old(ssm.Value()), inbox) == rest.(executed := executed + rest.executed)
      {
        var message := inbox[i];
        assert inbox[i..][0] == message && inbox[i..][1..] == inbox[i + 1..];
        match message {
          case Interrupted => return Threw(MqInterrupted), executed;
          case Failed => return Threw(MqFailure), executed;
          case WrongSize => return Threw(InvalidMessage), executed;
          case Message(command) =>
            if command == CommandShutdown {
              return Stopped, executed;
            }
            if command == CommandInvalid {
              return Threw(InvalidCommand), executed;
            }
            var terminated := Handle(command);
            if terminated {
              return Terminated, executed;
            }
            ghost var rest := Process(ssm.Value(), inbox[i + 1..]);
            assert executed + ([command] + rest.executed) == (executed + [command]) + rest.executed;
            executed := executed + [command];
        }
        i := i + 1;
      }
      assert inbox[i..] == [];
      exit := Blocked;
    }

    /** The daemon is only ever seen to go from INITIALIZING over STARTUP to
        RUNNING, and then to SHUTDOWN exactly if a SHUTDOWN message stopped it. */
    method Start(autoInit: bool, inbox: seq<Received>) returns (exit: Exit, executed: seq<Command>)
      requires Valid() && published == [Initializing]
      modifies this, ssm.Footprint()
      ensures Valid()
      ensures published == [Initializing, Startup, Running] + (if exit == Stopped then [ShutDown] else [])
      ensures var s := old(ssm.Value());
              Outcome(ssm.Value(), executed, exit) == Process(if autoInit then AfterInitialize(s) else s, inbox)
    {
      CurrentStateSet(Startup);
      if autoInit {
        ssm.Initialize();
      }
      CurrentStateSet(Running);
      exit, executed := ProcessMessages(inbox);
      if exit == Stopped {
        CurrentStateSet(ShutDown);
      }
    }
  }

  // ------------------------------------------------------------ properties

  function Fold(s: System, commands: seq<Command>): System
    decreases |commands|
  {
    if commands == [] then s else Fold(Handled(s, commands[0]), commands[1..])
  }

  /** Exactly the longest prefix before the first message the loop does not
      handle is executed, in order; that message alone decides how it ends. */
  lemma {:induction false} ExecutesLongestPrefix(s: System, inbox: seq<Received>)
    ensures var o := Process(s, inbox);
            var n := |o.executed|;
            && n <= |inbox|
            && (forall i :: 0 <= i < n ==> Handlable(inbox[i]) && inbox[i].command == o.executed[i])
            && o.sys == Fold(s, o.executed)
            && (o.exit == Blocked <==> n == |inbox|)
            && (n < |inbox| ==>
                  if Handlable(inbox[n])
                  then o.exit == Terminated && inbox[n].command == CommandStart && o.sys.handle
                  else o.exit == Refused(inbox[n]))
            && (o.exit == Threw(MqInterrupted) <==> n < |inbox| && inbox[n] == Interrupted)
            && (o.exit == Threw(MqFailure) <==> n < |inbox| && inbox[n] == Failed)
            && (o.exit == Threw(InvalidMessage) <==> n < |inbox| && inbox[n] == WrongSize)
            && (o.exit == Threw(InvalidCommand) <==> n < |inbox| && inbox[n] == Message(CommandInvalid))
            && (o.exit == Stopped <==> n < |inbox| && inbox[n] == Message(CommandShutdown))
    decreases |inbox|
  {
    if inbox != [] && Handlable(inbox[0]) && !(inbox[0].command == CommandStart && s.handle) {
      var t := Handled(s, inbox[0].command);
      ExecutesLongestPrefix(t, inbox[1..]);
      var o, r := Process(s, inbox), Process(t, inbox[1..]);
      assert o.executed[1..] == r.executed;
      forall i | 0 <= i < |o.executed| ensures Handlable(inbox[i]) && inbox[i].command == o.executed[i] {
        if i > 0 {
          assert inbox[i] == inbox[1..][i - 1] && o.executed[i] == r.executed[i - 1];
        }
      }
    }
  }

  /** The commands a run of the two-thread model accepts. */
  function Accepted(es: seq<Event>): seq<Command> {
    if es == [] then []
    else if es[0].AcceptEvent? then [es[0].command] + Accepted(es[1..])
    else Accepted(es[1..])
  }

  lemma HandlerIsARun(s: System, command: Command)
    requires Inv(s) && s.ctl == Waiting && Handlable(Message(command))
    requires command == CommandStart ==> !s.handle
    ensures Leads(s, command, Handled(s, command))
  {
    match command
    case CommandFault => FaultIsARun(s);
    case CommandSSMInit => InitializeIsARun(s);
    case CommandReset => ResetIsARun(s);
    case CommandStart => RunIsARun(s);
  }

  /** Processing an inbox is a run of the two-thread model that accepts exactly
      the executed commands. */
  lemma {:induction false} InboxIsARun(s: System, inbox: seq<Received>)
    requires Inv(s) && s.ctl == Waiting
    ensures exists es: seq<Event> :: Valid(s, es) && Final(s, es) == Process(s, inbox).sys
                                  && Accepted(es) == Process(s, inbox).executed
    decreases |inbox|
  {
    if inbox == [] || !Handlable(inbox[0]) || (inbox[0].command == CommandStart && s.handle) {
      assert Valid(s, []) && Final(s, []) == s && Accepted([]) == [];
    } else {
      var command := inbox[0].command;
      var a, t := AcceptEvent(command), Handled(s, command);
      HandlerIsARun(s, command);
      var first: seq<Event> :| Valid(Step(s, a), first) && OnlyThreads(first) && Final(Step(s, a), first) == t;
      StepKeepsInv(s, a);
      RunKeepsInv(Step(s, a), first);
      InboxIsARun(t, inbox[1..]);
      var rest: seq<Event> :| Valid(t, rest) && Final(t, rest) == Process(t, inbox[1..]).sys
                           && Accepted(rest) == Process(t, inbox[1..]).executed;
      RunsJoin(Step(s, a), first, rest);
      var es := [a] + (first + rest);
      assert es[1..] == first + rest;
      assert Valid(s, es) && Final(s, es) == Process(s, inbox).sys;
      assert Accepted(es) == [command] + Accepted(first + rest);
    }
  }

  lemma {:induction false} RunsJoin(s: System, a: seq<Event>, b: seq<Event>)
    requires Valid(s, a) && OnlyThreads(a) && Valid(Final(s, a), b)
    ensures Valid(s, a + b) && Final(s, a + b) == Final(Final(s, a), b)
    ensures Accepted(a + b) == Accepted(b)
    decreases |a|
  {
    if a == [] {
      assert a + b == b;
    } else {
      RunsJoin(Step(s, a[0]), a[1..], b);
      Sequences.RestOfCons(a[0], a[1..] + b);
      Sequences.FirstOfConcat(a, b);
    }
  }
}
