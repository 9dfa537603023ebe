/** One command-line client that checks the thread-running flag before it sends
    START, the bounded message queue, and the two threads of the daemon, whose
    copies to the block are whole or split. */
module GuardedStart {
  import opened Api
  import opened SpillDevice
  import Sequences
  import opened TwoThreads
  import opened SplitCopies
  import opened Controllers

  const MQ_MAX_MESSAGES: nat := 3

  /** How long the client polls for the flag before it gives up.  The source
      gives up when its counter exceeds 2. */
  datatype Patience = Forever | Polls(limit: nat)

  const SOURCE_PATIENCE: Patience := Polls(2)

  datatype Client = Idle | Cleared | Polling(count: nat)

  datatype World = World(m: Machine, queue: seq<Command>, client: Client)

  datatype Move =
    | Thread(e: Event)        // a step of one of the daemon's threads
    | Receive                 // mq_receive
    | Send(command: Command)  // any command but START
    | CheckFlag | SendStart | Poll

  function Launch(sequence: seq<SpillState>): World {
    World(Settled(Boot(sequence)), [], Client.Idle)
  }

  predicate CanMove(w: World, m: Move) {
    match m
    case Thread(e) => !e.AcceptEvent? && Enabled(w.m.sys, e)
    case Receive => w.m.sys.ctl == Waiting && w.queue != []
    case Send(command) => w.client == Client.Idle && command != CommandStart && |w.queue| < MQ_MAX_MESSAGES
    case CheckFlag => w.client == Client.Idle
    case SendStart => w.client == Cleared && |w.queue| < MQ_MAX_MESSAGES
    case Poll => w.client.Polling?
  }

  function Moved(p: Patience, split: bool, w: World, m: Move): World
    requires CanMove(w, m)
  {
    match m
    case Thread(e) => w.(m := Stepped(split, w.m, e))
    case Receive => w.(m := Stepped(split, w.m, AcceptEvent(w.queue[0])), queue := w.queue[1..])
    case Send(command) => w.(queue := w.queue + [command])
    case CheckFlag => if w.m.sys.block.running then w else w.(client := Cleared)
    case SendStart => w.(queue := w.queue + [CommandStart], client := Polling(0))
    case Poll =>
      if w.m.sys.block.running then w.(client := Client.Idle)
      else if p.Polls? && w.client.count + 1 > p.limit then w.(client := Client.Idle)
      else w.(client := Polling(w.client.count + 1))
  }

  predicate Play(p: Patience, split: bool, w: World, ms: seq<Move>)
    decreases |ms|
  {
    ms == [] || (CanMove(w, ms[0]) && Play(p, split, Moved(p, split, w, ms[0]), ms[1..]))
  }

  function Outcome(p: Patience, split: bool, w: World, ms: seq<Move>): World
    requires Play(p, split, w, ms)
    decreases |ms|
  {
    if ms == [] then w else Outcome(p, split, Moved(p, split, w, ms[0]), ms[1..])
  }

  // ------------------------------------------------------------------ queue

  /** The commands a play sends, read off its moves. */
  function Sent(ms: seq<Move>): seq<Command> {
    if ms == [] then []
    else if ms[0].Send? then [ms[0].command] + Sent(ms[1..])
    else if ms[0] == SendStart then [CommandStart] + Sent(ms[1..])
    else Sent(ms[1..])
  }

  /** The events of the daemon in a play. */
  function DaemonRun(p: Patience, split: bool, w: World, ms: seq<Move>): seq<Event>
    requires Play(p, split, w, ms)
    decreases |ms|
  {
    if ms == [] then []
    else
      var rest := DaemonRun(p, split, Moved(p, split, w, ms[0]), ms[1..]);
      match ms[0]
      case Thread(e) => [e] + rest
      case Receive => [AcceptEvent(w.queue[0])] + rest
      case _ => rest
  }

  /** What the daemon does in a play is a run of its two threads. */
  lemma {:induction false} PlayIsARun(p: Patience, split: bool, w: World, ms: seq<Move>)
    requires Play(p, split, w, ms)
    ensures Possible(split, w.m, DaemonRun(p, split, w, ms))
    ensures Last(split, w.m, DaemonRun(p, split, w, ms)) == Outcome(p, split, w, ms).m
    decreases |ms|
  {
    if ms != [] {
      var v := Moved(p, split, w, ms[0]);
      PlayIsARun(p, split, v, ms[1..]);
      match ms[0]
      case Thread(e) => Prepend(split, w.m, e, DaemonRun(p, split, v, ms[1..]));
      case Receive => Prepend(split, w.m, AcceptEvent(w.queue[0]), DaemonRun(p, split, v, ms[1..]));
      case _ =>
    }
  }

  /** Commands are accepted in the order in which they were sent; the queue
      holds those still to come, never more than three. */
  lemma {:induction false} CommandsKeepTheirOrder(p: Patience, split: bool, w: World, ms: seq<Move>)
    requires Play(p, split, w, ms)
    ensures w.queue + Sent(ms) == Accepted(DaemonRun(p, split, w, ms)) + Outcome(p, split, w, ms).queue
    ensures |w.queue| <= 3 ==> |Outcome(p, split, w, ms).queue| <= 3
    decreases |ms|
  {
    if ms == [] {
      assert w.queue + [] == [] + w.queue;
    } else {
      var v := Moved(p, split, w, ms[0]);
      CommandsKeepTheirOrder(p, split, v, ms[1..]);
      OneMoveKeepsOrder(p, split, w, ms);
      if ms[0] == Receive {
        var rest := Accepted(DaemonRun(p, split, v, ms[1..]));
        Sequences.Associative([w.queue[0]], v.queue, Sent(ms[1..]));
        Sequences.Associative([w.queue[0]], rest, Outcome(p, split, v, ms[1..]).queue);
      }
    }
  }

  lemma OneMoveKeepsOrder(p: Patience, split: bool, w: World, ms: seq<Move>)
    requires ms != [] && Play(p, split, w, ms)
    ensures var v, rest := Moved(p, split, w, ms[0]), Accepted(DaemonRun(p, split, Moved(p, split, w, ms[0]), ms[1..]));
            && (ms[0] == Receive ==>
                  && w.queue == [w.queue[0]] + v.queue
                  && Accepted(DaemonRun(p, split, w, ms)) == [w.queue[0]] + rest)
            && (ms[0] != Receive ==>
                  && w.queue + Sent(ms) == v.queue + Sent(ms[1..])
                  && Accepted(DaemonRun(p, split, w, ms)) == rest)
  {
    var v := Moved(p, split, w, ms[0]);
    var run := DaemonRun(p, split, v, ms[1..]);
    match ms[0]
    case Thread(e) => Sequences.RestOfCons(e, run);
    case Receive => Sequences.RestOfCons(AcceptEvent(w.queue[0]), run);
    case Send(c) => Sequences.Associative(w.queue, [c], Sent(ms[1..]));
    case SendStart => Sequences.Associative(w.queue, [CommandStart], Sent(ms[1..]));
    case _ =>
  }

  /** Three commands may wait, and no fourth. */
  lemma ThreeMayWait(p: Patience, split: bool, sequence: seq<SpillState>)
    ensures var w, ms := Launch(sequence), [Send(CommandFault), Send(CommandReset), Send(CommandSSMInit)];
            && Play(p, split, w, ms)
            && Outcome(p, split, w, ms).queue == [CommandFault, CommandReset, CommandSSMInit]
            && forall c: Command :: !CanMove(Outcome(p, split, w, ms), Send(c))
  {
    var w := Launch(sequence);
    var one := Moved(p, split, w, Send(CommandFault));
    var two := Moved(p, split, one, Send(CommandReset));
    OneMove(p, split, two, Send(CommandSSMInit));
    FirstMove(p, split, one, Send(CommandReset), [Send(CommandSSMInit)]);
    FirstMove(p, split, w, Send(CommandFault), [Send(CommandReset)] + [Send(CommandSSMInit)]);
    assert [Send(CommandFault), Send(CommandReset), Send(CommandSSMInit)]
        == [Send(CommandFault)] + ([Send(CommandReset)] + [Send(CommandSSMInit)]);
  }

  /** The source's client looks three times, and then gives up. */
  lemma GivesUpAtTheThirdLook(w: World)
    requires w.client == Polling(0) && !w.m.sys.block.running
    ensures Moved(SOURCE_PATIENCE, true, w, Poll) == Moved(SOURCE_PATIENCE, false, w, Poll)
    ensures var one := Moved(SOURCE_PATIENCE, false, w, Poll);
            var two := Moved(SOURCE_PATIENCE, false, one, Poll);
            && one == w.(client := Polling(1)) && two == w.(client := Polling(2))
            && Moved(SOURCE_PATIENCE, false, two, Poll) == w.(client := Client.Idle)
  {
  }

  // ---------------------------------------------------------------- safety

  predicate RunningOp(s: System) {
    s.ctl.Busy? && s.ctl.op == RunOp
  }

  /** Nothing is running, nothing will be, and the flag says so. */
  predicate Quiet(w: World) {
    CommandStart !in w.queue && !RunningOp(w.m.sys) && !w.m.sys.handle && !w.m.sys.block.running
  }

  predicate IdleInv(w: World) {
    || Quiet(w)
    || (CommandStart !in w.queue && w.m.sys.block.running && (RunningOp(w.m.sys) ==> w.m.sys.ctl.pos > 1))
  }

  /** The START of the polling client is the last message of the queue, is
      being executed, or has been executed and published. */
  predicate PollingInv(w: World) {
    var last := |w.queue| - 1;
    if w.queue != [] then
      && w.queue[last] == CommandStart && CommandStart !in w.queue[..last]
      && !RunningOp(w.m.sys) && !w.m.sys.handle && !w.m.sys.block.running
    else if RunningOp(w.m.sys) then
      && (w.m.sys.ctl.pos == 0 ==> !w.m.sys.handle)
      && (w.m.sys.block.running ==> w.m.sys.handle)
      && (w.m.sys.ctl.pos > 5 ==> w.m.sys.block.running)
    else
      w.m.sys.ctl == Waiting && w.m.sys.handle && w.m.sys.block.running
  }

  predicate Guarded(w: World) {
    && Inv(w.m.sys) && w.m.sys.ctl != Crashed
    && match w.client
       case Idle => IdleInv(w)
       case Cleared => Quiet(w)
       case Polling(_) => PollingInv(w)
  }

  lemma RunScriptActs(pos: nat)
    requires pos < |Script(RunOp)|
    ensures Script(RunOp)[pos] == (match pos case 0 => Spawn case 1 => AssignHandle
                                   case 2 => Copy(StateField) case 3 => Copy(SpillField)
                                   case 4 => Copy(TimeField) case 5 => Copy(RunningField) case _ => Copy(LedField))
    ensures |Script(RunOp)| == 7
  {
  }

  /** Only run() can create a thread or a handle; every copy of the flag is honest. */
  lemma OtherOpsAreHarmless(s: System)
    requires Inv(s) && Enabled(s, CtlEvent) && s.ctl.op != RunOp
    ensures var t := CtlStep(s);
            && t.ctl != Crashed && !RunningOp(t) && (t.handle ==> s.handle)
            && (t.block.running == s.block.running || t.block.running == t.handle)
  {
    var act := Script(s.ctl.op)[s.ctl.pos];
    ThreadActs(s.ctl.op, s.ctl.pos);
    ThreadEffect(s, act);
    FlagEffect(s, act);
  }

  lemma FlagEffect(s: System, act: Act)
    ensures var t := Done(s, act); t.block.running == (if act == Copy(RunningField) then s.handle else s.block.running)
  {
  }

  lemma SsmCopiesHonestly(s: System)
    requires Enabled(s, SsmEvent)
    ensures var t := SsmStep(s);
            && t.ctl == s.ctl && t.handle == s.handle
            && (t.block.running == s.block.running || t.block.running == t.handle)
  {
  }

  lemma RunStep(s: System)
    requires Enabled(s, CtlEvent) && s.ctl.op == RunOp
    ensures var t := CtlStep(s);
            && (s.ctl.pos == 0 && s.handle <==> t.ctl == Crashed)
            && (t.ctl != Crashed ==> t.ctl == (if s.ctl.pos == 6 then Waiting else Busy(RunOp, s.ctl.pos + 1)))
            && t.handle == (s.handle || s.ctl.pos == 1)
            && t.block.running == (if s.ctl.pos == 5 then t.handle else s.block.running)
  {
  }

  lemma ThreadKeepsGuard(w: World, e: Event)
    requires Guarded(w) && CanMove(w, Thread(e))
    ensures Guarded(w.(m := w.m.(sys := Step(w.m.sys, e))))
  {
    StepKeepsInv(w.m.sys, e);
    if e == SsmEvent {
      SsmCopiesHonestly(w.m.sys);
    } else if RunningOp(w.m.sys) {
      RunStep(w.m.sys);
    } else {
      OtherOpsAreHarmless(w.m.sys);
    }
  }

  lemma ReceiveKeepsGuard(w: World)
    requires Guarded(w) && CanMove(w, Receive)
    ensures Guarded(w.(m := w.m.(sys := Step(w.m.sys, AcceptEvent(w.queue[0]))), queue := w.queue[1..]))
  {
    StepKeepsInv(w.m.sys, AcceptEvent(w.queue[0]));
    var rest := w.queue[1..];
    if rest != [] {
      assert rest[|rest| - 1] == w.queue[|w.queue| - 1];
      assert w.queue[..|w.queue| - 1][0] == w.queue[0];
    }
  }

  lemma MoveKeepsGuard(w: World, m: Move)
    requires Guarded(w) && CanMove(w, m)
    ensures Guarded(Moved(Forever, false, w, m))
  {
    match m
    case Thread(e) => ThreadKeepsGuard(w, e);
    case Receive => ReceiveKeepsGuard(w);
    case SendStart => assert (w.queue + [CommandStart])[..|w.queue|] == w.queue;
    case _ =>
  }

  lemma {:induction false} PlayKeepsGuard(w: World, ms: seq<Move>)
    requires Guarded(w) && Play(Forever, false, w, ms)
    ensures Guarded(Outcome(Forever, false, w, ms))
    decreases |ms|
  {
    if ms != [] {
      MoveKeepsGuard(w, ms[0]);
      PlayKeepsGuard(Moved(Forever, false, w, ms[0]), ms[1..]);
    }
  }

  /** STARTs queued or being executed. */
  function StartsInFlight(w: World): nat {
    multiset(w.queue)[CommandStart] + if RunningOp(w.m.sys) then 1 else 0
  }

  lemma GuardMeansOneStart(w: World)
    requires Guarded(w)
    ensures StartsInFlight(w) <= 1
    ensures RunningOp(w.m.sys) && w.m.sys.ctl.pos == 0 ==> !w.m.sys.handle
  {
    if w.queue != [] && w.client.Polling? {
      var last := |w.queue| - 1;
      assert w.queue == w.queue[..last] + [w.queue[last]];
      assert multiset(w.queue) == multiset(w.queue[..last]) + multiset([w.queue[last]]);
    }
  }

  /** In every interleaving of whole copies, of a client that never gives up,
      of the queue and of both threads: at most one START in flight, and run()
      never finds a live handle. */
  lemma PatientClientIsSafe(sequence: seq<SpillState>, ms: seq<Move>)
    requires Play(Forever, false, Launch(sequence), ms)
    ensures var w := Outcome(Forever, false, Launch(sequence), ms);
            && StartsInFlight(w) <= 1 && w.m.sys.ctl != Crashed
            && (RunningOp(w.m.sys) && w.m.sys.ctl.pos == 0 ==> !w.m.sys.handle)
  {
    BootInv(sequence);
    PlayKeepsGuard(Launch(sequence), ms);
    GuardMeansOneStart(Outcome(Forever, false, Launch(sequence), ms));
  }

  // ----------------------------------------------------- pieces of schedules

  lemma {:induction false} Then(p: Patience, split: bool, w: World, a: seq<Move>, b: seq<Move>)
    requires Play(p, split, w, a) && Play(p, split, Outcome(p, split, w, a), b)
    ensures Play(p, split, w, a + b)
    ensures Outcome(p, split, w, a + b) == Outcome(p, split, Outcome(p, split, w, a), b)
    decreases |a|
  {
    if a == [] {
      assert a + b == b;
    } else {
      Then(p, split, Moved(p, split, w, a[0]), a[1..], b);
      FirstMove(p, split, w, a[0], a[1..] + b);
      Sequences.FirstOfConcat(a, b);
    }
  }

  lemma FirstMove(p: Patience, split: bool, w: World, m: Move, ms: seq<Move>)
    requires CanMove(w, m) && Play(p, split, Moved(p, split, w, m), ms)
    ensures Play(p, split, w, [m] + ms)
    ensures Outcome(p, split, w, [m] + ms) == Outcome(p, split, Moved(p, split, w, m), ms)
  {
    Sequences.RestOfCons(m, ms);
  }

  lemma OneMove(p: Patience, split: bool, w: World, m: Move)
    requires CanMove(w, m)
    ensures Play(p, split, w, [m]) && Outcome(p, split, w, [m]) == Moved(p, split, w, m)
  {
    assert [m][1..] == [];
  }

  function Threads(es: seq<Event>): seq<Move> {
    if es == [] then [] else [Thread(es[0])] + Threads(es[1..])
  }

  /** The daemon's own schedules, while the client and the queue rest. */
  lemma {:induction false} ThreadsPlay(p: Patience, split: bool, w: World, es: seq<Event>)
    requires Possible(split, w.m, es) && OnlyThreads(es)
    ensures Play(p, split, w, Threads(es))
    ensures Outcome(p, split, w, Threads(es)) == w.(m := Last(split, w.m, es))
    decreases |es|
  {
    if es != [] {
      assert !es[0].AcceptEvent?;
      assert OnlyThreads(es[1..]);
      ThreadsPlay(p, split, w.(m := Stepped(split, w.m, es[0])), es[1..]);
      FirstMove(p, split, w, Thread(es[0]), Threads(es[1..]));
    }
  }

  /** A start command that finds the flag clear sends START, which a waiting
      daemon receives. */
  lemma StartArrives(p: Patience, split: bool, w: World)
    requires w.client == Client.Idle && !w.m.sys.block.running && w.queue == [] && w.m.sys.ctl == Waiting
    ensures Play(p, split, w, [CheckFlag, SendStart] + [Receive])
    ensures Outcome(p, split, w, [CheckFlag, SendStart] + [Receive])
         == World(w.m.(sys := w.m.sys.(ctl := Busy(RunOp, 0))), [], Polling(0))
  {
    StartIsSent(p, split, w);
    assert [] + [CommandStart] == [CommandStart];
    var v := w.(client := Polling(0), queue := [CommandStart]);
    OneMove(p, split, v, Receive);
    Then(p, split, w, [CheckFlag, SendStart], [Receive]);
  }

  lemma StartIsSent(p: Patience, split: bool, w: World)
    requires w.client == Client.Idle && !w.m.sys.block.running && |w.queue| < MQ_MAX_MESSAGES
    ensures Play(p, split, w, [CheckFlag, SendStart])
    ensures Outcome(p, split, w, [CheckFlag, SendStart]) == w.(client := Polling(0), queue := w.queue + [CommandStart])
  {
    var v := w.(client := Cleared);
    OneMove(p, split, v, SendStart);
    FirstMove(p, split, w, CheckFlag, [SendStart]);
    assert [CheckFlag, SendStart] == [CheckFlag] + [SendStart];
  }

  lemma SpawnCrashes(p: Patience, split: bool, w: World)
    requires w.m.sys.ctl == Busy(RunOp, 0) && w.m.sys.handle
    ensures Play(p, split, w, [Thread(CtlEvent)])
    ensures Outcome(p, split, w, [Thread(CtlEvent)]).m.sys.ctl == Crashed
  {
    RunScriptActs(0);
    OneMove(p, split, w, Thread(CtlEvent));
  }

  // -------------------------------------------------------------- giving up

  function Repeat(m: Move, n: nat): seq<Move> {
    if n == 0 then [] else [m] + Repeat(m, n - 1)
  }

  lemma {:induction false} PollsRunOut(limit: nat, w: World, n: nat)
    requires 0 < n <= limit + 1 && w.client == Polling(limit + 1 - n) && !w.m.sys.block.running
    ensures Play(Polls(limit), false, w, Repeat(Poll, n))
    ensures Outcome(Polls(limit), false, w, Repeat(Poll, n)) == w.(client := Client.Idle)
    decreases n
  {
    if n > 1 {
      PollsRunOut(limit, Moved(Polls(limit), false, w, Poll), n - 1);
    }
    FirstMove(Polls(limit), false, w, Poll, Repeat(Poll, n - 1));
  }

  lemma {:induction false} RunRunsThrough(p: Patience, w: World, n: nat)
    requires n <= 7
    requires w.m.sys.ctl == if n == 0 then Waiting else Busy(RunOp, 7 - n)
    requires if n == 7 then !w.m.sys.handle else n < 6 ==> w.m.sys.handle
    ensures Play(p, false, w, Repeat(Thread(CtlEvent), n))
    ensures var v := Outcome(p, false, w, Repeat(Thread(CtlEvent), n));
            v.m.sys.ctl == Waiting && v.m.sys.handle && v.queue == w.queue
    decreases n
  {
    if n > 0 {
      RunScriptActs(7 - n);
      RunStep(w.m.sys);
      RunRunsThrough(p, Moved(p, false, w, Thread(CtlEvent)), n - 1);
      FirstMove(p, false, w, Thread(CtlEvent), Repeat(Thread(CtlEvent), n - 1));
    }
  }

  /** A slow daemon, and a client that gives up and is started again. */
  lemma BothAreQueued(limit: nat, sequence: seq<SpillState>) returns (ms: seq<Move>)
    ensures Play(Polls(limit), false, Launch(sequence), ms)
    ensures Outcome(Polls(limit), false, Launch(sequence), ms)
         == World(Settled(Boot(sequence)), [CommandStart, CommandStart], Polling(0))
  {
    var p, b := Polls(limit), Settled(Boot(sequence));
    assert [] + [CommandStart] == [CommandStart];
    assert [CommandStart] + [CommandStart] == [CommandStart, CommandStart];
    StartIsSent(p, false, Launch(sequence));
    var w := World(b, [CommandStart], Polling(0));
    PollsRunOut(limit, w, limit + 1);
    StartIsSent(p, false, World(b, [CommandStart], Client.Idle));
    Then(p, false, w, Repeat(Poll, limit + 1), [CheckFlag, SendStart]);
    ms := [CheckFlag, SendStart] + (Repeat(Poll, limit + 1) + [CheckFlag, SendStart]);
    Then(p, false, Launch(sequence), [CheckFlag, SendStart], Repeat(Poll, limit + 1) + [CheckFlag, SendStart]);
  }

  lemma TwoStartsCrash(p: Patience, w: World) returns (ms: seq<Move>)
    requires w.m.sys.ctl == Waiting && !w.m.sys.handle && w.queue == [CommandStart, CommandStart]
    ensures Play(p, false, w, ms) && Outcome(p, false, w, ms).m.sys.ctl == Crashed
  {
    var run := Repeat(Thread(CtlEvent), 7);
    var v := Moved(p, false, w, Receive);
    assert v.m.sys.ctl == Busy(RunOp, 0) && v.queue == [CommandStart];
    RunRunsThrough(p, v, 7);
    var again := Outcome(p, false, v, run);
    var last := Moved(p, false, again, Receive);
    SpawnCrashes(p, false, last);
    FirstMove(p, false, again, Receive, [Thread(CtlEvent)]);
    Then(p, false, v, run, [Receive] + [Thread(CtlEvent)]);
    ms := [Receive] + (run + ([Receive] + [Thread(CtlEvent)]));
    FirstMove(p, false, w, Receive, run + ([Receive] + [Thread(CtlEvent)]));
  }

  /** However many polls the client allows, giving up makes the double start
      possible: two runs of the start command end the daemon. */
  lemma ImpatientClientCrashes(limit: nat, sequence: seq<SpillState>) returns (ms: seq<Move>)
    ensures Play(Polls(limit), false, Launch(sequence), ms)
    ensures Outcome(Polls(limit), false, Launch(sequence), ms).m.sys.ctl == Crashed
  {
    var queued := BothAreQueued(limit, sequence);
    var crash := TwoStartsCrash(Polls(limit), Outcome(Polls(limit), false, Launch(sequence), queued));
    ms := queued + crash;
    Then(Polls(limit), false, Launch(sequence), queued, crash);
  }

  // ------------------------------------------------------------ split copies

  /** Where copies are split even a client that never gives up is not safe: the
      thread, which read its flag before run() set it, clears it again, and the
      next start command finds it clear. */
  lemma StaleFlagCrashes(p: Patience, sequence: seq<SpillState>) returns (ms: seq<Move>)
    ensures Play(p, true, Launch(sequence), ms)
    ensures Outcome(p, true, Launch(sequence), ms).m.sys.ctl == Crashed
  {
    var start := [CheckFlag, SendStart] + [Receive];
    var w := Launch(sequence);
    StartArrives(p, true, w);
    var started := Outcome(p, true, w, start);
    var es := FlagGetsInDanger(started.m);
    ThreadsPlay(p, true, started, es);
    var danger := Outcome(p, true, started, Threads(es));
    var clear := StaleFlagIsMissed(p, danger);
    Then(p, true, started, Threads(es), clear);
    Then(p, true, w, start, Threads(es) + clear);
    ms := start + (Threads(es) + clear);
  }

  lemma StaleFlagIsMissed(p: Patience, w: World) returns (ms: seq<Move>)
    requires FlagInDanger(w.m) && w.queue == [] && w.client.Polling?
    ensures Play(p, true, w, ms) && Outcome(p, true, w, ms).m.sys.ctl == Crashed
  {
    var start := [CheckFlag, SendStart] + [Receive];
    var polled := w.(client := Client.Idle);
    FlagIsCleared(w.m);
    var cleared := Moved(p, true, polled, Thread(SsmEvent));
    StartArrives(p, true, cleared);
    var again := Outcome(p, true, cleared, start);
    SpawnCrashes(p, true, again);
    Then(p, true, cleared, start, [Thread(CtlEvent)]);
    FirstMove(p, true, polled, Thread(SsmEvent), start + [Thread(CtlEvent)]);
    ms := [Poll] + ([Thread(SsmEvent)] + (start + [Thread(CtlEvent)]));
    FirstMove(p, true, w, Poll, [Thread(SsmEvent)] + (start + [Thread(CtlEvent)]));
  }

  // -------------------------------------------------------------- conclusion

  ghost predicate Safe(p: Patience, split: bool, sequence: seq<SpillState>) {
    forall ms: seq<Move> :: Play(p, split, Launch(sequence), ms) ==>
      Outcome(p, split, Launch(sequence), ms).m.sys.ctl != Crashed
  }

  /** The guarded start is safe exactly when the client never gives up and no
      copy to the block can be interrupted. */
  lemma SafeIffPatientAndWhole(p: Patience, split: bool, sequence: seq<SpillState>)
    ensures Safe(p, split, sequence) <==> p == Forever && !split
    ensures !Safe(SOURCE_PATIENCE, split, sequence)
  {
    if p == Forever && !split {
      forall ms: seq<Move> | Play(p, split, Launch(sequence), ms)
        ensures Outcome(p, split, Launch(sequence), ms).m.sys.ctl != Crashed
      {
        PatientClientIsSafe(sequence, ms);
      }
    } else {
      CrashIsPossible(p, split, sequence);
    }
    CrashIsPossible(SOURCE_PATIENCE, split, sequence);
  }

  lemma CrashIsPossible(p: Patience, split: bool, sequence: seq<SpillState>)
    requires p != Forever || split
    ensures !Safe(p, split, sequence)
  {
    if split {
      var ms := StaleFlagCrashes(p, sequence);
    } else {
      var ms := ImpatientClientCrashes(p.limit, sequence);
    }
  }
}
