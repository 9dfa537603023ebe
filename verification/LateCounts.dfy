/** For which loaded sequences the registers can go wrong: the bookkeeping of a
    transition may come after the initialize that rewrote the register. */
module LateCounts {
  import Sequences
  import opened Api
  import opened SpillDevice
  import opened TwoThreads
  import opened ThreadTheorems
  import opened SpillStateMachines
  import opened Ledgers

  /** The thread can get as far as x: at most one FAULT comes before it.  The
      thread stops at a FAULT that it sees, but an initialize that catches it
      between its check and its next transition takes one state itself. */
  predicate Returnable(sequence: seq<SpillState>, x: SpillState) {
    exists i :: 0 <= i < |sequence| && sequence[i] == x && Count(sequence[..i], Fault) <= 1
  }

  /** In every run the counter is right wherever no spill is still to be counted. */
  ghost predicate SpillsAlwaysRight(sequence: seq<SpillState>) {
    forall es: seq<Event> :: Valid(Boot(sequence), es) ==>
      var s, l := Final(Boot(sequence), es), Book(Boot(sequence), CLEAN, es);
      SpillPending(s.ssm) || SpillsRight(s, l)
  }

  ghost predicate TimeAlwaysRight(sequence: seq<SpillState>) {
    forall es: seq<Event> :: Valid(Boot(sequence), es) ==>
      var s, l := Final(Boot(sequence), es), Book(Boot(sequence), CLEAN, es);
      AfterPending(s.ssm) || TimeRight(s, l)
  }

  ghost predicate LedAlwaysRight(sequence: seq<SpillState>) {
    forall es: seq<Event> :: Valid(Boot(sequence), es) ==>
      var s, l := Final(Boot(sequence), es), Book(Boot(sequence), CLEAN, es);
      DarkPending(s.ssm) || LedRight(s, l)
  }

  /** The counter and the time in spill are right in every run exactly for the
      sequences whose SPILL, or AFTER_SPILL, the thread can never return; the
      LED can go wrong with every sequence, since each one ends in FAULT. */
  lemma AlwaysRightIff(sequence: seq<SpillState>)
    ensures SpillsAlwaysRight(sequence) <==> !Returnable(sequence, Spill)
    ensures TimeAlwaysRight(sequence) <==> !Returnable(sequence, AfterSpill)
    ensures !LedAlwaysRight(sequence)
  {
    NotReturnableIsRight(sequence);
    if Returnable(sequence, Spill) {
      var es := SomeReturn(sequence, Spill);
      ReturnGoesWrong(sequence, es, Spill);
    }
    if Returnable(sequence, AfterSpill) {
      var es := SomeReturn(sequence, AfterSpill);
      ReturnGoesWrong(sequence, es, AfterSpill);
    }
    var es := FaultReturn(sequence);
    ReturnGoesWrong(sequence, es, Fault);
  }

  lemma ReturnGoesWrong(sequence: seq<SpillState>, history: seq<Event>, x: SpillState)
    requires Valid(Boot(sequence), history)
    requires Final(Boot(sequence), history).ctl == Waiting && Final(Boot(sequence), history).ssm == CountSpill(x)
    ensures x == Spill ==> !SpillsAlwaysRight(sequence)
    ensures x == AfterSpill ==> !TimeAlwaysRight(sequence)
    ensures x == Fault ==> !LedAlwaysRight(sequence)
  {
    var es := GoesWrong(sequence, history, x);
  }

  lemma NotReturnableIsRight(sequence: seq<SpillState>)
    ensures !Returnable(sequence, Spill) ==> SpillsAlwaysRight(sequence)
    ensures !Returnable(sequence, AfterSpill) ==> TimeAlwaysRight(sequence)
  {
    forall es: seq<Event> | Valid(Boot(sequence), es)
      ensures var s, l := Final(Boot(sequence), es), Book(Boot(sequence), CLEAN, es);
              && (!Returnable(sequence, Spill) ==> SpillPending(s.ssm) || SpillsRight(s, l))
              && (!Returnable(sequence, AfterSpill) ==> AfterPending(s.ssm) || TimeRight(s, l))
    {
      LateOnlyIfReturnable(sequence, es);
      RegistersAreRightIff(sequence, es);
    }
  }

  /** For a loaded number of spills: both can go wrong unless it is zero. */
  lemma LoadedSpillsAreRightIff(n: nat)
    ensures SpillsAlwaysRight(SpillSequence(n)) <==> n == 0
    ensures TimeAlwaysRight(SpillSequence(n)) <==> n == 0
  {
    SpillSequenceFacts(n);
    AlwaysRightIff(SpillSequence(n));
    if n > 0 {
      FaultFreeIsReturnable(SpillSequence(n), AfterSpill);
      assert Spill in SpillSequence(n);
      FaultFreeIsReturnable(SpillSequence(n), Spill);
    }
  }

  lemma FaultFreeIsReturnable(sequence: seq<SpillState>, x: SpillState)
    requires x in sequence && Fault !in sequence
    ensures Returnable(sequence, x)
  {
    var i :| 0 <= i < |sequence| && sequence[i] == x;
    assert Count(sequence[..i], Fault) == 0;
  }

  // --------------------------------------------------- what can be returned

  /** The FAULTs among the states taken since the last refill. */
  function Faults(d: Device): nat
    requires |d.pending| <= |d.initial|
  {
    Count(d.initial[..|d.initial| - |d.pending|], Fault)
  }

  /** How many FAULTs may have been taken: one that the thread has not seen yet,
      and one more once the initialize that refilled has advanced. */
  function Allowed(s: System): nat {
    (if s.ctl == Busy(InitializeOp, 4) then 0 else 1) + (if s.ssm != Wait && s.dev.state == Fault then 1 else 0)
  }

  /** No thread takes anything before the next refill. */
  predicate Served(s: System) {
    || s.ssm == Finished || s.ctl == Crashed
    || (s.ssm == Absent && match s.ctl
                           case Busy(ResetOp, pos) => pos <= 14
                           case Busy(StopOp, _) => true
                           case Halted => true
                           case _ => false)
  }

  predicate Suffix(d: Device) {
    |d.pending| <= |d.initial| && d.pending == d.initial[|d.initial| - |d.pending|..]
  }

  predicate InBudget(s: System)
    requires Suffix(s.dev)
  {
    s.dev.pending == [] || Served(s) || Faults(s.dev) <= Allowed(s)
  }

  predicate Rationed(s: System) {
    ThreadInv(s) && Suffix(s.dev) && InBudget(s)
  }

  predicate Carries(pc: Pc, x: SpillState) {
    pc == CountSpill(x) || pc == MarkTime(x) || pc == DarkenLed(x)
  }

  predicate Returned(s: System, sequence: seq<SpillState>) {
    s.dev.initial == sequence && forall x :: Carries(s.ssm, x) ==> x == Fault || Returnable(sequence, x)
  }

  lemma TakeOne(d: Device)
    requires Suffix(d)
    ensures Suffix(d.Next())
    ensures d.pending != [] ==>
              && d.pending[0] == d.initial[|d.initial| - |d.pending|]
              && Faults(d.Next()) == Faults(d) + One(d.pending[0] == Fault)
  {
    if d.pending != [] {
      var p := |d.initial| - |d.pending|;
      assert d.initial[..p + 1] == d.initial[..p] + [d.initial[p]];
      assert multiset(d.initial[..p + 1]) == multiset(d.initial[..p]) + multiset([d.initial[p]]);
    }
  }

  /** A change that takes nothing from the sequence. */
  lemma BudgetKept(s: System, t: System)
    requires Suffix(s.dev) && InBudget(s)
    requires t.dev.initial == s.dev.initial && t.dev.pending == s.dev.pending
    requires Served(s) ==> Served(t)
    requires Served(t) || Allowed(s) <= Allowed(t)
    ensures Suffix(t.dev) && InBudget(t)
  {
  }

  lemma ReturnedKept(s: System, t: System, sequence: seq<SpillState>)
    requires Returned(s, sequence) && t.dev.initial == s.dev.initial
    requires forall x :: Carries(t.ssm, x) ==> Carries(s.ssm, x)
    ensures Returned(t, sequence)
  {
  }

  lemma TransitionIsRationed(s: System)
    requires Rationed(s) && Enabled(s, SsmEvent) && s.ssm == Wait
    ensures Suffix(SsmStep(s).dev) && InBudget(SsmStep(s))
  {
    TakeOne(s.dev);
  }

  lemma TransitionReturns(s: System, sequence: seq<SpillState>)
    requires Rationed(s) && Returned(s, sequence) && Enabled(s, SsmEvent) && s.ssm == Wait
    ensures Returned(SsmStep(s), sequence)
  {
    var x := s.dev.Next().state;
    if s.dev.pending != [] {
      TakeOne(s.dev);
      var p := |sequence| - |s.dev.pending|;
      assert sequence[p] == x && Count(sequence[..p], Fault) <= 1;
    }
    assert forall y :: Carries(SsmStep(s).ssm, y) ==> y == x;
  }

  /** The other steps of the thread. */
  lemma SsmEffect(s: System)
    requires Enabled(s, SsmEvent) && s.ssm != Wait
    ensures var t := SsmStep(s);
            && t.ctl == s.ctl && t.dev.initial == s.dev.initial && t.dev.pending == s.dev.pending
            && t.dev.state == s.dev.state
            && (t.ssm == Wait ==> s.ssm == Check && s.dev.state != Fault)
            && (forall x :: Carries(t.ssm, x) ==> Carries(s.ssm, x))
  {
  }

  lemma SsmStaysRationed(s: System, sequence: seq<SpillState>)
    requires Rationed(s) && Returned(s, sequence) && Enabled(s, SsmEvent)
    ensures Rationed(SsmStep(s)) && Returned(SsmStep(s), sequence)
  {
    SsmKeepsThreadInv(s);
    if s.ssm == Wait {
      TransitionIsRationed(s);
      TransitionReturns(s, sequence);
    } else {
      SsmEffect(s);
      BudgetKept(s, SsmStep(s));
      ReturnedKept(s, SsmStep(s), sequence);
    }
  }

  lemma CtlServes(s: System)
    requires ThreadInv(s) && Enabled(s, CtlEvent) && Script(s.ctl.op)[s.ctl.pos] != RefillSequence
    ensures Served(s) ==> Served(CtlStep(s))
  {
    var Busy(op, pos) := s.ctl;
    ScriptTail(op);
    ThreadActs(op, pos);
    SequenceActs(op, pos);
    ThreadEffect(s, Script(op)[pos]);
  }

  lemma CtlAllows(s: System)
    requires ThreadInv(s) && Enabled(s, CtlEvent)
    requires Script(s.ctl.op)[s.ctl.pos] != RefillSequence && Script(s.ctl.op)[s.ctl.pos] != Advance
    ensures Served(CtlStep(s)) || Allowed(s) <= Allowed(CtlStep(s))
  {
    var Busy(op, pos) := s.ctl;
    ScriptTail(op);
    ThreadActs(op, pos);
    SequenceActs(op, pos);
    ThreadEffect(s, Script(op)[pos]);
    SequenceEffect(s, Script(op)[pos]);
  }

  /** The advance of an initialize takes one state without asking. */
  lemma AdvanceIsRationed(s: System)
    requires Suffix(s.dev) && InBudget(s) && s.ctl == Busy(InitializeOp, 4)
    ensures var t := Done(s, Advance).(ctl := Busy(InitializeOp, 5)); Suffix(t.dev) && InBudget(t)
  {
    TakeOne(s.dev);
  }

  lemma CtlStaysRationed(s: System)
    requires Rationed(s) && Enabled(s, CtlEvent)
    ensures Rationed(CtlStep(s)) && CtlStep(s).dev.initial == s.dev.initial
  {
    var Busy(op, pos) := s.ctl;
    var act, t := Script(op)[pos], CtlStep(s);
    CtlKeepsThreadInv(s);
    CtlKeepsInitial(s);
    if act == RefillSequence {
      RefilledIsUntouched(t.dev);
    } else if act == Advance {
      SequenceActs(op, pos);
      InitializeStep(s, 4);
      AdvanceIsRationed(s);
    } else {
      CtlServes(s);
      CtlAllows(s);
      if t.dev.pending != [] {
        BudgetKept(s, t);
      }
    }
  }

  lemma CtlKeepsInitial(s: System)
    requires Enabled(s, CtlEvent)
    ensures var t, act := CtlStep(s), Script(s.ctl.op)[s.ctl.pos];
            && t.dev.initial == s.dev.initial
            && (act == RefillSequence ==> t.dev.pending == s.dev.initial)
            && (act != RefillSequence && act != Advance ==> t.dev.pending == s.dev.pending || t.dev.pending == [])
            && (t.dev.pending == [] ==> Suffix(t.dev))
  {
    SequenceEffect(s, Script(s.ctl.op)[s.ctl.pos]);
  }

  lemma CtlCarries(s: System)
    requires Enabled(s, CtlEvent)
    ensures forall x :: Carries(CtlStep(s).ssm, x) ==> Carries(s.ssm, x)
  {
    ThreadEffect(s, Script(s.ctl.op)[s.ctl.pos]);
  }

  lemma CtlLateReturns(s: System, l: Ledger, sequence: seq<SpillState>)
    requires Returned(s, sequence) && LateReturns(l, sequence) && Enabled(s, CtlEvent)
    ensures LateReturns(Noted(s, l, CtlEvent), sequence)
  {
    assert SpillPending(s.ssm) ==> Carries(s.ssm, Spill);
    assert AfterPending(s.ssm) ==> Carries(s.ssm, AfterSpill);
  }

  lemma RefilledIsUntouched(d: Device)
    requires d.pending == d.initial
    ensures Suffix(d) && Faults(d) == 0
  {
    assert d.initial[|d.initial| - |d.pending|..] == d.pending;
    assert d.initial[..|d.initial| - |d.pending|] == [];
  }

  /** A register is late only on account of a state that can be returned. */
  predicate LateReturns(l: Ledger, sequence: seq<SpillState>) {
    && (l.lateSpill ==> Returnable(sequence, Spill))
    && (l.lateAfter ==> Returnable(sequence, AfterSpill))
  }

  lemma StepIsRationed(s: System, l: Ledger, e: Event, sequence: seq<SpillState>)
    requires Rationed(s) && Returned(s, sequence) && LateReturns(l, sequence) && Enabled(s, e)
    ensures Rationed(Step(s, e)) && Returned(Step(s, e), sequence) && LateReturns(Noted(s, l, e), sequence)
  {
    match e
    case CtlEvent =>
      CtlStaysRationed(s);
      CtlCarries(s);
      ReturnedKept(s, CtlStep(s), sequence);
      CtlLateReturns(s, l, sequence);
    case SsmEvent => SsmStaysRationed(s, sequence);
    case AcceptEvent(command) =>
      ScriptTail(OpOf(command));
      BudgetKept(s, Step(s, e));
  }

  lemma {:induction false} RunIsRationed(s: System, l: Ledger, es: seq<Event>, sequence: seq<SpillState>)
    requires Rationed(s) && Returned(s, sequence) && LateReturns(l, sequence) && Valid(s, es)
    ensures Returned(Final(s, es), sequence) && LateReturns(Book(s, l, es), sequence)
    decreases |es|
  {
    if es != [] {
      StepIsRationed(s, l, es[0], sequence);
      RunIsRationed(Step(s, es[0]), Noted(s, l, es[0]), es[1..], sequence);
    }
  }

  lemma LateOnlyIfReturnable(sequence: seq<SpillState>, es: seq<Event>)
    requires Valid(Boot(sequence), es)
    ensures LateReturns(Book(Boot(sequence), CLEAN, es), sequence)
  {
    BootInv(sequence);
    RefilledIsUntouched(Boot(sequence).dev);
    RunIsRationed(Boot(sequence), CLEAN, es, sequence);
  }

  // -------------------------------------------------------------- schedules

  /** The thread alone, until it has returned the i-th state from here. */
  lemma {:induction false} PlayUpTo(s: System, i: nat) returns (es: seq<Event>)
    requires Looping(s) && s.ctl != Crashed
    requires i <= |s.dev.pending| && Fault !in s.dev.pending[..i] && (s.ssm == Wait || s.dev.state != Fault)
    ensures Valid(s, es) && Final(s, es).ctl == s.ctl
    ensures Final(s, es).ssm == CountSpill(if i < |s.dev.pending| then s.dev.pending[i] else Fault)
    decreases SsmWork(s)
  {
    SsmStepWorks(s);
    var t, rest := SsmStep(s), [];
    if s.ssm != Wait {
      rest := PlayUpTo(t, i);
    } else if i > 0 {
      FaultFreeTail(s.dev.pending, i);
      rest := PlayUpTo(t, i - 1);
    }
    es := [SsmEvent] + rest;
    StepThenRun(s, SsmEvent, rest);
  }

  lemma FaultFreeTail(s: seq<SpillState>, i: nat)
    requires 0 < i <= |s| && Fault !in s[..i]
    ensures s[0] != Fault && Fault !in s[1..][..i - 1]
  {
    assert s[0] == s[..i][0];
    assert s[1..][..i - 1] == s[..i][1..];
  }

  /** The thread alone, until it stands before its i-th transition from here. */
  lemma {:induction false} PlayBefore(s: System, i: nat) returns (es: seq<Event>)
    requires Looping(s) && s.ctl != Crashed
    requires i <= |s.dev.pending| && Fault !in s.dev.pending[..i] && (s.ssm == Wait || s.dev.state != Fault)
    ensures Valid(s, es) && Final(s, es).ctl == s.ctl && Final(s, es).ssm == Wait
    ensures Final(s, es).dev.pending == s.dev.pending[i..]
    decreases SsmWork(s)
  {
    if s.ssm == Wait && i == 0 {
      es := [];
    } else {
      SsmStepWorks(s);
      var rest;
      if s.ssm != Wait {
        rest := PlayBefore(SsmStep(s), i);
      } else {
        FaultFreeTail(s.dev.pending, i);
        rest := PlayBefore(SsmStep(s), i - 1);
        assert s.dev.pending[1..][i - 1..] == s.dev.pending[i..];
      }
      es := [SsmEvent] + rest;
      StepThenRun(s, SsmEvent, rest);
    }
  }

  /** The controller alone, from before the refill of an initialize to after it. */
  lemma {:induction false} InitializeUpToAdvance(s: System, pos: nat) returns (es: seq<Event>)
    requires s.ctl == Busy(InitializeOp, pos) && pos <= 3
    ensures Valid(s, es)
    ensures var t := Final(s, es);
            && t.ctl == Busy(InitializeOp, 4) && t.ssm == s.ssm
            && t.dev.pending == s.dev.initial && t.dev.state == s.dev.state
    decreases 4 - pos
  {
    InitializeStep(s, pos);
    var t, rest := CtlStep(s), [];
    if pos < 3 {
      rest := InitializeUpToAdvance(t, pos + 1);
    }
    es := [CtlEvent] + rest;
    StepThenRun(s, CtlEvent, rest);
  }

  /** The controller alone, from after the advance to the end. */
  lemma {:induction false} InitializeAfterAdvance(s: System, pos: nat) returns (es: seq<Event>)
    requires s.ctl == Busy(InitializeOp, pos) && 5 <= pos < 11
    ensures Valid(s, es)
    ensures var t := Final(s, es);
            t.ctl == Waiting && t.ssm == s.ssm && t.dev.pending == s.dev.pending && t.dev.state == s.dev.state
    decreases 11 - pos
  {
    InitializeStep(s, pos);
    var t, rest := CtlStep(s), [];
    if pos < 10 {
      rest := InitializeAfterAdvance(t, pos + 1);
    }
    es := [CtlEvent] + rest;
    StepThenRun(s, CtlEvent, rest);
  }

  lemma StartedThread(sequence: seq<SpillState>) returns (es: seq<Event>, t: System)
    ensures Valid(Boot(sequence), es) && Final(Boot(sequence), es) == t
    ensures t.ctl == Waiting && t.ssm == Check && t.dev == Fresh(sequence)
  {
    var b, start := Boot(sequence), AcceptEvent(CommandStart);
    RunIsARun(b);
    var run: seq<Event> :| Valid(Step(b, start), run) && OnlyThreads(run) && Final(Step(b, start), run) == AfterRun(b);
    StepThenRun(b, start, run);
    es := [start] + run;
    t := AfterRun(b);
  }

  /** Without a FAULT before it the thread gets to the i-th state by itself. */
  lemma FreeReturn(sequence: seq<SpillState>, i: nat) returns (es: seq<Event>)
    requires i <= |sequence| && Fault !in sequence[..i]
    ensures Valid(Boot(sequence), es) && Final(Boot(sequence), es).ctl == Waiting
    ensures Final(Boot(sequence), es).ssm == CountSpill(if i < |sequence| then sequence[i] else Fault)
  {
    var start, t := StartedThread(sequence);
    var play := PlayUpTo(t, i);
    RunsConcat(Boot(sequence), start, play);
    es := start + play;
  }

  /** An initialize has refilled the sequence while the thread stands before a transition. */
  predicate RefilledAtWait(s: System, sequence: seq<SpillState>) {
    s.ctl == Busy(InitializeOp, 4) && s.ssm == Wait && s.dev.pending == sequence
  }

  lemma RefillAtWait(sequence: seq<SpillState>) returns (es: seq<Event>)
    ensures Valid(Boot(sequence), es) && RefilledAtWait(Final(Boot(sequence), es), sequence)
  {
    var start, t := StartedThread(sequence);
    var wait, e := SsmStep(t), AcceptEvent(CommandSSMInit);
    var refill := InitializeUpToAdvance(Step(wait, e), 0);
    StepThenRun(wait, e, refill);
    StepThenRun(t, SsmEvent, [e] + refill);
    RunsConcat(Boot(sequence), start, [SsmEvent] + ([e] + refill));
    es := start + ([SsmEvent] + ([e] + refill));
  }

  lemma AdvanceTakes(s: System)
    requires s.ctl == Busy(InitializeOp, 4) && s.dev.pending != []
    ensures Enabled(s, CtlEvent)
    ensures var t := CtlStep(s);
            t.ctl == Busy(InitializeOp, 5) && t.ssm == s.ssm && t.dev.pending == s.dev.pending[1..]
  {
    InitializeStep(s, 4);
  }

  /** The initialize takes the j-th state of the sequence, and the thread those before it. */
  lemma SkipOne(s: System, sequence: seq<SpillState>, j: nat) returns (es: seq<Event>)
    requires RefilledAtWait(s, sequence) && j < |sequence| && Fault !in sequence[..j]
    ensures Valid(s, es)
    ensures var t := Final(s, es); t.ctl == Waiting && t.ssm == Wait && t.dev.pending == sequence[j + 1..]
  {
    var before := PlayBefore(s, j);
    var here := Final(s, before);
    Sequences.TailOfTail(sequence, j);
    AdvanceTakes(here);
    var finish := InitializeAfterAdvance(CtlStep(here), 5);
    StepThenRun(here, CtlEvent, finish);
    RunsConcat(s, before, [CtlEvent] + finish);
    es := before + ([CtlEvent] + finish);
  }

  /** Past a single FAULT the thread gets when an initialize takes that one. */
  lemma SkippingReturn(sequence: seq<SpillState>, j: nat, i: nat) returns (es: seq<Event>)
    requires j < i < |sequence| && Fault !in sequence[..j] && Fault !in sequence[j + 1..i]
    ensures Valid(Boot(sequence), es) && Final(Boot(sequence), es).ctl == Waiting
    ensures Final(Boot(sequence), es).ssm == CountSpill(sequence[i])
  {
    var refill := RefillAtWait(sequence);
    var refilled := Final(Boot(sequence), refill);
    var skip := SkipOne(refilled, sequence, j);
    var idle := Final(refilled, skip);
    assert sequence[j + 1..][..i - j - 1] == sequence[j + 1..i];
    var play := PlayUpTo(idle, i - j - 1);
    RunsConcat(refilled, skip, play);
    RunsConcat(Boot(sequence), refill, skip + play);
    es := refill + (skip + play);
  }

  lemma SomeReturn(sequence: seq<SpillState>, x: SpillState) returns (es: seq<Event>)
    requires Returnable(sequence, x)
    ensures Valid(Boot(sequence), es)
    ensures Final(Boot(sequence), es).ctl == Waiting && Final(Boot(sequence), es).ssm == CountSpill(x)
  {
    var i :| 0 <= i < |sequence| && sequence[i] == x && Count(sequence[..i], Fault) <= 1;
    if Fault !in sequence[..i] {
      es := FreeReturn(sequence, i);
    } else {
      var j := OnlyFault(sequence, i);
      es := SkippingReturn(sequence, j, i);
    }
  }

  lemma OnlyFault(s: seq<SpillState>, i: nat) returns (j: nat)
    requires i <= |s| && Fault in s[..i] && Count(s[..i], Fault) <= 1
    ensures j < i && s[j] == Fault && Fault !in s[..j] && Fault !in s[j + 1..i]
  {
    j :| 0 <= j < i && s[..i][j] == Fault;
    assert s[..i] == s[..j] + [s[j]] + s[j + 1..i];
    assert multiset(s[..i]) == multiset(s[..j]) + multiset([s[j]]) + multiset(s[j + 1..i]);
    assert Count(s[..j], Fault) == 0 && Count(s[j + 1..i], Fault) == 0;
  }

  lemma FaultReturn(sequence: seq<SpillState>) returns (es: seq<Event>)
    ensures Valid(Boot(sequence), es)
    ensures Final(Boot(sequence), es).ctl == Waiting && Final(Boot(sequence), es).ssm == CountSpill(Fault)
  {
    var i := 0;
    while i < |sequence| && sequence[i] != Fault
      invariant i <= |sequence| && Fault !in sequence[..i]
    {
      i := i + 1;
    }
    es := FreeReturn(sequence, i);
  }

  /** What an initialize has written to the ledger at position `pos`, with the
      bookkeeping of x outstanding all the time. */
  predicate Overtaken(l: Ledger, x: SpillState, pos: nat) {
    && (pos > 0 ==> l.spills == 0 && (l.lateSpill <==> x == Spill))
    && (pos > 1 ==> !l.after && (l.lateAfter <==> x == AfterSpill))
    && (pos > 2 ==> l.lit && !l.dark && (l.lateDark <==> x == Fault))
  }

  lemma RewrittenOvertakes(l: Ledger, x: SpillState, pos: nat)
    requires pos < 11 && Overtaken(l, x, pos)
    ensures Overtaken(l.Rewritten(InitializeAct(pos), CountSpill(x)), x, pos + 1)
    ensures InitializeAct(pos) != Spawn && InitializeAct(pos) != DropHandle
  {
    InitializeScript(pos);
  }

  lemma {:induction false} InitializeOvertakes(s: System, l: Ledger, x: SpillState, pos: nat) returns (es: seq<Event>)
    requires s.ctl == Busy(InitializeOp, pos) && pos < 11 && s.ssm == CountSpill(x) && Overtaken(l, x, pos)
    ensures Valid(s, es) && Final(s, es).ctl == Waiting && Final(s, es).ssm == s.ssm
    ensures Overtaken(Book(s, l, es), x, 11)
    decreases 11 - pos
  {
    InitializeStep(s, pos);
    RewrittenOvertakes(l, x, pos);
    var t, noted, rest := CtlStep(s), Noted(s, l, CtlEvent), [];
    ThreadEffect(s, InitializeAct(pos));
    if pos < 10 {
      rest := InitializeOvertakes(t, noted, x, pos + 1);
    }
    es := [CtlEvent] + rest;
    BookFirst(s, l, CtlEvent, rest);
  }

  /** The thread alone completes its bookkeeping. */
  lemma Bookkeeping(s: System, l: Ledger, x: SpillState) returns (es: seq<Event>)
    requires s.ctl == Waiting && s.ssm == CountSpill(x)
    ensures Valid(s, es) && Book(s, l, es) == l && Final(s, es).ssm == Publish(StateField)
  {
    var marked := SsmStep(s);
    var darkened := SsmStep(marked);
    BookFirst(darkened, l, SsmEvent, []);
    BookFirst(marked, l, SsmEvent, [SsmEvent] + []);
    BookFirst(s, l, SsmEvent, [SsmEvent] + ([SsmEvent] + []));
    es := [SsmEvent] + ([SsmEvent] + ([SsmEvent] + []));
  }

  /** A complete initialize overtakes the bookkeeping of x. */
  lemma GoesWrong(sequence: seq<SpillState>, history: seq<Event>, x: SpillState) returns (es: seq<Event>)
    requires Valid(Boot(sequence), history)
    requires Final(Boot(sequence), history).ctl == Waiting && Final(Boot(sequence), history).ssm == CountSpill(x)
    ensures Valid(Boot(sequence), es)
    ensures var s, l := Final(Boot(sequence), es), Book(Boot(sequence), CLEAN, es);
            && s.ssm == Publish(StateField)
            && (x == Spill ==> !SpillsRight(s, l))
            && (x == AfterSpill ==> !TimeRight(s, l))
            && (x == Fault ==> !LedRight(s, l))
  {
    var b, e := Boot(sequence), AcceptEvent(CommandSSMInit);
    var s, l := Final(b, history), Book(b, CLEAN, history);
    var busy := Step(s, e);
    var initialize := InitializeOvertakes(busy, l, x, 0);
    var idle := Final(busy, initialize);
    var book := Bookkeeping(idle, Book(busy, l, initialize), x);
    BookConcat(busy, l, initialize, book);
    BookFirst(s, l, e, initialize + book);
    BookConcat(b, CLEAN, history, [e] + (initialize + book));
    es := history + ([e] + (initialize + book));
    RegistersAreRightIff(sequence, es);
  }
}
