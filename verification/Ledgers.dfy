/** What the device's registers should show, kept along any run of the two
    threads, and when they do. */
module Ledgers {
  import Sequences
  import opened Api
  import opened SpillDevice
  import opened TwoThreads

  /** For the spill counter, the time in spill and the LED: what the thread's
      transitions have added since the controller last wrote the register, and
      whether the bookkeeping of an earlier transition was still to come when
      the controller wrote it. */
  datatype Ledger = Ledger(
    spills: nat,       // transitions to SPILL
    lateSpill: bool,
    after: bool,       // a transition to AFTER_SPILL
    lateAfter: bool,
    lit: bool,         // what was written to the LED
    dark: bool,        // a transition to FAULT
    lateDark: bool)
  {
    function Entered(x: SpillState): Ledger {
      this.(spills := if x == Spill then spills + 1 else spills,
            after := after || x == AfterSpill,
            dark := dark || x == Fault)
    }

    function Rewritten(act: Act, pc: Pc): Ledger {
      match act
      case ZeroSpills => this.(spills := 0, lateSpill := SpillPending(pc))
      case ZeroTime => this.(after := false, lateAfter := AfterPending(pc))
      case WriteLed(b) => this.(lit := b, dark := false, lateDark := DarkPending(pc))
      case _ => this
    }
  }

  const CLEAN := Ledger(0, false, false, false, false, false, false)

  /** The thread has returned SPILL and not counted it. */
  predicate SpillPending(pc: Pc) {
    pc == CountSpill(Spill)
  }

  predicate AfterPending(pc: Pc) {
    pc == CountSpill(AfterSpill) || pc == MarkTime(AfterSpill)
  }

  predicate DarkPending(pc: Pc) {
    pc == CountSpill(Fault) || pc == MarkTime(Fault) || pc == DarkenLed(Fault)
  }

  function Noted(s: System, l: Ledger, e: Event): Ledger
    requires Enabled(s, e)
  {
    match e
    case SsmEvent => if s.ssm == Wait then l.Entered(s.dev.Next().state) else l
    case CtlEvent => l.Rewritten(Script(s.ctl.op)[s.ctl.pos], s.ssm)
    case AcceptEvent(_) => l
  }

  /** The ledger after a run. */
  function Book(s: System, l: Ledger, es: seq<Event>): Ledger
    requires Valid(s, es)
    decreases |es|
  {
    if es == [] then l else Book(Step(s, es[0]), Noted(s, l, es[0]), es[1..])
  }

  function One(b: bool): nat {
    if b then 1 else 0
  }

  predicate SpillsBalance(s: System, l: Ledger) {
    s.dev.spills + One(SpillPending(s.ssm)) == l.spills + One(l.lateSpill)
  }

  predicate TimeBalances(s: System, l: Ledger) {
    && (s.dev.timeInSpill == 0 || s.dev.timeInSpill == TIME_IN_SPILL)
    && (s.dev.timeInSpill == TIME_IN_SPILL || AfterPending(s.ssm) <==> l.after || l.lateAfter)
  }

  predicate LedBalances(s: System, l: Ledger) {
    s.dev.led && !DarkPending(s.ssm) <==> l.lit && !l.dark && !l.lateDark
  }

  /** Conservation: what the registers hold, with what is still to come, is what
      the transitions brought, with what came too late. */
  predicate Balanced(s: System, l: Ledger) {
    SpillsBalance(s, l) && TimeBalances(s, l) && LedBalances(s, l)
  }

  lemma SsmKeepsSpills(s: System, l: Ledger)
    requires SpillsBalance(s, l) && Enabled(s, SsmEvent)
    ensures SpillsBalance(SsmStep(s), Noted(s, l, SsmEvent))
  {
  }

  lemma SsmKeepsTime(s: System, l: Ledger)
    requires TimeBalances(s, l) && Enabled(s, SsmEvent)
    ensures TimeBalances(SsmStep(s), Noted(s, l, SsmEvent))
  {
  }

  lemma SsmKeepsLed(s: System, l: Ledger)
    requires LedBalances(s, l) && Enabled(s, SsmEvent)
    ensures LedBalances(SsmStep(s), Noted(s, l, SsmEvent))
  {
  }

  /** The effect of an act on the three registers. */
  lemma RegisterEffect(s: System, act: Act)
    ensures var t := Done(s, act);
            && t.dev.spills == (if act == ZeroSpills then 0 else s.dev.spills)
            && t.dev.timeInSpill == (if act == ZeroTime then 0 else s.dev.timeInSpill)
            && t.dev.led == (if act.WriteLed? then act.led else s.dev.led)
  {
  }

  lemma ActKeepsBalance(s: System, l: Ledger, act: Act)
    requires Balanced(s, l)
    requires act == DropHandle || act == Spawn ==> s.ssm == Absent || s.ssm == Finished
    ensures Balanced(Done(s, act), l.Rewritten(act, s.ssm))
  {
    RegisterEffect(s, act);
    ThreadEffect(s, act);
  }

  lemma CtlKeepsBalance(s: System, l: Ledger)
    requires ThreadInv(s) && Balanced(s, l) && Enabled(s, CtlEvent)
    ensures Balanced(CtlStep(s), Noted(s, l, CtlEvent))
  {
    var act := Script(s.ctl.op)[s.ctl.pos];
    ThreadActs(s.ctl.op, s.ctl.pos);
    if !((act == SkipIfNull && !s.handle) || (act == Spawn && s.handle)) {
      ActKeepsBalance(s, l, act);
    }
  }

  lemma StepKeepsBalance(s: System, l: Ledger, e: Event)
    requires ThreadInv(s) && Balanced(s, l) && Enabled(s, e)
    ensures ThreadInv(Step(s, e)) && Balanced(Step(s, e), Noted(s, l, e))
  {
    match e
    case CtlEvent =>
      CtlKeepsThreadInv(s);
      CtlKeepsBalance(s, l);
    case SsmEvent =>
      SsmKeepsThreadInv(s);
      SsmKeepsSpills(s, l);
      SsmKeepsTime(s, l);
      SsmKeepsLed(s, l);
    case AcceptEvent(command) =>
      ScriptTail(OpOf(command));
  }

  lemma {:induction false} RunKeepsBalance(s: System, l: Ledger, es: seq<Event>)
    requires ThreadInv(s) && Balanced(s, l) && Valid(s, es)
    ensures Balanced(Final(s, es), Book(s, l, es)) && ThreadInv(Final(s, es))
    decreases |es|
  {
    if es != [] {
      StepKeepsBalance(s, l, es[0]);
      RunKeepsBalance(Step(s, es[0]), Noted(s, l, es[0]), es[1..]);
    }
  }

  /** Conservation over every interleaving of every command history. */
  lemma EveryRunBalances(sequence: seq<SpillState>, es: seq<Event>)
    requires Valid(Boot(sequence), es)
    ensures Balanced(Final(Boot(sequence), es), Book(Boot(sequence), CLEAN, es))
  {
    BootInv(sequence);
    RunKeepsBalance(Boot(sequence), CLEAN, es);
  }

  /** The counter holds the spills since it was zeroed. */
  predicate SpillsRight(s: System, l: Ledger) {
    s.dev.spills == l.spills
  }

  predicate TimeRight(s: System, l: Ledger) {
    s.dev.timeInSpill == if l.after then TIME_IN_SPILL else 0
  }

  /** The LED is what was written to it, unless FAULT was returned since. */
  predicate LedRight(s: System, l: Ledger) {
    s.dev.led <==> l.lit && !l.dark
  }

  /** In every run, where a register's bookkeeping is done it is right exactly if
      none was outstanding when the controller last wrote it, or if the later
      transitions hide that. */
  lemma RegistersAreRightIff(sequence: seq<SpillState>, es: seq<Event>)
    requires Valid(Boot(sequence), es)
    ensures var s, l := Final(Boot(sequence), es), Book(Boot(sequence), CLEAN, es);
            && (!SpillPending(s.ssm) ==> (SpillsRight(s, l) <==> !l.lateSpill))
            && (!AfterPending(s.ssm) ==> (TimeRight(s, l) <==> !l.lateAfter || l.after))
            && (!DarkPending(s.ssm) ==> (LedRight(s, l) <==> !l.lateDark || l.dark || !l.lit))
  {
    EveryRunBalances(sequence, es);
  }

  lemma {:induction false} BookConcat(s: System, l: Ledger, a: seq<Event>, b: seq<Event>)
    requires Valid(s, a) && Valid(Final(s, a), b)
    ensures Valid(s, a + b) && Final(s, a + b) == Final(Final(s, a), b)
    ensures Book(s, l, a + b) == Book(Final(s, a), Book(s, l, a), b)
    decreases |a|
  {
    if a == [] {
      assert a + b == b;
    } else {
      BookConcat(Step(s, a[0]), Noted(s, l, a[0]), a[1..], b);
      BookFirst(s, l, a[0], a[1..] + b);
      Sequences.FirstOfConcat(a, b);
    }
  }

  lemma BookFirst(s: System, l: Ledger, e: Event, es: seq<Event>)
    requires Enabled(s, e) && Valid(Step(s, e), es)
    ensures Valid(s, [e] + es) && Final(s, [e] + es) == Final(Step(s, e), es)
    ensures Book(s, l, [e] + es) == Book(Step(s, e), Noted(s, l, e), es)
  {
    Sequences.RestOfCons(e, es);
  }
}
