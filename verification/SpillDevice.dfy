/** The spill state machine device as a value: what the mock driver keeps and
    what each of its operations makes of it.  The driver class, the facade and
    the two-thread model are all proved against these functions. */
module SpillDevice {
  import Sequences

  datatype SpillState =
    | Idle | Init | BetweenCycles | StartCycle | BetweenSpills | ReadIBeam | Ramp | Spill
    | StartEosTimer | SpillParabola | StartCleanupTimer | AfterSpill | EndCycle | Learning
    | Abort | Fault | Unknown

  const TIME_IN_SPILL: nat := 107

  datatype Device = Device(
    initial: seq<SpillState>,   // replayed after every initialize or reset
    pending: seq<SpillState>,   // what is still to be replayed
    state: SpillState,
    spills: nat,
    timeInSpill: nat,
    led: bool)
  {
    function Refilled(): Device {
      this.(pending := initial)
    }

    /** An exhausted sequence means FAULT. */
    function Next(): Device {
      if pending == [] then this.(state := Fault)
      else this.(state := pending[0], pending := pending[1..])
    }

    /** The bookkeeping that follows the return of state `ret`. */
    function Recorded(ret: SpillState): Device {
      this.(spills := if ret == Spill then spills + 1 else spills,
            timeInSpill := if ret == AfterSpill then TIME_IN_SPILL else timeInSpill,
            led := led && ret != Fault)
    }

    function Waited(): Device {
      Next().Recorded(Next().state)
    }

    function Faulted(): Device {
      this.(state := Fault, led := false, pending := [])
    }

    function Initialized(): Device {
      this.(spills := 0, timeInSpill := 0, led := true).Refilled().Next()
    }

    function WasReset(): Device {
      Fresh(initial)
    }

    /** Waiting until FAULT is seen: the whole of the SSM thread's loop. */
    function RunToFault(): Device
      decreases if state == Fault then 0 else |pending| + 1
    {
      if state == Fault then this else Waited().RunToFault()
    }
  }

  /** A driver that was just reset with the given sequence loaded. */
  function Fresh(sequence: seq<SpillState>): Device {
    Device(sequence, sequence, Idle, 0, 0, false)
  }

  /** How often `x` occurs in `s`. */
  function Count(s: seq<SpillState>, x: SpillState): nat {
    multiset(s)[x]
  }

  /** One full spill as the mock replays it. */
  const SPILL_CYCLE: seq<SpillState> :=
    [BetweenCycles, ReadIBeam, Ramp, Spill, AfterSpill, EndCycle, Learning, BetweenCycles]

  function Repeated(block: seq<SpillState>, n: nat): seq<SpillState> {
    if n == 0 then [] else Repeated(block, n - 1) + block
  }

  function SpillSequence(spills: nat): seq<SpillState> {
    Repeated(SPILL_CYCLE, spills)
  }

  lemma SpillSequenceFacts(n: nat)
    ensures |SpillSequence(n)| == 8 * n
    ensures Count(SpillSequence(n), Spill) == n
    ensures Fault !in SpillSequence(n)
    ensures n > 0 ==> AfterSpill in SpillSequence(n) && SpillSequence(n)[0] == BetweenCycles
  {
    CycleFacts();
    RepeatedLength(SPILL_CYCLE, n);
    RepeatedCount(SPILL_CYCLE, n);
    RepeatedMembers(SPILL_CYCLE, n);
  }

  /** The i-th spill of a loaded sequence, state by state. */
  lemma LoadedStates(n: nat, i: nat)
    requires i < n
    ensures |SpillSequence(n)| == 8 * n
    ensures SpillSequence(n)[8 * i..8 * i + 8]
         == [BetweenCycles, ReadIBeam, Ramp, Spill, AfterSpill, EndCycle, Learning, BetweenCycles]
  {
    RepeatedLength(SPILL_CYCLE, n);
    forall k | 0 <= k < 8 ensures SpillSequence(n)[8 * i + k] == SPILL_CYCLE[k] {
      RepeatedStates(SPILL_CYCLE, n, i, k);
    }
    assert SpillSequence(n)[8 * i..8 * i + 8] == SPILL_CYCLE;
  }

  lemma {:induction false} RepeatedStates(block: seq<SpillState>, n: nat, i: nat, k: nat)
    requires |block| == 8 && i < n && k < 8
    ensures |Repeated(block, n)| == 8 * n && Repeated(block, n)[8 * i + k] == block[k]
  {
    RepeatedLength(block, n);
    RepeatedLength(block, n - 1);
    if i < n - 1 {
      RepeatedStates(block, n - 1, i, k);
    }
  }

  lemma {:induction false} RepeatedLength(block: seq<SpillState>, n: nat)
    requires |block| == 8
    ensures |Repeated(block, n)| == 8 * n
    ensures n > 0 ==> Repeated(block, n)[0] == block[0]
  {
    if n > 0 {
      RepeatedLength(block, n - 1);
    }
  }

  lemma {:induction false} RepeatedCount(block: seq<SpillState>, n: nat)
    requires Count(block, Spill) == 1
    ensures Count(Repeated(block, n), Spill) == n
  {
    if n > 0 {
      RepeatedCount(block, n - 1);
      AppendCounts(Repeated(block, n - 1), block);
    }
  }

  lemma {:induction false} RepeatedMembers(block: seq<SpillState>, n: nat)
    requires Fault !in block && AfterSpill in block
    ensures Fault !in Repeated(block, n)
    ensures n > 0 ==> AfterSpill in Repeated(block, n)
  {
    if n > 0 {
      RepeatedMembers(block, n - 1);
      AppendMembers(Repeated(block, n - 1), block, Fault);
      AppendMembers(Repeated(block, n - 1), block, AfterSpill);
    }
  }

  lemma CycleFacts()
    ensures |SPILL_CYCLE| == 8 && SPILL_CYCLE[0] == BetweenCycles
    ensures AfterSpill in SPILL_CYCLE && Fault !in SPILL_CYCLE
    ensures Count(SPILL_CYCLE, Spill) == 1
  {
  }

  lemma AppendMembers(a: seq<SpillState>, b: seq<SpillState>, x: SpillState)
    ensures x in a + b <==> x in a || x in b
  {
  }

  lemma AppendCounts(a: seq<SpillState>, b: seq<SpillState>)
    ensures Count(a + b, Spill) == Count(a, Spill) + Count(b, Spill)
  {
    assert multiset(a + b) == multiset(a) + multiset(b);
  }

  /** Waiting k times. */
  function WaitedTimes(d: Device, k: nat): Device {
    if k == 0 then d else WaitedTimes(d, k - 1).Waited()
  }

  /** While the sequence lasts, the k-th wait returns its k-th state. */
  lemma {:induction false} WaitsReplay(d: Device, k: nat)
    requires k <= |d.pending|
    ensures var e := WaitedTimes(d, k);
            && e.initial == d.initial
            && e.pending == d.pending[k..]
            && e.state == (if k > 0 then d.pending[k - 1] else d.state)
  {
    if k > 0 {
      WaitsReplay(d, k - 1);
      Sequences.TailOfTail(d.pending, k - 1);
    }
  }

  lemma WaitReturns(d: Device, k: nat)
    requires 0 < k <= |d.pending|
    ensures WaitedTimes(d, k) == WaitedTimes(d, k - 1).Next().Recorded(d.pending[k - 1])
  {
    WaitsReplay(d, k - 1);
    Sequences.TailOfTail(d.pending, k - 1);
  }

  /** The counters summarise exactly what was returned. */
  lemma {:induction false} WaitsCount(d: Device, k: nat)
    requires k <= |d.pending|
    ensures var e := WaitedTimes(d, k);
            && e.spills == d.spills + Count(d.pending[..k], Spill)
            && e.timeInSpill == (if AfterSpill in d.pending[..k] then TIME_IN_SPILL else d.timeInSpill)
            && (Fault !in d.pending[..k] ==> e.led == d.led)
  {
    if k > 0 {
      WaitsCount(d, k - 1);
      WaitReturns(d, k);
      SeenGrows(d.pending, k);
    }
  }

  lemma SeenGrows(s: seq<SpillState>, k: nat)
    requires 0 < k <= |s|
    ensures Count(s[..k], Spill) == Count(s[..k - 1], Spill) + (if s[k - 1] == Spill then 1 else 0)
    ensures AfterSpill in s[..k] <==> AfterSpill in s[..k - 1] || s[k - 1] == AfterSpill
    ensures Fault in s[..k] <==> Fault in s[..k - 1] || s[k - 1] == Fault
  {
    assert s[..k] == s[..k - 1] + [s[k - 1]];
    AppendCounts(s[..k - 1], [s[k - 1]]);
  }

  /** The device after `k` waits never faults before the end of its sequence
      and faults on the wait that follows it, with the counters of a full run. */
  lemma FirstFault(d: Device)
    requires Fault !in d.pending && d.state != Fault
    ensures forall k :: 0 <= k <= |d.pending| ==> WaitedTimes(d, k).state != Fault
    ensures var e := WaitedTimes(d, |d.pending| + 1);
            && e.state == Fault && !e.led
            && e.spills == d.spills + Count(d.pending, Spill)
            && e.timeInSpill == (if AfterSpill in d.pending then TIME_IN_SPILL else d.timeInSpill)
            && e.initial == d.initial && e.pending == []
            && d.RunToFault() == e
  {
    forall k | 0 <= k <= |d.pending| ensures WaitedTimes(d, k).state != Fault {
      WaitsReplay(d, k);
    }
    WaitsReplay(d, |d.pending|);
    WaitsCount(d, |d.pending|);
    assert d.pending[..|d.pending|] == d.pending;
    RunToFaultIsWaiting(d, |d.pending| + 1);
  }

  /** The thread's loop is the same as waiting up to the first FAULT. */
  lemma {:induction false} RunToFaultIsWaiting(d: Device, k: nat)
    requires forall j :: 0 <= j < k ==> WaitedTimes(d, j).state != Fault
    ensures d.RunToFault() == WaitedTimes(d, k).RunToFault()
  {
    if k > 0 {
      RunToFaultIsWaiting(d, k - 1);
      assert WaitedTimes(d, k - 1).state != Fault;
    }
  }

  /** A loaded run of n spills, started by initialize: 8n waits to the first
      FAULT, because initialize consumes the first state itself. */
  lemma FullRunAfterInitialize(n: nat, before: Device)
    requires n > 0 && before.initial == SpillSequence(n)
    ensures var d := before.Initialized();
            var e := WaitedTimes(d, 8 * n);
            && d.state == BetweenCycles && d.led && d.spills == 0 && d.timeInSpill == 0
            && (forall k :: 0 <= k < 8 * n ==> WaitedTimes(d, k).state != Fault)
            && e.state == Fault && e.spills == n && e.timeInSpill == 107 && !e.led
            && d.RunToFault() == e
  {
    InitializedFacts(n, before);
    FirstFault(before.Initialized());
  }

  lemma InitializedFacts(n: nat, before: Device)
    requires n > 0 && before.initial == SpillSequence(n)
    ensures var d := before.Initialized();
            && d.state == BetweenCycles && d.led && d.spills == 0 && d.timeInSpill == 0
            && |d.pending| == 8 * n - 1 && Fault !in d.pending && AfterSpill in d.pending
            && Count(d.pending, Spill) == n
  {
    SpillSequenceFacts(n);
    TailFacts(SpillSequence(n));
  }

  lemma TailFacts(s: seq<SpillState>)
    requires s != [] && s[0] == BetweenCycles
    ensures Count(s[1..], Spill) == Count(s, Spill)
    ensures AfterSpill in s[1..] <==> AfterSpill in s
    ensures Fault in s[1..] <==> Fault in s
  {
    assert s == [s[0]] + s[1..];
    assert multiset(s) == multiset([s[0]]) + multiset(s[1..]);
  }

  /** Started after reset instead it takes one wait more, ends with the same
      counters, and a further reset starts the very same run again. */
  lemma FullRunAfterReset(n: nat, before: Device)
    requires n > 0 && before.initial == SpillSequence(n)
    ensures var d := before.WasReset();
            var e := WaitedTimes(d, 8 * n + 1);
            && d.state == Idle && !d.led && d.spills == 0 && d.timeInSpill == 0
            && (forall k :: 0 <= k < 8 * n + 1 ==> WaitedTimes(d, k).state != Fault)
            && e.state == Fault && e.spills == n && e.timeInSpill == 107 && !e.led
            && d.RunToFault() == e
            && e.WasReset() == d
            && e.Initialized() == before.Initialized()
  {
    SpillSequenceFacts(n);
    FirstFault(before.WasReset());
  }
}
