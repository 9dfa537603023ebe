/** The mock driver, updated in place, and what every run of calls to it keeps. */
module SSMDeviceDriver {
  import opened SpillDevice

  class SSMDeviceDriverMock {
    var delay: nat
    var initialSequence: seq<SpillState>
    var stateSequence: seq<SpillState>
    var state: SpillState
    var spillCount: nat
    var timeInSpill: nat
    var led: bool

    function Value(): Device
      reads this
    {
      Device(initialSequence, stateSequence, state, spillCount, timeInSpill, led)
    }

    constructor ()
      ensures Value() == Fresh([])
    {
      initialSequence := [];
      stateSequence := [];
      new;
      Reset();
    }

    constructor FromSequence(sequence: seq<SpillState>)
      ensures Value() == Fresh(sequence)
    {
      initialSequence := [];
      stateSequence := [];
      new;
      Reset();
      StateSequenceSet(sequence);
    }

    method Configure(mockSpills: nat, mockDelay: nat)
      modifies this
      ensures delay == mockDelay
      ensures Value() == if mockSpills == 0 then old(Value())
                         else old(Value()).(initial := SpillSequence(mockSpills)).Refilled()
    {
      if mockSpills > 0 {
        LoadSpillSequence(mockSpills);
      }
      delay := mockDelay;
    }

    method Fault()
      modifies this
      ensures Value() == old(Value()).Faulted() && delay == old(delay)
    {
      state := SpillState.Fault;
      led := false;
      stateSequence := [];
    }

    method Initialize()
      modifies this
      ensures Value() == old(Value()).Initialized() && delay == old(delay)
    {
      spillCount := 0;
      timeInSpill := 0;
      led := true;
      ResetSequence();
      var _ := StateNext();
    }

    method LoadSpillSequence(spills: nat)
      modifies this
      ensures Value() == old(Value()).(initial := SpillSequence(spills)).Refilled() && delay == old(delay)
    {
      var sequence: seq<SpillState> := [];
      for i := 0 to spills
        invariant sequence == SpillSequence(i)
      {
        sequence := sequence + [BetweenCycles];
        sequence := sequence + [ReadIBeam];
        sequence := sequence + [Ramp];
        sequence := sequence + [Spill];
        sequence := sequence + [AfterSpill];
        sequence := sequence + [EndCycle];
        sequence := sequence + [Learning];
        sequence := sequence + [BetweenCycles];
        assert sequence == SpillSequence(i) + SPILL_CYCLE;
      }
      StateSequenceSet(sequence);
    }

    method Reset()
      modifies this
      ensures Value() == old(Value()).WasReset() && delay == 0
    {
      delay := 0;
      spillCount := 0;
      state := Idle;
      timeInSpill := 0;
      led := false;
      ResetSequence();
    }

    method ResetSequence()
      modifies this`stateSequence
      ensures Value() == old(Value()).Refilled()
    {
      stateSequence := [];
      for i := 0 to |initialSequence|
        invariant stateSequence == initialSequence[..i]
      {
        stateSequence := stateSequence + [initialSequence[i]];
      }
    }

    method StateNext() returns (next: SpillState)
      modifies this`state, this`stateSequence
      ensures Value() == old(Value()).Next() && next == state
    {
      if stateSequence == [] {
        state := SpillState.Fault;
      } else {
        state := stateSequence[0];
        stateSequence := stateSequence[1..];
      }
      next := state;
    }

    method StateSequenceSet(sequence: seq<SpillState>)
      modifies this`initialSequence, this`stateSequence
      ensures Value() == old(Value()).(initial := sequence).Refilled()
    {
      initialSequence := sequence;
      ResetSequence();
    }

    method WaitForStateChange() returns (ret: SpillState)
      modifies this
      ensures Value() == old(Value()).Waited() && ret == state && delay == old(delay)
    {
      ret := StateNext();
      if ret == Spill {
        spillCount := spillCount + 1;
      }
      if ret == AfterSpill {
        timeInSpill := TIME_IN_SPILL;
      }
      if ret == SpillState.Fault {
        led := false;
      }
    }

    method LedOn()
      modifies this`led
      ensures led
    {
      led := true;
    }

    method LedOff()
      modifies this`led
      ensures !led
    {
      led := false;
    }
  }

  /** The calls a client of the driver makes, in any order. */
  datatype Call = Wait | Initialize | Reset | Fault

  /** The device together with what was observed since the last initialize or
      reset: the state initialize primed, the states the waits returned, how
      many of them came from the sequence, and whether fault was called. */
  datatype Observed = Observed(
    dev: Device,
    primed: seq<SpillState>,
    returned: seq<SpillState>,
    played: nat,
    faulted: bool)
  {
    function After(call: Call): Observed {
      match call
      case Wait =>
        Observed(dev.Waited(), primed, returned + [dev.Waited().state],
                 if dev.pending == [] then played else played + 1, faulted)
      case Initialize =>
        var d := dev.Initialized();
        Observed(d, [d.state], [], if dev.initial == [] then 0 else 1, false)
      case Reset =>
        Observed(dev.WasReset(), [], [], 0, false)
      case Fault =>
        this.(dev := dev.Faulted(), faulted := true)
    }

    function Seen(): seq<SpillState> {
      primed + returned
    }
  }

  function Observe(sequence: seq<SpillState>, calls: seq<Call>): Observed {
    if calls == [] then Observed(Fresh(sequence), [], [], 0, false)
    else Observe(sequence, calls[..|calls| - 1]).After(calls[|calls| - 1])
  }

  /** What was seen is a prefix of the loaded sequence, then nothing but FAULT. */
  ghost predicate Replays(o: Observed) {
    && o.played <= |o.dev.initial| && o.played <= |o.Seen()|
    && o.Seen()[..o.played] == o.dev.initial[..o.played]
    && (forall i :: o.played <= i < |o.Seen()| ==> o.Seen()[i] == SpillState.Fault)
    && (o.dev.pending == [] || o.dev.pending == o.dev.initial[o.played..])
    && (o.played < |o.Seen()| ==> o.dev.pending == [])
    && (!o.faulted && o.played < |o.Seen()| ==> o.played == |o.dev.initial|)
    && (o.dev.pending == [] && !o.faulted ==> o.played == |o.dev.initial|)
  }

  /** The two registers and the LED are functions of what was seen; a SPILL
      that initialize primes is not counted. */
  ghost predicate Accounts(o: Observed) {
    && o.dev.spills == Count(o.returned, Spill)
    && o.dev.timeInSpill == (if AfterSpill in o.returned then TIME_IN_SPILL else 0)
    && (o.dev.led <==> o.primed != [] && !o.faulted && SpillState.Fault !in o.returned)
  }

  /** Replay and conservation over every run of driver calls. */
  lemma {:induction false} EveryRunReplaysAndAccounts(sequence: seq<SpillState>, calls: seq<Call>)
    ensures var o := Observe(sequence, calls);
            o.dev.initial == sequence && Replays(o) && Accounts(o)
  {
    if calls != [] {
      EveryRunReplaysAndAccounts(sequence, calls[..|calls| - 1]);
      var o, call := Observe(sequence, calls[..|calls| - 1]), calls[|calls| - 1];
      match call
      case Wait => WaitReplays(o); WaitAccounts(o);
      case Initialize => InitializeReplays(o);
      case Reset =>
      case Fault => FaultReplays(o);
    }
  }

  lemma WaitReplays(o: Observed)
    requires Replays(o)
    ensures Replays(o.After(Wait))
  {
    var p := o.After(Wait);
    assert p.Seen() == o.Seen() + [p.dev.state];
    if o.dev.pending != [] {
      assert o.dev.pending == o.dev.initial[o.played..];
      assert o.dev.pending[1..] == o.dev.initial[o.played + 1..];
      assert p.Seen()[..p.played] == o.Seen()[..o.played] + [o.dev.initial[o.played]];
    }
  }

  lemma InitializeReplays(o: Observed)
    ensures Replays(o.After(Initialize)) && Accounts(o.After(Initialize))
  {
  }

  lemma FaultReplays(o: Observed)
    requires Replays(o) && Accounts(o)
    ensures Replays(o.After(Call.Fault)) && Accounts(o.After(Call.Fault))
  {
  }

  lemma WaitAccounts(o: Observed)
    requires Accounts(o)
    ensures Accounts(o.After(Wait))
  {
  }
}
