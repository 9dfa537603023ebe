/** The TCLK event receiver: the mock decoder replays a programmed sequence and
    the receiver thread counts events until the loop ends. */
module Tclk {

  newtype Event = x: int | 0 <= x < 256

  const TCLK_NULL_EVENT: Event := 0x00      // ends the while loop
  const TCLK_NEVER_EVENT: Event := 0xfe     // breaks out of it
  const EVENT_LIST_MAX: nat := 16

  class TCLKDecoderDriverMock {
    var eventList: seq<Event>
    var eventSequence: seq<Event>

    constructor ()
      ensures eventList == [] && eventSequence == []
    {
      eventList := [];
      eventSequence := [];
    }

    /** Throws (false) on a full list, even for an event that is already in it. */
    method EventListAdd(event: Event) returns (added: bool)
      modifies this`eventList
      ensures added <==> |old(eventList)| != 16
      ensures eventList == if !added || event in old(eventList) then old(eventList) else old(eventList) + [event]
    {
      if |eventList| == EVENT_LIST_MAX {
        return false;
      }
      if event !in eventList {
        eventList := eventList + [event];
      }
      return true;
    }

    method EventSequenceSet(sequence: seq<Event>)
      modifies this`eventSequence
      ensures eventSequence == sequence
    {
      eventSequence := [];
      for i := 0 to |sequence|
        invariant eventSequence == sequence[..i]
      {
        eventSequence := eventSequence + [sequence[i]];
      }
    }

    method WaitForEvents() returns (event: Event)
      modifies this`eventSequence
      ensures event == (if old(eventSequence) == [] then 0xfe else old(eventSequence)[0])
      ensures eventSequence == (if old(eventSequence) == [] then [] else old(eventSequence)[1..])
    {
      if eventSequence == [] {
        return TCLK_NEVER_EVENT;
      }
      event := eventSequence[0];
      eventSequence := eventSequence[1..];
    }
  }

  class TCLKSMB {
    const eventCounter: array<nat>

    ghost predicate Valid() {
      eventCounter.Length == 256
    }

    /** The counters start as what the memory holds; the 8-bit loop clears all but the last. */
    constructor (memory: seq<nat>)
      requires |memory| == 256
      ensures Valid() && fresh(eventCounter) && eventCounter[255] == memory[255]
      ensures forall e :: 0 <= e < 255 ==> eventCounter[e] == 0
    {
      eventCounter := new nat[256](i requires 0 <= i < 256 => memory[i]);
      new;
      for i := 0 to 255
        invariant eventCounter[255] == memory[255]
        invariant forall e :: 0 <= e < i ==> eventCounter[e] == 0
      {
        eventCounter[i] := 0;
      }
    }

    method EventCounterIncrement(event: Event)
      requires Valid()
      modifies eventCounter
      ensures eventCounter[..] == Bumped(old(eventCounter[..]), event)
    {
      eventCounter[event as int] := eventCounter[event as int] + 1;
    }
  }

  function Bumped(counters: seq<nat>, event: Event): seq<nat>
    requires |counters| == 256
  {
    counters[event as int := counters[event as int] + 1]
  }

  /** The events before the first one that ends the loop. */
  function Received(sequence: seq<Event>): seq<Event> {
    if sequence == [] || sequence[0] == TCLK_NULL_EVENT || sequence[0] == TCLK_NEVER_EVENT then []
    else [sequence[0]] + Received(sequence[1..])
  }

  function CountedUp(counters: seq<nat>, events: seq<Event>): (r: seq<nat>)
    requires |counters| == 256
    ensures |r| == 256
    decreases |events|
  {
    if events == [] then counters else CountedUp(Bumped(counters, events[0]), events[1..])
  }

  /** The body of the receiver thread; it always ends. */
  method ReceiveEvents(decoder: TCLKDecoderDriverMock, block: TCLKSMB)
    requires block.Valid()
    modifies decoder`eventSequence, block.eventCounter
    ensures block.eventCounter[..] == CountedUp(old(block.eventCounter[..]), Received(old(decoder.eventSequence)))
  {
    var event := decoder.WaitForEvents();
    while event != TCLK_NULL_EVENT
      invariant CountedUp(old(block.eventCounter[..]), Received(old(decoder.eventSequence)))
             == CountedUp(block.eventCounter[..], Received([event] + decoder.eventSequence))
      decreases |decoder.eventSequence|, if event == TCLK_NEVER_EVENT then 0 else 1
    {
      if event == TCLK_NEVER_EVENT {
        break;
      }
      assert ([event] + decoder.eventSequence)[1..] == decoder.eventSequence;
      block.EventCounterIncrement(event);
      event := decoder.WaitForEvents();
    }
  }

  function Sum(counters: seq<nat>): nat {
    if counters == [] then 0 else counters[0] + Sum(counters[1..])
  }

  lemma {:induction false} SumOfUpdate(counters: seq<nat>, i: nat)
    requires i < |counters|
    ensures Sum(counters[i := counters[i] + 1]) == Sum(counters) + 1
  {
    var c := counters[i := counters[i] + 1];
    if i > 0 {
      assert c[1..] == counters[1..][i - 1 := counters[1..][i - 1] + 1];
      SumOfUpdate(counters[1..], i - 1);
    } else {
      assert c[1..] == counters[1..];
    }
  }

  /** What is received is a prefix that the two ending events are not part of,
      and the longest one. */
  lemma {:induction false} ReceivedPrefix(sequence: seq<Event>)
    ensures Received(sequence) <= sequence
    ensures 0x00 !in Received(sequence) && 0xfe !in Received(sequence)
    ensures |Received(sequence)| < |sequence| ==> sequence[|Received(sequence)|] in [0x00, 0xfe]
  {
    if sequence != [] && sequence[0] != TCLK_NULL_EVENT && sequence[0] != TCLK_NEVER_EVENT {
      ReceivedPrefix(sequence[1..]);
    }
  }

  /** Every counter rises by the number of its events; the increments add up. */
  lemma {:induction false} CountsEveryEvent(counters: seq<nat>, events: seq<Event>)
    requires |counters| == 256
    ensures forall e: Event :: CountedUp(counters, events)[e as int] == counters[e as int] + multiset(events)[e]
    ensures Sum(CountedUp(counters, events)) == Sum(counters) + |events|
    decreases |events|
  {
    if events != [] {
      var next := Bumped(counters, events[0]);
      SumOfUpdate(counters, events[0] as int);
      CountsEveryEvent(next, events[1..]);
      assert events == [events[0]] + events[1..];
      assert multiset(events) == multiset([events[0]]) + multiset(events[1..]);
    }
  }

  /** Counter conservation for every programmed sequence. */
  lemma CountersAreConserved(counters: seq<nat>, sequence: seq<Event>)
    requires |counters| == 256
    ensures var r := Received(sequence); var after := CountedUp(counters, r);
            && (forall e: Event :: after[e as int] == counters[e as int] + multiset(r)[e])
            && after[TCLK_NULL_EVENT as int] == counters[TCLK_NULL_EVENT as int]
            && after[TCLK_NEVER_EVENT as int] == counters[TCLK_NEVER_EVENT as int]
            && Sum(after) == Sum(counters) + |r|
  {
    var r := Received(sequence);
    ReceivedPrefix(sequence);
    CountsEveryEvent(counters, r);
    assert multiset(r)[TCLK_NULL_EVENT] == 0 && multiset(r)[TCLK_NEVER_EVENT] == 0;
    var after := CountedUp(counters, r);
    assert after[TCLK_NULL_EVENT as int] == counters[TCLK_NULL_EVENT as int] + multiset(r)[TCLK_NULL_EVENT];
    assert after[TCLK_NEVER_EVENT as int] == counters[TCLK_NEVER_EVENT as int] + multiset(r)[TCLK_NEVER_EVENT];
  }
}
