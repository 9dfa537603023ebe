/** The table of active fast-read requests: a first-fit allocator of four slots.
    A slot holding 0 is free. */
module FtpTable {
  import opened Wrappers

  const MAX_FTP: nat := 4

  /** The first slot holding x, or the length of the table. */
  function FirstIndex(t: seq<nat>, x: nat): (i: nat)
    ensures i <= |t| && (i < |t| ==> t[i] == x) && (i == |t| <==> x !in t)
    ensures forall k :: 0 <= k < i ==> t[k] != x
  {
    if t == [] then 0 else if t[0] == x then 0 else 1 + FirstIndex(t[1..], x)
  }

  /** The ids of all slots in use. */
  function Live(t: seq<nat>): multiset<nat> {
    multiset(t)[0 := 0]
  }

  /** Which requests are slow enough, or rather fast enough, to be registered. */
  predicate PassesRateFilter(periodic: bool, evVal: nat) {
    if periodic then !(evVal >= 66000 && evVal != 66600 && evVal != 6670)
    else !(evVal >= 66000) && !(evVal < 694)
  }

  /** In numbers: 694 to 65999 microseconds, for periodic requests also anything
      shorter and 66600; the exception for 6670 never matters. */
  lemma RateFilterIff(periodic: bool, evVal: nat)
    ensures PassesRateFilter(periodic, evVal) <==>
              (evVal < 66000 && (periodic || 694 <= evVal)) || (periodic && evVal == 66600)
  {
  }

  /** Taking the first free slot; None is the FTPLIMIT error. */
  function Registered(t: seq<nat>, id: nat): Option<seq<nat>> {
    var i := FirstIndex(t, 0);
    if i == |t| || id == 0 then None else Some(t[i := id])
  }

  /** Freeing the slot that the search found. */
  function Released(t: seq<nat>, id: nat): seq<nat> {
    var i := FirstIndex(t, id);
    if i == |t| then t else t[i := 0]
  }

  /** Freeing as the source does it: the search decides whether, but the slot
      is indexed with the id.  None: the store falls outside the table. */
  function ReleasedAsWritten(t: seq<nat>, id: nat): Option<seq<nat>> {
    if FirstIndex(t, id) == |t| then Some(t)
    else if id < |t| then Some(t[id := 0])
    else None
  }

  /** A registration that passes the filter fails exactly if all slots are in use. */
  lemma RegistersUnlessFull(t: seq<nat>, id: nat)
    requires id != 0
    ensures Registered(t, id).None? <==> |Live(t)| == |t|
    ensures Registered(t, id).Some? ==>
              |Registered(t, id).value| == |t| && Live(Registered(t, id).value) == Live(t) + multiset{id}
  {
  }

  lemma ReleaseFreesOne(t: seq<nat>, id: nat)
    requires id != 0
    ensures |Released(t, id)| == |t| && Live(Released(t, id)) == Live(t) - multiset{id}
    ensures FirstIndex(t, id) < |t| <==> id in Live(t)
  {
  }

  /** The store as written is right exactly if the id is not registered at all
      or happens to lie in the slot of the same number. */
  lemma WrittenReleaseIsRightIff(t: seq<nat>, id: nat)
    requires id != 0
    ensures ReleasedAsWritten(t, id).Some? && Live(ReleasedAsWritten(t, id).value) == Live(t) - multiset{id}
       <==> id !in t || (id < |t| && t[id] == id)
  {
    if id in t && id < |t| {
      if t[id] != id {
        assert (Live(t) - multiset{id})[id] == Live(t)[id] - 1;
        assert t[id] != 0 ==> (Live(t) - multiset{t[id]})[id] == Live(t)[id];
      }
    }
  }

  /** For instance, cleaning up request 1 frees request 2. */
  lemma WrittenReleaseFreesAnother()
    ensures ReleasedAsWritten([1, 2, 0, 0], 1) == Some([1, 0, 0, 0])
    ensures Released([1, 2, 0, 0], 1) == [0, 2, 0, 0]
  {
    assert FirstIndex([1, 2, 0, 0], 1) == 0;
    assert [1, 2, 0, 0][1 := 0] == [1, 0, 0, 0];
    assert [1, 2, 0, 0][0 := 0] == [0, 2, 0, 0];
  }

  // ------------------------------------------------------------------ runs

  datatype Call = Init(periodic: bool, evVal: nat, id: nat) | Cleanup(id: nat)

  /** The table and, independently, the requests that were accepted and not yet released. */
  datatype Allocator = Allocator(slots: seq<nat>, requests: multiset<nat>)

  /** A cleanup for which the source's store is the intended one. */
  predicate Harmless(t: seq<nat>, call: Call) {
    call.Cleanup? ==> call.id !in t || (call.id < |t| && t[call.id] == call.id)
  }

  function Called(a: Allocator, call: Call, asWritten: bool): Allocator {
    match call
    case Init(periodic, evVal, id) =>
      if PassesRateFilter(periodic, evVal) && Registered(a.slots, id).Some?
      then Allocator(Registered(a.slots, id).value, a.requests + multiset{id})
      else a
    case Cleanup(id) =>
      var slots := if !asWritten then Released(a.slots, id)
                   else if ReleasedAsWritten(a.slots, id).Some? then ReleasedAsWritten(a.slots, id).value
                   else a.slots;
      Allocator(slots, a.requests - multiset{id})
  }

  function Run(calls: seq<Call>, asWritten: bool): Allocator {
    if calls == [] then Allocator([0, 0, 0, 0], multiset{})
    else Called(Run(calls[..|calls| - 1], asWritten), calls[|calls| - 1], asWritten)
  }

  /** The slots in use are the live requests over every run of calls with
      non-zero ids: unconditionally as intended, and as written in every run
      whose cleanups are harmless. */
  lemma {:induction false} SlotsAreRequests(calls: seq<Call>, asWritten: bool)
    requires forall i :: 0 <= i < |calls| ==> calls[i].id != 0
    requires asWritten ==> forall i :: 0 <= i < |calls| ==> Harmless(Run(calls[..i], true).slots, calls[i])
    ensures var a := Run(calls, asWritten);
            && |a.slots| == MAX_FTP && Live(a.slots) == a.requests && |a.requests| <= MAX_FTP
            && (forall id: nat :: id != 0 ==> (Registered(a.slots, id).None? <==> |a.requests| == MAX_FTP))
            && (forall id: nat :: id != 0 ==> (FirstIndex(a.slots, id) < MAX_FTP <==> id in a.requests))
  {
    if calls != [] {
      var front, last := calls[..|calls| - 1], calls[|calls| - 1];
      assert forall i :: 0 <= i < |front| ==> calls[..i] == front[..i] && calls[i] == front[i];
      SlotsAreRequests(front, asWritten);
      CallKeepsSlots(Run(front, asWritten), last, asWritten);
    }
    var a := Run(calls, asWritten);
    forall id: nat | id != 0
      ensures Registered(a.slots, id).None? <==> |a.requests| == MAX_FTP
      ensures FirstIndex(a.slots, id) < MAX_FTP <==> id in a.requests
    {
      RegistersUnlessFull(a.slots, id);
      ReleaseFreesOne(a.slots, id);
    }
  }

  lemma CallKeepsSlots(a: Allocator, call: Call, asWritten: bool)
    requires Live(a.slots) == a.requests && call.id != 0
    requires asWritten ==> Harmless(a.slots, call)
    ensures var b := Called(a, call, asWritten); Live(b.slots) == b.requests && |b.slots| == |a.slots|
  {
  }
}
