/** The circular buffer: an array written through modular indices.  When it is
    full an enqueue overwrites a slot and moves the tail, but not the head. */
module CircularBuffers {
  import Modular

  /** Slots that exist whatever capacity was asked for. */
  const BUFFER_SIZE: nat := 9800

  datatype Ring<T> = Ring(slots: seq<T>, capacity: nat, head: nat, tail: int, size: nat)
  {
    predicate Valid() {
      0 < capacity <= |slots| && head < capacity && -1 <= tail < capacity && size <= capacity
    }

    predicate Full() { size == capacity }

    predicate Empty() { size == 0 }

    function Enqueued(x: T): (r: Ring<T>)
      requires Valid()
      ensures r.Valid()
    {
      var t := (tail + 1) % capacity;
      this.(slots := slots[t := x], tail := t, size := if Full() then size else size + 1)
    }

    function Dequeued(): (r: Ring<T>)
      requires Valid()
      ensures r.Valid()
    {
      if Empty() then this else this.(head := (head + 1) % capacity, size := size - 1)
    }

    /** The slots read cyclically from index `from`. */
    function Read(from: nat, count: nat): seq<T>
      requires Valid()
    {
      seq(count, k requires 0 <= k < count => slots[(from + k) % capacity])
    }

    /** What a reader who trusts head and size sees. */
    function Contents(): seq<T>
      requires Valid()
    {
      Read(head, size)
    }
  }

  class CircularBuffer<T(0)> {
    const buffer: array<T>
    const capacity: nat
    var head: nat
    var tail: int
    var size: nat

    ghost predicate Valid()
      reads this, buffer
    {
      buffer.Length == BUFFER_SIZE && Value().Valid()
    }

    function Value(): Ring<T>
      reads this, buffer
    {
      Ring(buffer[..], capacity, head, tail, size)
    }

    /** Takes any 16-bit capacity; only one that the array can hold is usable. */
    constructor (capacity: nat)
      requires capacity < 0x1_0000
      ensures fresh(buffer) && buffer.Length == 9800 && Value() == New(buffer[..], capacity)
      ensures Valid() <==> 0 < capacity <= 9800
    {
      this.buffer := new T[BUFFER_SIZE];
      this.capacity := capacity;
      head := 0;
      tail := -1;
      size := 0;
    }

    constructor Copy(other: CircularBuffer<T>)
      requires other.Valid()
      ensures Valid() && fresh(buffer) && Value() == other.Value()
    {
      buffer := new T[BUFFER_SIZE];
      capacity := other.capacity;
      head := other.head;
      tail := other.tail;
      size := other.size;
      new;
      forall i | 0 <= i < BUFFER_SIZE {
        buffer[i] := other.buffer[i];
      }
    }

    method Dequeue()
      requires Valid()
      modifies this
      ensures Valid() && Value() == old(Value()).Dequeued()
    {
      var isEmpty := IsEmpty();
      if !isEmpty {
        head := (head + 1) % capacity;
        size := size - 1;
      }
    }

    method Enqueue(element: T)
      requires Valid()
      modifies this, buffer
      ensures Valid() && Value() == old(Value()).Enqueued(element)
    {
      tail := (tail + 1) % capacity;
      buffer[tail] := element;
      var isFull := IsFull();
      if !isFull {
        size := size + 1;
      }
    }

    method IsEmpty() returns (r: bool)
      ensures r <==> Value().Empty()
    {
      r := size == 0;
    }

    method IsFull() returns (r: bool)
      ensures r <==> Value().Full()
    {
      r := size == capacity;
    }

    method DataGet(index: nat) returns (data: T)
      requires Valid() && index < BUFFER_SIZE
      ensures data == Value().slots[index]
    {
      data := buffer[index];
    }
  }

  // ------------------------------------------------------------------ runs

  datatype Call<T> = Enqueue(x: T) | Dequeue

  /** A ring and its past: everything enqueued, how many of those enqueues found
      the ring full, and how many dequeues found something. */
  datatype History<T> = History(ring: Ring<T>, items: seq<T>, overwrites: nat, dequeues: nat)
  {
    function After(call: Call<T>): History<T>
      requires ring.Valid()
    {
      match call
      case Enqueue(x) =>
        History(ring.Enqueued(x), items + [x], if ring.Full() then overwrites + 1 else overwrites, dequeues)
      case Dequeue =>
        History(ring.Dequeued(), items, overwrites, if ring.Empty() then dequeues else dequeues + 1)
    }
  }

  function New<T>(slots: seq<T>, capacity: nat): Ring<T> {
    Ring(slots, capacity, 0, -1, 0)
  }

  function Replay<T>(start: Ring<T>, calls: seq<Call<T>>): (h: History<T>)
    requires start.Valid()
    ensures h.ring.Valid()
  {
    if calls == [] then History(start, [], 0, 0)
    else Replay(start, calls[..|calls| - 1]).After(calls[|calls| - 1])
  }

  /** The indices and the size count the calls; every slot holds the latest
      item whose index is congruent to it, or what it held at the start. */
  ghost predicate Tallies<T>(h: History<T>, start: Ring<T>) {
    var n, c := |h.items|, h.ring.capacity;
    && h.ring.Valid() && c == start.capacity && |h.ring.slots| == |start.slots|
    && h.ring.size + h.overwrites + h.dequeues == n
    && h.ring.head == h.dequeues % c
    && (h.overwrites > 0 && h.dequeues == 0 ==> h.ring.Full())
    && h.ring.tail == (if n == 0 then -1 else (n - 1) % c)
    && (forall k {:trigger h.items[k]} :: 0 <= k < n && n - c <= k ==> h.ring.slots[k % c] == h.items[k])
    && (forall i :: 0 <= i < |start.slots| && (n <= i || c <= i) ==> h.ring.slots[i] == start.slots[i])
  }

  lemma EnqueueTallies<T>(h: History<T>, start: Ring<T>, x: T)
    requires Tallies(h, start)
    ensures Tallies(h.After(Enqueue(x)), start)
  {
    var n, c, r := |h.items|, h.ring.capacity, h.ring;
    var g := h.After(Enqueue(x));
    assert (r.tail + 1) % c == n % c by {
      if n > 0 {
        Modular.AddMod(n - 1, 1, c);
      }
    }
    forall k | 0 <= k < n + 1 && n + 1 - c <= k ensures g.ring.slots[k % c] == g.items[k] {
      if k < n {
        Modular.Distinct(k, n, c);
        assert g.items[k] == h.items[k];
      }
    }
    if n < c {
      Modular.Small(n, c);
    }
  }

  lemma DequeueTallies<T>(h: History<T>, start: Ring<T>)
    requires Tallies(h, start)
    ensures Tallies(h.After(Dequeue), start)
  {
    Modular.AddMod(h.dequeues, 1, h.ring.capacity);
  }

  lemma {:induction false} EveryRunTallies<T>(slots: seq<T>, capacity: nat, calls: seq<Call<T>>)
    requires 0 < capacity <= |slots|
    ensures Tallies(Replay(New(slots, capacity), calls), New(slots, capacity))
  {
    var start := New(slots, capacity);
    if calls != [] {
      EveryRunTallies(slots, capacity, calls[..|calls| - 1]);
      var h := Replay(start, calls[..|calls| - 1]);
      match calls[|calls| - 1]
      case Enqueue(x) => EnqueueTallies(h, start, x);
      case Dequeue => DequeueTallies(h, start);
    }
  }

  /** The head lags behind the oldest of the `size` newest items by the number
      of overwrites, modulo the capacity; read with that correction, the ring is
      a queue on every run. */
  lemma CorrectedHeadReadsNewest<T>(h: History<T>, start: Ring<T>)
    requires Tallies(h, start)
    ensures var n, c, r := |h.items|, h.ring.capacity, h.ring;
            && (r.tail + 1) % c == n % c == (r.head + r.size + h.overwrites) % c
            && r.Read(r.head + h.overwrites, r.size) == h.items[n - r.size..]
  {
    var n, c, r, o := |h.items|, h.ring.capacity, h.ring, h.overwrites;
    if n > 0 {
      Modular.AddMod(n - 1, 1, c);
    }
    Modular.AddMod(h.dequeues, r.size + o, c);
    var read := r.Read(r.head + o, r.size);
    forall k | 0 <= k < r.size ensures read[k] == h.items[n - r.size..][k] {
      Modular.AddMod(h.dequeues, o + k, c);
      assert read[k] == r.slots[(n - r.size + k) % c] == h.items[n - r.size + k];
    }
  }

  /** Without overwrites the contents are exactly the queue of what was
      enqueued and not yet dequeued. */
  lemma RefinesQueue<T>(slots: seq<T>, capacity: nat, calls: seq<Call<T>>)
    requires 0 < capacity <= |slots|
    requires Replay(New(slots, capacity), calls).overwrites == 0
    ensures var h := Replay(New(slots, capacity), calls);
            && h.dequeues <= |h.items| && h.ring.Contents() == h.items[h.dequeues..]
            && h.ring.Dequeued().Contents() == (if h.ring.Empty() then [] else h.ring.Contents()[1..])
            && (forall x :: !h.ring.Full() ==> h.ring.Enqueued(x).Contents() == h.ring.Contents() + [x])
  {
    var start := New(slots, capacity);
    var h := Replay(start, calls);
    EveryRunTallies(slots, capacity, calls);
    QueueOf(h, start);
    DequeueTallies(h, start);
    QueueOf(h.After(Dequeue), start);
    forall x | !h.ring.Full() ensures h.ring.Enqueued(x).Contents() == h.ring.Contents() + [x] {
      EnqueueTallies(h, start, x);
      QueueOf(h.After(Enqueue(x)), start);
      assert (h.items + [x])[h.dequeues..] == h.items[h.dequeues..] + [x];
    }
  }

  lemma QueueOf<T>(h: History<T>, start: Ring<T>)
    requires Tallies(h, start) && h.overwrites == 0
    ensures h.dequeues <= |h.items| && h.ring.Contents() == h.items[h.dequeues..]
  {
    CorrectedHeadReadsNewest(h, start);
  }

  /** The head points at the oldest of the newest items exactly when the
      overwrites have come full circle. */
  lemma HeadIsRightIff<T>(h: History<T>, start: Ring<T>)
    requires Tallies(h, start)
    ensures h.ring.head == (|h.items| - h.ring.size) % h.ring.capacity <==> h.overwrites % h.ring.capacity == 0
  {
    var c := h.ring.capacity;
    assert |h.items| - h.ring.size == h.overwrites + h.dequeues;
    Modular.Cancel(h.overwrites, 0, h.dequeues, c);
    Modular.Small(0, c);
  }

  /** Once a ring has wrapped, the slots from tail + 1 are the last `capacity`
      items in order, whatever was dequeued. */
  lemma TailReadsLastItems<T>(h: History<T>, start: Ring<T>)
    requires Tallies(h, start) && |h.items| >= h.ring.capacity
    ensures h.ring.Read(h.ring.tail + 1, h.ring.capacity) == h.items[|h.items| - h.ring.capacity..]
  {
    var n, c, r := |h.items|, h.ring.capacity, h.ring;
    var read := r.Read(r.tail + 1, c);
    forall k | 0 <= k < c ensures read[k] == h.items[n - c..][k] {
      TailReadsItem(h, start, k);
    }
  }

  lemma TailReadsItem<T>(h: History<T>, start: Ring<T>, k: nat)
    requires Tallies(h, start) && |h.items| >= h.ring.capacity && k < h.ring.capacity
    ensures h.ring.slots[(h.ring.tail + 1 + k) % h.ring.capacity] == h.items[|h.items| - h.ring.capacity + k]
  {
    Modular.Behind(|h.items|, h.ring.capacity, k);
  }

  /** Enqueues alone never move the head, however many items were overwritten. */
  lemma HeadStaysBehind<T>(h: History<T>, start: Ring<T>)
    requires Tallies(h, start) && h.dequeues == 0 && |h.items| >= h.ring.capacity
    ensures h.ring.head == 0 && h.ring.Full() && h.overwrites == |h.items| - h.ring.capacity
  {
    Modular.Small(0, h.ring.capacity);
  }

  // ------------------------------------------------------------------ fill

  /** Enqueueing wave(15 i mod 360) for i below k. */
  function Filled<T>(r: Ring<T>, wave: int -> T, k: nat): (f: Ring<T>)
    requires r.Valid()
    ensures f.Valid()
  {
    if k == 0 then r else Filled(r, wave, k - 1).Enqueued(wave(15 * (k - 1) % 360))
  }

  lemma {:induction false} FilledShape<T>(r: Ring<T>, wave: int -> T, k: nat)
    requires r.Valid() && k <= r.capacity
    ensures var f, c := Filled(r, wave, k), r.capacity;
            && f.capacity == c && |f.slots| == |r.slots| && f.head == r.head
            && f.size == (if r.size + k <= c then r.size + k else c)
            && f.slots[c..] == r.slots[c..]
  {
    if k > 0 {
      FilledShape(r, wave, k - 1);
      EnqueuedShape(Filled(r, wave, k - 1), wave(15 * (k - 1) % 360));
    }
  }

  lemma EnqueuedShape<T>(g: Ring<T>, x: T)
    requires g.Valid()
    ensures var f := g.Enqueued(x);
            && f.capacity == g.capacity && |f.slots| == |g.slots| && f.head == g.head
            && f.size == (if g.Full() then g.size else g.size + 1)
            && f.slots[g.capacity..] == g.slots[g.capacity..]
  {
  }

  lemma {:induction false} FilledTail<T>(r: Ring<T>, wave: int -> T, k: nat)
    requires r.Valid() && 0 < k <= r.capacity
    ensures Filled(r, wave, k).tail == (r.tail + k) % r.capacity
  {
    FilledShape(r, wave, k - 1);
    if k > 1 {
      FilledTail(r, wave, k - 1);
      EnqueuedTail(Filled(r, wave, k - 1), wave(15 * (k - 1) % 360), r.tail + k - 1);
    }
  }

  lemma EnqueuedTail<T>(g: Ring<T>, x: T, t: int)
    requires g.Valid() && g.tail == t % g.capacity
    ensures g.Enqueued(x).tail == (t + 1) % g.capacity
  {
    Modular.Next(t, g.capacity);
  }

  lemma EnqueuedSlot<T>(g: Ring<T>, x: T, j: nat)
    requires g.Valid() && j < |g.slots|
    ensures g.Enqueued(x).slots[j] == if j == g.Enqueued(x).tail then x else g.slots[j]
  {
  }

  lemma {:induction false} FilledSlots<T>(r: Ring<T>, wave: int -> T, k: nat, i: nat)
    requires r.Valid() && i < k <= r.capacity
    ensures Filled(r, wave, k).capacity == r.capacity && |Filled(r, wave, k).slots| == |r.slots|
    ensures Filled(r, wave, k).slots[(r.tail + 1 + i) % r.capacity] == wave(15 * i % 360)
  {
    FilledShape(r, wave, k - 1);
    FilledTail(r, wave, k);
    EnqueuedSlot(Filled(r, wave, k - 1), wave(15 * (k - 1) % 360), (r.tail + 1 + i) % r.capacity);
    if i < k - 1 {
      FilledSlots(r, wave, k - 1, i);
      Modular.Distinct(r.tail + 1 + i, r.tail + k, r.capacity);
    } else {
      assert r.tail + 1 + i == r.tail + k;
    }
  }

  function WaveAt<T>(wave: int -> T, tail: int, capacity: nat, slot: nat): T
    requires capacity > 0
  {
    wave(15 * ((slot - tail - 1) % capacity) % 360)
  }

  /** A whole fill overwrites every slot and says where each one comes from. */
  lemma FullFill<T>(r: Ring<T>, wave: int -> T)
    requires r.Valid()
    ensures var f, c := Filled(r, wave, r.capacity), r.capacity;
            && f.capacity == c && |f.slots| == |r.slots| && f.head == r.head && f.Full()
            && f.tail == r.tail % c && f.slots[c..] == r.slots[c..]
            && (forall i :: 0 <= i < c ==> f.slots[i] == WaveAt(wave, r.tail, c, i))
  {
    var f, c := Filled(r, wave, r.capacity), r.capacity;
    FilledShape(r, wave, c);
    FilledTail(r, wave, c);
    Modular.Shift(r.tail, c, 1);
    forall i | 0 <= i < c ensures f.slots[i] == WaveAt(wave, r.tail, c, i) {
      FullFillSlot(r, wave, i);
    }
  }

  lemma FullFillSlot<T>(r: Ring<T>, wave: int -> T, i: nat)
    requires r.Valid() && i < r.capacity
    ensures |Filled(r, wave, r.capacity).slots| == |r.slots|
    ensures Filled(r, wave, r.capacity).slots[i] == WaveAt(wave, r.tail, r.capacity, i)
  {
    SlotIndex(i, r.tail, r.capacity);
    FilledSlotAt(r, wave, i, (i - r.tail - 1) % r.capacity);
  }

  lemma FilledSlotAt<T>(r: Ring<T>, wave: int -> T, i: nat, k: nat)
    requires r.Valid() && i < r.capacity && k < r.capacity && (r.tail + 1 + k) % r.capacity == i
    ensures |Filled(r, wave, r.capacity).slots| == |r.slots|
    ensures Filled(r, wave, r.capacity).slots[i] == wave(15 * k % 360)
  {
    FilledSlots(r, wave, r.capacity, k);
  }

  lemma SlotIndex(i: int, tail: int, c: int)
    requires 0 <= i < c
    ensures 0 <= (i - tail - 1) % c < c
    ensures (tail + 1 + (i - tail - 1) % c) % c == i
  {
    Modular.AddMod(i - tail - 1, tail + 1, c);
    Modular.Small(i, c);
  }

  /** Filling again changes nothing. */
  lemma FillTwice<T>(r: Ring<T>, wave: int -> T)
    requires r.Valid()
    ensures var f := Filled(r, wave, r.capacity);
            f.capacity == r.capacity && Filled(f, wave, f.capacity) == f
  {
    var f := Filled(r, wave, r.capacity);
    FullFill(r, wave);
    var g := Filled(f, wave, f.capacity);
    FullFill(f, wave);
    Modular.Small(f.tail, f.capacity);
    SameSlots(r, f, g, wave);
  }

  lemma SameSlots<T>(r: Ring<T>, f: Ring<T>, g: Ring<T>, wave: int -> T)
    requires r.Valid() && f.capacity == g.capacity == r.capacity <= |f.slots| == |g.slots|
    requires f.tail == r.tail % r.capacity && f.slots[r.capacity..] == g.slots[r.capacity..]
    requires forall i :: 0 <= i < r.capacity ==> f.slots[i] == WaveAt(wave, r.tail, r.capacity, i)
    requires forall i :: 0 <= i < r.capacity ==> g.slots[i] == WaveAt(wave, f.tail, r.capacity, i)
    ensures g.slots == f.slots
  {
    var c := r.capacity;
    forall i | 0 <= i < c ensures g.slots[i] == f.slots[i] {
      SamePlace(i, r.tail, c);
    }
    assert f.slots == f.slots[..c] + f.slots[c..];
    assert g.slots == g.slots[..c] + g.slots[c..];
    assert f.slots[..c] == g.slots[..c];
  }

  lemma SamePlace(i: int, tail: int, c: int)
    requires c > 0
    ensures (i - tail % c - 1) % c == (i - tail - 1) % c
  {
    Modular.Shift(i - tail - 1, c, tail / c);
    assert i - tail % c - 1 == i - tail - 1 + c * (tail / c);
  }

  /** On a fresh buffer slot i holds wave(15 i mod 360), so the contents have period 24. */
  lemma FreshFill<T>(slots: seq<T>, capacity: nat, wave: int -> T, i: nat)
    requires i < capacity <= |slots|
    ensures var f := Filled(New(slots, capacity), wave, capacity);
            && |f.slots| == |slots|
            && f.slots[i] == wave(15 * i % 360)
            && (i >= 24 ==> f.slots[i] == f.slots[i - 24])
  {
    FullFill(New(slots, capacity), wave);
    FreshWave(wave, capacity, i);
    if i >= 24 {
      FreshWave(wave, capacity, i - 24);
      Modular.Shift(15 * (i - 24), 360, 1);
    }
  }

  lemma FreshWave<T>(wave: int -> T, capacity: nat, i: nat)
    requires i < capacity
    ensures WaveAt(wave, -1, capacity, i) == wave(15 * i % 360)
  {
    Modular.Small(i, capacity);
  }
}
