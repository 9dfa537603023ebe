/** The ACNET device of the spill state machine: slice reads of the waveforms,
    the scalar readings, and the fast read with its request table. */
module SSMDevices {
  import Modular
  import opened Wrappers
  import opened AcnetDevice
  import opened CircularBuffers
  import opened SharedBlock
  import opened SpillDevice
  import opened Waveforms
  import Ftp = FtpTable

  const METHODS: nat := 32
  const ATTR_STATE: nat := 0
  const ATTR_SPILL_COUNTER: nat := 1
  const ATTR_STATUS_CONTROL: nat := 2
  const ATTR_TIS: nat := 3
  const ATTR_IDEAL_SPILL: nat := 4
  const ATTR_ACTUAL_SPILL: nat := 5
  const ATTR_ERROR_SIGNAL: nat := 6
  const IDEAL_SPILL_READING_MAX: nat := 16000

  /** The fast-read element: six bytes, of which the first two are an integer. */
  datatype SafeFloat = SafeFloat(field: int, rest: int)

  const SIZE_OF_SAFE_FLOAT: nat := 6
  const NUM_READ_PTS: nat := 2666

  predicate IsWaveform(attr: nat) {
    attr == ATTR_IDEAL_SPILL || attr == ATTR_ACTUAL_SPILL || attr == ATTR_ERROR_SIGNAL
  }

  function MaxIndex(attr: nat): nat {
    if IsWaveform(attr) then IDEAL_SPILL_READING_MAX else 1
  }

  function ElementSize(attr: nat): (size: nat)
    ensures size == 2 || size == 4
  {
    if IsWaveform(attr) || attr == ATTR_STATE then 2 else 4
  }

  /** The value of the state register. */
  function Code(state: SpillState): nat {
    match state
    case Idle => 0
    case Init => 1
    case BetweenCycles => 2
    case StartCycle => 3
    case BetweenSpills => 4
    case ReadIBeam => 5
    case Ramp => 6
    case Spill => 7
    case StartEosTimer => 8
    case SpillParabola => 21
    case StartCleanupTimer => 19
    case AfterSpill => 20
    case EndCycle => 22
    case Learning => 14
    case Abort => 23
    case Fault => 254
    case Unknown => 255
  }

  /** What a reading property answers, given the data behind it; no data means
      that the shared memory cannot be opened. */
  function Read(attr: nat, len: int, off: int, data: Option<seq<int>>): Result<seq<int>>
    requires Representable(len, off)
    requires data.Some? ==> |data.value| == MaxIndex(attr)
  {
    if attr >= METHODS then Failure(MTVAL)
    else if attr > ATTR_ERROR_SIGNAL then Failure(UNSUPMT)
    else
      ProxyAcceptsIff(MaxIndex(attr), ElementSize(attr), len, off);
      match Proxied(MaxIndex(attr), ElementSize(attr), len, off)
      case Failure(error) => Failure(error)
      case Success(w) => if attr == ATTR_STATUS_CONTROL then Failure(DEVFAILED) else Handler(attr, w, data)
  }

  /** The handlers repeat the range checks; their sum is unsigned. */
  function Handler(attr: nat, w: Window, data: Option<seq<int>>): Result<seq<int>>
    requires -TWO_TO_THE_31 <= w.index + w.total < TWO_TO_THE_32
    requires data.Some? ==> |data.value| == MaxIndex(attr)
  {
    if w.index > MaxIndex(attr) then Failure(BADOFF)
    else if (w.index + w.total) % TWO_TO_THE_32 > MaxIndex(attr) then Failure(BADOFLEN)
    else if data.None? then Failure(DEVFAILED)
    else if IsWaveform(attr) && w.index < 0 then Undefined
    else if IsWaveform(attr) then Success(Narrowed(data.value[w.index..w.index + w.total]))
    else if w.total == 0 then Failure(BADOFLEN)
    else Success([data.value[0]])
  }

  function Narrowed(data: seq<int>): seq<int> {
    seq(|data|, k requires 0 <= k < |data| => ToInt16(data[k]))
  }

  predicate Fits16(data: seq<int>) {
    forall k :: 0 <= k < |data| ==> 0 <= data[k] < IDEAL_SPILL_READING_MAX
  }

  predicate EvenBytes(len: int, off: int) {
    off % 2 == 0 && len % 2 == 0
  }

  predicate InWindow(len: int, off: int) {
    EvenBytes(len, off) && 0 <= off / 2 < IDEAL_SPILL_READING_MAX && off / 2 + len / 2 <= IDEAL_SPILL_READING_MAX
  }

  /** A window that starts before the waveform and ends inside it. */
  predicate Underruns(len: int, off: int) {
    EvenBytes(len, off) && off < 0 <= off / 2 + len / 2 <= IDEAL_SPILL_READING_MAX
  }

  /** A read succeeds exactly inside the waveform, and delivers that slice; it
      gets past all checks to memory before the waveform exactly if it underruns. */
  predicate Delivers(r: Result<seq<int>>, len: int, off: int, data: seq<int>)
    requires |data| == IDEAL_SPILL_READING_MAX && Representable(len, off)
  {
    && (r.Success? <==> InWindow(len, off))
    && (r.Success? ==> r.value == data[off / 2..off / 2 + len / 2])
    && (r.Undefined? <==> Underruns(len, off))
  }

  /** Over all 32-bit lengths and all signed 32-bit offsets a waveform read
      succeeds exactly inside the waveform, and then delivers that slice without
      loss.  The checks protect every offset that does not underrun. */
  lemma WaveformReadIff(attr: nat, len: int, off: int, data: seq<int>)
    requires IsWaveform(attr) && Representable(len, off)
    requires |data| == IDEAL_SPILL_READING_MAX && Fits16(data)
    ensures Delivers(Read(attr, len, off, Some(data)), len, off, data)
  {
    ProxyAcceptsIff(IDEAL_SPILL_READING_MAX, 2, len, off);
    UnsignedSum(off / 2 + len / 2);
    if InWindow(len, off) {
      NarrowedKeeps(data[off / 2..off / 2 + len / 2]);
    }
  }

  lemma UnsignedSum(sum: int)
    requires -TWO_TO_THE_31 <= sum < TWO_TO_THE_32
    ensures sum % TWO_TO_THE_32 == if sum < 0 then sum + TWO_TO_THE_32 else sum
  {
    if sum < 0 {
      Modular.Shift(sum, TWO_TO_THE_32, 1);
      Modular.Small(sum + TWO_TO_THE_32, TWO_TO_THE_32);
    } else {
      Modular.Small(sum, TWO_TO_THE_32);
    }
  }

  /** For instance, two bytes at offset -2 are one element before the waveform. */
  lemma UnderrunGetsThrough(attr: nat, data: seq<int>)
    requires IsWaveform(attr) && |data| == IDEAL_SPILL_READING_MAX
    ensures Read(attr, 2, -2, Some(data)) == Undefined
  {
    ProxyAcceptsIff(IDEAL_SPILL_READING_MAX, 2, 2, -2);
  }

  /** Where a read fails, and with what: the handler's own check fires only
      where the proxy's signed sum passes 2^31 or is negative. */
  lemma WaveformReadErrors(attr: nat, len: int, off: int, data: Option<seq<int>>)
    requires IsWaveform(attr) && Representable(len, off)
    requires data.Some? ==> |data.value| == IDEAL_SPILL_READING_MAX
    ensures var r := Read(attr, len, off, data);
            var end := off / 2 + len / 2;
            && (!EvenBytes(len, off) ==> r == Failure(BADLEN))
            && (EvenBytes(len, off) && off / 2 >= IDEAL_SPILL_READING_MAX ==> r == Failure(BADOFF))
            && (EvenBytes(len, off) && off / 2 < IDEAL_SPILL_READING_MAX < end ==>
                  r == Failure(if end < TWO_TO_THE_31 then BADLEN else BADOFLEN))
            && (EvenBytes(len, off) && end < 0 ==> r == Failure(BADOFLEN))
            && ((InWindow(len, off) || Underruns(len, off)) && data.None? ==> r == Failure(DEVFAILED))
  {
    var proxied := Proxied(IDEAL_SPILL_READING_MAX, 2, len, off);
    ProxyAcceptsIff(IDEAL_SPILL_READING_MAX, 2, len, off);
    if proxied.Success? {
      HandlerErrors(attr, proxied.value, data);
    } else {
      ProxyErrors(IDEAL_SPILL_READING_MAX, 2, len, off);
    }
  }

  /** The errors of a handler, for any window it may be called with. */
  lemma HandlerErrors(attr: nat, w: Window, data: Option<seq<int>>)
    requires -TWO_TO_THE_31 <= w.index + w.total < TWO_TO_THE_32
    requires data.Some? ==> |data.value| == MaxIndex(attr)
    ensures var r, end, most := Handler(attr, w, data), w.index + w.total, if IsWaveform(attr) then 16000 else 1;
            && (w.index > most ==> r == Failure(BADOFF))
            && (w.index <= most && (end < 0 || end > most) ==> r == Failure(BADOFLEN))
            && (w.index <= most && 0 <= end <= most && data.None? ==> r == Failure(DEVFAILED))
            && (w.index <= most && 0 <= end <= most && data.Some? && !IsWaveform(attr) ==>
                  r == if w.total == 0 then Failure(BADOFLEN) else Success([data.value[0]]))
  {
    UnsignedSum(w.index + w.total);
  }

  lemma NarrowedKeeps(data: seq<int>)
    requires Fits16(data)
    ensures Narrowed(data) == data
  {
    forall k | 0 <= k < |data| ensures Narrowed(data)[k] == data[k] {
      NarrowingKeeps(data[k]);
    }
  }

  lemma DeliveriesJoin(a: Result<seq<int>>, b: Result<seq<int>>, joined: Result<seq<int>>,
                       off: int, len: int, more: int, data: seq<int>)
    requires 0 <= len && 0 < more && |data| == IDEAL_SPILL_READING_MAX
    requires Representable(len + more, off) && Representable(more, off + len)
    requires Delivers(a, len, off, data) && Delivers(b, more, off + len, data)
    requires Delivers(joined, len + more, off, data)
    ensures a.Success? && b.Success? <==> joined.Success? && len % 2 == 0
    ensures a.Success? && b.Success? ==> joined.value == a.value + b.value
  {
    WindowsJoin(len, more, off);
    if InWindow(len, off) && InWindow(more, off + len) {
      SlicesJoin(data, off / 2, off / 2 + len / 2, (off + len) / 2 + more / 2);
    }
  }

  /** Reading two adjacent windows is reading the joined one. */
  lemma AdjacentReadsJoin(attr: nat, off: int, len: int, more: int, data: seq<int>)
    requires IsWaveform(attr) && 0 <= len && 0 < more
    requires Representable(len + more, off) && Representable(more, off + len)
    requires |data| == IDEAL_SPILL_READING_MAX && Fits16(data)
    ensures var a := Read(attr, len, off, Some(data));
            var b := Read(attr, more, off + len, Some(data));
            var joined := Read(attr, len + more, off, Some(data));
            && (a.Success? && b.Success? <==> joined.Success? && len % 2 == 0)
            && (a.Success? && b.Success? ==> joined.value == a.value + b.value)
  {
    WaveformReadIff(attr, len, off, data);
    WaveformReadIff(attr, more, off + len, data);
    WaveformReadIff(attr, len + more, off, data);
    DeliveriesJoin(Read(attr, len, off, Some(data)), Read(attr, more, off + len, Some(data)),
                   Read(attr, len + more, off, Some(data)), off, len, more, data);
  }

  lemma WindowsJoin(len: int, more: int, off: int)
    requires len >= 0 && more > 0
    ensures InWindow(len, off) && InWindow(more, off + len) <==> InWindow(len + more, off) && len % 2 == 0
    ensures InWindow(len, off) && InWindow(more, off + len) ==>
              (off + len) / 2 == off / 2 + len / 2 && (len + more) / 2 == len / 2 + more / 2
  {
  }

  lemma SlicesJoin(data: seq<int>, a: int, b: int, c: int)
    requires 0 <= a <= b <= c <= |data|
    ensures data[a..c] == data[a..b] + data[b..c]
  {
  }

  // ------------------------------------------------------------- fast read

  /** Conversion from double to int drops the fraction towards zero. */
  function Truncated(x: real): int {
    if x >= 0.0 then x.Floor else -(-x).Floor
  }

  lemma TruncatesTowardsZero(x: real)
    ensures x >= 0.0 ==> Truncated(x) as real <= x < Truncated(x) as real + 1.0
    ensures x < 0.0 ==> Truncated(x) as real - 1.0 < x <= Truncated(x) as real
  {
  }

  function Point(ring: Ring<real>, i: nat): int
    requires i < |ring.slots|
  {
    ToInt16(Truncated((ring.slots[i] + 1.0) * 100.0))
  }

  /** The integer that ends in element i of a fast read. */
  function FastField(ring: Ring<real>, wave: int -> real, i: nat): int
    requires ring.Valid() && i < |Filled(ring, wave, ring.capacity).slots|
  {
    if i == 0 then NUM_READ_PTS * SIZE_OF_SAFE_FLOAT
    else Point(Filled(ring, wave, ring.capacity), i)
  }

  ghost predicate Bounded(wave: int -> real) {
    forall degrees :: -1.0 <= wave(degrees) <= 1.0
  }

  /** The byte count, and then integers from 0 to 200 that repeat every 24 elements. */
  predicate FastShape(answer: seq<SafeFloat>) {
    && |answer| >= NUM_READ_PTS && answer[0].field == 15996
    && (forall i :: 0 < i < NUM_READ_PTS ==> 0 <= answer[i].field <= 200)
    && (forall i :: 24 < i < NUM_READ_PTS ==> answer[i].field == answer[i - 24].field)
  }

  /** Field i is 100 (1 + wave(15 i mod 360)) without its fraction. */
  ghost predicate FastValues(answer: seq<SafeFloat>, wave: int -> real)
  {
    && |answer| >= NUM_READ_PTS
    && forall i :: 0 < i < NUM_READ_PTS ==>
         var x := 100.0 * (1.0 + wave(15 * i % 360));
         answer[i].field as real <= x < answer[i].field as real + 1.0
  }

  lemma FastFieldValue(slots: seq<real>, capacity: nat, wave: int -> real, i: nat)
    requires 0 < i < capacity <= |slots| && Bounded(wave)
    ensures |Filled(New(slots, capacity), wave, capacity).slots| == |slots|
    ensures var x, field := 100.0 * (1.0 + wave(15 * i % 360)), FastField(New(slots, capacity), wave, i);
            field as real <= x < field as real + 1.0
  {
    FreshFill(slots, capacity, wave, i);
    var x := (wave(15 * i % 360) + 1.0) * 100.0;
    assert 0.0 <= x <= 200.0;
    NarrowingKeeps(Truncated(x));
  }

  /** With a wave bounded by one every later field is between 0 and 200. */
  lemma FastFieldIsBounded(ring: Ring<real>, wave: int -> real, i: nat)
    requires ring.Valid() && 0 < i < ring.capacity
    requires Bounded(wave)
    ensures i < |Filled(ring, wave, ring.capacity).slots|
    ensures 0 <= FastField(ring, wave, i) <= 200
  {
    FullFill(ring, wave);
    var x := Filled(ring, wave, ring.capacity).slots[i];
    assert x == WaveAt(wave, ring.tail, ring.capacity, i);
    assert 0.0 <= (x + 1.0) * 100.0 <= 200.0;
    NarrowingKeeps(Truncated((x + 1.0) * 100.0));
  }

  /** On the ring as it is created the fields repeat every 24 elements. */
  lemma FastFieldHasPeriod24(slots: seq<real>, capacity: nat, wave: int -> real, i: nat)
    requires 24 < i < capacity <= |slots|
    ensures |Filled(New(slots, capacity), wave, capacity).slots| == |slots|
    ensures FastField(New(slots, capacity), wave, i) == FastField(New(slots, capacity), wave, i - 24)
  {
    FreshFill(slots, capacity, wave, i);
  }

  /** The offsets the fast proxy lets through: multiples of six that leave room
      for the view, and negative ones that are multiples of six as unsigned
      64-bit numbers.  The handler does not look at the offset. */
  predicate FastFits(off: int) {
    if off < 0 then (off + 4) % 6 == 0 else off % 6 == 0 && off / 6 + NUM_READ_PTS <= IDEAL_SPILL_READING_MAX
  }

  /** The fast view has 2666 elements, whatever the offset; they are the 15996
      bytes that are reported. */
  lemma FastViewFits(off: int)
    requires Representable(0, off)
    ensures var r := ProxiedFast(IDEAL_SPILL_READING_MAX, SIZE_OF_SAFE_FLOAT, off);
            && (r.Success? <==> FastFits(off))
            && (r.Success? ==> r.value.total == NUM_READ_PTS && (off >= 0 ==> r.value.index == off / 6))
            && (off >= 0 && off % 6 != 0 ==> r == Failure(BADLEN))
            && (off >= 0 && off % 6 == 0 && off / 6 >= IDEAL_SPILL_READING_MAX ==> r == Failure(BADOFF))
            && (off >= 0 && off % 6 == 0 && off / 6 < IDEAL_SPILL_READING_MAX < off / 6 + NUM_READ_PTS ==>
                  r == Failure(BADLEN))
            && (off < 0 && !FastFits(off) ==> r == Failure(BADLEN))
    ensures NUM_READ_PTS * SIZE_OF_SAFE_FLOAT == 15996 == ToInt16(15996)
  {
    if off < 0 {
      FastIndexBelow(off);
    } else {
      ScaledUp(off, 6);
      Int32Keeps(off / 6 + NUM_READ_PTS);
    }
  }

  /** A negative offset is made unsigned, divided, and cut to 32 bits: it stays negative. */
  lemma FastIndexBelow(off: int)
    requires -TWO_TO_THE_31 <= off < 0
    ensures Aligned(off, 6) <==> (off + 4) % 6 == 0
    ensures Scaled(off, 6) + NUM_READ_PTS < 0
    ensures ToInt32(Scaled(off, 6) + NUM_READ_PTS) == Scaled(off, 6) + NUM_READ_PTS
  {
    var high, low := 0x2AAA_AAAA, 0xAAAA_AAAA + (off + 4) / 6;
    UnsignedOffset(off);
    Modular.Shift(off + 4, 6, 0x2AAA_AAAA_AAAA_AAAA);
    assert off + TWO_TO_THE_64 == off + 4 + 6 * 0x2AAA_AAAA_AAAA_AAAA;
    Modular.Shift(low, TWO_TO_THE_32, high);
    Modular.Small(low, TWO_TO_THE_32);
    Int32Keeps(Scaled(off, 6) + NUM_READ_PTS);
  }

  // ---------------------------------------------------------------- device

  /** Sample j of the waveform behind an attribute. */
  function Sample(attr: nat, j: nat): int
    requires IsWaveform(attr)
  {
    SourceShape();
    if attr == ATTR_IDEAL_SPILL then SOURCE_SHAPE.IdealAt(j)
    else if attr == ATTR_ACTUAL_SPILL then SOURCE_SHAPE.ActualAt(j)
    else SOURCE_SHAPE.ErrorAt(j)
  }

  /** The waveforms behind the attributes, in numbers. */
  lemma SamplesInNumbers(j: nat)
    requires j < 16000
    ensures Sample(4, j) == 15999 - j
    ensures Sample(6, j) == 15999 - j - Sample(5, j)
    ensures j >= 14499 ==> Sample(5, j) == 0
    ensures j < 14499 ==> Sample(5, j + 1) < Sample(5, j)
  {
    SourceShape();
    SOURCE_SHAPE.ErrorIsStaircase(j);
    if j < 14500 {
      SOURCE_SHAPE.ActualFalls(j);
    }
  }

  // --------------------------------------------------------------- scalars

  /** The bytes of a scalar reading, by attribute. */
  predicate IsScalar(attr: nat, bytes: nat) {
    (attr == 0 && bytes == 2) || ((attr == 1 || attr == 3) && bytes == 4)
  }

  /** A scalar read succeeds exactly for a whole number of elements that end with
      the first one, or before it at zero; for non-negative offsets that is the
      one element at offset zero.  It delivers the register. */
  lemma ScalarReadIff(attr: nat, bytes: nat, len: int, off: int, v: int)
    requires IsScalar(attr, bytes) && Representable(len, off)
    ensures var r := Read(attr, len, off, Some([v]));
            && (r.Success? <==>
                  off % bytes == 0 && len % bytes == 0 && len > 0 && (off + len == 0 || off + len == bytes))
            && (r.Success? ==> r.value == [v])
            && !r.Undefined?
            && (off >= 0 ==> (r.Success? <==> off == 0 && len == bytes))
  {
    var proxied := Proxied(1, bytes, len, off);
    ProxyAcceptsIff(1, bytes, len, off);
    if proxied.Success? {
      HandlerErrors(attr, proxied.value, Some([v]));
      WholeElements(bytes, len, off);
    } else if off % bytes == 0 && len % bytes == 0 {
      WholeElements(bytes, len, off);
    }
  }

  /** With which error a scalar read fails. */
  lemma ScalarReadErrors(attr: nat, bytes: nat, len: int, off: int, data: Option<seq<int>>)
    requires IsScalar(attr, bytes) && Representable(len, off) && (data.Some? ==> |data.value| == 1)
    ensures var r, whole := Read(attr, len, off, data), off % bytes == 0 && len % bytes == 0;
            && (!whole ==> r == Failure(BADLEN))
            && (whole && off > 0 ==> r == Failure(BADOFF))
            && (whole && off <= 0 && bytes < off + len < bytes * TWO_TO_THE_31 ==> r == Failure(BADLEN))
            && (whole && off <= 0 && off + len < 0 ==> r == Failure(BADOFLEN))
            && (off == 0 && len == 0 ==> r == Failure(if data.None? then DEVFAILED else BADOFLEN))
            && (off == 0 && len == bytes && data.None? ==> r == Failure(DEVFAILED))
  {
    var proxied := Proxied(1, bytes, len, off);
    ProxyAcceptsIff(1, bytes, len, off);
    ProxyErrors(1, bytes, len, off);
    if proxied.Success? {
      HandlerErrors(attr, proxied.value, data);
    }
    if off % bytes == 0 && len % bytes == 0 {
      ElementsOf(bytes, len, off);
    }
  }

  lemma ElementsOf(bytes: nat, len: int, off: int)
    requires (bytes == 2 || bytes == 4) && off % bytes == 0 && len % bytes == 0
    ensures off > 0 <==> off / bytes >= 1
    ensures off + len < 0 <==> off / bytes + len / bytes < 0
    ensures off + len > bytes <==> off / bytes + len / bytes > 1
    ensures off + len < bytes * TWO_TO_THE_31 <==> off / bytes + len / bytes < TWO_TO_THE_31
  {
  }

  lemma WholeElements(bytes: nat, len: int, off: int)
    requires (bytes == 2 || bytes == 4) && off % bytes == 0 && len % bytes == 0
    ensures off / bytes + len / bytes == 0 <==> off + len == 0
    ensures off / bytes + len / bytes == 1 <==> off + len == bytes
    ensures len > 0 ==> len / bytes > 0
  {
  }

  /** The answers that do not depend on data: no property 32, no reading
      property from 7 on, and a status-control reading that always fails. */
  lemma OtherAttributes(attr: nat, len: int, off: int, data: Option<seq<int>>)
    requires Representable(len, off) && (data.Some? ==> |data.value| == MaxIndex(attr))
    ensures attr >= 32 ==> Read(attr, len, off, data) == Failure(MTVAL)
    ensures 7 <= attr < 32 ==> Read(attr, len, off, data) == Failure(UNSUPMT)
    ensures attr == 2 && off == 0 && len == 4 ==> Read(attr, len, off, data) == Failure(DEVFAILED)
    ensures attr == 2 ==> Read(attr, len, off, data).Failure?
  {
  }

  /** The registers' values for the states of the mock and of the daemon. */
  lemma StateCodes()
    ensures Code(Idle) == 0 && Code(Init) == 1 && Code(BetweenCycles) == 2 && Code(StartCycle) == 3
    ensures Code(BetweenSpills) == 4 && Code(ReadIBeam) == 5 && Code(Ramp) == 6 && Code(Spill) == 7
    ensures Code(StartEosTimer) == 8 && Code(Learning) == 14 && Code(StartCleanupTimer) == 19
    ensures Code(AfterSpill) == 20 && Code(SpillParabola) == 21 && Code(EndCycle) == 22 && Code(Abort) == 23
    ensures Code(SpillState.Fault) == 254 && Code(Unknown) == 255
    ensures forall x, y :: Code(x) == Code(y) ==> x == y
  {
  }

  class SSMDevice {
    const shm: SpillStateMachineSMB?   // null: the shared memory cannot be opened
    const activeFtp: array<nat>
    var readfastErrorCount: nat

    ghost predicate Valid()
      reads this, activeFtp, shm
      reads if shm == null then {} else {shm.idealSpillWaveFormData, shm.actualSpillWaveFormData,
                                         shm.errorSignalWaveFormData, shm.circularBuffer, shm.circularBuffer.buffer}
    {
      && activeFtp.Length == Ftp.MAX_FTP
      && (shm != null ==> shm.shape == SOURCE_SHAPE && shm.Valid() && shm.Drawn())
    }

    /** The arrays a caller's buffer must not be. */
    ghost function Arrays(): set<object> {
      if shm == null then {activeFtp}
      else {activeFtp as object, shm.idealSpillWaveFormData, shm.actualSpillWaveFormData, shm.errorSignalWaveFormData}
    }

    ghost function Data(attr: nat): (data: Option<seq<int>>)
      requires Valid()
      reads this, activeFtp, shm
      reads if shm == null then {} else {shm.idealSpillWaveFormData, shm.actualSpillWaveFormData,
                                         shm.errorSignalWaveFormData, shm.circularBuffer, shm.circularBuffer.buffer}
      ensures data.Some? ==> |data.value| == MaxIndex(attr)
    {
      if shm == null then None
      else if attr == ATTR_IDEAL_SPILL then Some(shm.idealSpillWaveFormData[..])
      else if attr == ATTR_ACTUAL_SPILL then Some(shm.actualSpillWaveFormData[..])
      else if attr == ATTR_ERROR_SIGNAL then Some(shm.errorSignalWaveFormData[..])
      else Some([if attr == ATTR_STATE then Code(shm.currentState)
                     else if attr == ATTR_SPILL_COUNTER then shm.spillCounter else shm.timeInSpill])
    }

    /** End to end: an accepted read of a drawn waveform delivers, sample by
        sample, what the generators' closed forms say. */
    lemma WaveformAnswers(attr: nat, len: int, off: int)
      requires Valid() && shm != null && IsWaveform(attr) && Representable(len, off)
      ensures var r := Read(attr, len, off, Data(attr));
              && (r.Success? <==> InWindow(len, off))
              && (r.Success? ==> |r.value| == len / 2)
              && (r.Success? ==> forall k :: 0 <= k < len / 2 ==> r.value[k] == Sample(attr, off / 2 + k))
    {
      SourceShape();
      var data := Data(attr).value;
      forall k | 0 <= k < |data| ensures data[k] == Sample(attr, k) && 0 <= data[k] < IDEAL_SPILL_READING_MAX {
        SamplesFit(k);
      }
      WaveformReadIff(attr, len, off, data);
    }

    /** Which register a scalar property reads. */
    lemma ScalarAnswers()
      requires Valid()
      ensures shm != null ==>
                && Read(0, 2, 0, Data(0)) == Success([Code(shm.currentState)])
                && Read(1, 4, 0, Data(1)) == Success([shm.spillCounter])
                && Read(3, 4, 0, Data(3)) == Success([shm.timeInSpill])
      ensures shm == null ==>
                && Read(0, 2, 0, Data(0)) == Failure(DEVFAILED)
                && Read(1, 4, 0, Data(1)) == Failure(DEVFAILED)
                && Read(3, 4, 0, Data(3)) == Failure(DEVFAILED)
    {
      ProxyAcceptsIff(1, 2, 2, 0);
      ProxyAcceptsIff(1, 4, 4, 0);
    }

    constructor (shm: SpillStateMachineSMB?)
      requires shm != null ==> shm.shape == SOURCE_SHAPE && shm.Valid() && shm.Drawn()
      ensures Valid() && this.shm == shm && fresh(activeFtp)
      ensures activeFtp[..] == [0, 0, 0, 0] && readfastErrorCount == 0
    {
      this.shm := shm;
      activeFtp := new nat[Ftp.MAX_FTP](_ => 0);
      readfastErrorCount := 0;
    }

    /** The buffer has room for the bytes that are asked for. */
    method GetProperty(attr: nat, buf: array<int>, len: int, off: int) returns (status: Status)
      requires Valid() && Representable(len, off) && len / ElementSize(attr) <= buf.Length && buf !in Arrays()
      modifies buf
      ensures Valid()
      ensures match Read(attr, len, off, old(Data(attr)))
              case Success(values) => status == Ok && buf[..] == values + old(buf[..])[|values|..]
              case Failure(error) => status == Thrown(error) && buf[..] == old(buf[..])
              case Undefined => status == OutOfBounds && buf[..] == old(buf[..])
    {
      if attr >= METHODS {
        return Thrown(MTVAL);
      }
      if attr > ATTR_ERROR_SIGNAL {
        return Thrown(UNSUPMT);
      }
      var window := Proxied(MaxIndex(attr), ElementSize(attr), len, off);
      if window.Failure? {
        return Thrown(window.error);
      }
      ProxyAcceptsIff(MaxIndex(attr), ElementSize(attr), len, off);
      var dest := new ArrayView(buf, window.value.index, window.value.total);
      if attr == ATTR_STATUS_CONTROL {
        return Thrown(DEVFAILED);
      } else if attr == ATTR_IDEAL_SPILL {
        status := SpillRead(attr, dest, if shm == null then null else shm.idealSpillWaveFormData);
      } else if attr == ATTR_ACTUAL_SPILL {
        status := SpillRead(attr, dest, if shm == null then null else shm.actualSpillWaveFormData);
      } else if attr == ATTR_ERROR_SIGNAL {
        status := SpillRead(attr, dest, if shm == null then null else shm.errorSignalWaveFormData);
      } else {
        status := ScalarRead(attr, dest);
      }
    }

    /** The copy loop of the three waveform handlers. */
    method SpillRead(ghost attr: nat, dest: ArrayView<int>, data: array?<int>) returns (status: Status)
      requires IsWaveform(attr) && dest.total <= dest.data.Length
      requires -TWO_TO_THE_31 <= dest.offset + dest.total < TWO_TO_THE_32
      requires data != null ==> data.Length == IDEAL_SPILL_READING_MAX && data != dest.data
      modifies dest.data
      ensures match Handler(attr, Window(dest.offset, dest.total), if data == null then None else Some(data[..]))
              case Success(values) => status == Ok && dest.data[..] == values + old(dest.data[..])[|values|..]
              case Failure(error) => status == Thrown(error) && dest.data[..] == old(dest.data[..])
              case Undefined => status == OutOfBounds && dest.data[..] == old(dest.data[..])
    {
      if dest.offset > IDEAL_SPILL_READING_MAX {
        return Thrown(BADOFF);
      }
      if (dest.offset + dest.total) % TWO_TO_THE_32 > IDEAL_SPILL_READING_MAX {
        return Thrown(BADOFLEN);
      }
      if data == null {
        return Thrown(DEVFAILED);
      }
      UnsignedSum(dest.offset + dest.total);
      if dest.offset < 0 {
        return OutOfBounds;   // the first round of the loop reads data[offset]
      }
      var i, j := dest.offset, 0;
      while i < dest.offset + dest.total
        invariant 0 <= j <= dest.total && i == dest.offset + j
        invariant forall k :: 0 <= k < j ==> dest.data[k] == ToInt16(data[dest.offset + k])
        invariant forall k :: j <= k < dest.data.Length ==> dest.data[k] == old(dest.data[k])
      {
        var inRange := dest.Set(j, ToInt16(data[i]));
        assert inRange == Ok;
        j := j + 1;
        i := i + 1;
      }
      ghost var values := Narrowed(data[dest.offset..dest.offset + dest.total]);
      assert dest.data[..] == values + old(dest.data[..])[|values|..];
      status := Ok;
    }

    method ScalarRead(attr: nat, dest: ArrayView<int>) returns (status: Status)
      requires Valid() && !IsWaveform(attr) && dest.total <= dest.data.Length
      requires -TWO_TO_THE_31 <= dest.offset + dest.total < TWO_TO_THE_32
      requires dest.data !in Arrays()
      modifies dest.data
      ensures match Handler(attr, Window(dest.offset, dest.total), old(Data(attr)))
              case Success(values) => status == Ok && dest.data[..] == values + old(dest.data[..])[|values|..]
              case Failure(error) => status == Thrown(error) && dest.data[..] == old(dest.data[..])
              case Undefined => status == OutOfBounds && dest.data[..] == old(dest.data[..])
    {
      if dest.offset > 1 {
        return Thrown(BADOFF);
      }
      if (dest.offset + dest.total) % TWO_TO_THE_32 > 1 {
        return Thrown(BADOFLEN);
      }
      if shm == null {
        return Thrown(DEVFAILED);
      }
      UnsignedSum(dest.offset + dest.total);
      if attr == ATTR_STATE {
        status := dest.Set(0, Code(shm.currentState));
      } else if attr == ATTR_SPILL_COUNTER {
        status := dest.Set(0, shm.spillCounter);
      } else {
        status := dest.Set(0, shm.timeInSpill);
      }
    }

    method FindRequest(id: nat) returns (i: nat)
      requires activeFtp.Length == Ftp.MAX_FTP
      ensures i == Ftp.FirstIndex(activeFtp[..], id)
    {
      i := 0;
      while i < Ftp.MAX_FTP
        invariant i <= Ftp.MAX_FTP && forall k :: 0 <= k < i ==> activeFtp[k] != id
      {
        if activeFtp[i] == id {
          return;
        }
        i := i + 1;
      }
    }

    method InitCollection(periodic: bool, evVal: nat, id: nat) returns (status: Status)
      requires Valid()
      modifies this, activeFtp
      ensures Valid()
      ensures var t := old(activeFtp[..]);
              if !Ftp.PassesRateFilter(periodic, evVal)
              then status == Ok && activeFtp[..] == t && readfastErrorCount == old(readfastErrorCount)
              else readfastErrorCount == 0 &&
                   match Ftp.Registered(t, id)
                   case None => status == Thrown(FTPLIMIT) && activeFtp[..] == t
                   case Some(after) => status == Ok && activeFtp[..] == after
    {
      if periodic {
        if evVal >= 66000 && evVal != 66600 && evVal != 6670 {
          return Ok;
        }
      } else {
        if evVal >= 66000 {
          return Ok;
        }
        if evVal < 694 {
          return Ok;
        }
      }
      readfastErrorCount := 0;
      var i := FindRequest(0);
      var requestId := if i < Ftp.MAX_FTP then id else 0;
      if requestId == 0 {
        return Thrown(FTPLIMIT);
      }
      activeFtp[i] := id;
      status := Ok;
    }

    /** Frees a slot the way the source does; false means that its store would
        not hit the table, which is then left alone. */
    method CleanupCollection(id: nat) returns (inTable: bool)
      requires Valid()
      modifies activeFtp
      ensures Valid()
      ensures match Ftp.ReleasedAsWritten(old(activeFtp[..]), id)
              case None => !inTable && activeFtp[..] == old(activeFtp[..])
              case Some(after) => inTable && activeFtp[..] == after
    {
      var i := FindRequest(id);
      if i == Ftp.MAX_FTP {
        return true;
      }
      if id >= Ftp.MAX_FTP {
        return false;
      }
      activeFtp[id] := 0;
      inTable := true;
    }

    /** Only the ideal-spill attribute has a fast method. */
    method GetPropertyFast(attr: nat, buf: array<SafeFloat>, off: int, id: nat, wave: int -> real)
      returns (status: Status)
      requires Valid() && Representable(0, off) && NUM_READ_PTS <= buf.Length
      modifies this, activeFtp, buf
      ensures attr >= METHODS ==> status == Thrown(MTVAL)
      ensures attr < METHODS && attr != ATTR_IDEAL_SPILL ==> status == Thrown(UNSUPMT)
      ensures attr == ATTR_IDEAL_SPILL ==>
                match ProxiedFast(IDEAL_SPILL_READING_MAX, SIZE_OF_SAFE_FLOAT, off)
                case Failure(error) =>
                  && status == Thrown(error)
                  && readfastErrorCount == old(readfastErrorCount) && activeFtp[..] == old(activeFtp[..])
                case Success(_) =>
                  if id !in old(activeFtp[..])
                  then status == Thrown(FTPLIMIT) && readfastErrorCount == old(readfastErrorCount) + 1
                  else status == if shm == null then Thrown(DEVFAILED) else Ok
      ensures status == Ok <==>
                && attr == ATTR_IDEAL_SPILL && FastFits(off)
                && id in old(activeFtp[..]) && shm != null
      ensures status == Ok ==> FastAnswer(buf[..], old(buf[..]), wave) && activeFtp[..] == old(activeFtp[..])
      ensures status == Ok && Bounded(wave) ==> FastShape(buf[..]) && FastValues(buf[..], wave)
      ensures status != Ok ==> buf[..] == old(buf[..])
    {
      if attr >= METHODS {
        return Thrown(MTVAL);
      }
      if attr != ATTR_IDEAL_SPILL {
        return Thrown(UNSUPMT);
      }
      var window := ProxiedFast(IDEAL_SPILL_READING_MAX, SIZE_OF_SAFE_FLOAT, off);
      FastViewFits(off);
      if window.Failure? {
        return Thrown(window.error);
      }
      var dest := new ArrayView(buf, window.value.index, window.value.total);
      status := ReadFast(dest, id, wave);
      if status == Ok && Bounded(wave) {
        FastAnswerHasShape(buf[..], old(buf[..]), wave);
      }
    }

    /** What a client gets from every accepted fast read. */
    lemma FastAnswerHasShape(after: seq<SafeFloat>, before: seq<SafeFloat>, wave: int -> real)
      requires Valid() && shm != null && FastAnswer(after, before, wave) && Bounded(wave)
      ensures FastShape(after) && FastValues(after, wave)
    {
      var ring := shm.circularBuffer.Value();
      forall i | 0 < i < NUM_READ_PTS
        ensures 0 <= after[i].field <= 200 && (i > 24 ==> after[i].field == after[i - 24].field)
      {
        FastFieldIsBounded(ring, wave, i);
        if i > 24 {
          FastFieldHasPeriod24(ring.slots, BUFFER_SIZE, wave, i);
        }
      }
      forall i | 0 < i < NUM_READ_PTS
        ensures var x := 100.0 * (1.0 + wave(15 * i % 360));
                after[i].field as real <= x < after[i].field as real + 1.0
      {
        FastFieldValue(ring.slots, BUFFER_SIZE, wave, i);
      }
    }

    /** The first 2666 elements carry the fields; nothing else is written. */
    ghost predicate FastAnswer(after: seq<SafeFloat>, before: seq<SafeFloat>, wave: int -> real)
      requires shm != null && shm.circularBuffer.Valid()
      reads shm, shm.circularBuffer, shm.circularBuffer.buffer
    {
      && |after| == |before| >= NUM_READ_PTS
      && |Filled(shm.circularBuffer.Value(), wave, shm.circularBuffer.capacity).slots| >= NUM_READ_PTS
      && (forall i :: 0 <= i < NUM_READ_PTS ==>
            after[i] == SafeFloat(FastField(shm.circularBuffer.Value(), wave, i), before[i].rest))
      && after[NUM_READ_PTS..] == before[NUM_READ_PTS..]
    }

    method ReadFast(dest: ArrayView<SafeFloat>, id: nat, wave: int -> real) returns (status: Status)
      requires Valid() && dest.total == NUM_READ_PTS <= dest.data.Length
      modifies this, activeFtp, dest.data
      ensures Valid()
      ensures id !in old(activeFtp[..]) ==>
                status == Thrown(FTPLIMIT) && readfastErrorCount == old(readfastErrorCount) + 1
      ensures id in old(activeFtp[..]) ==> status == if shm == null then Thrown(DEVFAILED) else Ok
      ensures id !in old(activeFtp[..]) || shm != null ==> activeFtp[..] == old(activeFtp[..])
      ensures id in old(activeFtp[..]) && shm == null ==>
                match Ftp.ReleasedAsWritten(old(activeFtp[..]), id)
                case None => activeFtp[..] == old(activeFtp[..])
                case Some(after) => activeFtp[..] == after
      ensures status == Ok ==>
                FastAnswer(dest.data[..], old(dest.data[..]), wave) && activeFtp[..] == old(activeFtp[..])
      ensures status != Ok ==> dest.data[..] == old(dest.data[..])
    {
      var i := FindRequest(id);
      if i == Ftp.MAX_FTP {
        readfastErrorCount := readfastErrorCount + 1;
        return Thrown(FTPLIMIT);
      }
      if shm == null {
        var _ := CleanupCollection(id);
        return Thrown(DEVFAILED);
      }
      FastReply(dest, wave);
      status := Ok;
    }

    /** Fills a copy of the block's ring and puts the points into the view, with
        the number of bytes in front. */
    method FastReply(dest: ArrayView<SafeFloat>, wave: int -> real)
      requires Valid() && shm != null && dest.total == NUM_READ_PTS <= dest.data.Length
      modifies dest.data
      ensures FastAnswer(dest.data[..], old(dest.data[..]), wave)
    {
      var spil := new SpillStateMachineSMB.Copy(shm);
      spil.FillCircularBuffer(wave);
      CopyPoints(spil.circularBuffer, dest);
      ghost var points := dest.data[..];
      FastViewFits(0);
      var bytes := NUM_READ_PTS * SIZE_OF_SAFE_FLOAT;
      var inRange := dest.Set(0, dest.data[0].(field := ToInt16(bytes)));
      HeaderCompletes(old(dest.data[..]), points, dest.data[..], wave);
    }

    lemma HeaderCompletes(before: seq<SafeFloat>, points: seq<SafeFloat>, after: seq<SafeFloat>, wave: int -> real)
      requires Valid() && shm != null && |before| == |points| == |after| >= NUM_READ_PTS
      requires var filled := Filled(shm.circularBuffer.Value(), wave, shm.circularBuffer.capacity);
               && |filled.slots| >= NUM_READ_PTS
               && forall k :: 0 <= k < NUM_READ_PTS ==> points[k] == SafeFloat(Point(filled, k), before[k].rest)
      requires forall k :: NUM_READ_PTS <= k < |before| ==> points[k] == before[k]
      requires forall k :: 0 <= k < |after| ==>
                 after[k] == if k == 0 then points[k].(field := NUM_READ_PTS * SIZE_OF_SAFE_FLOAT) else points[k]
      ensures FastAnswer(after, before, wave)
    {
    }

    /** The copy loop of the fast read. */
    method CopyPoints(points: CircularBuffer<real>, dest: ArrayView<SafeFloat>)
      requires points.Valid() && dest.total == NUM_READ_PTS <= dest.data.Length
      modifies dest.data
      ensures forall k :: 0 <= k < NUM_READ_PTS ==>
                dest.data[k] == SafeFloat(Point(points.Value(), k), old(dest.data[k].rest))
      ensures forall k :: NUM_READ_PTS <= k < dest.data.Length ==> dest.data[k] == old(dest.data[k])
    {
      var i := 0;
      while i < NUM_READ_PTS
        invariant 0 <= i <= NUM_READ_PTS
        invariant forall k :: 0 <= k < i ==> dest.data[k] == SafeFloat(Point(points.Value(), k), old(dest.data[k].rest))
        invariant forall k :: i <= k < dest.data.Length ==> dest.data[k] == old(dest.data[k])
      {
        var datum := points.DataGet(i);
        var val := Truncated((datum + 1.0) * 100.0);
        var inRange := dest.Set(i, dest.data[i].(field := ToInt16(val)));
        assert inRange == Ok;
        i := i + 1;
      }
    }
  }
}
