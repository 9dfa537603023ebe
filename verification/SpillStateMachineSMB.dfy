/** The shared memory block of the spill state machine: the published fields,
    the circular buffer and the three waveforms. */
module SharedBlock {
  import Modular
  import opened CircularBuffers
  import opened SpillDevice
  import opened Waveforms
  import TwoThreads

  method CopyOf(a: array<int>) returns (b: array<int>)
    ensures fresh(b) && b[..] == a[..]
  {
    b := new int[a.Length](i requires 0 <= i < a.Length reads a => a[i]);
  }

  class SpillStateMachineSMB {
    const shape: Shape
    const circularBuffer: CircularBuffer<real>
    const idealSpillWaveFormData: array<int>
    const actualSpillWaveFormData: array<int>
    const errorSignalWaveFormData: array<int>

    var currentState: SpillState
    var spillCounter: nat
    var threadRunning: bool
    var timeInSpill: nat
    var led: bool

    /** The published fields. */
    function Fields(): TwoThreads.Block
      reads this
    {
      TwoThreads.Block(currentState, spillCounter, timeInSpill, threadRunning, led)
    }

    /** The shared ring is never filled: readers fill a copy of the block. */
    ghost predicate RingIsNew()
      reads circularBuffer, circularBuffer.buffer
    {
      circularBuffer.Valid() && circularBuffer.Value() == New(circularBuffer.buffer[..], BUFFER_SIZE)
    }

    ghost predicate Valid()
      reads this, actualSpillWaveFormData, circularBuffer, circularBuffer.buffer
    {
      && shape.Valid() && RingIsNew()
      && idealSpillWaveFormData.Length == actualSpillWaveFormData.Length == shape.Size()
      && errorSignalWaveFormData.Length == shape.Size()
      && idealSpillWaveFormData != actualSpillWaveFormData
      && idealSpillWaveFormData != errorSignalWaveFormData
      && actualSpillWaveFormData != errorSignalWaveFormData
      && (forall j :: shape.Written() <= j < shape.Size() ==> actualSpillWaveFormData[j] == 0)
    }

    /** All three arrays hold their waveforms. */
    ghost predicate Drawn()
      requires shape.Valid()
      reads idealSpillWaveFormData, actualSpillWaveFormData, errorSignalWaveFormData
    {
      && idealSpillWaveFormData[..] == shape.Ideal()
      && actualSpillWaveFormData[..] == shape.Actual()
      && errorSignalWaveFormData[..] == shape.Error()
    }

    constructor (shape: Shape)
      requires shape.Valid()
      ensures Valid() && Drawn() && this.shape == shape && currentState == Unknown
      ensures fresh(idealSpillWaveFormData) && fresh(actualSpillWaveFormData) && fresh(errorSignalWaveFormData)
      ensures fresh(circularBuffer) && fresh(circularBuffer.buffer)
      ensures circularBuffer.capacity == 9800 && circularBuffer.Value().Empty()
    {
      this.shape := shape;
      circularBuffer := new CircularBuffer(BUFFER_SIZE);
      idealSpillWaveFormData := new int[shape.Size()];
      actualSpillWaveFormData := new int[shape.Size()](_ => 0);
      errorSignalWaveFormData := new int[shape.Size()](_ => 0);
      currentState := Unknown;
      new;
      Initialize();
    }

    /** The copy a reader makes before it fills the circular buffer. */
    constructor Copy(other: SpillStateMachineSMB)
      requires other.Valid()
      ensures Valid() && shape == other.shape && Fields() == other.Fields()
      ensures fresh(idealSpillWaveFormData) && idealSpillWaveFormData[..] == other.idealSpillWaveFormData[..]
      ensures fresh(actualSpillWaveFormData) && actualSpillWaveFormData[..] == other.actualSpillWaveFormData[..]
      ensures fresh(errorSignalWaveFormData) && errorSignalWaveFormData[..] == other.errorSignalWaveFormData[..]
      ensures fresh(circularBuffer) && fresh(circularBuffer.buffer)
      ensures circularBuffer.Value() == other.circularBuffer.Value()
    {
      shape := other.shape;
      circularBuffer := new CircularBuffer.Copy(other.circularBuffer);
      var ideal := CopyOf(other.idealSpillWaveFormData);
      var actual := CopyOf(other.actualSpillWaveFormData);
      var error := CopyOf(other.errorSignalWaveFormData);
      idealSpillWaveFormData, actualSpillWaveFormData, errorSignalWaveFormData := ideal, actual, error;
      currentState := other.currentState;
      spillCounter := other.spillCounter;
      threadRunning := other.threadRunning;
      timeInSpill := other.timeInSpill;
      led := other.led;
    }

    /** Draws the waveforms; drawing them again changes nothing. */
    method Initialize()
      requires Valid()
      modifies idealSpillWaveFormData, actualSpillWaveFormData, errorSignalWaveFormData
      ensures Valid() && Drawn()
      ensures old(Drawn()) ==>
                && idealSpillWaveFormData[..] == old(idealSpillWaveFormData[..])
                && actualSpillWaveFormData[..] == old(actualSpillWaveFormData[..])
                && errorSignalWaveFormData[..] == old(errorSignalWaveFormData[..])
    {
      IdealSpillWaveform();
      ActualSpillWaveform();
      ErrorSignalWaveform();
    }

    method IdealSpillWaveform()
      requires Valid()
      modifies idealSpillWaveFormData
      ensures idealSpillWaveFormData[..] == shape.Ideal()
    {
      var i, j := shape.Size() - 1, 0;
      while i >= 0
        invariant 0 <= j <= shape.Size() && i == shape.Size() - 1 - j
        invariant forall k :: 0 <= k < j ==> idealSpillWaveFormData[k] == shape.IdealAt(k)
      {
        idealSpillWaveFormData[j] := i;
        j := j + 1;
        i := i - 1;
      }
    }

    /** The loop lowers its own control variable by D at the bottom of every
        block but the last; it still never leaves the array. */
    method ActualSpillWaveform()
      requires Valid()
      modifies actualSpillWaveFormData
      ensures Valid() && actualSpillWaveFormData[..] == shape.Actual()
    {
      var i, j := shape.Size() - 1, 0;
      ghost var b := 0;
      shape.Start();
      while i >= 0
        invariant 0 <= j && shape.InBlock(i, j, b)
        invariant if i >= 0 then j < shape.Written() else j == shape.Written()
        invariant Valid()
        invariant forall k :: 0 <= k < j ==> actualSpillWaveFormData[k] == shape.ActualAt(k)
        decreases i + 1
      {
        shape.OneSample(i, j, b);
        if i % shape.period == 0 && i > 0 {
          b := b + 1;
          i := i - shape.drop;
          actualSpillWaveFormData[j] := i;
          j := j + 1;
        } else {
          actualSpillWaveFormData[j] := i;
          j := j + 1;
        }
        i := i - 1;
      }
      assert forall k :: 0 <= k < shape.Size() ==> actualSpillWaveFormData[k] == shape.ActualAt(k);
    }

    method ErrorSignalWaveform()
      requires Valid() && idealSpillWaveFormData[..] == shape.Ideal() && actualSpillWaveFormData[..] == shape.Actual()
      modifies errorSignalWaveFormData
      ensures errorSignalWaveFormData[..] == shape.Error()
    {
      for i := 0 to shape.Size()
        invariant forall k :: 0 <= k < i ==> errorSignalWaveFormData[k] == shape.ErrorAt(k)
      {
        assert idealSpillWaveFormData[i] == idealSpillWaveFormData[..][i] == shape.IdealAt(i);
        assert actualSpillWaveFormData[i] == actualSpillWaveFormData[..][i] == shape.ActualAt(i);
        errorSignalWaveFormData[i] := idealSpillWaveFormData[i] - actualSpillWaveFormData[i];
        shape.ErrorIsStaircase(i);
      }
    }

    method FillCircularBuffer(wave: int -> real)
      requires circularBuffer.Valid()
      modifies circularBuffer, circularBuffer.buffer
      ensures circularBuffer.Valid()
      ensures circularBuffer.Value() == Filled(old(circularBuffer.Value()), wave, circularBuffer.capacity)
    {
      var degrees := 0;
      for i := 0 to circularBuffer.capacity
        invariant circularBuffer.Valid() && degrees == 15 * i
        invariant circularBuffer.Value() == Filled(old(circularBuffer.Value()), wave, i)
      {
        circularBuffer.Enqueue(wave(degrees % 360));
        degrees := degrees + 15;
      }
    }
  }
}
