/** The three waveforms in closed form.  The source's constants 16000, 1000 and
    100 are generalised to m blocks of a period P of which D samples are dropped. */
module Waveforms {
  import Modular

  datatype Shape = Shape(blocks: nat, period: nat, drop: nat)
  {
    predicate Valid() {
      0 < blocks && 0 < drop < period
    }

    function Size(): nat {
      blocks * period
    }

    /** How many samples the actual waveform has before its zero tail. */
    function Written(): nat
      requires Valid()
    {
      WrittenFits();
      Size() - (blocks - 1) * drop
    }

    lemma WrittenFits()
      requires Valid()
      ensures (blocks - 1) * drop < Size()
    {
      Blockwise(blocks - 1, 0);
      Modular.Monotone(0, blocks - 1, period - drop);
    }

    /** The arithmetic of b dropped blocks above q full ones. */
    lemma Blockwise(b: nat, q: nat)
      requires Valid() && b + q == blocks - 1
      ensures Size() == period * q + b * (period - drop) + drop * b + period
      ensures (blocks - 1) * drop == drop * b + drop * q
      ensures b > 0 ==> b * (period - drop) == (b - 1) * (period - drop) + (period - drop)
      ensures b == 0 ==> b * (period - drop) == 0 == drop * b
    {
      assert Size() == (b + q + 1) * period == b * period + q * period + period;
      assert b * period == b * (period - drop) + b * drop;
      assert q * period == period * q;
      assert (b + q) * drop == b * drop + q * drop;
      if b > 0 {
        assert b * (period - drop) == (b - 1 + 1) * (period - drop);
      }
    }

    /** How often a block of D samples was skipped before sample j. */
    function Drops(j: nat): nat
      requires Valid()
    {
      if j < period - 1 then 0
      else
        var b := (j - (period - 1)) / (period - drop) + 1;
        if b < blocks - 1 then b else blocks - 1
    }

    function IdealAt(j: int): int {
      Size() - 1 - j
    }

    function ActualAt(j: nat): int
      requires Valid()
    {
      if j < Written() then Size() - 1 - j - drop * Drops(j) else 0
    }

    function ErrorAt(j: nat): int
      requires Valid()
    {
      if j < Written() then drop * Drops(j) else Size() - 1 - j
    }

    function Ideal(): seq<int> {
      seq(Size(), j requires 0 <= j < Size() => IdealAt(j))
    }

    function Actual(): seq<int>
      requires Valid()
    {
      seq(Size(), j requires 0 <= j < Size() => ActualAt(j))
    }

    function Error(): seq<int>
      requires Valid()
    {
      seq(Size(), j requires 0 <= j < Size() => ErrorAt(j))
    }

    /** Where the samples with b drops lie. */
    lemma DropsInBlock(b: nat, j: nat)
      requires Valid() && b <= blocks - 1
      requires b > 0 ==> period - 1 + (b - 1) * (period - drop) <= j
      requires b < blocks - 1 ==> j < period - 1 + b * (period - drop)
      ensures Drops(j) == b
    {
      var t, d := j - (period - 1), period - drop;
      Blockwise(b, blocks - 1 - b);
      if b == 0 {
      } else if b < blocks - 1 {
        assert (b - 1) * d == d * (b - 1);
        Modular.Unique(t, d, b - 1, t - (b - 1) * d);
      } else {
        QuotientAtLeast(t, d, b - 1);
      }
    }

    static lemma QuotientAtLeast(t: int, d: int, q: int)
      requires d > 0 && q * d <= t
      ensures q <= t / d
    {
      Modular.Multiple(d, q - t / d);
      assert d * (q - t / d) == q * d - d * (t / d);
    }

    /** The block a sample lies in, the other way round. */
    lemma BlockOf(j: nat)
      requires Valid() && j < Written()
      ensures var b := Drops(j);
              && b <= blocks - 1
              && (b > 0 ==> period - 1 + (b - 1) * (period - drop) <= j)
              && (b < blocks - 1 ==> j < period - 1 + b * (period - drop))
    {
      var t, d := j - (period - 1), period - drop;
      if t >= 0 {
        var q, b := t / d, Drops(j);
        Modular.Enclosed(t, d);
        Modular.Monotone(b - 1, q, d);
        assert b < blocks - 1 ==> b == q + 1;
      }
    }

    /** The actual waveform falls strictly, from the top sample to zero. */
    lemma ActualFalls(j: nat)
      requires Valid() && j < Written()
      ensures 0 <= ActualAt(j) < Size()
      ensures j + 1 < Written() ==> ActualAt(j + 1) < ActualAt(j)
      ensures j + 1 == Written() ==> ActualAt(j) == 0
      ensures j < period - 1 ==> ActualAt(j) == IdealAt(j)
    {
      ActualInRange(j);
      if j + 1 < Written() {
        NextIsLower(j);
      } else {
        LastIsZero();
      }
      FirstBlockIsIdeal(j);
    }

    lemma ActualInRange(j: nat)
      requires Valid() && j < Written()
      ensures 0 <= ActualAt(j) < Size()
    {
      BlockOf(j);
      DropsBounded(j, Drops(j));
      MoreDrops(0, Drops(j));
    }

    lemma NextIsLower(j: nat)
      requires Valid() && j + 1 < Written()
      ensures ActualAt(j + 1) < ActualAt(j)
    {
      DropsMonotone(j, j + 1);
      MoreDrops(Drops(j), Drops(j + 1));
    }

    lemma LastIsZero()
      requires Valid()
      ensures ActualAt(Written() - 1) == 0
    {
      LastSample();
    }

    lemma FirstBlockIsIdeal(j: nat)
      requires Valid() && j < Written()
      ensures j < period - 1 ==> ActualAt(j) == IdealAt(j)
    {
      MoreDrops(0, 0);
    }

    lemma MoreDrops(a: nat, b: nat)
      requires a <= b
      ensures drop * a <= drop * b
      ensures drop * 0 == 0
    {
      Modular.Monotone(a, b, drop);
    }

    lemma DropsBounded(j: nat, b: nat)
      requires Valid() && j < Written() && b <= blocks - 1
      ensures drop * b <= drop * (blocks - 1) <= Size() - 1 - j
    {
      Modular.Monotone(b, blocks - 1, drop);
    }

    lemma DropsMonotone(j: nat, k: nat)
      requires Valid() && j <= k
      ensures Drops(j) <= Drops(k)
    {
      var d := period - drop;
      if j >= period - 1 {
        var t, u := j - (period - 1), k - (period - 1);
        assert (t / d) * d <= t;
        QuotientAtLeast(u, d, t / d);
      }
    }

    lemma LastSample()
      requires Valid()
      ensures Drops(Written() - 1) == blocks - 1
    {
      var j, b := Written() - 1, blocks - 1;
      Blockwise(b, 0);
      DropsInBlock(b, j);
    }

    /** The error signal is a staircase: never negative, never above (m-1)D,
        and the ideal waveform is the actual one plus the error everywhere. */
    lemma ErrorIsStaircase(j: nat)
      requires Valid() && j < Size()
      ensures 0 <= ErrorAt(j) <= (blocks - 1) * drop
      ensures IdealAt(j) == ActualAt(j) + ErrorAt(j)
      ensures j < period - 1 ==> ErrorAt(j) == 0
      ensures j + 1 < Written() ==> ErrorAt(j) <= ErrorAt(j + 1)
    {
      ErrorInRange(j);
      if j + 1 < Written() {
        ErrorClimbs(j);
      }
      ErrorStartsAtZero(j);
    }

    lemma ErrorInRange(j: nat)
      requires Valid() && j < Size()
      ensures 0 <= ErrorAt(j) <= (blocks - 1) * drop
    {
      if j < Written() {
        BlockOf(j);
        MoreDrops(0, Drops(j));
        Modular.Monotone(Drops(j), blocks - 1, drop);
      }
    }

    lemma ErrorClimbs(j: nat)
      requires Valid() && j + 1 < Written()
      ensures ErrorAt(j) <= ErrorAt(j + 1)
    {
      DropsMonotone(j, j + 1);
      MoreDrops(Drops(j), Drops(j + 1));
    }

    lemma ErrorStartsAtZero(j: nat)
      requires Valid() && j < Size()
      ensures j < period - 1 ==> ErrorAt(j) == 0
    {
      Blockwise(blocks - 1, 0);
      Modular.Monotone(0, blocks - 1, period - drop);
      MoreDrops(0, 0);
    }

    /** Where the generator's loop is: sample j is about to be written from i,
        after b drops, in the block with base period * q. */
    ghost predicate InBlock(i: int, j: int, b: int)
      requires Valid()
    {
      var q := blocks - 1 - b;
      && 0 <= b <= blocks - 1
      && i == Size() - 1 - j - drop * b
      && period * q - (if q == 0 then 1 else 0) <= i
      && i <= period * q + period - (if b == 0 then 1 else drop)
    }

    lemma BottomOfBlock(i: int, j: nat, b: nat)
      requires Valid() && i >= 0 && InBlock(i, j, b)
      ensures i % period == 0 && i > 0 <==> b < blocks - 1 && i == period * (blocks - 1 - b)
    {
      var q := blocks - 1 - b;
      Modular.Unique(i, period, q, i - period * q);
      Modular.Multiple(period, q);
    }

    /** At the bottom of a block D samples are skipped into the next one. */
    lemma DropStep(i: int, j: nat, b: nat)
      requires Valid() && InBlock(i, j, b) && b < blocks - 1 && i == period * (blocks - 1 - b)
      ensures InBlock(i - drop, j, b + 1)
      ensures i - drop > period * (blocks - 2 - b)
    {
      assert drop * (b + 1) == drop * b + drop;
      assert period * (blocks - 1 - b) == period * (blocks - 2 - b) + period;
    }

    lemma SampleIsRight(i: int, j: nat, b: nat)
      requires Valid() && InBlock(i, j, b) && i >= 0
      requires b < blocks - 1 ==> i > period * (blocks - 1 - b)
      ensures ActualAt(j) == i && j < Written()
    {
      var q := blocks - 1 - b;
      Blockwise(b, q);
      Modular.Monotone(drop, period, q);
      DropsInBlock(b, j);
    }

    lemma NextSample(i: int, j: nat, b: nat)
      requires Valid() && InBlock(i, j, b) && i >= 0
      requires b < blocks - 1 ==> i > period * (blocks - 1 - b)
      ensures InBlock(i - 1, j + 1, b)
      ensures if i == 0 then j + 1 == Written() else j + 1 < Written()
    {
      var q := blocks - 1 - b;
      Blockwise(b, q);
      Modular.Monotone(drop, period, q);
      Modular.Multiple(period, q);
    }

    lemma Start()
      requires Valid()
      ensures InBlock(Size() - 1, 0, 0) && 0 < Written() <= Size()
    {
      Blockwise(0, blocks - 1);
      WrittenFits();
      Modular.Monotone(0, blocks - 1, drop);
      Modular.Monotone(0, blocks - 1, period);
      assert drop * 0 == 0;
      assert period * (blocks - 1) + period == Size();
    }

    /** One round of the loop: it writes the right sample, inside the written
        part, and knows where it goes on. */
    lemma OneSample(i: int, j: nat, b: nat)
      requires Valid() && InBlock(i, j, b) && i >= 0
      ensures var bottom := i % period == 0 && i > 0;
              var v := if bottom then i - drop else i;
              && ActualAt(j) == v && v >= 0 && j < Written() <= Size()
              && InBlock(v - 1, j + 1, if bottom then b + 1 else b)
              && (if v == 0 then j + 1 == Written() else j + 1 < Written())
    {
      Start();
      BottomOfBlock(i, j, b);
      if i % period == 0 && i > 0 {
        DropStep(i, j, b);
        Modular.Multiple(period, blocks - 1 - b);
        SampleIsRight(i - drop, j, b + 1);
        NextSample(i - drop, j, b + 1);
      } else {
        SampleIsRight(i, j, b);
        NextSample(i, j, b);
      }
    }

    /** A value the generator keeps: zero, anything of the first block but its
        bottom, and of every other block what lies above its bottom and below the drop. */
    predicate Kept(v: int)
      requires Valid()
    {
      v == 0 || (0 < v < Size() && v % period != 0 && (v / period == blocks - 1 || v % period <= period - drop))
    }

    /** Read from the top down, the actual waveform is the ideal one with the
        dropped values left out: exactly the kept values occur. */
    lemma ActualKeeps(j: nat)
      requires Valid() && j < Written()
      ensures Kept(ActualAt(j))
    {
      var b, v := Drops(j), ActualAt(j);
      BlockOf(j);
      ActualFalls(j);
      if j + 1 < Written() {
        OffsetInBlock(j, b);
        var q := blocks - 1 - b;
        Modular.Unique(v, period, q, v - period * q);
      }
    }

    lemma OffsetInBlock(j: nat, b: nat)
      requires Valid() && j + 1 < Written() && b == Drops(j)
      ensures b <= blocks - 1
      ensures 0 < ActualAt(j) - period * (blocks - 1 - b) < period
      ensures b > 0 ==> ActualAt(j) - period * (blocks - 1 - b) <= period - drop
    {
      BlockOf(j);
      Blockwise(b, blocks - 1 - b);
    }

    lemma KeptOccurs(v: int)
      requires Valid() && Kept(v)
      ensures exists j: nat :: j < Written() && ActualAt(j) == v
    {
      if v == 0 {
        LastSample();
        ActualFalls(Written() - 1);
      } else {
        var q, r := v / period, v % period;
        assert v == period * q + r;
        QuotientInRange(v);
        var b := blocks - 1 - q;
        Blockwise(b, q);
        WrittenSample(b, q, r, period - 1 + b * (period - drop) - r);
      }
    }

    lemma QuotientInRange(v: int)
      requires Valid() && 0 <= v < Size()
      ensures 0 <= v / period <= blocks - 1
    {
      assert v == period * (v / period) + v % period;
      if v / period >= blocks {
        Modular.Monotone(blocks, v / period, period);
        assert false;
      }
    }

    lemma WrittenSample(b: nat, q: nat, r: nat, j: int)
      requires Valid() && b + q == blocks - 1 && 0 < r < period
      requires b == 0 || r <= period - drop
      requires j == period - 1 + b * (period - drop) - r
      ensures 0 <= j < Written() && ActualAt(j) == period * q + r
    {
      Blockwise(b, q);
      Modular.Monotone(0, b, period - drop);
      if b > 0 {
        Modular.Monotone(0, b - 1, period - drop);
      }
      Modular.Monotone(drop, period, q);
      DropsInBlock(b, j);
    }
  }

  /** The shape the source uses. */
  const SOURCE_SHAPE: Shape := Shape(16, 1000, 100)

  lemma SourceShape()
    ensures SOURCE_SHAPE.Valid() && SOURCE_SHAPE.Size() == 16000 && SOURCE_SHAPE.Written() == 14500
  {
  }

  /** The actual waveform in numbers: of 16000 values it keeps zero, all above
      15000, and of every lower thousand those from 1 to 900. */
  lemma SourceKeeps(v: int)
    requires 0 <= v < 16000
    ensures SOURCE_SHAPE.Valid()
    ensures (exists j: nat :: j < 14500 && SOURCE_SHAPE.ActualAt(j) == v)
       <==> v == 0 || (v % 1000 != 0 && (v >= 15000 || v % 1000 <= 900))
  {
    SourceShape();
    if SOURCE_SHAPE.Kept(v) {
      SOURCE_SHAPE.KeptOccurs(v);
    }
    forall j: nat | j < 14500 && SOURCE_SHAPE.ActualAt(j) == v ensures SOURCE_SHAPE.Kept(v) {
      SOURCE_SHAPE.ActualKeeps(j);
    }
  }

  /** Where the first drop comes: the loop meets 15000 and writes 14900. */
  lemma FirstDrop()
    ensures SOURCE_SHAPE.Valid()
    ensures SOURCE_SHAPE.ActualAt(998) == 15001 && SOURCE_SHAPE.ActualAt(999) == 14900
  {
    SourceShape();
  }

  /** All samples of all three waveforms survive the narrowing to 16 bits. */
  lemma SamplesFit(j: nat)
    requires j < 16000
    ensures SOURCE_SHAPE.Valid()
    ensures 0 <= SOURCE_SHAPE.IdealAt(j) < 16000
    ensures 0 <= SOURCE_SHAPE.ActualAt(j) < 16000
    ensures 0 <= SOURCE_SHAPE.ErrorAt(j) <= 1500
  {
    SourceShape();
    if j < SOURCE_SHAPE.Written() {
      SOURCE_SHAPE.ActualFalls(j);
    }
    SOURCE_SHAPE.ErrorIsStaircase(j);
  }
}
