/** The level count G = 2^bits and the label-to-display rescaling
    `(labels * (255 / (2**bits - 1))).astype(np.uint8)` shared by both quantizers. */
module Levels {
  import opened Arith

  /** `2 ** bits`: the number of quantization levels G. */
  function LevelCount(bits: nat): (g: nat)
    ensures g >= 1
    ensures bits >= 1 ==> g >= 2
  {
    if bits == 0 then 1 else 2 * LevelCount(bits - 1)
  }

  lemma {:induction false} LevelCountMonotone(a: nat, b: nat)
    requires a <= b
    ensures LevelCount(a) <= LevelCount(b)
  {
    if a < b {
      LevelCountMonotone(a, b - 1);
    }
  }

  /** Over the bit depths 1..7 offered to the user, G is at most 128. */
  lemma LevelCountUpToSeven(bits: nat)
    requires bits <= 7
    ensures LevelCount(bits) <= 128
  {
    LevelCountMonotone(bits, 7);
    assert LevelCount(7) == 128;
  }

  /** Up to 8 bits, every label 0..G-1 fits in a uint8. */
  lemma LevelCountFitsByte(bits: nat)
    requires bits <= 8
    ensures LevelCount(bits) <= 256
  {
    LevelCountMonotone(bits, 8);
    assert LevelCount(8) == 256;
  }

  /** Truncated display intensity of a label: the float product
      `level * (255 / (G - 1))` cast to uint8, taken here as the exact integer
      quotient of level * 255 by G - 1 (written with Quot, which QuotIsDiv
      equates with `/`). */
  function ScaleLabel(level: nat, bits: nat): nat
    requires bits >= 1
  {
    Quot(level * 255, LevelCount(bits) - 1)
  }

  lemma ScaleLabelBelowTop(level: nat, d: nat)
    requires 0 < d && level <= d
    ensures (level * 255) / d <= 255
    ensures level < d ==> (level * 255) / d < 255
  {
    DivMonotone(level * 255, d * 255, d);
    DivExact(255, d);
    if level < d {
      MulMonotone(level, d - 1, 255);
      DivBelow(level * 255, 255, d);
    }
  }

  lemma ScaleLabelPositive(level: nat, d: nat)
    requires 0 < d <= 255 && 0 < level
    ensures (level * 255) / d > 0
  {
    DivMonotone(d, level * 255, d);
    DivExact(1, d);
  }

  /** Rescaling maps every label of [0, G - 1] into [0, 255], label 0 to 0, the
      top label G - 1 (and only it) to 255; up to eight bits no other label maps to 0. */
  lemma ScaleLabelRange(level: nat, bits: nat)
    requires bits >= 1 && level <= LevelCount(bits) - 1
    ensures ScaleLabel(level, bits) <= 255
    ensures level == 0 ==> ScaleLabel(level, bits) == 0
    ensures bits <= 8 && level > 0 ==> ScaleLabel(level, bits) > 0
    ensures level == LevelCount(bits) - 1 <==> ScaleLabel(level, bits) == 255
  {
    var d: nat := LevelCount(bits) - 1;
    QuotIsDiv(level * 255, d);
    ScaleLabelBelowTop(level, d);
    DivExact(255, d);
    if bits <= 8 && level > 0 {
      LevelCountMonotone(bits, 8);
      assert LevelCount(8) == 256;
      ScaleLabelPositive(level, d);
    }
  }

  /** Rescaling keeps the order of labels. */
  lemma ScaleLabelMonotone(l1: nat, l2: nat, bits: nat)
    requires bits >= 1 && l1 <= l2
    ensures ScaleLabel(l1, bits) <= ScaleLabel(l2, bits)
  {
    QuotIsDiv(l1 * 255, LevelCount(bits) - 1);
    QuotIsDiv(l2 * 255, LevelCount(bits) - 1);
    DivMonotone(l1 * 255, l2 * 255, LevelCount(bits) - 1);
  }

  /** With two bits the four labels display as 0, 85, 170 and 255. */
  lemma TwoBitScale()
    ensures LevelCount(2) == 4
    ensures ScaleLabel(0, 2) == 0 && ScaleLabel(1, 2) == 85
    ensures ScaleLabel(2, 2) == 170 && ScaleLabel(3, 2) == 255
  {
    assert LevelCount(2) == 2 * LevelCount(1);
    QuotIsDiv(0, 3);
    QuotIsDiv(255, 3);
    QuotIsDiv(510, 3);
    QuotIsDiv(765, 3);
  }
}
