/**
 * The GPT-2 byte-level BPE alphabet: every byte 0..255 is given a printable
 * Unicode code point. Bytes that are already printable (33..126, 161..172,
 * 174..255) stand for themselves; the 68 others (0..32, 127..160 and 173)
 * are given the consecutive code points 256, 257, ... in increasing byte
 * order. Both the C++ tokenizer and the Python detokenizer build this table;
 * this module is the reference definition they are proved against.
 */
module Gpt2Bytes {
  /** The bytes that are not printable and get a code point from 256 upwards. */
  predicate IsRemapped(b: int)
  {
    (0 <= b < 33) || (127 <= b < 161) || b == 173
  }

  /** The number of remapped bytes strictly below `b`. */
  function RemappedBelow(b: nat): (n: nat)
    ensures n <= b
  {
    if b == 0 then 0 else RemappedBelow(b - 1) + (if IsRemapped(b - 1) then 1 else 0)
  }

  /** The code point that stands for byte `b`. */
  function CodePoint(b: nat): nat
  {
    if IsRemapped(b) then 256 + RemappedBelow(b) else b
  }

  /** 68 bytes are remapped, so the remapped code points are exactly 256..323. */
  lemma {:induction false} RemappedBelowBounds(b: nat)
    requires b <= 256
    ensures RemappedBelow(b) <= 68
    ensures b == 256 ==> RemappedBelow(b) == 68
  {
    RemappedBelowLandmarks();
    if b <= 33 {
      RemappedBelowIsB(b);
    } else if b <= 127 {
      RemappedBelowFlat(33, b);
    } else if b <= 161 {
      RemappedBelowRamp(127, b);
    } else if b <= 173 {
      RemappedBelowFlat(161, b);
    } else {
      RemappedBelowFlat(174, b);
    }
  }

  /** The running count at the ends of the table's ranges. */
  lemma RemappedBelowLandmarks()
    ensures RemappedBelow(33) == 33 && RemappedBelow(127) == 33
    ensures RemappedBelow(161) == 67 && RemappedBelow(173) == 67
    ensures RemappedBelow(174) == 68 && RemappedBelow(256) == 68
  {
    RemappedBelowIsB(33);
    RemappedBelowFlat(33, 127);
    RemappedBelowRamp(127, 161);
    RemappedBelowFlat(161, 173);
    RemappedBelowFlat(174, 256);
  }

  lemma {:induction false} RemappedBelowIsB(b: nat)
    requires b <= 33
    ensures RemappedBelow(b) == b
  {
    if b > 0 { RemappedBelowIsB(b - 1); }
  }

  lemma {:induction false} RemappedBelowFlat(lo: nat, hi: nat)
    requires lo <= hi
    requires forall x :: lo <= x < hi ==> !IsRemapped(x)
    ensures RemappedBelow(hi) == RemappedBelow(lo)
    decreases hi - lo
  {
    if lo < hi { RemappedBelowFlat(lo, hi - 1); }
  }

  lemma {:induction false} RemappedBelowRamp(lo: nat, hi: nat)
    requires lo <= hi
    requires forall x :: lo <= x < hi ==> IsRemapped(x)
    ensures RemappedBelow(hi) == RemappedBelow(lo) + (hi - lo)
    decreases hi - lo
  {
    if lo < hi { RemappedBelowRamp(lo, hi - 1); }
  }

  /** Remapped bytes get strictly increasing code points. */
  lemma {:induction false} RemappedBelowMonotone(a: nat, b: nat)
    requires a < b
    requires IsRemapped(a)
    ensures RemappedBelow(a) < RemappedBelow(b)
    decreases b - a
  {
    if a + 1 < b {
      RemappedBelowMonotone(a, b - 1);
    }
  }

  /**
   * The table is a bijection from 0..255 onto the printable bytes together
   * with 256..323: distinct bytes get distinct code points, printable bytes
   * keep their value and remapped bytes land in 256..323.
   */
  lemma CodePointInjective(a: nat, b: nat)
    requires a < 256 && b < 256 && a != b
    ensures CodePoint(a) != CodePoint(b)
  {
    if IsRemapped(a) && IsRemapped(b) {
      if a < b { RemappedBelowMonotone(a, b); } else { RemappedBelowMonotone(b, a); }
    } else if IsRemapped(a) {
      assert CodePoint(a) >= 256;
    } else if IsRemapped(b) {
      assert CodePoint(b) >= 256;
    }
  }

  lemma CodePointRange(b: nat)
    requires b < 256
    ensures !IsRemapped(b) ==> CodePoint(b) == b
    ensures IsRemapped(b) ==> 256 <= CodePoint(b) < 324
  {
    RemappedBelowBounds(b);
    if IsRemapped(b) {
      RemappedBelowBounds(256);
      RemappedBelowMonotone(b, 256);
    }
  }

  lemma CodePointsDistinct()
    ensures forall a, b :: 0 <= a < 256 && 0 <= b < 256 && a != b ==> CodePoint(a) != CodePoint(b)
  {
    forall a, b | 0 <= a < 256 && 0 <= b < 256 && a != b
      ensures CodePoint(a) != CodePoint(b)
    {
      CodePointInjective(a, b);
    }
  }

  /** The code points of the bytes below `n`. */
  function CodePointsBelow(n: nat): set<nat>
  {
    set b | 0 <= b < n :: CodePoint(b)
  }

  lemma {:induction false} CodePointsBelowSize(n: nat)
    requires n <= 256
    ensures |CodePointsBelow(n)| == n
  {
    if n > 0 {
      CodePointsBelowSize(n - 1);
      assert CodePointsBelow(n) == CodePointsBelow(n - 1) + {CodePoint(n - 1)};
      if CodePoint(n - 1) in CodePointsBelow(n - 1) {
        var b :| 0 <= b < n - 1 && CodePoint(b) == CodePoint(n - 1);
        CodePointInjective(b, n - 1);
      }
    }
  }

  /** The decoder entries for the bytes below `n`: code point to byte, byte by byte. */
  function DecoderBelow(n: nat): (m: map<nat, nat>)
    requires n <= 256
  {
    if n == 0 then map[] else DecoderBelow(n - 1)[CodePoint(n - 1) := n - 1]
  }

  /**
   * Each byte below `n` decodes from its own code point (a later byte never
   * overwrites an earlier one's entry), and the keys are exactly those code points.
   */
  lemma {:induction false} DecoderBelowInverts(n: nat)
    requires n <= 256
    ensures forall b :: 0 <= b < n ==> CodePoint(b) in DecoderBelow(n) && DecoderBelow(n)[CodePoint(b)] == b
    ensures forall c :: c in DecoderBelow(n) ==> DecoderBelow(n)[c] < n && CodePoint(DecoderBelow(n)[c]) == c
    ensures DecoderBelow(n).Keys == CodePointsBelow(n)
  {
    if n > 0 {
      DecoderBelowInverts(n - 1);
      forall b | 0 <= b < n - 1
        ensures CodePoint(b) != CodePoint(n - 1)
      {
        CodePointInjective(b, n - 1);
      }
      assert CodePointsBelow(n) == CodePointsBelow(n - 1) + {CodePoint(n - 1)};
    }
  }

  /** The reference byte decoder: code point to byte, for all 256 bytes. */
  function Decoder(): (m: map<nat, nat>)
  {
    DecoderBelow(256)
  }

  /** Decoding the code point of any byte gives the byte back, and every key is such a code point. */
  lemma DecoderInvertsCodePoint()
    ensures forall b :: 0 <= b < 256 ==> CodePoint(b) in Decoder() && Decoder()[CodePoint(b)] == b
    ensures forall c :: c in Decoder() ==> Decoder()[c] < 256 && CodePoint(Decoder()[c]) == c
    ensures |Decoder()| == 256
  {
    DecoderBelowInverts(256);
    CodePointsBelowSize(256);
  }
}
