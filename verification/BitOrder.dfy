/** Reversing the bits of every byte: MSB-first on the disc, LSB-first in a DSF file. */
module BitOrder {
  import opened Bytes

  function Reverse8(b: bv8): bv8 {
    var nibbles := ((b & 0xF0) >> 4) | ((b & 0x0F) << 4);
    var pairs := ((nibbles & 0xCC) >> 2) | ((nibbles & 0x33) << 2);
    ((pairs & 0xAA) >> 1) | ((pairs & 0x55) << 1)
  }

  function ReverseBits(b: byte): byte { Reverse8(b as bv8) as int }

  /** Bit `i` of the result is bit `7 - i` of the argument. */
  lemma {:induction false} ReverseBit(b: bv8, i: bv3)
    ensures (Reverse8(b) >> i) & 1 == (b >> (7 - i)) & 1
  {
  }

  lemma {:induction false} Reverse8Involution(b: bv8)
    ensures Reverse8(Reverse8(b)) == b
  {
  }

  lemma {:induction false} BitsToInt(x: bv8)
    ensures (x as int) as bv8 == x
  {
  }

  lemma {:induction false} NextBits(x: bv8)
    requires x != 0xFF
    ensures (x + 1) as int == x as int + 1
  {
  }

  lemma {:induction false} IntToBits(b: byte)
    ensures (b as bv8) as int == b
  {
    if b > 0 {
      IntToBits(b - 1);
      var x := (b - 1) as bv8;
      NextBits(x);
      BitsToInt(x + 1);
    }
  }

  lemma {:induction false} ReverseBitsInvolution(b: byte)
    ensures ReverseBits(ReverseBits(b)) == b
  {
    Reverse8Involution(b as bv8);
    BitsToInt(Reverse8(b as bv8));
    IntToBits(b);
  }

  function Reversed(s: seq<byte>): (r: seq<byte>)
    ensures |r| == |s| && forall i :: 0 <= i < |s| ==> r[i] == ReverseBits(s[i])
  {
    seq(|s|, i requires 0 <= i < |s| => ReverseBits(s[i]))
  }

  lemma {:induction false} ReversedInvolution(s: seq<byte>)
    ensures Reversed(Reversed(s)) == s
  {
    forall i | 0 <= i < |s| ensures Reversed(Reversed(s))[i] == s[i] {
      ReverseBitsInvolution(s[i]);
    }
  }

  lemma {:induction false} ReversedConcat(a: seq<byte>, b: seq<byte>)
    ensures Reversed(a + b) == Reversed(a) + Reversed(b)
  {
  }
}
