/** Bytes as they travel on the console's serial link, and the XOR-fold that
    every checksum of the protocol is built from. */
module Bytes {

  /** One octet on the wire (`uint8_t` in the C++ driver). */
  type byte = bv8

  /** The conventional Some/None datatype. */
  datatype Option<T> = None | Some(value: T)

  /** Running exclusive-or of all bytes of `s`, taken from left to right, as
      the checksum loops accumulate it in a `ck` variable that starts at 0. */
  function Fold(s: seq<byte>): byte
  {
    if s == [] then 0 else Fold(s[..|s| - 1]) ^ s[|s| - 1]
  }

  /** Folding a concatenation is the XOR of the two folds; this is what lets
      a seed byte, a payload and a trailing check byte be folded piecewise. */
  lemma {:induction false} FoldAppend(a: seq<byte>, b: seq<byte>)
    ensures Fold(a + b) == Fold(a) ^ Fold(b)
    decreases |b|
  {
    if b == [] {
      assert a + b == a;
    } else {
      var b' := b[..|b| - 1];
      assert (a + b)[..|a + b| - 1] == a + b';
      FoldAppend(a, b');
    }
  }

  /** Extending a prefix by one byte extends its fold by that byte. */
  lemma FoldPrefix(s: seq<byte>, i: nat)
    requires i < |s|
    ensures Fold(s[..i + 1]) == Fold(s[..i]) ^ s[i]
  {
    assert s[..i + 1][..i] == s[..i];
  }

  /** The fold of a single byte is that byte. */
  lemma FoldSingle(x: byte)
    ensures Fold([x]) == x
  {
    assert [x][..0] == [];
  }

  /** XOR-ing a mask into one byte changes the fold by exactly that mask. */
  lemma FoldFlip(p: seq<byte>, x: byte, q: seq<byte>, mask: byte)
    ensures Fold(p + [x ^ mask] + q) == Fold(p + [x] + q) ^ mask
  {
    FoldAppend(p + [x ^ mask], q);
    FoldAppend(p + [x], q);
    FoldAppend(p, [x ^ mask]);
    FoldAppend(p, [x]);
    FoldSingle(x);
    FoldSingle(x ^ mask);
  }

  /** The same bits read as a two's-complement `int8_t`. */
  function AsInt8(b: byte): (v: int)
    ensures -128 <= v < 128
    ensures v % 256 == b as int
  {
    if b < 0x80 then b as int else b as int - 256
  }
}
