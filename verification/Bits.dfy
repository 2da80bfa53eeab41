/** Bitmaps as the update program and the producers use them: bit u of a byte string is in
    byte u / 8, most significant bit first, and stands for the uid u. */
module Bits {

  type Bitmap = seq<bv8>

  const BITS_PER_BYTE := 8

  /** `1 << (7 - j)` */
  function Mask(j: nat): bv8
    requires j < BITS_PER_BYTE
  {
    (1 as bv8) << (7 - j)
  }

  predicate Bit(b: bv8, j: nat)
    requires j < BITS_PER_BYTE
  {
    b & Mask(j) != 0
  }

  /** Setting a bit with `|=` sets that bit and no other. */
  lemma SetBit(b: bv8, i: nat, j: nat)
    requires i < BITS_PER_BYTE && j < BITS_PER_BYTE
    ensures Bit(b | Mask(i), j) <==> i == j || Bit(b, j)
  {
    MaskValue(i);
    MaskValue(j);
  }

  lemma MaskValue(j: nat)
    requires j < BITS_PER_BYTE
    ensures Mask(j) == [0x80, 0x40, 0x20, 0x10, 8, 4, 2, 1][j]
  {
  }

  lemma AndBit(a: bv8, b: bv8, j: nat)
    requires j < BITS_PER_BYTE
    ensures Bit(a & b, j) <==> Bit(a, j) && Bit(b, j)
  {
    MaskValue(j);
  }

  lemma XorBit(a: bv8, b: bv8, j: nat)
    requires j < BITS_PER_BYTE
    ensures Bit(a ^ b, j) <==> Bit(a, j) != Bit(b, j)
  {
    var m := Mask(j);
    SingleBit(a, j);
    SingleBit(b, j);
    assert (a ^ b) & m == (a & m) ^ (b & m);
    DifferentBits(a & m, b & m);
  }

  lemma SingleBit(a: bv8, j: nat)
    requires j < BITS_PER_BYTE
    ensures a & Mask(j) == 0 || a & Mask(j) == Mask(j)
    ensures Mask(j) != 0
  {
    MaskValue(j);
  }

  lemma DifferentBits(x: bv8, y: bv8)
    ensures x ^ y != 0 <==> x != y
  {
  }

  lemma ZeroBit(j: nat)
    requires j < BITS_PER_BYTE
    ensures !Bit(0, j)
  {
    MaskValue(j);
  }

  /** The bit of uid u; bits past the end read as 0, as Redis reads them. */
  predicate HasUid(bm: Bitmap, u: nat) {
    u / BITS_PER_BYTE < |bm| && Bit(bm[u / BITS_PER_BYTE], u % BITS_PER_BYTE)
  }

  /** The string after `bitmap[u / 8] |= (1 << (7 - u % 8))`. */
  function WithUid(bm: Bitmap, u: nat): (r: Bitmap)
    requires u / BITS_PER_BYTE < |bm|
    ensures |r| == |bm|
  {
    bm[u / BITS_PER_BYTE := bm[u / BITS_PER_BYTE] | Mask(u % BITS_PER_BYTE)]
  }

  /** The assignment adds one uid to the set and changes nothing else. */
  lemma WithUidAdds(bm: Bitmap, u: nat, v: nat)
    requires u / BITS_PER_BYTE < |bm|
    ensures HasUid(WithUid(bm, u), v) <==> v == u || HasUid(bm, v)
  {
    hide Bit, Mask;
    var i, j := u / BITS_PER_BYTE, u % BITS_PER_BYTE;
    if v / BITS_PER_BYTE == i { SetBit(bm[i], j, v % BITS_PER_BYTE); }
  }

  lemma ZerosEmpty(bm: Bitmap, u: nat)
    requires forall i :: 0 <= i < |bm| ==> bm[i] == 0
    ensures !HasUid(bm, u)
  {
    ZeroBit(u % BITS_PER_BYTE);
  }

  function UidSet(bm: Bitmap): set<nat> { set u: nat | u < BITS_PER_BYTE * |bm| && HasUid(bm, u) }

  // ---------- BITOP ----------

  /** The byte at i; BITOP pads shorter strings with zero bytes. */
  function At(bm: Bitmap, i: nat): bv8 { if i < |bm| then bm[i] else 0 }

  function Longer(m: nat, n: nat): nat { if m < n then n else m }

  function AndByte(x: bv8, y: bv8, z: bv8): bv8 { x & y & z }

  lemma AndByteBit(x: bv8, y: bv8, z: bv8, j: nat)
    requires j < BITS_PER_BYTE
    ensures Bit(AndByte(x, y, z), j) <==> Bit(x, j) && Bit(y, j) && Bit(z, j)
  {
    AndBit(x, y, j);
    AndBit(x & y, z, j);
  }

  function And3(a: Bitmap, b: Bitmap, c: Bitmap): (r: Bitmap)
    ensures |r| == Longer(|a|, Longer(|b|, |c|))
  {
    seq(Longer(|a|, Longer(|b|, |c|)), i requires 0 <= i => AndByte(At(a, i), At(b, i), At(c, i)))
  }

  function Xor(a: Bitmap, b: Bitmap): (r: Bitmap)
    ensures |r| == Longer(|a|, |b|)
  {
    seq(Longer(|a|, |b|), i requires 0 <= i => At(a, i) ^ At(b, i))
  }

  lemma AtBit(bm: Bitmap, u: nat)
    ensures HasUid(bm, u) <==> Bit(At(bm, u / BITS_PER_BYTE), u % BITS_PER_BYTE)
  {
    ZeroBit(u % BITS_PER_BYTE);
  }

  lemma AndAt(a: Bitmap, b: Bitmap, c: Bitmap, i: nat)
    ensures At(And3(a, b, c), i) == AndByte(At(a, i), At(b, i), At(c, i))
  {
  }

  lemma XorAt(a: Bitmap, b: Bitmap, i: nat)
    ensures At(Xor(a, b), i) == At(a, i) ^ At(b, i)
  {
  }

  /** BITOP AND intersects the uid sets, whatever the lengths of the three strings. */
  lemma AndIntersects(a: Bitmap, b: Bitmap, c: Bitmap, u: nat)
    ensures HasUid(And3(a, b, c), u) <==> HasUid(a, u) && HasUid(b, u) && HasUid(c, u)
  {
    hide Bit, At, And3, HasUid, AndByte, Mask;
    var i, j := u / BITS_PER_BYTE, u % BITS_PER_BYTE;
    AtBit(a, u);
    AtBit(b, u);
    AtBit(c, u);
    AtBit(And3(a, b, c), u);
    AndAt(a, b, c, i);
    AndByteBit(At(a, i), At(b, i), At(c, i), j);
  }

  /** BITOP XOR keeps the uids that are in exactly one of the two sets. */
  lemma XorDiffers(a: Bitmap, b: Bitmap, u: nat)
    ensures HasUid(Xor(a, b), u) <==> HasUid(a, u) != HasUid(b, u)
  {
    hide Bit, At, Xor, HasUid;
    var i, j := u / BITS_PER_BYTE, u % BITS_PER_BYTE;
    AtBit(a, u);
    AtBit(b, u);
    AtBit(Xor(a, b), u);
    XorAt(a, b, i);
    XorBit(At(a, i), At(b, i), j);
  }

  // ---------- BITCOUNT ----------

  /** Set bits among the first m of a byte. */
  function CountBits(b: bv8, m: nat): nat
    requires m <= BITS_PER_BYTE
  {
    if m == 0 then 0 else CountBits(b, m - 1) + if Bit(b, m - 1) then 1 else 0
  }

  function PopCount(bm: Bitmap): nat {
    if bm == [] then 0
    else PopCount(bm[..|bm| - 1]) + CountBits(bm[|bm| - 1], BITS_PER_BYTE)
  }

  /** The uids the first m bits of byte k stand for. */
  function ByteUids(k: nat, b: bv8, m: nat): set<nat>
    requires m <= BITS_PER_BYTE
  {
    set u: nat | u < BITS_PER_BYTE * k + m && InByte(k, b, u)
  }

  predicate InByte(k: nat, b: bv8, u: nat) {
    u / BITS_PER_BYTE == k && Bit(b, u % BITS_PER_BYTE)
  }

  lemma {:induction false} CountBitsIsSize(k: nat, b: bv8, m: nat)
    requires m <= BITS_PER_BYTE
    ensures |ByteUids(k, b, m)| == CountBits(b, m)
  {
    hide Bit;
    if m == 0 {
      assert ByteUids(k, b, 0) == {};
    } else {
      CountBitsIsSize(k, b, m - 1);
      var u := BITS_PER_BYTE * k + (m - 1);
      assert u / BITS_PER_BYTE == k && u % BITS_PER_BYTE == m - 1;
      if Bit(b, m - 1) {
        assert ByteUids(k, b, m) == ByteUids(k, b, m - 1) + {u};
      } else {
        assert ByteUids(k, b, m) == ByteUids(k, b, m - 1);
      }
    }
  }

  /** BITCOUNT is the number of uids the bitmap holds. */
  lemma {:induction false} PopCountIsSize(bm: Bitmap)
    ensures PopCount(bm) == |UidSet(bm)|
  {
    hide Bit, CountBits;
    if bm == [] {
      assert UidSet(bm) == {};
    } else {
      var k := |bm| - 1;
      PopCountIsSize(bm[..k]);
      CountBitsIsSize(k, bm[k], BITS_PER_BYTE);
      LastByteUids(bm);
    }
  }

  lemma LastByteUids(bm: Bitmap)
    requires bm != []
    ensures UidSet(bm) == UidSet(bm[..|bm| - 1]) + ByteUids(|bm| - 1, bm[|bm| - 1], BITS_PER_BYTE)
    ensures UidSet(bm[..|bm| - 1]) !! ByteUids(|bm| - 1, bm[|bm| - 1], BITS_PER_BYTE)
  {
    hide Bit;
    var k := |bm| - 1;
    forall u: nat ensures u in UidSet(bm) <==> u in UidSet(bm[..k]) || u in ByteUids(k, bm[k], BITS_PER_BYTE) {
      var i := u / BITS_PER_BYTE;
      assert u < BITS_PER_BYTE * |bm| <==> i < |bm|;
      assert u < BITS_PER_BYTE * k <==> i < k;
    }
  }

  /** The count the update program compares: how many uids the old and the new set do not
      have in common. */
  lemma DiffCount(a: Bitmap, b: Bitmap)
    ensures PopCount(Xor(a, b)) == |(UidSet(a) - UidSet(b)) + (UidSet(b) - UidSet(a))|
  {
    PopCountIsSize(Xor(a, b));
    forall u: nat ensures u in UidSet(Xor(a, b)) <==> u in (UidSet(a) - UidSet(b)) + (UidSet(b) - UidSet(a)) {
      XorDiffers(a, b, u);
      InUidSet(a, u);
      InUidSet(b, u);
      InUidSet(Xor(a, b), u);
    }
    assert UidSet(Xor(a, b)) == (UidSet(a) - UidSet(b)) + (UidSet(b) - UidSet(a));
  }

  lemma InUidSet(bm: Bitmap, u: nat)
    ensures u in UidSet(bm) <==> HasUid(bm, u)
  {
  }
}
