/** MurmurHash3 x64 128: the words, constants and mixing steps, and the seeded incremental interface. */
module Murmur3 {
  import opened Common
  import opened BlockHash

  const C1: bv64 := 0x87C37B91114253D5
  const C2: bv64 := 0x4CF5AD432745937F

  function Xor(x: bv64, y: bv64): bv64 {
    x ^ y
  }

  function Or(x: bv64, y: bv64): bv64 {
    x | y
  }

  function ShiftByte(x: bv64): bv64 {
    x << 8
  }

  function OfByte(b: Byte): bv64 {
    (b as bv8) as bv64
  }

  function Fmix64(value: bv64): bv64 {
    var a := (value ^ (value >> 33)) * 0xFF51AFD7ED558CCD;
    var b := (a ^ (a >> 33)) * 0xC4CEB9FE1A85EC53;
    b ^ (b >> 33)
  }

  function Scramble1(k1: bv64): bv64 {
    (k1 * C1).RotateLeft(31) * C2
  }

  function Scramble2(k2: bv64): bv64 {
    (k2 * C2).RotateLeft(33) * C1
  }

  /** `_mix_block`: the second half sees the first half's new value. */
  function Mix(h: Hash<bv64>, k1: bv64, k2: bv64): Hash<bv64> {
    var h1 := ((h.h1 ^ Scramble1(k1)).RotateLeft(27) + h.h2) * 5 + 0x52DCE729;
    var h2 := ((h.h2 ^ Scramble2(k2)).RotateLeft(31) + h1) * 5 + 0x38495AB5;
    Hash(h1, h2)
  }

  /** The length, as a word, mixed into both halves, and the final avalanche. */
  function Finish(h: Hash<bv64>, length: nat): Hash<bv64> {
    var n := (length % 0x1_0000_0000_0000_0000) as bv64;
    var a1 := (h.h1 ^ n) + (h.h2 ^ n);
    var a2 := (h.h2 ^ n) + a1;
    var b1 := Fmix64(a1) + Fmix64(a2);
    Hash(b1, Fmix64(a2) + b1)
  }

  const MURMUR3: Words<bv64> := Words(0, Xor, Or, ShiftByte, OfByte, Scramble1, Scramble2, Mix, Finish)

  lemma XorZero(x: bv64)
    ensures Xor(x, 0) == x
  {
  }

  lemma ShiftXor(x: bv64, y: bv64)
    ensures ShiftByte(Xor(x, y)) == Xor(ShiftByte(x), ShiftByte(y))
  {
  }

  lemma JoinByte(b: bv8, x: bv64)
    ensures (b as bv64) | (x << 8) == (x << 8) ^ (b as bv64)
  {
  }

  lemma ScrambleZero()
    ensures Scramble1(0) == 0 && Scramble2(0) == 0
  {
  }

  /** The 64-bit words obey the laws that the streaming and the reference tail rule rest on. */
  lemma Murmur3IsLawful()
    ensures Lawful(MURMUR3)
  {
    forall x: bv64
      ensures MURMUR3.xor(x, MURMUR3.zero) == x
    {
      XorZero(x);
    }
    forall x: bv64, y: bv64
      ensures MURMUR3.shiftByte(MURMUR3.xor(x, y)) == MURMUR3.xor(MURMUR3.shiftByte(x), MURMUR3.shiftByte(y))
    {
      ShiftXor(x, y);
    }
    forall b: Byte, x: bv64
      ensures MURMUR3.or(MURMUR3.ofByte(b), MURMUR3.shiftByte(x)) == MURMUR3.xor(MURMUR3.shiftByte(x), MURMUR3.ofByte(b))
    {
      JoinByte(b as bv8, x);
    }
    ScrambleZero();
  }

  /** `digest_u128`'s last line: the second half above the first. */
  function U128(h: Hash<bv64>): bv128 {
    ((h.h2 as bv128) << 64) | (h.h1 as bv128)
  }

  /** A seeded incremental hash of a message in chunks: refused exactly for a seed outside 32 bits, and
      otherwise the reference hash of the whole message, whatever the chunks. */
  method HashMessage(seed: int, chunks: seq<Bytes>) returns (digest: Result<bv128, string>)
    ensures digest.Ok? <==> 0 <= seed <= 0xFFFF_FFFF
    ensures digest.Ok? ==> digest.value == U128(ReferenceDigest(MURMUR3, seed as bv64, Flatten(chunks)))
  {
    if !(0 <= seed <= 0xFFFF_FFFF) {
      return Err("Murmur3 seed must fit u32");
    }
    Murmur3IsLawful();
    var hash := HashChunks(MURMUR3, seed as bv64, chunks);
    return Ok(U128(hash));
  }
}
