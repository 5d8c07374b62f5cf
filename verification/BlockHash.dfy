/**
  Streaming block hashing over any word type, against a one-shot reference.

  The words and their operations are a parameter, so that what is proved about buffering and tails
  does not depend on the constants of one hash function. `Murmur3` supplies the 64-bit words.
 */
module BlockHash {
  import opened Common

  type Bytes = seq<Byte>

  datatype Hash<W> = Hash(h1: W, h2: W)

  /** What the hash does with words: assemble them from bytes, scramble each half, mix a block, finish. */
  datatype Words<!W> = Words(
    zero: W,
    xor: (W, W) -> W,
    or: (W, W) -> W,
    shiftByte: W -> W,
    ofByte: Byte -> W,
    scramble1: W -> W,
    scramble2: W -> W,
    mix: (Hash<W>, W, W) -> Hash<W>,
    finish: (Hash<W>, nat) -> Hash<W>
  )

  /** The laws of bitwise words that the two tail rules rest on. */
  ghost predicate Lawful<W(!new)>(words: Words<W>) {
    && (forall x :: words.xor(x, words.zero) == x)
    && words.shiftByte(words.zero) == words.zero
    && (forall x, y :: words.shiftByte(words.xor(x, y)) == words.xor(words.shiftByte(x), words.shiftByte(y)))
    && (forall b, x :: words.or(words.ofByte(b), words.shiftByte(x)) == words.xor(words.shiftByte(x), words.ofByte(b)))
    && words.scramble1(words.zero) == words.zero
    && words.scramble2(words.zero) == words.zero
  }

  /** `int.from_bytes(bytes, "little")`. */
  function Word<W>(words: Words<W>, bytes: Bytes): W {
    if bytes == [] then words.zero
    else words.or(words.ofByte(bytes[0]), words.shiftByte(Word(words, bytes[1..])))
  }

  function MixBlock<W>(words: Words<W>, h: Hash<W>, block: Bytes): Hash<W>
    requires |block| == 16
  {
    words.mix(h, Word(words, block[..8]), Word(words, block[8..]))
  }

  /** The first `blocks` blocks of the data mixed in order. */
  function MixAll<W>(words: Words<W>, h: Hash<W>, data: Bytes, blocks: nat): Hash<W>
    requires 16 * blocks <= |data|
  {
    if blocks == 0 then h
    else MixBlock(words, MixAll(words, h, data, blocks - 1), data[16 * (blocks - 1)..16 * blocks])
  }

  // The reference: the whole message at once, tail bytes xored in at their own positions, and each
  // half mixed in exactly when the tail is long enough to reach it.

  function Place<W>(words: Words<W>, word: W, i: nat): W
    decreases i
  {
    if i == 0 then word else Place(words, words.shiftByte(word), i - 1)
  }

  /** The bytes from position `i` on, each shifted to its place and xored in. */
  function AssembleFrom<W>(words: Words<W>, bytes: Bytes, i: nat): W
    requires i <= |bytes|
    decreases |bytes| - i
  {
    if i == |bytes| then words.zero
    else words.xor(AssembleFrom(words, bytes, i + 1), Place(words, words.ofByte(bytes[i]), i))
  }

  function ReferenceTail<W>(words: Words<W>, h: Hash<W>, tail: Bytes): Hash<W>
    requires |tail| < 16
  {
    var h2 := if |tail| > 8 then words.xor(h.h2, words.scramble2(AssembleFrom(words, tail[8..], 0))) else h.h2;
    var h1 := if |tail| > 0 then words.xor(h.h1, words.scramble1(AssembleFrom(words, tail[..Min(8, |tail|)], 0))) else h.h1;
    Hash(h1, h2)
  }

  function ReferenceDigest<W>(words: Words<W>, seed: W, data: Bytes): Hash<W> {
    var blocks := |data| / 16;
    words.finish(ReferenceTail(words, MixAll(words, Hash(seed, seed), data, blocks), data[16 * blocks..]), |data|)
  }

  lemma {:induction false} PlaceXor<W(!new)>(words: Words<W>, x: W, y: W, i: nat)
    requires Lawful(words)
    ensures Place(words, words.xor(x, y), i) == words.xor(Place(words, x, i), Place(words, y, i))
    decreases i
  {
    if i > 0 {
      PlaceXor(words, words.shiftByte(x), words.shiftByte(y), i - 1);
    }
  }

  lemma {:induction false} PlaceZero<W(!new)>(words: Words<W>, i: nat)
    requires Lawful(words)
    ensures Place(words, words.zero, i) == words.zero
  {
    if i > 0 {
      PlaceZero(words, i - 1);
    }
  }

  /** The reference assembles the same word as reading the bytes in little-endian order. */
  lemma {:induction false} AssembledIsWord<W(!new)>(words: Words<W>, bytes: Bytes, i: nat)
    requires Lawful(words) && i <= |bytes|
    ensures AssembleFrom(words, bytes, i) == Place(words, Word(words, bytes[i..]), i)
    decreases |bytes| - i
  {
    if i == |bytes| {
      PlaceZero(words, i);
    } else {
      var rest := Word(words, bytes[i + 1..]);
      AssembledIsWord(words, bytes, i + 1);
      assert bytes[i..][1..] == bytes[i + 1..];
      assert Word(words, bytes[i..]) == words.xor(words.shiftByte(rest), words.ofByte(bytes[i]));
      PlaceXor(words, words.shiftByte(rest), words.ofByte(bytes[i]), i);
      assert Place(words, rest, i + 1) == Place(words, words.shiftByte(rest), i);
    }
  }

  /** The streaming rule: a half is mixed in only if its word is not zero. */
  function StreamingTail<W(==)>(words: Words<W>, h: Hash<W>, tail: Bytes): Hash<W>
    requires |tail| < 16
  {
    var k1, k2 := Word(words, tail[..Min(8, |tail|)]), Word(words, tail[Min(8, |tail|)..]);
    Hash(if k1 != words.zero then words.xor(h.h1, words.scramble1(k1)) else h.h1,
         if k2 != words.zero then words.xor(h.h2, words.scramble2(k2)) else h.h2)
  }

  /** Skipping the halves that are zero gives exactly the reference's length-driven result. */
  lemma TailRulesAgree<W(!new)>(words: Words<W>, h: Hash<W>, tail: Bytes)
    requires Lawful(words) && |tail| < 16
    ensures StreamingTail(words, h, tail) == ReferenceTail(words, h, tail)
  {
    var low, high := tail[..Min(8, |tail|)], tail[Min(8, |tail|)..];
    AssembledIsWord(words, low, 0);
    AssembledIsWord(words, high, 0);
    assert low[0..] == low && high[0..] == high;
    assert |tail| == 0 ==> low == [];
    assert |tail| <= 8 ==> high == [];
  }

  /** The hash is the fold over the whole blocks of the data, and the tail is what is left of it. */
  ghost predicate Buffers<W(!new)>(words: Words<W>, seed: W, hash: Hash<W>, tail: Bytes, data: Bytes, blocks: nat) {
    && |tail| < 16 && |data| == 16 * blocks + |tail|
    && tail == data[16 * blocks..]
    && hash == MixAll(words, Hash(seed, seed), data, blocks)
  }

  lemma {:induction false} MixAllOfPrefix<W>(words: Words<W>, h: Hash<W>, data: Bytes, more: Bytes, blocks: nat)
    requires 16 * blocks <= |data|
    ensures MixAll(words, h, data + more, blocks) == MixAll(words, h, data, blocks)
  {
    if blocks > 0 {
      MixAllOfPrefix(words, h, data, more, blocks - 1);
      assert (data + more)[16 * (blocks - 1)..16 * blocks] == data[16 * (blocks - 1)..16 * blocks];
    }
  }

  /** Bytes that do not complete a block only lengthen the tail. */
  lemma BufferMore<W(!new)>(
    words: Words<W>, seed: W, hash: Hash<W>, tail: Bytes, data: Bytes, blocks: nat, more: Bytes)
    requires Buffers(words, seed, hash, tail, data, blocks) && |tail| + |more| < 16
    ensures Buffers(words, seed, hash, tail + more, data + more, blocks)
  {
    MixAllOfPrefix(words, Hash(seed, seed), data, more, blocks);
    assert (data + more)[16 * blocks..] == tail + more;
  }

  /** Bytes that complete a block let it be mixed in. */
  lemma BufferBlock<W(!new)>(
    words: Words<W>, seed: W, hash: Hash<W>, tail: Bytes, data: Bytes, blocks: nat, more: Bytes)
    requires Buffers(words, seed, hash, tail, data, blocks) && |tail| + |more| == 16
    ensures Buffers(words, seed, MixBlock(words, hash, tail + more), [], data + more, blocks + 1)
  {
    MixAllOfPrefix(words, Hash(seed, seed), data, more, blocks);
    assert (data + more)[16 * blocks..16 * (blocks + 1)] == tail + more;
  }

  lemma TakeMore(data: Bytes, view: Bytes, from: nat, to: nat)
    requires from <= to <= |view|
    ensures data + view[..from] + view[from..to] == data + view[..to]
    ensures view[..|view|] == view
  {
  }

  /** The incremental hasher. */
  class Hasher<W(==, !new)> {
    const words: Words<W>
    const seed: W
    var hash: Hash<W>
    var length: nat
    var tail: Bytes
    /** Everything absorbed so far. */
    ghost var absorbed: Bytes
    ghost var blocks: nat

    ghost predicate Valid()
      reads this
    {
      Buffers(words, seed, hash, tail, absorbed, blocks) && length == |absorbed|
    }

    constructor (words: Words<W>, seed: W)
      ensures Valid() && absorbed == [] && this.words == words && this.seed == seed
    {
      this.words, this.seed := words, seed;
      hash, length, tail := Hash(seed, seed), 0, [];
      absorbed, blocks := [], 0;
    }

    method Update(payload: Bytes)
      requires Valid()
      modifies this
      ensures Valid() && absorbed == old(absorbed) + payload
    {
      length := length + |payload|;
      if tail == [] {
        MixBlocks(payload);
      } else {
        var needed := Min(16 - |tail|, |payload|);
        TakeMore(absorbed, payload, needed, |payload|);
        FillTail(payload[..needed]);
        MixBlocks(payload[needed..|payload|]);
      }
    }

    /** Extends the buffered block, and mixes it in once it is complete. */
    method FillTail(head: Bytes)
      requires Buffers(words, seed, hash, tail, absorbed, blocks) && |tail| + |head| <= 16
      modifies `hash, `tail, `absorbed, `blocks
      ensures Buffers(words, seed, hash, tail, absorbed, blocks) && absorbed == old(absorbed) + head
      ensures |old(tail)| + |head| == 16 ==> tail == []
    {
      if |tail| + |head| == 16 {
        BufferBlock(words, seed, hash, tail, absorbed, blocks, head);
        hash, tail := MixBlock(words, hash, tail + head), [];
        blocks := blocks + 1;
      } else {
        BufferMore(words, seed, hash, tail, absorbed, blocks, head);
        tail := tail + head;
      }
      absorbed := absorbed + head;
    }

    /** Mixes the whole blocks of the view and buffers the rest. */
    method MixBlocks(view: Bytes)
      requires Buffers(words, seed, hash, tail, absorbed, blocks) && (view != [] ==> tail == [])
      modifies `hash, `tail, `absorbed, `blocks
      ensures Buffers(words, seed, hash, tail, absorbed, blocks) && absorbed == old(absorbed) + view
    {
      var offset := 0;
      while offset + 16 <= |view|
        invariant offset <= |view| && (view != [] ==> tail == [])
        invariant Buffers(words, seed, hash, tail, absorbed, blocks)
        invariant absorbed == old(absorbed) + view[..offset]
      {
        TakeMore(old(absorbed), view, offset, offset + 16);
        FillTail(view[offset..offset + 16]);
        offset := offset + 16;
      }
      TakeMore(old(absorbed), view, offset, |view|);
      FillTail(view[offset..|view|]);
    }

    method Digest() returns (digest: Hash<W>)
      requires Valid() && Lawful(words)
      ensures digest == ReferenceDigest(words, seed, absorbed)
    {
      var low, high := tail[..Min(8, |tail|)], tail[Min(8, |tail|)..];
      var k1, k2 := Word(words, low), Word(words, high);
      var h1, h2 := hash.h1, hash.h2;
      if k2 != words.zero {
        h2 := words.xor(h2, words.scramble2(k2));
      }
      if k1 != words.zero {
        h1 := words.xor(h1, words.scramble1(k1));
      }
      TailRulesAgree(words, hash, tail);
      assert |absorbed| / 16 == blocks;
      digest := words.finish(Hash(h1, h2), length);
    }
  }

  /** However a message is cut into chunks, hashing them one by one gives the reference hash of the whole. */
  method HashChunks<W(==, !new)>(words: Words<W>, seed: W, chunks: seq<Bytes>) returns (digest: Hash<W>)
    requires Lawful(words)
    ensures digest == ReferenceDigest(words, seed, Flatten(chunks))
  {
    var hasher := new Hasher(words, seed);
    for i := 0 to |chunks|
      invariant fresh(hasher) && hasher.Valid() && hasher.words == words && hasher.seed == seed
      invariant hasher.absorbed == Flatten(chunks[..i])
    {
      hasher.Update(chunks[i]);
      assert chunks[..i + 1][..i] == chunks[..i];
    }
    assert chunks[..|chunks|] == chunks;
    digest := hasher.Digest();
  }
}
