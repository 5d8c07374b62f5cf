/**
  The on-disk form of a durable value: magic, revision, payload length, payload, checksum.

  The checksum is an arbitrary fixed function to sixteen bytes; nothing here depends on which.
 */
module DurableCodec {
  import opened Common

  type Digest = s: seq<Byte> | |s| == 16 witness [0, 0, 0, 0, 0, 0, 0, 0, 0, 0, 0, 0, 0, 0, 0, 0]

  type Checksum = seq<Byte> -> Digest

  datatype DurableValue = DurableValue(revision: nat, payload: seq<Byte>)

  datatype DecodeError = InvalidHeader | LengthOverflow | InvalidLength | ChecksumMismatch

  /** `TRFDUR02` in ASCII. */
  const MAGIC: seq<Byte> := [0x54, 0x52, 0x46, 0x44, 0x55, 0x52, 0x30, 0x32]

  /** The length of magic, revision and payload length. */
  const HEADER: nat := 24

  const CHECKSUM_BYTES: nat := 16

  /** `u64::to_le_bytes`, for any width. */
  function ToLittleEndian(n: nat, width: nat): (bytes: seq<Byte>)
    ensures |bytes| == width
  {
    if width == 0 then [] else [n % 256] + ToLittleEndian(n / 256, width - 1)
  }

  /** `u64::from_le_bytes`. */
  function FromLittleEndian(bytes: seq<Byte>): nat {
    if bytes == [] then 0 else bytes[0] + 256 * FromLittleEndian(bytes[1..])
  }

  function Pow256(width: nat): nat {
    if width == 0 then 1 else 256 * Pow256(width - 1)
  }

  lemma WordSize()
    ensures Pow256(8) == U64_MAX + 1
  {
    assert Pow256(4) == 0x1_0000_0000;
    assert Pow256(8) == 256 * 256 * 256 * 256 * Pow256(4);
  }

  lemma {:induction false} FromToLittleEndian(n: nat, width: nat)
    requires n < Pow256(width)
    ensures FromLittleEndian(ToLittleEndian(n, width)) == n
  {
    if width > 0 {
      FromToLittleEndian(n / 256, width - 1);
      assert ToLittleEndian(n, width)[1..] == ToLittleEndian(n / 256, width - 1);
    }
  }

  lemma {:induction false} ToFromLittleEndian(bytes: seq<Byte>)
    ensures FromLittleEndian(bytes) < Pow256(|bytes|)
    ensures ToLittleEndian(FromLittleEndian(bytes), |bytes|) == bytes
  {
    if bytes != [] {
      ToFromLittleEndian(bytes[1..]);
      LowByte(bytes[0], FromLittleEndian(bytes[1..]));
      assert bytes == [bytes[0]] + bytes[1..];
    }
  }

  lemma LowByte(low: Byte, rest: nat)
    ensures (low + 256 * rest) % 256 == low && (low + 256 * rest) / 256 == rest
  {
  }

  /** A value that a process can hold together with its frame. */
  predicate Representable(v: DurableValue) {
    v.revision <= U64_MAX && HEADER + |v.payload| + CHECKSUM_BYTES <= U64_MAX
  }

  /** Everything the checksum covers. */
  function Body(v: DurableValue): seq<Byte> {
    MAGIC + ToLittleEndian(v.revision, 8) + ToLittleEndian(|v.payload|, 8) + v.payload
  }

  /** What `write_file` writes. */
  function Encode(v: DurableValue, checksum: Checksum): seq<Byte> {
    Body(v) + checksum(Body(v))
  }

  /** The length test accepts exactly the right length: wrapping cannot let another one through. */
  lemma LengthTestIsExact(length: nat, payloadEnd: nat)
    requires HEADER + CHECKSUM_BYTES <= length <= U64_MAX && payloadEnd <= U64_MAX
    ensures (payloadEnd + CHECKSUM_BYTES) % (U64_MAX + 1) == length <==> payloadEnd + CHECKSUM_BYTES == length
  {
    if payloadEnd + CHECKSUM_BYTES > U64_MAX {
      assert (payloadEnd + CHECKSUM_BYTES) % (U64_MAX + 1) == payloadEnd + CHECKSUM_BYTES - (U64_MAX + 1) < CHECKSUM_BYTES;
    }
  }

  /** `read_file` on the bytes of a file. The sum in the length test wraps like the source's. */
  function Decode(bytes: seq<Byte>, checksum: Checksum): Result<DurableValue, DecodeError>
    requires |bytes| <= U64_MAX
  {
    if |bytes| < HEADER + CHECKSUM_BYTES || bytes[..8] != MAGIC then Err(InvalidHeader)
    else
      var payloadLength := FromLittleEndian(bytes[16..24]);
      var payloadEnd := HEADER + payloadLength;
      if payloadEnd > U64_MAX then Err(LengthOverflow)
      else if (payloadEnd + CHECKSUM_BYTES) % (U64_MAX + 1) != |bytes| then Err(InvalidLength)
      else
        LengthTestIsExact(|bytes|, payloadEnd);
        if checksum(bytes[..payloadEnd]) != bytes[payloadEnd..] then Err(ChecksumMismatch)
        else Ok(DurableValue(FromLittleEndian(bytes[8..16]), bytes[24..payloadEnd]))
  }

  lemma BodySlices(v: DurableValue)
    ensures |Body(v)| == HEADER + |v.payload|
    ensures Body(v)[..8] == MAGIC
    ensures Body(v)[8..16] == ToLittleEndian(v.revision, 8)
    ensures Body(v)[16..24] == ToLittleEndian(|v.payload|, 8)
    ensures Body(v)[24..] == v.payload
  {
  }

  /** The slices `Decode` takes, for any body of at least header size and any checksum bytes. */
  lemma FrameSlices(body: seq<Byte>, check: Digest)
    requires HEADER <= |body|
    ensures (body + check)[..8] == body[..8]
    ensures (body + check)[8..16] == body[8..16]
    ensures (body + check)[16..24] == body[16..24]
    ensures (body + check)[..|body|] == body
    ensures (body + check)[|body|..] == check
    ensures (body + check)[24..|body|] == body[24..]
  {
  }

  /** Reading back what was written returns the value. */
  lemma DecodeEncode(v: DurableValue, checksum: Checksum)
    requires Representable(v)
    ensures |Encode(v, checksum)| <= U64_MAX && Decode(Encode(v, checksum), checksum) == Ok(v)
  {
    BodySlices(v);
    FrameSlices(Body(v), checksum(Body(v)));
    WordSize();
    FromToLittleEndian(v.revision, 8);
    FromToLittleEndian(|v.payload|, 8);
    LengthTestIsExact(|Encode(v, checksum)|, HEADER + |v.payload|);
  }

  lemma Fields(bytes: seq<Byte>, end: nat)
    requires HEADER <= end <= |bytes|
    ensures bytes[..8] + bytes[8..16] + bytes[16..24] + bytes[24..end] == bytes[..end]
    ensures bytes[..end] + bytes[end..] == bytes
  {
  }

  /** The format is canonical: a byte string is accepted only if it is exactly what would be written
      for the value it yields, and that value is representable. */
  lemma EncodeDecode(bytes: seq<Byte>, checksum: Checksum)
    requires |bytes| <= U64_MAX && Decode(bytes, checksum).Ok?
    ensures Representable(Decode(bytes, checksum).value)
    ensures Encode(Decode(bytes, checksum).value, checksum) == bytes
  {
    var end := HEADER + FromLittleEndian(bytes[16..24]);
    LengthTestIsExact(|bytes|, end);
    WordSize();
    ToFromLittleEndian(bytes[8..16]);
    ToFromLittleEndian(bytes[16..24]);
    Fields(bytes, end);
  }

  /** A file is accepted exactly if it is the complete encoding of some representable value: a strict
      prefix, or any string of another length, never is. */
  lemma AcceptedIffWritten(bytes: seq<Byte>, checksum: Checksum)
    requires |bytes| <= U64_MAX
    ensures Decode(bytes, checksum).Ok? <==> exists v :: Representable(v) && bytes == Encode(v, checksum)
  {
    if Decode(bytes, checksum).Ok? {
      EncodeDecode(bytes, checksum);
    }
    if v :| Representable(v) && bytes == Encode(v, checksum) {
      DecodeEncode(v, checksum);
    }
  }

  /** Two values never share an encoding. */
  lemma EncodeIsInjective(v: DurableValue, w: DurableValue, checksum: Checksum)
    requires Representable(v) && Representable(w) && Encode(v, checksum) == Encode(w, checksum)
    ensures v == w
  {
    DecodeEncode(v, checksum);
    DecodeEncode(w, checksum);
  }
}
