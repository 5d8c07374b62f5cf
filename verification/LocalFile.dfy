/** One call at a time on the state file: reading, writing and comparing-and-exchanging its bytes. */
module LocalFile {
  import opened Common
  import opened DurableCodec
  import DurableStore

  /** `write_file`'s buffer, appended piece by piece with the checksum over everything before it. */
  method EncodeBuffer(value: DurableValue, checksum: Checksum) returns (bytes: seq<Byte>)
    requires Representable(value)
    ensures |bytes| <= U64_MAX && Decode(bytes, checksum) == Ok(value)
    ensures bytes == Encode(value, checksum)
  {
    bytes := MAGIC;
    bytes := bytes + ToLittleEndian(value.revision, 8);
    bytes := bytes + ToLittleEndian(|value.payload|, 8);
    bytes := bytes + value.payload;
    bytes := bytes + checksum(bytes);
    DecodeEncode(value, checksum);
  }

  class StateFile {
    const checksum: Checksum
    var bytes: Option<seq<Byte>>

    /** What the file holds: nothing, a value, or bytes that do not decode. */
    function Contents(): Result<Option<DurableValue>, DecodeError>
      reads this
    {
      DurableStore.ReadFile(if bytes.None? then None else Some(DurableStore.File(bytes.value, true)), checksum)
    }

    constructor (checksum: Checksum)
      ensures Contents() == Ok(None) && this.checksum == checksum
    {
      this.checksum := checksum;
      bytes := None;
    }

    /** Finds a value exactly in a file that is its complete encoding, and none exactly in a missing file;
        every other file is rejected. */
    method Read() returns (found: Result<Option<DurableValue>, DecodeError>)
      ensures found == Contents()
      ensures found == Ok(None) <==> bytes.None?
      ensures forall v :: Representable(v) ==> (found == Ok(Some(v)) <==> bytes == Some(Encode(v, checksum)))
      ensures found.Ok? && found.value.Some? ==> Representable(found.value.value)
    {
      forall v | Representable(v)
        ensures bytes == Some(Encode(v, checksum)) ==> Contents() == Ok(Some(v))
      {
        DecodeEncode(v, checksum);
      }
      if bytes.Some? && |bytes.value| <= U64_MAX && Decode(bytes.value, checksum).Ok? {
        EncodeDecode(bytes.value, checksum);
      }
      found := DurableStore.ReadFile(if bytes.None? then None else Some(DurableStore.File(bytes.value, true)), checksum);
    }

    /** Applies exactly when the file is readable, the expected revision is the stored one and it has a
        successor; then the file holds the next revision with the new payload. In every other case, a
        corrupt file included, it is left as it was. */
    method CompareExchange(expected: Option<nat>, payload: seq<Byte>) returns (outcome: DurableStore.Outcome)
      requires DurableStore.Fits(DurableStore.CompareExchange(expected, payload))
      modifies this
      ensures old(Contents()).Err? ==> outcome == DurableStore.Failed
      ensures old(Contents()).Ok? && DurableStore.RevisionOf(old(Contents()).value) != expected ==>
                outcome == DurableStore.Conflict(old(Contents()).value)
      ensures old(Contents()).Ok? && DurableStore.RevisionOf(old(Contents()).value) == expected == Some(U64_MAX) ==>
                outcome == DurableStore.Failed
      ensures outcome.Applied? <==>
                && old(Contents()).Ok?
                && DurableStore.RevisionOf(old(Contents()).value) == expected && expected != Some(U64_MAX)
      ensures outcome.Applied? ==>
                && Contents() == Ok(Some(outcome.applied)) && outcome.applied.payload == payload
                && outcome.applied.revision == if expected.Some? then expected.value + 1 else 0
      ensures !outcome.Applied? ==> bytes == old(bytes)
    {
      var found := Read();
      if found.Err? {
        return DurableStore.Failed;
      }
      var current := found.value;
      var revision := if current.Some? then Some(current.value.revision) else None;
      if revision != expected {
        return DurableStore.Conflict(current);
      }
      if expected == Some(U64_MAX) {
        return DurableStore.Failed;
      }
      var next := DurableValue(if expected.Some? then expected.value + 1 else 0, payload);
      var buffer := EncodeBuffer(next, checksum);
      bytes := Some(buffer);
      outcome := DurableStore.Applied(next);
    }
  }
}
