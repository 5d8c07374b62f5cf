/**
  The memory budget when its calls do not overlap: what each call does to the counters and the leases.

  A call that would wait returns without a reservation and changes nothing. `Memory` models the same
  calls one atomic operation at a time.
 */
module MemoryBudget {
  import opened Common
  import Memory

  /** A lease that is live, or one whose last owner has dropped it. */
  datatype Lease = Live(kind: Memory.Kind, bytes: nat) | Dropped

  datatype BudgetError = WrongKind | Overflow

  function Bytes(lease: Lease): int {
    if lease.Live? then lease.bytes else 0
  }

  function SourceBytes(lease: Lease): int {
    if lease.Live? && lease.kind != Memory.Transform then lease.bytes else 0
  }

  function TransformBytes(lease: Lease): int {
    if lease.Live? && lease.kind == Memory.Transform then lease.bytes else 0
  }

  function ProgressCount(lease: Lease): int {
    if lease.Live? && lease.kind == Memory.ProgressSource then 1 else 0
  }

  /** Every byte of a lease is source or transform. */
  lemma {:induction false} BytesSplit(leases: seq<Lease>)
    ensures Sum(leases, Bytes) == Sum(leases, SourceBytes) + Sum(leases, TransformBytes)
    ensures Sum(leases, SourceBytes) >= 0 && Sum(leases, TransformBytes) >= 0 && Sum(leases, ProgressCount) >= 0
  {
    if leases != [] {
      BytesSplit(leases[1..]);
    }
  }

  /** The counters are zero exactly when no lease is live, because every lease keeps a byte. */
  lemma ZeroIffNoneLive(leases: seq<Lease>)
    requires forall i :: 0 <= i < |leases| && leases[i].Live? ==> leases[i].bytes >= 1
    ensures Sum(leases, SourceBytes) + Sum(leases, TransformBytes) == 0 <==>
            forall i :: 0 <= i < |leases| ==> leases[i].Dropped?
  {
    BytesSplit(leases);
    SumZero(leases, Bytes);
  }

  lemma Appended(leases: seq<Lease>, lease: Lease)
    ensures Sum(leases + [lease], SourceBytes) == Sum(leases, SourceBytes) + SourceBytes(lease)
    ensures Sum(leases + [lease], TransformBytes) == Sum(leases, TransformBytes) + TransformBytes(lease)
    ensures Sum(leases + [lease], ProgressCount) == Sum(leases, ProgressCount) + ProgressCount(lease)
  {
    SumAppend(leases, lease, SourceBytes);
    SumAppend(leases, lease, TransformBytes);
    SumAppend(leases, lease, ProgressCount);
  }

  lemma Replaced(leases: seq<Lease>, i: nat, lease: Lease)
    requires i < |leases|
    ensures Sum(leases[i := lease], SourceBytes) == Sum(leases, SourceBytes) - SourceBytes(leases[i]) + SourceBytes(lease)
    ensures Sum(leases[i := lease], TransformBytes) == Sum(leases, TransformBytes) - TransformBytes(leases[i]) + TransformBytes(lease)
    ensures Sum(leases[i := lease], ProgressCount) == Sum(leases, ProgressCount) - ProgressCount(leases[i]) + ProgressCount(lease)
    ensures SourceBytes(leases[i]) <= Sum(leases, SourceBytes)
    ensures TransformBytes(leases[i]) <= Sum(leases, TransformBytes)
  {
    SumUpdate(leases, i, lease, SourceBytes);
    SumUpdate(leases, i, lease, TransformBytes);
    SumUpdate(leases, i, lease, ProgressCount);
    SumAtLeast(leases, i, SourceBytes);
    SumAtLeast(leases, i, TransformBytes);
  }

  class Budget {
    const limit: nat
    var used: nat
    var sourceUsed: nat
    var transformUsed: nat
    var progressSourceActive: bool
    /** The estimate of the running transform, or zero. */
    var activeTransform: nat
    /** The leases handed out, by handle. */
    var leases: seq<Lease>

    /** Each counter is the sum of its live leases, `used` is all of them and the running transform, every
        lease keeps a byte, and at most one progress-source lease is live. */
    ghost predicate Valid()
      reads this
    {
      && used == sourceUsed + transformUsed + activeTransform <= U64_MAX
      && sourceUsed == Sum(leases, SourceBytes)
      && transformUsed == Sum(leases, TransformBytes)
      && Sum(leases, ProgressCount) == (if progressSourceActive then 1 else 0)
      && forall i :: 0 <= i < |leases| && leases[i].Live? ==> leases[i].bytes >= 1
    }

    constructor (limit: nat)
      ensures Valid() && this.limit == limit && leases == [] && activeTransform == 0
    {
      this.limit := limit;
      used, sourceUsed, transformUsed, activeTransform := 0, 0, 0, 0;
      progressSourceActive, leases := false, [];
    }

    /** `reserve`: admitted exactly if it fits, or is oversized and the budget is empty. */
    method TryReserve(bytes: nat) returns (handle: Option<nat>)
      requires Valid() && limit <= U64_MAX && bytes <= U64_MAX
      modifies this
      ensures Valid() && activeTransform == old(activeTransform)
      ensures handle.Some? <==> Memory.Fits(Max(1, bytes), old(used), limit)
      ensures handle.Some? ==> handle.value == |old(leases)| && leases == old(leases) + [Live(Memory.Source, Max(1, bytes))]
      ensures handle.None? ==> leases == old(leases)
    {
      var size := Max(1, bytes);
      if !Memory.Fits(size, used, limit) {
        return None;
      }
      Appended(leases, Live(Memory.Source, size));
      used := SaturatingAdd(used, size);
      sourceUsed := sourceUsed + size;
      leases := leases + [Live(Memory.Source, size)];
      return Some(|leases| - 1);
    }

    /** `reserve_progress_source`: one at a time, whatever the limit. */
    method TryReserveProgressSource(bytes: nat) returns (handle: Option<nat>)
      requires Valid() && (!progressSourceActive ==> used + Max(1, bytes) <= U64_MAX)
      modifies this
      ensures Valid() && activeTransform == old(activeTransform)
      ensures handle.Some? <==> !old(progressSourceActive)
      ensures handle.Some? ==>
                handle.value == |old(leases)| && leases == old(leases) + [Live(Memory.ProgressSource, Max(1, bytes))]
      ensures handle.None? ==> leases == old(leases)
    {
      var size := Max(1, bytes);
      if progressSourceActive {
        return None;
      }
      Appended(leases, Live(Memory.ProgressSource, size));
      progressSourceActive := true;
      used, sourceUsed := used + size, sourceUsed + size;
      leases := leases + [Live(Memory.ProgressSource, size)];
      return Some(|leases| - 1);
    }

    /** `reserve_transform`: always admitted. */
    method ReserveTransform(bytes: nat) returns (handle: nat)
      requires Valid() && used + Max(1, bytes) <= U64_MAX
      modifies this
      ensures Valid() && activeTransform == old(activeTransform)
      ensures handle == |old(leases)| && leases == old(leases) + [Live(Memory.Transform, Max(1, bytes))]
    {
      var size := Max(1, bytes);
      Appended(leases, Live(Memory.Transform, size));
      used, transformUsed := used + size, transformUsed + size;
      leases := leases + [Live(Memory.Transform, size)];
      return |leases| - 1;
    }

    /** `admit_active_transform`: one at a time, and only while retained output is below the limit. */
    method TryAdmitActiveTransform(bytes: nat) returns (admitted: bool)
      requires Valid() && (transformUsed < limit && activeTransform == 0 ==> used + Max(1, bytes) <= U64_MAX)
      modifies this
      ensures Valid() && leases == old(leases)
      ensures admitted <==> old(transformUsed) < limit && old(activeTransform) == 0
      ensures activeTransform == if admitted then Max(1, bytes) else old(activeTransform)
    {
      if transformUsed >= limit || activeTransform != 0 {
        return false;
      }
      activeTransform := Max(1, bytes);
      used := used + activeTransform;
      return true;
    }

    /** `ActiveTransformReservation::finish`: the estimate becomes a lease of the exact size. */
    method FinishActiveTransform(bytes: nat) returns (handle: nat)
      requires Valid() && activeTransform > 0 && used - activeTransform + Max(1, bytes) <= U64_MAX
      modifies this
      ensures Valid() && activeTransform == 0
      ensures handle == |old(leases)| && leases == old(leases) + [Live(Memory.Transform, Max(1, bytes))]
    {
      var size := Max(1, bytes);
      Appended(leases, Live(Memory.Transform, size));
      BytesSplit(leases);
      if size >= activeTransform {
        used := used + (size - activeTransform);
      } else {
        used := used - (activeTransform - size);
      }
      transformUsed := transformUsed + size;
      activeTransform := 0;
      leases := leases + [Live(Memory.Transform, size)];
      return |leases| - 1;
    }

    /** Dropping an unfinished active transform. */
    method AbandonActiveTransform()
      requires Valid() && activeTransform > 0
      modifies this
      ensures Valid() && activeTransform == 0 && leases == old(leases)
    {
      used := used - activeTransform;
      activeTransform := 0;
    }

    /** `grow_progress_source_to`: only ever grows, and fails without effect if the total would overflow.
        The source total then cannot overflow either, so the second test of the source never fails. */
    method GrowProgressSource(handle: nat, bytes: nat) returns (r: Result<(), BudgetError>)
      requires Valid() && handle < |leases| && leases[handle].Live?
      modifies this
      ensures Valid() && activeTransform == old(activeTransform)
      ensures r == Err(WrongKind) <==> old(leases[handle]).kind != Memory.ProgressSource
      ensures r == Err(Overflow) <==>
                && old(leases[handle]).kind == Memory.ProgressSource
                && Max(1, bytes) > old(leases[handle]).bytes
                && old(used) + Max(1, bytes) - old(leases[handle]).bytes > U64_MAX
      ensures r.Err? ==> leases == old(leases)
      ensures r.Ok? ==>
                leases == old(leases)[handle := Live(Memory.ProgressSource, Max(Max(1, bytes), old(leases[handle]).bytes))]
    {
      var lease := leases[handle];
      if lease.kind != Memory.ProgressSource {
        return Err(WrongKind);
      }
      var size := Max(1, bytes);
      if size <= lease.bytes {
        assert leases[handle := lease] == leases;
        return Ok(());
      }
      var added := size - lease.bytes;
      if used + added > U64_MAX {
        return Err(Overflow);
      }
      Replaced(leases, handle, Live(Memory.ProgressSource, size));
      assert sourceUsed + added <= U64_MAX;
      used, sourceUsed := used + added, sourceUsed + added;
      leases := leases[handle := Live(Memory.ProgressSource, size)];
      return Ok(());
    }

    /** `reserve_source_companion`: an independent source lease, again only from a progress-source lease. */
    method ReserveSourceCompanion(handle: nat, bytes: nat) returns (r: Result<nat, BudgetError>)
      requires Valid() && handle < |leases| && leases[handle].Live?
      modifies this
      ensures Valid() && activeTransform == old(activeTransform)
      ensures r == Err(WrongKind) <==> old(leases[handle]).kind != Memory.ProgressSource
      ensures r == Err(Overflow) <==>
                old(leases[handle]).kind == Memory.ProgressSource && old(used) + Max(1, bytes) > U64_MAX
      ensures r.Err? ==> leases == old(leases)
      ensures r.Ok? ==> r.value == |old(leases)| && leases == old(leases) + [Live(Memory.Source, Max(1, bytes))]
    {
      if leases[handle].kind != Memory.ProgressSource {
        return Err(WrongKind);
      }
      var size := Max(1, bytes);
      if used + size > U64_MAX {
        return Err(Overflow);
      }
      Appended(leases, Live(Memory.Source, size));
      assert sourceUsed + size <= U64_MAX;
      used, sourceUsed := used + size, sourceUsed + size;
      leases := leases + [Live(Memory.Source, size)];
      return Ok(|leases| - 1);
    }

    /** `shrink_to`: only ever shrinks, and leaves at least one byte. */
    method ShrinkTo(handle: nat, bytes: nat) returns (reduced: bool)
      requires Valid() && handle < |leases| && leases[handle].Live?
      modifies this
      ensures Valid() && activeTransform == old(activeTransform)
      ensures reduced <==> Max(1, bytes) < old(leases[handle]).bytes
      ensures leases == old(leases)[handle := Live(old(leases[handle]).kind, Min(Max(1, bytes), old(leases[handle]).bytes))]
    {
      var lease, size := leases[handle], Max(1, bytes);
      if size >= lease.bytes {
        assert leases[handle := lease] == leases;
        return false;
      }
      Replaced(leases, handle, Live(lease.kind, size));
      var released := lease.bytes - size;
      leases := leases[handle := Live(lease.kind, size)];
      used := used - released;
      if lease.kind == Memory.Transform {
        transformUsed := transformUsed - released;
      } else {
        sourceUsed := sourceUsed - released;
      }
      return true;
    }

    /** The last owner of a lease drops it. */
    method Drop(handle: nat)
      requires Valid() && handle < |leases| && leases[handle].Live?
      modifies this
      ensures Valid() && activeTransform == old(activeTransform)
      ensures leases == old(leases)[handle := Dropped]
    {
      var lease := leases[handle];
      Replaced(leases, handle, Dropped);
      BytesSplit(leases[handle := Dropped]);
      leases := leases[handle := Dropped];
      used := used - lease.bytes;
      if lease.kind == Memory.Transform {
        transformUsed := transformUsed - lease.bytes;
      } else {
        sourceUsed := sourceUsed - lease.bytes;
      }
      if lease.kind == Memory.ProgressSource {
        progressSourceActive := false;
      }
    }
  }
}
