/**
  The reader's durability ledger and its commit operation.

  `Reader.CommitThrough` is the source's `commit_through` in its own imperative form. The call
  into the source is an opaque operation whose outcome is the parameter `sourceAccepts`.
 */
module CommitLedger {
  import opened Common
  import opened RowCounting

  /** An opaque source position. */
  type Marker = int

  datatype LedgerEntry = LedgerEntry(id: nat, marker: Option<Marker>)

  datatype CommitError = UnknownSinkDelivery | RowCountRejected(reason: RowCountError) | SourceCommitFailed

  /** The markers of a stretch of the ledger, in order. */
  function Markers(entries: seq<LedgerEntry>): seq<Marker> {
    if entries == [] then []
    else
      var init, last := entries[..|entries| - 1], entries[|entries| - 1];
      Markers(init) + (if last.marker.Some? then [last.marker.value] else [])
  }

  /** The outstanding range of the ledger contains `id`. */
  predicate InRange(ledger: seq<LedgerEntry>, id: nat) {
    ledger != [] && ledger[0].id <= id <= ledger[|ledger| - 1].id
  }

  /** How many leading entries have ids not above `id`. */
  function Covered(ledger: seq<LedgerEntry>, id: nat): (n: nat)
    ensures n <= |ledger|
    ensures forall i | 0 <= i < n :: ledger[i].id <= id
    ensures n < |ledger| ==> ledger[n].id > id
  {
    if ledger == [] || ledger[0].id > id then 0
    else
      var n := Covered(ledger[1..], id) + 1;
      assert forall i | 1 <= i < n :: ledger[i] == ledger[1..][i - 1];
      n
  }

  lemma {:induction false} MarkersConcat(a: seq<LedgerEntry>, b: seq<LedgerEntry>)
    ensures Markers(a + b) == Markers(a) + Markers(b)
  {
    if b == [] {
      assert a + b == a;
    } else {
      assert (a + b)[..|a + b| - 1] == a + b[..|b| - 1];
      MarkersConcat(a, b[..|b| - 1]);
    }
  }

  class Reader {
    var ledger: seq<LedgerEntry>
    /** Every marker group handed to `commit_offsets`, in call order. */
    var offered: seq<seq<Marker>>
    /** `PipelineProgress::committed_groups`. */
    var committedGroups: nat
    const rowCounts: OutputRowCounts?

    constructor (rowCounts: OutputRowCounts?)
      ensures ledger == [] && offered == [] && committedGroups == 0 && this.rowCounts == rowCounts
    {
      ledger, offered, committedGroups := [], [], 0;
      this.rowCounts := rowCounts;
    }

    ghost predicate Valid()
      reads this, rowCounts
    {
      rowCounts != null ==> rowCounts.Valid()
    }

    /** The row counter, if configured, can publish through `id`. */
    ghost predicate RowsPublishable(id: nat)
      reads this, rowCounts
    {
      rowCounts != null ==> CanCommit(rowCounts.View(), id)
    }

    /** The markers a commit through `id` hands to the source. */
    ghost function Group(id: nat): seq<Marker>
      reads this
    {
      Markers(ledger[..Covered(ledger, id)])
    }

    method CountCovered(id: nat) returns (n: nat)
      ensures n == Covered(ledger, id)
    {
      n := 0;
      while n < |ledger| && ledger[n].id <= id
        invariant n <= |ledger|
        invariant forall i | 0 <= i < n :: ledger[i].id <= id
      {
        n := n + 1;
      }
    }

    method CollectMarkers(n: nat) returns (markers: seq<Marker>)
      requires n <= |ledger|
      ensures markers == Markers(ledger[..n])
    {
      markers := [];
      for i := 0 to n
        invariant markers == Markers(ledger[..i])
      {
        assert ledger[..i + 1][..i] == ledger[..i];
        if ledger[i].marker.Some? {
          markers := markers + [ledger[i].marker.value];
        }
      }
    }

    method PopFront(n: nat)
      requires n <= |ledger|
      modifies this`ledger
      ensures ledger == old(ledger)[n..]
    {
      for i := 0 to n
        invariant i <= |old(ledger)| && ledger == old(ledger)[i..]
      {
        ledger := ledger[1..];
      }
    }

    /** Hands a non-empty group to the source. */
    method OfferToSource(markers: seq<Marker>, sourceAccepts: bool) returns (accepted: bool)
      modifies this`offered, this`committedGroups
      ensures accepted <==> markers == [] || sourceAccepts
      ensures offered == old(offered) + (if markers != [] then [markers] else [])
      ensures committedGroups == old(committedGroups) + (if markers != [] && sourceAccepts then 1 else 0)
    {
      if markers == [] {
        return true;
      }
      offered := offered + [markers];
      if !sourceAccepts {
        return false;
      }
      committedGroups := committedGroups + 1;
      return true;
    }

    /**
      Commits every ledger entry up to `committed` as one group. An id outside the ledger, or rows
      that cannot be published, change nothing and never reach the source. A failed source commit
      keeps the ledger, the totals and the progress. Otherwise the source is committed once with
      the markers of the covered prefix, the rows are published, and the prefix is dropped.
     */
    method CommitThrough(committed: nat, sourceAccepts: bool) returns (r: Result<(), CommitError>)
      requires Valid()
      modifies this, rowCounts
      ensures Valid()
      ensures r.Ok? <==> InRange(old(ledger), committed) && old(RowsPublishable(committed))
                         && (old(Group(committed)) != [] ==> sourceAccepts)
      ensures ledger == if r.Ok? then old(ledger)[Covered(old(ledger), committed)..] else old(ledger)
      ensures offered == old(offered) + (if InRange(old(ledger), committed) && old(RowsPublishable(committed))
                                            && old(Group(committed)) != []
                                         then [old(Group(committed))] else [])
      ensures committedGroups == old(committedGroups) + (if r.Ok? && old(Group(committed)) != [] then 1 else 0)
      ensures rowCounts != null ==>
                rowCounts.View() == if r.Ok? then CommittedThrough(old(rowCounts.View()), committed)
                                    else old(rowCounts.View())
      ensures r.Err? ==> (r.error == UnknownSinkDelivery <==> !InRange(old(ledger), committed))
    {
      if |ledger| == 0 || committed < ledger[0].id || ledger[|ledger| - 1].id < committed {
        return Err(UnknownSinkDelivery);
      }
      var entries := CountCovered(committed);
      var markers := CollectMarkers(entries);
      if rowCounts != null {
        var validated := rowCounts.ValidateCommitThrough(committed);
        if validated.Err? {
          return Err(RowCountRejected(validated.error));
        }
      }
      var accepted := OfferToSource(markers, sourceAccepts);
      if !accepted {
        return Err(SourceCommitFailed);
      }
      if rowCounts != null {
        var published := rowCounts.CommitThrough(committed);
        assert published.Ok?;
      }
      PopFront(entries);
      return Ok(());
    }
  }
}
