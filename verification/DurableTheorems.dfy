/** The promises of durable storage, for every run. */
module DurableTheorems {
  import opened Common
  import opened DurableCodec
  import opened DurableStore
  import opened DurableSafety

  /** In every reachable state the file reads back as the newest installed value: no interleaving,
      failure or power loss leaves a file that is missing, torn or from before. */
  lemma FileAlwaysReads(trace: seq<State>, steps: seq<Step>, checksum: Checksum, i: nat)
    requires IsRun(trace, steps, checksum) && i < |trace|
    ensures ReadFile(trace[i].disk.visible, checksum) == Ok(Last(trace[i].ledger.timeline))
  {
    RunsKeepInv(trace, steps, checksum, i);
    LastIsRepresentable(trace[i].ledger.timeline);
    StoredFileReads(Last(trace[i].ledger.timeline), checksum);
  }

  /** Installed revisions are 0, 1, 2, ... without gap or repetition, and over the whole run, power
      losses included, each revision is reported as applied to at most one call. */
  lemma RevisionsAreConsecutive(trace: seq<State>, steps: seq<Step>, checksum: Checksum, i: nat)
    requires IsRun(trace, steps, checksum) && i < |trace|
    ensures forall r :: 0 <= r < |trace[i].ledger.timeline| ==> trace[i].ledger.timeline[r].revision == r
    ensures forall j, k :: 0 <= j < k < |trace[i].ledger.acked| ==>
              trace[i].ledger.acked[j].revision < trace[i].ledger.acked[k].revision
  {
    RunsKeepInv(trace, steps, checksum, i);
  }

  lemma {:induction false} AckedOnlyGrows(trace: seq<State>, steps: seq<Step>, checksum: Checksum, i: nat, j: nat)
    requires IsRun(trace, steps, checksum) && i <= j < |trace|
    ensures trace[i].ledger.acked <= trace[j].ledger.acked
    decreases j
  {
    if i < j {
      AckedOnlyGrows(trace, steps, checksum, i, j - 1);
      var k := j - 1;
      assert trace[k + 1] == Next(trace[k], steps[k], checksum);
    }
  }

  /** A value reported as applied is in every later history at its own revision, whatever fails in
      between, and every later read finds that revision or a newer one. */
  lemma AppliedIsNeverLost(trace: seq<State>, steps: seq<Step>, checksum: Checksum, i: nat, j: nat, k: nat)
    requires IsRun(trace, steps, checksum) && i <= j < |trace| && k < |trace[i].ledger.acked|
    ensures var value := trace[i].ledger.acked[k];
            value.revision < |trace[j].ledger.timeline| && trace[j].ledger.timeline[value.revision] == value
    ensures var found := ReadFile(trace[j].disk.visible, checksum);
            found.Ok? && found.value.Some? && trace[i].ledger.acked[k].revision <= found.value.value.revision
  {
    AckedOnlyGrows(trace, steps, checksum, i, j);
    RunsKeepInv(trace, steps, checksum, j);
    FileAlwaysReads(trace, steps, checksum, j);
    LastIsRepresentable(trace[j].ledger.timeline);
    assert trace[j].ledger.acked[k] == trace[i].ledger.acked[k];
  }

  /** The value before the newest one. */
  function Previous(timeline: seq<DurableValue>): Option<DurableValue> {
    if |timeline| < 2 then None else Some(timeline[|timeline| - 2])
  }

  /** In a numbered timeline, cutting off the end leaves the newest value or the one before on top exactly
      if at most one value was cut off. */
  lemma CutLeavesOldOrNew(timeline: seq<DurableValue>, cut: nat)
    requires Numbered(timeline) && cut <= |timeline|
    ensures var top := Last(timeline[..|timeline| - cut]);
            top == Last(timeline) || top == Previous(timeline) <==> cut <= 1
  {
    var left := timeline[..|timeline| - cut];
    if cut == 0 {
      assert left == timeline;
    }
    if 2 <= cut < |timeline| {
      assert left[|left| - 1].revision == |left| - 1;
      assert timeline[|timeline| - 1].revision == |timeline| - 1;
      assert timeline[|timeline| - 2].revision == |timeline| - 2;
    }
  }

  /** After a power loss the file reads as a complete value that was current at some moment, and nothing
      acknowledged is gone. It is the newest value or the one before if and only if at most one rename
      happened since the last directory sync, which is the case as long as no call gives up between its
      rename and its directory sync. */
  lemma PowerLossLeavesCompleteValue(trace: seq<State>, steps: seq<Step>, checksum: Checksum, i: nat)
    requires IsRun(trace, steps, checksum) && i < |steps| && steps[i].PowerLoss?
    ensures var before, after := trace[i].ledger, trace[i + 1].ledger;
            && after.timeline <= before.timeline && after.acked == before.acked
            && ReadFile(trace[i + 1].disk.visible, checksum) == Ok(Last(after.timeline))
    ensures var timeline, found := trace[i].ledger.timeline, ReadFile(trace[i + 1].disk.visible, checksum);
            found == Ok(Last(timeline)) || found == Ok(Previous(timeline)) <==> trace[i].ledger.unsynced <= 1
    ensures trace[i].ledger.abandoned == 0 ==> trace[i].ledger.unsynced <= 1
    ensures trace[i].ledger.unsynced == 0 <==> trace[i + 1].ledger.timeline == trace[i].ledger.timeline
    ensures !Unsettled(trace[i].clients) && trace[i].ledger.abandoned == 0 ==> trace[i].ledger.unsynced == 0
  {
    assert trace[i + 1] == Next(trace[i], steps[i], checksum);
    RunsKeepInv(trace, steps, checksum, i);
    FileAlwaysReads(trace, steps, checksum, i + 1);
    CutLeavesOldOrNew(trace[i].ledger.timeline, trace[i].ledger.unsynced);
  }

  /** Only a power loss takes anything out of the history; a rename adds one value, and the revision
      its caller expected is still the newest one at that moment, so no update is ever overwritten unseen. */
  lemma HistoryChangesOnlyBy(trace: seq<State>, steps: seq<Step>, checksum: Checksum, i: nat)
    requires IsRun(trace, steps, checksum) && i < |steps| && !steps[i].PowerLoss?
    ensures var before, after := trace[i].ledger.timeline, trace[i + 1].ledger.timeline;
            if !steps[i].Rename? then after == before && trace[i + 1].disk.visible == trace[i].disk.visible
            else exists value :: after == before + [value] && value.revision == |before|
  {
    assert trace[i + 1] == Next(trace[i], steps[i], checksum);
    RunsKeepInv(trace, steps, checksum, i);
    if steps[i].Rename? {
      var client := trace[i].clients[steps[i].client];
      assert Knows(client, trace[i].ledger, checksum);
      assert trace[i + 1].ledger.timeline == trace[i].ledger.timeline + [client.value];
    }
  }

  /** A compare-and-exchange conflicts exactly when the newest revision is not the expected one, and
      then returns the newest value; it refuses the exhausted revision; otherwise it goes on to install
      the next revision with its own payload. None of this changes the stored value. */
  lemma DecisionIsExact(trace: seq<State>, steps: seq<Step>, checksum: Checksum, i: nat)
    requires IsRun(trace, steps, checksum) && i < |steps| && steps[i].Decide?
    requires steps[i].client < |trace[i].clients| && trace[i].clients[steps[i].client].Loaded?
    ensures trace[i + 1].disk == trace[i].disk && trace[i + 1].ledger == trace[i].ledger
    ensures var newest := Last(trace[i].ledger.timeline);
            var op := trace[i].clients[steps[i].client].op;
            && op.CompareExchange?
            && |trace[i + 1].clients| == |trace[i].clients|
            && var client := trace[i + 1].clients[steps[i].client];
            && (RevisionOf(newest) != op.expected <==> client.Releasing? && client.outcome == Conflict(newest))
            && (RevisionOf(newest) == op.expected == Some(U64_MAX) <==> client == Releasing(Failed))
            && (RevisionOf(newest) == op.expected != Some(U64_MAX) <==>
                client == Creating(DurableValue(|trace[i].ledger.timeline|, op.payload)))
  {
    assert trace[i + 1] == Next(trace[i], steps[i], checksum);
    RunsKeepInv(trace, steps, checksum, i);
    assert Knows(trace[i].clients[steps[i].client], trace[i].ledger, checksum);
    LastIsRepresentable(trace[i].ledger.timeline);
  }

  /** A read returns the newest installed value. */
  lemma ReadFindsNewest(trace: seq<State>, steps: seq<Step>, checksum: Checksum, i: nat)
    requires IsRun(trace, steps, checksum) && i < |steps| && steps[i].Load?
    ensures steps[i].client < |trace[i].clients| == |trace[i + 1].clients|
            && var before, after := trace[i].clients[steps[i].client], trace[i + 1].clients[steps[i].client];
            && before.Holding?
            && after == (if before.op.Read? then Releasing(Found(Last(trace[i].ledger.timeline)))
                         else Loaded(before.op, Last(trace[i].ledger.timeline)))
  {
    assert trace[i + 1] == Next(trace[i], steps[i], checksum);
    assert Enabled(trace[i], steps[i], checksum);
    FileAlwaysReads(trace, steps, checksum, i);
  }

  /** Every successful answer is backed by the disk: when a call is about to return a value as applied,
      that value is the newest one and would survive a power loss. */
  lemma AppliedIsDurableBeforeItIsReported(trace: seq<State>, steps: seq<Step>, checksum: Checksum, i: nat, c: nat)
    requires IsRun(trace, steps, checksum) && i < |trace| && c < |trace[i].clients|
    requires trace[i].clients[c].Releasing? && trace[i].clients[c].outcome.Applied?
    ensures ReadFile(trace[i].disk.visible, checksum) == Ok(Some(trace[i].clients[c].outcome.applied))
    ensures forall garbage :: ReadFile(Survivor(trace[i].disk.onDisk, garbage), checksum)
                              == Ok(Some(trace[i].clients[c].outcome.applied))
  {
    RunsKeepInv(trace, steps, checksum, i);
    FileAlwaysReads(trace, steps, checksum, i);
    assert Knows(trace[i].clients[c], trace[i].ledger, checksum);
    assert trace[i].ledger.timeline[..trace[i].ledger.durable] == trace[i].ledger.timeline;
  }
}
