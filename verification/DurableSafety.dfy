/** What every run of the durable store keeps, across failures, process deaths and power losses. */
module DurableSafety {
  import opened Common
  import opened DurableCodec
  import opened DurableStore

  /** Revisions count up from zero without gaps. */
  ghost predicate Numbered(timeline: seq<DurableValue>) {
    forall i :: 0 <= i < |timeline| ==> timeline[i].revision == i && Representable(timeline[i])
  }

  /** The file holds the newest installed value, and the disk the newest one that is safe. */
  ghost predicate Stored(disk: Disk, ledger: Ledger, checksum: Checksum) {
    && ledger.durable <= |ledger.timeline|
    && disk.visible == FileOf(Last(ledger.timeline), checksum)
    && disk.onDisk == FileOf(Last(ledger.timeline[..ledger.durable]), checksum)
  }

  /** Every value reported as applied is safe on disk at its revision, and no revision was reported twice. */
  ghost predicate Kept(ledger: Ledger) {
    && (forall k :: 0 <= k < |ledger.acked| ==>
          ledger.acked[k].revision < ledger.durable
          && ledger.acked[k].revision < |ledger.timeline|
          && ledger.timeline[ledger.acked[k].revision] == ledger.acked[k])
    && (forall j, k :: 0 <= j < k < |ledger.acked| ==> ledger.acked[j].revision < ledger.acked[k].revision)
  }

  ghost predicate NewerThanAcked(value: DurableValue, acked: seq<DurableValue>) {
    forall k :: 0 <= k < |acked| ==> acked[k].revision < value.revision
  }

  ghost predicate IsNext(value: DurableValue, timeline: seq<DurableValue>) {
    value.revision == |timeline| && Representable(value)
  }

  ghost predicate IsNewest(value: DurableValue, ledger: Ledger) {
    Last(ledger.timeline) == Some(value) && NewerThanAcked(value, ledger.acked)
  }

  /** What a client inside a call knows. */
  ghost predicate Knows(client: Client, ledger: Ledger, checksum: Checksum) {
    match client
    case Idle => true
    case Waiting(op) => Fits(op)
    case Holding(op) => Fits(op)
    case Loaded(op, current) => op.CompareExchange? && Fits(op) && current == Last(ledger.timeline)
    case Creating(value) => IsNext(value, ledger.timeline)
    case Writing(value, temporary) =>
      IsNext(value, ledger.timeline) && temporary.data <= Encode(value, checksum) && !temporary.synced
    case Renaming(value, temporary) =>
      IsNext(value, ledger.timeline) && temporary == File(Encode(value, checksum), true)
    case SyncingDirectory(value) => IsNewest(value, ledger)
    case Releasing(outcome) =>
      outcome.Applied? ==> IsNewest(outcome.applied, ledger) && ledger.durable == |ledger.timeline|
  }

  ghost predicate Exclusive(lock: Option<nat>, clients: seq<Client>) {
    forall c :: 0 <= c < |clients| && InCritical(clients[c]) ==> lock == Some(c)
  }

  ghost predicate AllKnow(clients: seq<Client>, ledger: Ledger, checksum: Checksum) {
    forall c :: 0 <= c < |clients| ==> Knows(clients[c], ledger, checksum)
  }

  /** Some client renamed its file and has not come back from the directory sync. */
  ghost predicate Unsettled(clients: seq<Client>) {
    exists c :: 0 <= c < |clients| && clients[c].SyncingDirectory?
  }

  /** The disk lacks exactly the renames since the last directory sync, and each of them is still being
      synced or was abandoned. */
  ghost predicate Settling(clients: seq<Client>, ledger: Ledger) {
    && |ledger.timeline| == ledger.durable + ledger.unsynced
    && ledger.unsynced <= ledger.abandoned + (if Unsettled(clients) then 1 else 0)
  }

  ghost predicate Inv(s: State, checksum: Checksum) {
    && Numbered(s.ledger.timeline)
    && Stored(s.disk, s.ledger, checksum)
    && Kept(s.ledger)
    && Exclusive(s.lock, s.clients)
    && AllKnow(s.clients, s.ledger, checksum)
    && Settling(s.clients, s.ledger)
  }

  /** A file that holds a representable value reads back as that value. */
  lemma StoredFileReads(value: Option<DurableValue>, checksum: Checksum)
    requires value.Some? ==> Representable(value.value)
    ensures ReadFile(FileOf(value, checksum), checksum) == Ok(value)
  {
    if value.Some? {
      DecodeEncode(value.value, checksum);
    }
  }

  lemma LastIsRepresentable(timeline: seq<DurableValue>)
    requires Numbered(timeline)
    ensures Last(timeline).Some? ==>
              Representable(Last(timeline).value) && Last(timeline).value.revision == |timeline| - 1
  {
  }

  /** A decision to install picks exactly the next revision. */
  lemma DecisionInstallsNext(op: Operation, ledger: Ledger, checksum: Checksum)
    requires Numbered(ledger.timeline) && op.CompareExchange? && Fits(op)
    ensures Knows(Decision(op.expected, op.payload, Last(ledger.timeline)), ledger, checksum)
  {
    LastIsRepresentable(ledger.timeline);
  }

  /** A client outside the critical section knows nothing about the ledger. */
  lemma OthersStillKnow(clients: seq<Client>, c: nat, before: Ledger, after: Ledger, checksum: Checksum)
    requires c < |clients| && AllKnow(clients, before, checksum)
    requires forall i :: 0 <= i < |clients| && i != c ==> !InCritical(clients[i])
    ensures forall i :: 0 <= i < |clients| && i != c ==> Knows(clients[i], after, checksum)
  {
    forall i | 0 <= i < |clients| && i != c
      ensures Knows(clients[i], after, checksum)
    {
      assert Knows(clients[i], before, checksum);
    }
  }

  predicate Local(step: Step) {
    step.Start? || step.Acquire? || step.Load? || step.Decide? || step.Create? || step.Write? || step.SyncFile?
  }

  /** A step that touches neither disk nor ledger leaves its client knowing what it must. */
  lemma LocalStepKnows(s: State, step: Step, checksum: Checksum)
    requires Inv(s, checksum) && Enabled(s, step, checksum) && Local(step)
    ensures Knows(NextClient(s.clients[step.client], step, s.disk.visible, checksum), s.ledger, checksum)
    ensures !NextClient(s.clients[step.client], step, s.disk.visible, checksum).SyncingDirectory?
  {
    var client := s.clients[step.client];
    assert Knows(client, s.ledger, checksum);
    if step.Load? {
      LastIsRepresentable(s.ledger.timeline);
      StoredFileReads(Last(s.ledger.timeline), checksum);
    } else if step.Decide? {
      DecisionInstallsNext(client.op, s.ledger, checksum);
    }
  }

  lemma LocalStepKeepsInv(s: State, step: Step, checksum: Checksum)
    requires Inv(s, checksum) && Enabled(s, step, checksum) && Local(step)
    ensures Inv(Next(s, step, checksum), checksum)
  {
    LocalStepKnows(s, step, checksum);
    var t := Next(s, step, checksum);
    assert t.disk == s.disk && t.ledger == s.ledger;
    assert !s.clients[step.client].SyncingDirectory?;
    assert Unsettled(t.clients) == Unsettled(s.clients) by {
      forall c | 0 <= c < |s.clients|
        ensures t.clients[c].SyncingDirectory? == s.clients[c].SyncingDirectory?
      {
      }
    }
  }

  lemma RenameKeepsInv(s: State, step: Step, checksum: Checksum)
    requires Inv(s, checksum) && Enabled(s, step, checksum) && step.Rename?
    ensures Inv(Next(s, step, checksum), checksum)
  {
    var t, c := Next(s, step, checksum), step.client;
    var value := s.clients[c].value;
    assert Knows(s.clients[c], s.ledger, checksum);
    OthersStillKnow(s.clients, c, s.ledger, t.ledger, checksum);
    assert t.ledger.timeline[..t.ledger.durable] == s.ledger.timeline[..s.ledger.durable];
    assert t.clients[c] == SyncingDirectory(value);
  }

  lemma SyncDirectoryKeepsInv(s: State, step: Step, checksum: Checksum)
    requires Inv(s, checksum) && Enabled(s, step, checksum) && step.SyncDirectory?
    ensures Inv(Next(s, step, checksum), checksum)
  {
    var t, c := Next(s, step, checksum), step.client;
    assert Knows(s.clients[c], s.ledger, checksum);
    OthersStillKnow(s.clients, c, s.ledger, t.ledger, checksum);
    assert t.ledger.timeline[..t.ledger.durable] == t.ledger.timeline;
  }

  lemma FlushKeepsInv(s: State, step: Step, checksum: Checksum)
    requires Inv(s, checksum) && step.FlushDirectory?
    ensures Inv(Next(s, step, checksum), checksum)
  {
    var t := Next(s, step, checksum);
    assert t.ledger.timeline[..t.ledger.durable] == t.ledger.timeline;
    forall c | 0 <= c < |t.clients|
      ensures Knows(t.clients[c], t.ledger, checksum)
    {
      assert Knows(s.clients[c], s.ledger, checksum);
    }
  }

  lemma ReleaseKeepsInv(s: State, step: Step, checksum: Checksum)
    requires Inv(s, checksum) && Enabled(s, step, checksum) && step.Release?
    ensures Inv(Next(s, step, checksum), checksum)
  {
    var t, c := Next(s, step, checksum), step.client;
    assert Knows(s.clients[c], s.ledger, checksum);
    OthersStillKnow(s.clients, c, s.ledger, t.ledger, checksum);
    LastIsRepresentable(s.ledger.timeline);
    assert !s.clients[c].SyncingDirectory?;
  }

  lemma FailKeepsInv(s: State, step: Step, checksum: Checksum)
    requires Inv(s, checksum) && Enabled(s, step, checksum) && (step.Fail? || step.Die?)
    ensures Inv(Next(s, step, checksum), checksum)
  {
    var t, c := Next(s, step, checksum), step.client;
    assert Knows(s.clients[c], s.ledger, checksum);
    if InCritical(s.clients[c]) {
      OthersStillKnow(s.clients, c, s.ledger, t.ledger, checksum);
    }
    if Unsettled(s.clients) && !s.clients[c].SyncingDirectory? {
      var i :| 0 <= i < |s.clients| && s.clients[i].SyncingDirectory?;
      assert t.clients[i].SyncingDirectory?;
    }
  }

  lemma PowerLossKeepsInv(s: State, step: Step, checksum: Checksum)
    requires Inv(s, checksum) && step.PowerLoss?
    ensures Inv(Next(s, step, checksum), checksum)
  {
    var t := Next(s, step, checksum);
    assert t.ledger.timeline[..t.ledger.durable] == t.ledger.timeline;
  }

  lemma StepKeepsInv(s: State, step: Step, checksum: Checksum)
    requires Inv(s, checksum) && Enabled(s, step, checksum)
    ensures Inv(Next(s, step, checksum), checksum)
  {
    if Local(step) {
      LocalStepKeepsInv(s, step, checksum);
    } else if step.Rename? {
      RenameKeepsInv(s, step, checksum);
    } else if step.SyncDirectory? {
      SyncDirectoryKeepsInv(s, step, checksum);
    } else if step.FlushDirectory? {
      FlushKeepsInv(s, step, checksum);
    } else if step.Release? {
      ReleaseKeepsInv(s, step, checksum);
    } else if step.PowerLoss? {
      PowerLossKeepsInv(s, step, checksum);
    } else {
      FailKeepsInv(s, step, checksum);
    }
  }

  lemma {:induction false} RunsKeepInv(trace: seq<State>, steps: seq<Step>, checksum: Checksum, i: nat)
    requires IsRun(trace, steps, checksum) && i < |trace|
    ensures Inv(trace[i], checksum)
  {
    if i == 0 {
      assert trace[0].ledger.timeline[..0] == [];
    } else {
      RunsKeepInv(trace, steps, checksum, i - 1);
      var k := i - 1;
      assert trace[k + 1] == Next(trace[k], steps[k], checksum);
      StepKeepsInv(trace[k], steps[k], checksum);
    }
  }
}
