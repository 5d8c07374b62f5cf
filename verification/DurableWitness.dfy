/**
  A run in which two installed values are gone after a power loss: two calls, one after the other, die
  between their rename and their directory sync.
 */
module DurableWitness {
  import opened Common
  import opened DurableCodec
  import opened DurableStore
  import opened DurableSafety

  ghost predicate Reachable(s: State, checksum: Checksum) {
    exists trace, steps :: IsRun(trace, steps, checksum) && trace[|steps|] == s
  }

  lemma ReachableNext(s: State, step: Step, checksum: Checksum)
    requires Reachable(s, checksum) && Enabled(s, step, checksum)
    ensures Reachable(Next(s, step, checksum), checksum)
  {
    var trace, steps :| IsRun(trace, steps, checksum) && trace[|steps|] == s;
    var longer, more := trace + [Next(s, step, checksum)], steps + [step];
    assert IsRun(longer, more, checksum) && longer[|more|] == Next(s, step, checksum);
  }

  /** One client at rest after some values were installed and none of them synced. */
  function Resting(timeline: seq<DurableValue>, checksum: Checksum): State {
    State(Disk(FileOf(Last(timeline), checksum), None), None, [Idle],
          Ledger(timeline, 0, [], |timeline|, |timeline|))
  }

  /** The client holds the lock and is about to do something. */
  function Busy(timeline: seq<DurableValue>, client: Client, checksum: Checksum): State {
    Resting(timeline, checksum).(lock := Some(0), clients := [client])
  }

  lemma ClientStep(timeline: seq<DurableValue>, before: Client, step: Step, after: Client, checksum: Checksum)
    requires Reachable(Busy(timeline, before, checksum), checksum)
    requires Enabled(Busy(timeline, before, checksum), step, checksum) && Local(step) && !step.Acquire? && step.client == 0
    requires NextClient(before, step, FileOf(Last(timeline), checksum), checksum) == after
    ensures Reachable(Busy(timeline, after, checksum), checksum)
  {
    ReachableNext(Busy(timeline, before, checksum), step, checksum);
    assert [before][0 := after] == [after];
  }

  /** The call takes the lock, reads and decides to install the next value. */
  lemma CallDecides(timeline: seq<DurableValue>, payload: seq<Byte>, checksum: Checksum)
    requires Reachable(Resting(timeline, checksum), checksum) && Numbered(timeline)
    requires |timeline| < U64_MAX && HEADER + |payload| + CHECKSUM_BYTES <= U64_MAX
    ensures Reachable(Busy(timeline, Creating(DurableValue(|timeline|, payload)), checksum), checksum)
  {
    var op := CompareExchange(RevisionOf(Last(timeline)), payload);
    var s0 := Resting(timeline, checksum);
    ReachableNext(s0, Start(0, op), checksum);
    assert [Idle][0 := Waiting(op)] == [Waiting(op)];
    var s1 := s0.(clients := [Waiting(op)]);
    ReachableNext(s1, Acquire(0), checksum);
    assert [Waiting(op)][0 := Holding(op)] == [Holding(op)];
    LastIsRepresentable(timeline);
    StoredFileReads(Last(timeline), checksum);
    ClientStep(timeline, Holding(op), Load(0), Loaded(op, Last(timeline)), checksum);
    ClientStep(timeline, Loaded(op, Last(timeline)), Decide(0), Creating(DurableValue(|timeline|, payload)), checksum);
  }

  /** It writes and syncs its file. */
  lemma CallWrites(timeline: seq<DurableValue>, value: DurableValue, checksum: Checksum)
    requires Reachable(Busy(timeline, Creating(value), checksum), checksum)
    ensures Reachable(Busy(timeline, Renaming(value, File(Encode(value, checksum), true)), checksum), checksum)
  {
    var bytes := Encode(value, checksum);
    ClientStep(timeline, Creating(value), Create(0), Writing(value, File([], false)), checksum);
    assert bytes[..|bytes|] == bytes;
    ClientStep(timeline, Writing(value, File([], false)), Write(0, |bytes|), Writing(value, File(bytes, false)), checksum);
    ClientStep(timeline, Writing(value, File(bytes, false)), SyncFile(0), Renaming(value, File(bytes, true)), checksum);
  }

  /** It renames its file and dies before the directory is synced. */
  lemma CallDies(timeline: seq<DurableValue>, value: DurableValue, checksum: Checksum)
    requires Reachable(Busy(timeline, Renaming(value, File(Encode(value, checksum), true)), checksum), checksum)
    ensures Reachable(Resting(timeline + [value], checksum), checksum)
  {
    var file := File(Encode(value, checksum), true);
    var s0 := Busy(timeline, Renaming(value, file), checksum);
    ReachableNext(s0, Rename(0), checksum);
    var s1 := State(Disk(Some(file), None), Some(0), [SyncingDirectory(value)],
                    Ledger(timeline + [value], 0, [], |timeline| + 1, |timeline|));
    assert [Renaming(value, file)][0 := SyncingDirectory(value)] == [SyncingDirectory(value)];
    assert Next(s0, Rename(0), checksum) == s1;
    ReachableNext(s1, Die(0), checksum);
    assert [SyncingDirectory(value)][0 := Idle] == [Idle];
  }

  lemma InstallAndDie(timeline: seq<DurableValue>, payload: seq<Byte>, checksum: Checksum)
    requires Reachable(Resting(timeline, checksum), checksum) && Numbered(timeline)
    requires |timeline| < U64_MAX && HEADER + |payload| + CHECKSUM_BYTES <= U64_MAX
    ensures Reachable(Resting(timeline + [DurableValue(|timeline|, payload)], checksum), checksum)
  {
    CallDecides(timeline, payload, checksum);
    CallWrites(timeline, DurableValue(|timeline|, payload), checksum);
    CallDies(timeline, DurableValue(|timeline|, payload), checksum);
  }

  /** Two values are installed and readable, then power is lost and the file is missing: neither the new
      value nor the one before. */
  lemma TwoDeathsLoseTwoValues(first: seq<Byte>, second: seq<Byte>, checksum: Checksum)
    requires HEADER + |first| + CHECKSUM_BYTES <= U64_MAX && HEADER + |second| + CHECKSUM_BYTES <= U64_MAX
    ensures exists trace: seq<State>, steps: seq<Step> ::
              && IsRun(trace, steps, checksum) && steps != [] && steps[|steps| - 1].PowerLoss?
              && trace[|steps| - 1].ledger.timeline == [DurableValue(0, first), DurableValue(1, second)]
              && ReadFile(trace[|steps| - 1].disk.visible, checksum) == Ok(Some(DurableValue(1, second)))
              && ReadFile(trace[|steps|].disk.visible, checksum) == Ok(None)
  {
    var s0 := Resting([], checksum);
    var none: seq<Step> := [];
    assert Init(1) == s0;
    assert IsRun([s0], none, checksum) && [s0][|none|] == s0;
    InstallAndDie([], first, checksum);
    assert [] + [DurableValue(0, first)] == [DurableValue(0, first)];
    InstallAndDie([DurableValue(0, first)], second, checksum);
    var timeline := [DurableValue(0, first), DurableValue(1, second)];
    assert [DurableValue(0, first)] + [DurableValue(1, second)] == timeline;
    PowerIsLost(timeline, checksum);
  }

  lemma PowerIsLost(timeline: seq<DurableValue>, checksum: Checksum)
    requires Reachable(Resting(timeline, checksum), checksum) && Numbered(timeline) && timeline != []
    ensures exists trace: seq<State>, steps: seq<Step> ::
              && IsRun(trace, steps, checksum) && steps != [] && steps[|steps| - 1].PowerLoss?
              && trace[|steps| - 1].ledger.timeline == timeline
              && ReadFile(trace[|steps| - 1].disk.visible, checksum) == Ok(Last(timeline))
              && ReadFile(trace[|steps|].disk.visible, checksum) == Ok(None)
  {
    var s := Resting(timeline, checksum);
    LastIsRepresentable(timeline);
    StoredFileReads(Last(timeline), checksum);
    var trace: seq<State>, steps: seq<Step> :| IsRun(trace, steps, checksum) && trace[|steps|] == s;
    var step := PowerLoss([]);
    var longer, more := trace + [Next(s, step, checksum)], steps + [step];
    assert IsRun(longer, more, checksum) && more[|more| - 1] == step;
    assert longer[|more| - 1] == s && longer[|more|] == Next(s, step, checksum);
  }
}
