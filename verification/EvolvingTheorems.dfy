/** What every run of the pipeline with evolving datasets guarantees. */
module EvolvingTheorems {
  import opened Common
  import opened CommitLedger
  import opened PipelineFront
  import opened FrontSafety
  import opened EvolvingPipeline
  import AD = Admission
  import AE = AdmissionEvents
  import DT = DeliveryTracking

  /**
    Durability. At every point of every run, the marker groups handed to the source concatenate to the
    markers of a prefix of the issued deliveries, in order and once each. Every delivery of that prefix
    has entered a session and been written, and every dataset of it has been acknowledged. The finite
    source counts as drained only if that prefix is everything issued.
   */
  lemma CommitsFollowDurability(trace: seq<State>, steps: seq<Step>, i: nat)
    requires IsRun(trace, steps) && i <= |steps|
    ensures var front, back := trace[i].front, trace[i].back;
            && front.book.covered <= |front.book.issued|
            && (forall k | 0 <= k < |front.book.issued| :: front.book.issued[k].id == k + 1)
            && Flatten(front.book.offered) == Markers(front.book.issued[..front.book.covered])
            && (Drained(front) ==> front.book.covered == |front.book.issued|)
            && front.book.covered <= |back.consumed| && back.sink.durable <= |back.sink.entered|
            && (forall id | 1 <= id <= front.book.covered :: Durable(back, id))
  {
    RunsKeepInv(trace, steps, i);
    var s := trace[i];
    var safe := Highest(s.back.events);
    FrontCommitsPrefix(s.front, |s.back.consumed| + 1, safe);
    forall id | 1 <= id <= s.front.book.covered
      ensures Durable(s.back, id)
    {
      CoveredIsDurable(s.back, safe, id);
    }
  }

  /** Published totals follow the source here as well, across datasets admitted on the way. */
  lemma TotalsFollowSource(trace: seq<State>, steps: seq<Step>, i: nat)
    requires IsRun(trace, steps) && i <= |steps|
    ensures TotalsFollow(trace[i].front)
  {
    RunsKeepInv(trace, steps, i);
    FrontTotalsFollow(trace[i].front, |trace[i].back.consumed| + 1, Highest(trace[i].back.events));
  }

  /** The dataset barrier: the reader takes its next batch only after everything issued, the dataset
      included, is committed at the source, durable downstream and acknowledged. */
  lemma BarrierWaitsForCommit(trace: seq<State>, steps: seq<Step>, i: nat)
    requires IsRun(trace, steps) && i < |steps| && steps[i] == Up(Reader(BarrierDone))
    ensures var front, back := trace[i].front, trace[i].back;
            && front.book.covered == |front.book.issued| == |back.consumed|
            && back.sink.durable <= |back.sink.entered|
            && (forall id | 1 <= id <= |front.book.issued| :: Durable(back, id))
  {
    CommitsFollowDurability(trace, steps, i);
    RunsKeepInv(trace, steps, i);
    assert Enabled(trace[i], steps[i]);
    EmptyLedgerIsCovered(trace[i].front, |trace[i].back.consumed| + 1, Highest(trace[i].back.events));
  }

  /** The row counter never stops the reader, and a reported id does so only if the events came out of order. */
  lemma ProtocolErrorsNeedDisorder(trace: seq<State>, steps: seq<Step>, i: nat)
    requires IsRun(trace, steps) && i <= |steps|
    ensures NoRowError(trace[i].front)
    ensures trace[i].front.phase == Stopped(Failed(SinkIdOutOfRange)) ==> !Increasing(trace[i].back.events)
  {
    RunsKeepInv(trace, steps, i);
  }

  /** Every acknowledgement so far found all entered deliveries reported. */
  ghost predicate AcksFollowReports(trace: seq<State>, steps: seq<Step>, n: nat)
    requires n <= |steps| < |trace|
  {
    forall i | 0 <= i < n && steps[i] == Down(AD.Acknowledge(true)) :: AE.AllReported(trace[i].back)
  }

  lemma NumberedIncrease(inputs: seq<AD.Input>)
    requires Numbered(inputs)
    ensures AE.IdsIncrease(inputs)
  {
  }

  lemma DownKeepsEvents(s: State, down: AD.Step)
    requires Inv(s) && Enabled(s, Down(down)) && AE.EventInv(s.back)
    requires down == AD.Acknowledge(true) ==> AE.AllReported(s.back)
    ensures AE.EventInv(AD.Next(s.back, down))
  {
    NumberedIncrease(s.back.consumed);
    AE.EnteredIsOrdered(s.back);
    if down.Receive? {
      TakeKeepsUpstream(s.front, |s.back.consumed| + 1, s.back.events);
    }
    AE.StepKeepsEvents(s.back, down);
  }

  lemma {:induction false} RunsKeepEvents(trace: seq<State>, steps: seq<Step>, i: nat)
    requires IsRun(trace, steps) && i <= |steps| && AcksFollowReports(trace, steps, i)
    ensures AE.EventInv(trace[i].back)
  {
    if i > 0 {
      RunsKeepEvents(trace, steps, i - 1);
      RunsKeepInv(trace, steps, i - 1);
      if steps[i - 1].Down? {
        DownKeepsEvents(trace[i - 1], steps[i - 1].down);
      }
    }
  }

  /** With sinks that report before they are asked to admit, no run ends in a protocol error. */
  lemma ProtocolErrorsAreUnreachable(trace: seq<State>, steps: seq<Step>, i: nat)
    requires IsRun(trace, steps) && i <= |steps| && AcksFollowReports(trace, steps, i)
    ensures NoRowError(trace[i].front) && trace[i].front.phase != Stopped(Failed(SinkIdOutOfRange))
  {
    RunsKeepEvents(trace, steps, i);
    ProtocolErrorsNeedDisorder(trace, steps, i);
  }

  /** Every input is a delivery or a dataset. */
  lemma {:induction false} InputsSplit(inputs: seq<AD.Input>)
    ensures |AD.DataOf(inputs)| + |AD.DatasetsOf(inputs)| == |inputs|
  {
    if inputs != [] {
      InputsSplit(inputs[..|inputs| - 1]);
    }
  }

  function Ids(deliveries: seq<AD.Delivery>): seq<nat> {
    seq(|deliveries|, i requires 0 <= i < |deliveries| => deliveries[i].id)
  }

  /** What entered sessions carries increasing ids, below the top of the range. */
  lemma EnteredIds(s: State, j: nat)
    requires Inv(s) && j < |s.back.sink.entered|
    ensures var ids := Ids(s.back.sink.entered[..j]) + [s.back.sink.entered[j].id];
            Increasing(ids) && DT.AreIds(ids)
  {
    var entered, data := s.back.sink.entered, AD.DataOf(s.back.consumed);
    assert entered <= data;
    NumberedIncrease(s.back.consumed);
    AE.DataIdsIncrease(s.back.consumed);
    var ids := Ids(entered[..j]) + [entered[j].id];
    forall k | 0 <= k <= j ensures ids[k] == data[k].id && 1 <= ids[k] < U64_MAX {
      DataPosition(s.back.consumed, k);
    }
  }

  /** Datasets take delivery numbers that no session ever sees. A delivery tracker behind the barrier, offered
      what entered the sessions so far and given any completions and takes in between, accepts the next
      delivery if and only if no dataset came before it. */
  lemma TrackerAcceptsIffNoDatasetBefore(
    trace: seq<State>, steps: seq<Step>, i: nat, j: nat, ops: seq<DT.Op>, units: nat, messages: nat)
    requires IsRun(trace, steps) && i <= |steps| && j < |trace[i].back.sink.entered|
    requires DT.OfferedIds(ops) == Ids(trace[i].back.sink.entered[..j])
    ensures var back := trace[i].back;
            var id := back.sink.entered[j].id;
            && 1 <= id <= |back.consumed|
            && (DT.Accept(DT.RunOf(ops).tracker, id, units, messages).Ok? <==> AD.DatasetsOf(back.consumed[..id]) == [])
  {
    RunsKeepInv(trace, steps, i);
    var back := trace[i].back;
    EnteredIds(trace[i], j);
    DT.AcceptsIffNoneLeftOut(ops, back.sink.entered[j].id, units, messages);
    assert back.sink.entered <= AD.DataOf(back.consumed);
    DataPosition(back.consumed, j);
    InputsSplit(back.consumed[..back.sink.entered[j].id]);
  }
}
