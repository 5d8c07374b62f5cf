/**
  The event stream that reaches the reader through the admission barrier is strictly increasing,
  which is what the reader's ledger requires of it.

  Ids increase in the input. The order then holds exactly as long as every dataset acknowledgement
  finds all entered deliveries reported; the sink contract asks for them to be drained, not reported.
 */
module AdmissionEvents {
  import opened Common
  import opened Admission

  function InputId(input: Input): nat {
    if input.Data? then input.delivery.id else input.id
  }

  ghost predicate IdsIncrease(inputs: seq<Input>) {
    forall i, j | 0 <= i < j < |inputs| :: InputId(inputs[i]) < InputId(inputs[j])
  }

  /** Everything that entered a session has been reported. */
  predicate AllReported(s: State) {
    s.sink.reported == |s.sink.entered|
  }

  ghost predicate AcksFollowReports(trace: seq<State>, steps: seq<Step>, n: nat)
    requires n <= |steps| < |trace|
  {
    forall i | 0 <= i < n && steps[i] == Acknowledge(true) :: AllReported(trace[i])
  }

  /** Every event so far is below `id`. */
  ghost predicate AllBelow(events: seq<nat>, id: nat) {
    forall i | 0 <= i < |events| :: events[i] < id
  }

  ghost predicate DeliveriesIncrease(ds: seq<Delivery>) {
    forall i, j | 0 <= i < j < |ds| :: ds[i].id < ds[j].id
  }

  lemma {:induction false} DataIdsIncrease(inputs: seq<Input>)
    requires IdsIncrease(inputs)
    ensures DeliveriesIncrease(DataOf(inputs))
    ensures forall i | 0 <= i < |DataOf(inputs)| :: inputs != [] && DataOf(inputs)[i].id <= InputId(inputs[|inputs| - 1])
    ensures inputs != [] && inputs[|inputs| - 1].Dataset? ==>
              forall i | 0 <= i < |DataOf(inputs)| :: DataOf(inputs)[i].id < inputs[|inputs| - 1].id
  {
    if inputs != [] {
      var init := inputs[..|inputs| - 1];
      DataIdsIncrease(init);
      if init != [] {
        assert InputId(init[|init| - 1]) < InputId(inputs[|inputs| - 1]);
      }
    }
  }

  ghost predicate BelowUnreported(events: seq<nat>, sink: SinkState) {
    forall j | sink.reported <= j < |sink.entered| :: AllBelow(events, sink.entered[j].id)
  }

  /** No event is above the last input taken. */
  ghost predicate WithinInput(events: seq<nat>, consumed: seq<Input>) {
    events != [] ==> consumed != [] && forall i | 0 <= i < |events| :: events[i] <= InputId(consumed[|consumed| - 1])
  }

  /** Events are below everything not yet reported: what a session still holds, and what is in hand. */
  ghost predicate EventInv(s: State) {
    && Increasing(s.events)
    && BelowUnreported(s.events, s.sink)
    && (Held(s.phase).Some? ==> AllBelow(s.events, Held(s.phase).value.id))
    && (HeldDataset(s.phase) != [] ==> AllBelow(s.events, HeldDataset(s.phase)[0]))
    && WithinInput(s.events, s.consumed)
  }

  /** The dataset in hand is the last input taken. */
  ghost predicate DatasetIsLast(s: State) {
    HeldDataset(s.phase) != [] ==>
      && s.consumed != [] && s.consumed[|s.consumed| - 1].Dataset?
      && s.consumed[|s.consumed| - 1].id == HeldDataset(s.phase)[0]
  }

  /** What entered is ordered, below what is in hand and not above the last input. */
  ghost predicate EnteredInv(s: State) {
    && DeliveriesIncrease(s.sink.entered)
    && (Held(s.phase).Some? ==> forall j | 0 <= j < |s.sink.entered| :: s.sink.entered[j].id < Held(s.phase).value.id)
    && (HeldDataset(s.phase) != [] ==> forall j | 0 <= j < |s.sink.entered| :: s.sink.entered[j].id < HeldDataset(s.phase)[0])
    && (forall j | 0 <= j < |s.sink.entered| :: s.consumed != [] && s.sink.entered[j].id <= InputId(s.consumed[|s.consumed| - 1]))
  }

  lemma EnteredIsOrdered(s: State)
    requires Inv(s) && IdsIncrease(s.consumed) && DatasetIsLast(s)
    ensures EnteredInv(s)
  {
    DataIdsIncrease(s.consumed);
    var data := DataOf(s.consumed);
    assert s.sink.entered <= data;
    assert forall j | 0 <= j < |s.sink.entered| :: s.sink.entered[j] == data[j];
    if Held(s.phase).Some? {
      assert data[|s.sink.entered|] == Held(s.phase).value;
    }
  }

  lemma StepKeepsDatasetLast(s: State, step: Step)
    requires DatasetIsLast(s) && Enabled(s, step)
    ensures DatasetIsLast(Next(s, step))
  {
    ConsumedGrows(s, step);
  }

  lemma ReportKeepsEvents(s: State, upTo: nat)
    requires EventInv(s) && EnteredInv(s) && Enabled(s, SinkReports(upTo))
    ensures EventInv(Next(s, SinkReports(upTo)))
  {
    var id := s.sink.entered[upTo - 1].id;
    assert AllBelow(s.events, id);
    assert forall j | upTo <= j < |s.sink.entered| :: id < s.sink.entered[j].id;
  }

  lemma TakenKeepsWithin(events: seq<nat>, consumed: seq<Input>, input: Input)
    requires WithinInput(events, consumed)
    requires consumed != [] ==> InputId(consumed[|consumed| - 1]) < InputId(input)
    ensures AllBelow(events, InputId(input)) && WithinInput(events, consumed + [input])
  {
  }

  lemma ReceiveKeepsEvents(s: State, input: Input, missing: Result<seq<Name>, ()>)
    requires EventInv(s) && s.phase.Listening?
    requires s.consumed != [] ==> InputId(s.consumed[|s.consumed| - 1]) < InputId(input)
    ensures EventInv(AfterReceive(s, input, missing))
  {
    TakenKeepsWithin(s.events, s.consumed, input);
    ReceiveHolds(s, input, missing);
  }

  lemma ReceiveHolds(s: State, input: Input, missing: Result<seq<Name>, ()>)
    ensures var s' := AfterReceive(s, input, missing);
            && s'.events == s.events && s'.sink == s.sink && s'.consumed == s.consumed + [input]
            && (Held(s'.phase).Some? ==> Held(s'.phase).value.id == InputId(input))
            && (HeldDataset(s'.phase) != [] ==> HeldDataset(s'.phase)[0] == InputId(input))
  {
  }

  /** An acknowledgement is above everything that entered, so nothing may be left to report. */
  lemma AcknowledgeNeedsReports(s: State)
    requires EnteredInv(s) && SessionInv(s) && s.phase.Acknowledging?
    ensures BelowUnreported(Next(s, Acknowledge(true)).events, s.sink) ==> AllReported(s)
  {
    var events := Next(s, Acknowledge(true)).events;
    assert events[|s.events|] == s.phase.id == HeldDataset(s.phase)[0];
    if s.sink.reported < |s.sink.entered| {
      assert s.sink.entered[s.sink.reported].id < events[|s.events|];
      assert !AllBelow(events, s.sink.entered[s.sink.reported].id);
    }
  }

  lemma AcknowledgeKeepsEvents(s: State)
    requires EventInv(s) && DatasetIsLast(s) && AllReported(s) && s.phase.Acknowledging?
    ensures EventInv(Next(s, Acknowledge(true)))
  {
  }

  lemma EnterKeepsEvents(s: State, delivery: Delivery)
    requires EventInv(s) && Held(s.phase) == Some(delivery)
    ensures EventInv(Enter(s, delivery))
  {
  }

  predicate Eventful(step: Step) {
    step.SinkReports? || step.Receive? || step == Acknowledge(true) || step.Prime? || step.Offer?
  }

  /** Nothing the events are compared with has changed, except that something in hand may be gone. */
  ghost predicate Unmoved(s: State, s': State) {
    && s'.events == s.events && s'.consumed == s.consumed
    && s'.sink.entered == s.sink.entered && s'.sink.reported == s.sink.reported
    && (Held(s'.phase).None? || Held(s'.phase) == Held(s.phase))
    && (HeldDataset(s'.phase) == [] || HeldDataset(s'.phase) == HeldDataset(s.phase))
  }

  lemma SinkSideMovesNothing(s: State, step: Step)
    requires Enabled(s, step) && SinkSide(step) && !Eventful(step)
    ensures Unmoved(s, Next(s, step))
  {
  }

  lemma FeedingMovesNothing(s: State, step: Step)
    requires Enabled(s, step) && Feeding(step) && !Eventful(step)
    ensures Unmoved(s, Next(s, step))
  {
  }

  lemma EndingMovesNothing(s: State, step: Step)
    requires Enabled(s, step) && Ending(step)
    ensures Unmoved(s, Next(s, step))
  {
  }

  lemma InstallingMovesNothing(s: State, step: Step)
    requires Enabled(s, step) && Installing(step) && !Eventful(step)
    ensures Unmoved(s, Next(s, step))
  {
  }

  /** No other step adds an event, an input or an entered delivery. */
  lemma QuietKeepsEvents(s: State, step: Step)
    requires EventInv(s) && Enabled(s, step) && !Eventful(step)
    ensures EventInv(Next(s, step))
  {
    if SinkSide(step) { SinkSideMovesNothing(s, step); }
    else if Feeding(step) { FeedingMovesNothing(s, step); }
    else if Ending(step) { EndingMovesNothing(s, step); }
    else { InstallingMovesNothing(s, step); }
  }

  lemma StepKeepsEvents(s: State, step: Step)
    requires EventInv(s) && EnteredInv(s) && DatasetIsLast(s) && Enabled(s, step)
    requires step.Receive? && s.consumed != [] ==> InputId(s.consumed[|s.consumed| - 1]) < InputId(step.input)
    requires step == Acknowledge(true) ==> AllReported(s)
    ensures EventInv(Next(s, step))
  {
    match step
    case SinkReports(upTo) => ReportKeepsEvents(s, upTo);
    case Receive(input, missing) => ReceiveKeepsEvents(s, input, missing);
    case Acknowledge(ok) => if ok { AcknowledgeKeepsEvents(s); } else { QuietKeepsEvents(s, step); }
    case Prime => EnterKeepsEvents(s, s.phase.first);
    case Offer => EnterKeepsEvents(s, s.phase.delivery);
    case _ => QuietKeepsEvents(s, step);
  }

  lemma {:induction false} EarlierIdsIncrease(trace: seq<State>, steps: seq<Step>, i: nat)
    requires IsRun(trace, steps) && i <= |steps| && IdsIncrease(trace[|steps|].consumed)
    ensures IdsIncrease(trace[i].consumed)
    decreases |steps| - i
  {
    if i < |steps| {
      EarlierIdsIncrease(trace, steps, i + 1);
      PrefixIdsIncrease(trace[i], steps[i], trace[i + 1]);
    }
  }

  lemma PrefixIdsIncrease(s: State, step: Step, s': State)
    requires Enabled(s, step) && s' == Next(s, step) && IdsIncrease(s'.consumed)
    ensures IdsIncrease(s.consumed)
  {
    ConsumedGrows(s, step);
    assert s'.consumed[..|s.consumed|] == s.consumed;
  }

  lemma {:induction false} RunsKeepDatasetLast(trace: seq<State>, steps: seq<Step>, i: nat)
    requires IsRun(trace, steps) && i <= |steps|
    ensures DatasetIsLast(trace[i])
  {
    if i > 0 {
      RunsKeepDatasetLast(trace, steps, i - 1);
      StepKeepsDatasetLast(trace[i - 1], steps[i - 1]);
    }
  }

  lemma RunsKeepEntered(trace: seq<State>, steps: seq<Step>, i: nat)
    requires IsRun(trace, steps) && i <= |steps| && IdsIncrease(trace[i].consumed)
    ensures Inv(trace[i]) && DatasetIsLast(trace[i]) && EnteredInv(trace[i])
  {
    RunsKeepInv(trace, steps, i);
    RunsKeepDatasetLast(trace, steps, i);
    EnteredIsOrdered(trace[i]);
  }

  lemma {:induction false} RunsKeepEvents(trace: seq<State>, steps: seq<Step>, i: nat)
    requires IsRun(trace, steps) && i <= |steps| && AcksFollowReports(trace, steps, i)
    requires IdsIncrease(trace[i].consumed)
    ensures EventInv(trace[i])
  {
    if i > 0 {
      var s, step := trace[i - 1], steps[i - 1];
      ConsumedGrows(s, step);
      assert s.consumed == trace[i].consumed[..|s.consumed|];
      RunsKeepEvents(trace, steps, i - 1);
      RunsKeepEntered(trace, steps, i - 1);
      if step.Receive? && s.consumed != [] {
        var last := |s.consumed| - 1;
        assert trace[i].consumed[last] == s.consumed[last] && trace[i].consumed[last + 1] == step.input;
      }
      StepKeepsEvents(s, step);
    }
  }

  /** Sink reports and dataset acknowledgements reach the reader with strictly increasing ids, if every
      acknowledgement finds the deliveries before it reported. */
  lemma EventsStrictlyIncrease(trace: seq<State>, steps: seq<Step>, i: nat)
    requires IsRun(trace, steps) && i <= |steps| && AcksFollowReports(trace, steps, i)
    requires IdsIncrease(trace[i].consumed)
    ensures Increasing(trace[i].events)
  {
    RunsKeepEvents(trace, steps, i);
  }

  /** The events so far are in order, and whatever sessions still have to report comes after them. */
  ghost predicate OrderSafe(s: State) {
    Increasing(s.events) && BelowUnreported(s.events, s.sink)
  }

  /** That condition is exact: the order is safe throughout a run if and only if every acknowledgement of
      the run finds all entered deliveries reported. */
  lemma OrderIsSafeIff(trace: seq<State>, steps: seq<Step>)
    requires IsRun(trace, steps) && IdsIncrease(trace[|steps|].consumed)
    ensures (forall i | 0 <= i <= |steps| :: OrderSafe(trace[i])) <==> AcksFollowReports(trace, steps, |steps|)
  {
    forall i | 0 <= i <= |steps|
      ensures IdsIncrease(trace[i].consumed)
    {
      EarlierIdsIncrease(trace, steps, i);
    }
    if AcksFollowReports(trace, steps, |steps|) {
      forall i | 0 <= i <= |steps|
        ensures OrderSafe(trace[i])
      {
        RunsKeepEvents(trace, steps, i);
      }
    }
    if forall i | 0 <= i <= |steps| :: OrderSafe(trace[i]) {
      forall i | 0 <= i < |steps| && steps[i] == Acknowledge(true)
        ensures AllReported(trace[i])
      {
        assert OrderSafe(trace[i + 1]);
        RunsKeepEntered(trace, steps, i);
        AcknowledgeNeedsReports(trace[i]);
      }
    }
  }
}
