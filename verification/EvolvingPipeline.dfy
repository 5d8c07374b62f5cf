/**
  The partition pipeline with evolving datasets: the upstream half, and the admission barrier with its
  sink sessions in the place of the sink.

  The parser's output queue is the barrier's input, and both the sessions and the barrier send into the
  reader's event queue. Cancellation is one token for all.
 */
module EvolvingPipeline {
  import opened Common
  import opened CommitLedger
  import opened PipelineFront
  import opened FrontSafety
  import AD = Admission
  import AE = AdmissionEvents

  datatype State = State(front: Front, back: AD.State)

  datatype Step = Up(up: FrontStep) | Down(down: AD.Step)

  ghost predicate Init(s: State) {
    FrontInit(s.front) && s.front.evolving && AD.Init(s.back)
  }

  /** The barrier's input is what the parser forwarded: a delivery, or a dataset for a barrier payload. */
  predicate Carries(envelope: Envelope, input: AD.Input) {
    AE.InputId(input) == envelope.id && (input.Dataset? <==> envelope.barrier)
  }

  /** The id an admission step sends to the reader. */
  function Sent(back: AD.State, step: AD.Step): Option<nat> {
    if step.SinkReports? && 0 < step.upTo <= |back.sink.entered| then Some(back.sink.entered[step.upTo - 1].id)
    else if step == AD.Acknowledge(true) && back.phase.Acknowledging? then Some(back.phase.id)
    else None
  }

  ghost predicate DownEnabled(s: State, step: AD.Step) {
    && AD.Enabled(s.back, step)
    && (Sent(s.back, step).Some? ==> CanReceive(s.front))
    && match step
       case Cancel => false
       case Receive(input, _) => s.front.queues.deliveries != [] && Carries(s.front.queues.deliveries[0], input)
       case InputClosed => s.front.parser.stopped && s.front.queues.deliveries == []
       case _ => true
  }

  ghost predicate Enabled(s: State, step: Step) {
    match step
    case Up(up) => FrontEnabled(s.front, up) && (up == Environment(SinkStops) ==> s.back.phase.Stopped?)
    case Down(down) => DownEnabled(s, down)
  }

  function DownFront(s: State, step: AD.Step): Front {
    var sent := Sent(s.back, step);
    if sent.Some? then SendEvent(s.front, sent.value)
    else if step.Receive? && s.front.queues.deliveries != [] then TakeDelivery(s.front)
    else s.front
  }

  /** Cancellation reaches the barrier too. */
  function UpBack(back: AD.State, up: FrontStep): AD.State {
    if up == Environment(Cancel) then back.(cancelled := true) else back
  }

  ghost function Next(s: State, step: Step): State
    requires Enabled(s, step)
  {
    match step
    case Up(up) => State(FrontNext(s.front, up), UpBack(s.back, up))
    case Down(down) => State(DownFront(s, down), AD.Next(s.back, down))
  }

  ghost predicate IsPath(trace: seq<State>, steps: seq<Step>) {
    && |trace| == |steps| + 1
    && forall i | 0 <= i < |steps| :: Enabled(trace[i], steps[i]) && trace[i + 1] == Next(trace[i], steps[i])
  }

  ghost predicate IsRun(trace: seq<State>, steps: seq<Step>) {
    IsPath(trace, steps) && Init(trace[0])
  }

  // ---------------------------------------------------------------------------------------
  // What is durable downstream
  // ---------------------------------------------------------------------------------------

  /** The inputs of the barrier are numbered from one. */
  ghost predicate Numbered(inputs: seq<AD.Input>) {
    forall k | 0 <= k < |inputs| :: AE.InputId(inputs[k]) == k + 1
  }

  /** The largest id sent so far. */
  function Highest(events: seq<nat>): nat {
    if events == [] then 0 else Max(Highest(events[..|events| - 1]), events[|events| - 1])
  }

  /** The first `safe` inputs are durable: the deliveries among them are written, the datasets acknowledged. */
  ghost predicate Covers(back: AD.State, safe: nat) {
    && safe <= |back.consumed|
    && |AD.DataOf(back.consumed[..safe])| <= back.sink.durable
    && AD.DatasetsOf(back.consumed[..safe]) <= back.acked
  }

  /** What it means for one input. */
  ghost predicate Durable(back: AD.State, id: nat)
    requires 1 <= id <= |back.consumed| && back.sink.durable <= |back.sink.entered|
  {
    match back.consumed[id - 1]
    case Data(delivery) => delivery in back.sink.entered[..back.sink.durable]
    case Dataset(_, _) => id in back.acked
  }

  lemma {:induction false} OfPrefix(inputs: seq<AD.Input>, n: nat)
    requires n <= |inputs|
    ensures AD.DataOf(inputs[..n]) <= AD.DataOf(inputs)
    ensures AD.DatasetsOf(inputs[..n]) <= AD.DatasetsOf(inputs)
  {
    if n == |inputs| {
      assert inputs[..n] == inputs;
    } else {
      var init := inputs[..|inputs| - 1];
      OfPrefix(init, n);
      assert init[..n] == inputs[..n];
    }
  }

  /** A delivery's id says where it stands in the input, and how many deliveries came up to there. */
  lemma {:induction false} DataPosition(inputs: seq<AD.Input>, j: nat)
    requires Numbered(inputs) && j < |AD.DataOf(inputs)|
    ensures var d := AD.DataOf(inputs)[j];
            1 <= d.id <= |inputs| && inputs[d.id - 1] == AD.Data(d) && |AD.DataOf(inputs[..d.id])| == j + 1
  {
    var n := |inputs| - 1;
    var init := inputs[..n];
    if j < |AD.DataOf(init)| {
      DataPosition(init, j);
      var d := AD.DataOf(init)[j];
      assert AD.DataOf(inputs)[j] == d;
      assert init[..d.id] == inputs[..d.id];
    } else {
      assert inputs[..|inputs|] == inputs;
    }
  }

  lemma {:induction false} InDataOf(inputs: seq<AD.Input>, k: nat)
    requires k < |inputs|
    ensures inputs[k].Data? ==> inputs[k].delivery in AD.DataOf(inputs)
    ensures inputs[k].Dataset? ==> inputs[k].id in AD.DatasetsOf(inputs)
  {
    if k < |inputs| - 1 {
      InDataOf(inputs[..|inputs| - 1], k);
    }
  }

  /** Covered inputs are durable one by one. */
  lemma CoveredIsDurable(back: AD.State, safe: nat, id: nat)
    requires AD.Inv(back) && Covers(back, safe) && Numbered(back.consumed) && 1 <= id <= safe
    ensures Durable(back, id)
  {
    var prefix := back.consumed[..safe];
    InDataOf(prefix, id - 1);
    OfPrefix(back.consumed, safe);
    var data := AD.DataOf(back.consumed);
    assert back.sink.entered <= data;
    if prefix[id - 1].Data? {
      var d := prefix[id - 1].delivery;
      var j :| 0 <= j < |AD.DataOf(prefix)| && AD.DataOf(prefix)[j] == d;
      assert data[j] == d && back.sink.entered[j] == d;
      assert back.sink.entered[..back.sink.durable][j] == d;
    }
  }

  /** Nothing durable is lost again. */
  ghost predicate Grows(a: AD.State, b: AD.State) {
    a.consumed <= b.consumed && a.sink.durable <= b.sink.durable && a.acked <= b.acked
  }

  lemma CoversGrows(a: AD.State, b: AD.State, safe: nat)
    requires Covers(a, safe) && Grows(a, b)
    ensures Covers(b, safe)
  {
    assert b.consumed[..safe] == a.consumed[..safe];
  }

  lemma BackGrows(s: AD.State, step: AD.Step)
    requires AD.Enabled(s, step)
    ensures Grows(s, AD.Next(s, step))
    ensures AD.Next(s, step).events == s.events + (if Sent(s, step).Some? then [Sent(s, step).value] else [])
  {
    AD.ConsumedGrows(s, step);
  }

  /** A report covers everything up to the reported delivery. */
  lemma ReportCovers(s: AD.State, upTo: nat)
    requires AD.Inv(s) && AE.DatasetIsLast(s) && Numbered(s.consumed) && AD.Enabled(s, AD.SinkReports(upTo))
    ensures var id := s.sink.entered[upTo - 1].id; 1 <= id && Covers(s, id)
  {
    var data, datasets := AD.DataOf(s.consumed), AD.DatasetsOf(s.consumed);
    assert s.sink.entered <= data;
    DataPosition(s.consumed, upTo - 1);
    var id := data[upTo - 1].id;
    assert datasets == s.acked + AD.HeldDataset(s.phase);
    if AD.HeldDataset(s.phase) == [] {
      OfPrefix(s.consumed, id);
    } else {
      var init := s.consumed[..|s.consumed| - 1];
      assert AD.DatasetsOf(init) == s.acked;
      OfPrefix(init, id);
      assert init[..id] == s.consumed[..id];
    }
  }

  /** An acknowledgement covers everything taken from the input so far. */
  lemma AcknowledgementCovers(s: AD.State)
    requires AD.Inv(s) && AE.DatasetIsLast(s) && Numbered(s.consumed) && s.phase.Acknowledging?
    ensures s.phase.id == |s.consumed| && 1 <= s.phase.id
    ensures Covers(AD.Next(s, AD.Acknowledge(true)), s.phase.id)
  {
    assert s.consumed[..|s.consumed|] == s.consumed;
  }

  // ---------------------------------------------------------------------------------------
  // The invariant
  // ---------------------------------------------------------------------------------------

  ghost predicate BackInv(back: AD.State) {
    AD.Inv(back) && AE.DatasetIsLast(back) && Numbered(back.consumed) && Covers(back, Highest(back.events))
  }

  /** The upstream half, given what was taken and sent downstream. */
  ghost predicate Upstream(front: Front, received: nat, events: seq<nat>) {
    && FrontInv(front, received, Highest(events))
    && (Increasing(events) ==> InOrder(front, None, Highest(events) + 1))
  }

  ghost predicate Inv(s: State) {
    BackInv(s.back) && Upstream(s.front, |s.back.consumed| + 1, s.back.events)
  }

  lemma InitInv(s: State)
    requires Init(s)
    ensures Inv(s)
  {
    InitKeepsFront(s.front);
    InitKeepsBack(s.back);
  }

  lemma InitKeepsBack(back: AD.State)
    requires AD.Init(back)
    ensures BackInv(back) && back.consumed == [] && back.events == []
  {
    assert back.consumed[..0] == [];
  }

  lemma UpKeepsBack(back: AD.State, up: FrontStep)
    requires BackInv(back)
    ensures BackInv(UpBack(back, up))
    ensures UpBack(back, up).consumed == back.consumed && UpBack(back, up).events == back.events
  {
    AD.StepKeepsInv(back, AD.Cancel);
  }

  lemma UpKeepsUpstream(front: Front, up: FrontStep, received: nat, events: seq<nat>)
    requires Upstream(front, received, events) && FrontEnabled(front, up)
    ensures Upstream(FrontNext(front, up), received, events)
  {
    StepKeepsFront(front, up, received, Highest(events));
    if Increasing(events) {
      StepKeepsOrder(front, up, received, Highest(events), None, Highest(events) + 1);
    }
  }

  lemma UpKeepsInv(s: State, up: FrontStep)
    requires Inv(s) && Enabled(s, Up(up))
    ensures Inv(Next(s, Up(up)))
  {
    UpKeepsUpstream(s.front, up, |s.back.consumed| + 1, s.back.events);
    UpKeepsBack(s.back, up);
  }

  lemma HighestOf(events: seq<nat>, id: nat)
    requires id >= 1
    ensures Highest(events + [id]) == Max(Highest(events), id)
    ensures Increasing(events + [id]) ==> Increasing(events) && Highest(events) < id
  {
    assert (events + [id])[..|events|] == events;
    if Increasing(events + [id]) {
      assert forall i | 0 <= i < |events| :: events[i] == (events + [id])[i] < (events + [id])[|events|];
      HighestBelow(events, id);
    }
  }

  lemma {:induction false} HighestBelow(events: seq<nat>, id: nat)
    requires id >= 1 && forall i | 0 <= i < |events| :: events[i] < id
    ensures Highest(events) < id
  {
    if events != [] {
      HighestBelow(events[..|events| - 1], id);
    }
  }

  /** Sending an id that is durable downstream keeps the upstream half. */
  lemma SendKeepsUpstream(front: Front, id: nat, received: nat, events: seq<nat>)
    requires Upstream(front, received, events) && CanReceive(front) && 1 <= id < received
    ensures Upstream(SendEvent(front, id), received, events + [id])
  {
    var safe := Highest(events);
    HighestOf(events, id);
    SafeGrows(front, received, safe, Max(safe, id));
    SendEventKeepsFront(front, id, received, Max(safe, id));
    if Increasing(events + [id]) {
      OrderedReport(front.commit, front.queues.events, id, Popped(front.book), safe + 1);
    }
  }

  lemma TakeKeepsUpstream(front: Front, received: nat, events: seq<nat>)
    requires Upstream(front, received, events) && front.queues.deliveries != []
    ensures front.queues.deliveries[0].id == received
    ensures Upstream(TakeDelivery(front), received + 1, events)
  {
    TakeDeliveryKeepsFront(front, received, Highest(events));
  }

  /** The barrier's own step keeps its half, if the next input carries the next number. */
  lemma DownKeepsBack(s: AD.State, step: AD.Step)
    requires BackInv(s) && AD.Enabled(s, step)
    requires step.Receive? ==> AE.InputId(step.input) == |s.consumed| + 1
    ensures BackInv(AD.Next(s, step))
    ensures Sent(s, step).Some? ==> 1 <= Sent(s, step).value <= |s.consumed|
  {
    var s' := AD.Next(s, step);
    AD.StepKeepsInv(s, step);
    AE.StepKeepsDatasetLast(s, step);
    AD.ConsumedGrows(s, step);
    BackGrows(s, step);
    CoversGrows(s, s', Highest(s.events));
    if Sent(s, step).Some? {
      SentIsCovered(s, step);
      HighestOf(s.events, Sent(s, step).value);
    } else {
      assert s'.events == s.events;
    }
  }

  lemma SentIsCovered(s: AD.State, step: AD.Step)
    requires BackInv(s) && AD.Enabled(s, step) && Sent(s, step).Some?
    ensures 1 <= Sent(s, step).value <= |s.consumed|
    ensures Covers(AD.Next(s, step), Sent(s, step).value)
  {
    if step.SinkReports? {
      ReportCovers(s, step.upTo);
      BackGrows(s, step);
      CoversGrows(s, AD.Next(s, step), Sent(s, step).value);
    } else {
      AcknowledgementCovers(s);
    }
  }

  lemma DownKeepsInv(s: State, down: AD.Step)
    requires Inv(s) && Enabled(s, Down(down))
    ensures Inv(Next(s, Down(down)))
  {
    var received, events := |s.back.consumed| + 1, s.back.events;
    BackGrows(s.back, down);
    AD.ConsumedGrows(s.back, down);
    if down.Receive? {
      TakeKeepsUpstream(s.front, received, events);
    }
    DownKeepsBack(s.back, down);
    if Sent(s.back, down).Some? {
      SendKeepsUpstream(s.front, Sent(s.back, down).value, received, events);
    } else {
      assert AD.Next(s.back, down).events == events;
    }
  }

  lemma StepKeepsInv(s: State, step: Step)
    requires Inv(s) && Enabled(s, step)
    ensures Inv(Next(s, step))
  {
    match step
    case Up(up) => UpKeepsInv(s, up);
    case Down(down) => DownKeepsInv(s, down);
  }

  lemma {:induction false} RunsKeepInv(trace: seq<State>, steps: seq<Step>, i: nat)
    requires IsRun(trace, steps) && i <= |steps|
    ensures Inv(trace[i])
  {
    if i == 0 {
      InitInv(trace[0]);
    } else {
      RunsKeepInv(trace, steps, i - 1);
      StepKeepsInv(trace[i - 1], steps[i - 1]);
    }
  }
}
