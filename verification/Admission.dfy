/**
  The dataset admission barrier as a step system.

  The coordinator feeds one sink through a series of sessions. A session runs concurrently and
  is closed and drained before the catalog may change. The environment cancels, closes the input,
  refuses, writes, reports and ends sessions. It has two obligations, which are the sink contract: a
  session that ends well after its input was closed, without cancellation, has drained all its writes;
  and a session reports only what is written, in order and once.
 */
module Admission {
  import opened Common

  type Name = string

  datatype Delivery = Delivery(id: nat, datasets: set<Name>)

  datatype Input = Data(delivery: Delivery) | Dataset(id: nat, dataset: Name)

  datatype Barrier =
    | NoBarrier
    | Rejected
    | SourceBarrier(id: nat, dataset: Name)
    | DataBarrier(delivery: Delivery, missing: seq<Name>)

  datatype Outcome = Completed | Failed

  datatype Phase =
    | Opening(pending: Option<Delivery>)        // no session; one is about to start
    | Priming(first: Delivery)                  // the delivery that waited for its datasets goes in first
    | Listening
    | Offering(delivery: Delivery)
    | Closing(barrier: Barrier)                 // session input dropped, session being awaited
    | Checking(barrier: Barrier)                // session over
    | PreparingSource(id: nat, dataset: Name)
    | InstallingSource(id: nat, dataset: Name)
    | AckChecking(id: nat, dataset: Name)
    | Acknowledging(id: nat, dataset: Name)
    | PreparingData(delivery: Delivery, missing: seq<Name>)
    | InstallingData(delivery: Delivery, missing: seq<Name>)
    | Stopped(outcome: Outcome)

  /** The sink: whether a session runs, what went in, how much of it is durable and reported. */
  datatype SinkState = SinkState(session: bool, entered: seq<Delivery>, durable: nat, reported: nat, installed: set<Name>)

  datatype State = State(
    cancelled: bool,
    phase: Phase,
    catalog: set<Name>,
    sink: SinkState,
    refused: bool,
    lost: bool,
    consumed: seq<Input>,
    acked: seq<nat>,
    events: seq<nat>)

  datatype Step =
    | Cancel
    | SinkWrites(durable: nat)
    | SinkReports(upTo: nat)
    | SessionStops
    | OpenSession
    | Prime
    | PrimeFails
    | Receive(input: Input, missing: Result<seq<Name>, ()>)
    | InputClosed
    | SeeCancellation
    | Offer
    | OfferRefused
    | SessionEnds(ok: bool)
    | Check
    | Prepare(ok: bool)
    | Install(ok: bool)
    | Acknowledge(ok: bool)

  ghost predicate Init(s: State) {
    && !s.cancelled && s.phase == Opening(None) && s.catalog == s.sink.installed
    && !s.sink.session && s.sink.entered == [] && s.sink.durable == s.sink.reported == 0
    && !s.refused && !s.lost && s.consumed == [] && s.acked == [] && s.events == []
  }

  /** `pending_datasets`: the delivery's datasets that the catalog does not have yet. */
  ghost predicate IsPending(s: State, delivery: Delivery, missing: seq<Name>) {
    Elements(missing) == delivery.datasets - s.catalog
  }

  ghost predicate Enabled(s: State, step: Step) {
    match step
    case Cancel => true
    case SinkWrites(durable) => s.sink.session && s.sink.durable < durable <= |s.sink.entered|
    case SinkReports(upTo) => s.sink.session && s.sink.reported < upTo <= s.sink.durable && upTo <= |s.sink.entered|
    case SessionStops => s.phase.Listening? || s.phase.Offering?
    case OpenSession => s.phase.Opening?
    case Prime => s.phase.Priming?
    case PrimeFails => s.phase.Priming?
    case Receive(input, missing) =>
      s.phase.Listening? && (input.Data? && missing.Ok? ==> IsPending(s, input.delivery, missing.value))
    case InputClosed => s.phase.Listening?
    case SeeCancellation => s.cancelled && (s.phase.Listening? || s.phase.Offering?)
    case Offer => s.phase.Offering?
    case OfferRefused => s.phase.Offering?
    case SessionEnds(ok) => s.phase.Closing? && (ok && !s.cancelled ==> s.sink.durable == |s.sink.entered|)
    case Check => s.phase.Checking? || s.phase.AckChecking?
    case Prepare(_) => s.phase.PreparingSource? || (s.phase.PreparingData? && s.phase.missing != [])
    case Install(_) => s.phase.InstallingSource? || s.phase.InstallingData?
    case Acknowledge(_) => s.phase.Acknowledging?
  }

  function Stop(s: State, outcome: Outcome): State {
    s.(phase := Stopped(outcome), lost := s.lost || Held(s.phase).Some?)
  }

  /** The delivery the coordinator has taken from its input but not yet given to a session. */
  function Held(phase: Phase): Option<Delivery> {
    match phase
    case Opening(pending) => pending
    case Priming(first) => Some(first)
    case Offering(delivery) => Some(delivery)
    case Closing(DataBarrier(delivery, _)) => Some(delivery)
    case Checking(DataBarrier(delivery, _)) => Some(delivery)
    case PreparingData(delivery, _) => Some(delivery)
    case InstallingData(delivery, _) => Some(delivery)
    case _ => None
  }

  function Enter(s: State, delivery: Delivery): State {
    s.(sink := s.sink.(entered := s.sink.entered + [delivery]), phase := Listening)
  }

  function AfterReceive(s: State, input: Input, missing: Result<seq<Name>, ()>): State {
    var taken := s.(consumed := s.consumed + [input]);
    match input
    case Dataset(id, dataset) => taken.(phase := Closing(SourceBarrier(id, dataset)))
    case Data(delivery) =>
      if missing.Err? then taken.(phase := Closing(Rejected), lost := true)
      else if missing.value != [] then taken.(phase := Closing(DataBarrier(delivery, missing.value)))
      else taken.(phase := Offering(delivery))
  }

  function AfterCheck(s: State): State
    requires s.phase.Checking? || s.phase.AckChecking?
  {
    if s.cancelled then Stop(s, Completed)
    else if s.phase.AckChecking? then s.(phase := Acknowledging(s.phase.id, s.phase.dataset))
    else
      match s.phase.barrier
      case NoBarrier => Stop(s, Completed)
      case Rejected => Stop(s, Failed)
      case SourceBarrier(id, dataset) => s.(phase := PreparingSource(id, dataset))
      case DataBarrier(delivery, missing) => s.(phase := PreparingData(delivery, missing))
  }

  /** The dataset being prepared. */
  function Subject(phase: Phase): Name
    requires phase.PreparingSource? || phase.InstallingSource? || (phase.PreparingData? && phase.missing != [])
  {
    if phase.PreparingData? then phase.missing[0] else phase.dataset
  }

  function AfterPrepare(s: State): State
    requires s.phase.PreparingSource? || (s.phase.PreparingData? && s.phase.missing != [])
  {
    s.(catalog := s.catalog + {Subject(s.phase)},
       phase := if s.phase.PreparingSource? then InstallingSource(s.phase.id, s.phase.dataset)
                else InstallingData(s.phase.delivery, s.phase.missing[1..]))
  }

  function AfterInstall(s: State): State
    requires s.phase.InstallingSource? || s.phase.InstallingData?
  {
    var installed := s.(sink := s.sink.(installed := s.catalog));
    if s.phase.InstallingSource? then installed.(phase := AckChecking(s.phase.id, s.phase.dataset))
    else if s.phase.missing == [] then installed.(phase := Opening(Some(s.phase.delivery)))
    else installed.(phase := PreparingData(s.phase.delivery, s.phase.missing))
  }

  ghost function Next(s: State, step: Step): State
    requires Enabled(s, step)
  {
    match step
    case Cancel => s.(cancelled := true)
    case SinkWrites(durable) => s.(sink := s.sink.(durable := durable))
    case SinkReports(upTo) =>
      s.(sink := s.sink.(reported := upTo), events := s.events + [s.sink.entered[upTo - 1].id])
    case SessionStops => Stop(s.(sink := s.sink.(session := false)), Failed)
    case OpenSession =>
      s.(sink := s.sink.(session := true), phase := if s.phase.pending.Some? then Priming(s.phase.pending.value) else Listening)
    case Prime => Enter(s, s.phase.first)
    case PrimeFails => Stop(s.(sink := s.sink.(session := false)), Failed)
    case Receive(input, missing) => AfterReceive(s, input, missing)
    case InputClosed => s.(phase := Closing(NoBarrier))
    case SeeCancellation => s.(phase := Closing(NoBarrier), lost := s.lost || s.phase.Offering?)
    case Offer => Enter(s, s.phase.delivery)
    case OfferRefused => s.(phase := Closing(NoBarrier), lost := true, refused := true)
    case SessionEnds(ok) =>
      var ended := s.(sink := s.sink.(session := false));
      if ok then ended.(phase := Checking(s.phase.barrier)) else Stop(ended, Failed)
    case Check => AfterCheck(s)
    case Prepare(ok) => if ok then AfterPrepare(s) else Stop(s, Failed)
    case Install(ok) =>
      if s.phase.InstallingData? && s.cancelled then Stop(s, Completed)
      else if ok then AfterInstall(s)
      else Stop(s, Failed)
    case Acknowledge(ok) =>
      if ok then s.(acked := s.acked + [s.phase.id], events := s.events + [s.phase.id], phase := Opening(None))
      else Stop(s, Failed)
  }

  ghost predicate IsRun(trace: seq<State>, steps: seq<Step>) {
    && |trace| == |steps| + 1
    && Init(trace[0])
    && forall i | 0 <= i < |steps| :: Enabled(trace[i], steps[i]) && trace[i + 1] == Next(trace[i], steps[i])
  }

  // ---------------------------------------------------------------------------------------
  // The invariant
  // ---------------------------------------------------------------------------------------

  /** The deliveries among the inputs, in order. */
  ghost function DataOf(inputs: seq<Input>): seq<Delivery> {
    if inputs == [] then []
    else DataOf(inputs[..|inputs| - 1]) + (if inputs[|inputs| - 1].Data? then [inputs[|inputs| - 1].delivery] else [])
  }

  /** The dataset ids among the inputs, in order. */
  ghost function DatasetsOf(inputs: seq<Input>): seq<nat> {
    if inputs == [] then []
    else DatasetsOf(inputs[..|inputs| - 1]) + (if inputs[|inputs| - 1].Dataset? then [inputs[|inputs| - 1].id] else [])
  }

  function HeldSeq(phase: Phase): seq<Delivery> {
    if Held(phase).Some? then [Held(phase).value] else []
  }

  /** The dataset input being handled. */
  function HeldDataset(phase: Phase): seq<nat> {
    match phase
    case Closing(SourceBarrier(id, _)) => [id]
    case Checking(SourceBarrier(id, _)) => [id]
    case PreparingSource(id, _) => [id]
    case InstallingSource(id, _) => [id]
    case AckChecking(id, _) => [id]
    case Acknowledging(id, _) => [id]
    case _ => []
  }

  /** On the way out: nothing is taken from the input any more. */
  predicate Leaving(phase: Phase) {
    match phase
    case Closing(barrier) => barrier.NoBarrier? || barrier.Rejected?
    case Checking(barrier) => barrier.NoBarrier? || barrier.Rejected?
    case Stopped(_) => true
    case _ => false
  }

  predicate RejectedOrFailed(phase: Phase) {
    phase == Closing(Rejected) || phase == Checking(Rejected) || phase == Stopped(Failed)
  }

  /** `data` has entered sessions in order, with none lost or repeated, and one at most in hand. */
  ghost predicate InOrder(s: State, data: seq<Delivery>) {
    && (!s.lost ==> data == s.sink.entered + HeldSeq(s.phase))
    && (s.lost ==> |data| == |s.sink.entered| + 1 && s.sink.entered <= data)
    && (s.lost ==> Leaving(s.phase) && (s.cancelled || s.refused || RejectedOrFailed(s.phase)))
    && (s.refused ==> s.lost)
  }

  /** The dataset inputs are acknowledged in order, except for the one in hand. */
  ghost predicate AckedInOrder(s: State, datasets: seq<nat>) {
    && (!s.phase.Stopped? ==> datasets == s.acked + HeldDataset(s.phase))
    && s.acked <= datasets
  }

  ghost predicate OrderInv(s: State) {
    InOrder(s, DataOf(s.consumed)) && AckedInOrder(s, DatasetsOf(s.consumed))
  }

  predicate InSession(phase: Phase) {
    phase.Priming? || phase.Listening? || phase.Offering? || phase.Closing?
  }

  /** Past a drained session. */
  predicate Drained(phase: Phase) {
    || phase.PreparingSource? || phase.InstallingSource? || phase.AckChecking? || phase.Acknowledging?
    || phase.PreparingData? || phase.InstallingData? || phase.Opening?
  }

  ghost predicate SessionInv(s: State) {
    && (s.sink.session <==> InSession(s.phase))
    && s.sink.reported <= s.sink.durable <= |s.sink.entered|
    && (Drained(s.phase) ==> s.sink.durable == |s.sink.entered|)
    && (s.phase.Checking? && !s.cancelled ==> s.sink.durable == |s.sink.entered|)
  }

  /** Datasets of the delivery in hand that are still to be installed. */
  ghost predicate CatalogInv(s: State) {
    && s.sink.installed <= s.catalog
    && (!s.phase.InstallingSource? && !s.phase.InstallingData? && !s.phase.Stopped? ==> s.catalog == s.sink.installed)
    && (forall i | 0 <= i < |s.sink.entered| :: s.sink.entered[i].datasets <= s.sink.installed)
    && match s.phase
       case Opening(Some(d)) => d.datasets <= s.catalog
       case Priming(d) => d.datasets <= s.catalog
       case Offering(d) => d.datasets <= s.catalog
       case Closing(DataBarrier(d, missing)) => missing != [] && d.datasets <= s.catalog + Elements(missing)
       case Checking(DataBarrier(d, missing)) => missing != [] && d.datasets <= s.catalog + Elements(missing)
       case PreparingData(d, missing) => missing != [] && d.datasets <= s.catalog + Elements(missing)
       case InstallingData(d, missing) => d.datasets <= s.catalog + Elements(missing)
       case AckChecking(_, dataset) => dataset in s.catalog
       case Acknowledging(_, dataset) => dataset in s.catalog
       case InstallingSource(_, dataset) => dataset in s.catalog
       case _ => true
  }

  lemma ConsumeOne(inputs: seq<Input>, input: Input)
    ensures DataOf(inputs + [input]) == DataOf(inputs) + (if input.Data? then [input.delivery] else [])
    ensures DatasetsOf(inputs + [input]) == DatasetsOf(inputs) + (if input.Dataset? then [input.id] else [])
  {
    assert (inputs + [input])[..|inputs|] == inputs;
  }

  /** Steps of the sink, and the opening of a session. */
  predicate SinkSide(step: Step) {
    step.Cancel? || step.SinkWrites? || step.SinkReports? || step.SessionStops? || step.OpenSession? || step.Prime? || step.PrimeFails?
  }

  /** Steps of the inner loop. */
  predicate Feeding(step: Step) {
    step.Receive? || step.InputClosed? || step.SeeCancellation? || step.Offer? || step.OfferRefused?
  }

  /** Steps that end a session and look at why. */
  predicate Ending(step: Step) {
    step.SessionEnds? || step.Check?
  }

  /** Steps that change the catalog and acknowledge a dataset. */
  predicate Installing(step: Step) {
    step.Prepare? || step.Install? || step.Acknowledge?
  }

  lemma ConsumedGrows(s: State, step: Step)
    requires Enabled(s, step)
    ensures Next(s, step).consumed == if step.Receive? then s.consumed + [step.input] else s.consumed
  {
  }

  lemma SinkSideKeepsData(s: State, step: Step, data: seq<Delivery>)
    requires InOrder(s, data) && Enabled(s, step) && SinkSide(step)
    ensures InOrder(Next(s, step), data)
  {
  }

  lemma FeedingKeepsData(s: State, step: Step, data: seq<Delivery>)
    requires InOrder(s, data) && Enabled(s, step) && Feeding(step) && !step.Receive?
    ensures InOrder(Next(s, step), data)
  {
  }

  lemma EndingKeepsData(s: State, step: Step, data: seq<Delivery>)
    requires InOrder(s, data) && Enabled(s, step) && Ending(step)
    ensures InOrder(Next(s, step), data)
  {
    if Held(s.phase).Some? {
      assert s.lost || data[|s.sink.entered|] == Held(s.phase).value;
    }
  }

  lemma InstallingKeepsData(s: State, step: Step, data: seq<Delivery>)
    requires InOrder(s, data) && Enabled(s, step) && Installing(step)
    ensures InOrder(Next(s, step), data)
  {
    if Held(s.phase).Some? {
      assert s.lost || data[|s.sink.entered|] == Held(s.phase).value;
    }
  }

  lemma QuietKeepsData(s: State, step: Step, data: seq<Delivery>)
    requires InOrder(s, data) && Enabled(s, step) && !step.Receive?
    ensures InOrder(Next(s, step), data)
  {
    if SinkSide(step) { SinkSideKeepsData(s, step, data); }
    else if Feeding(step) { FeedingKeepsData(s, step, data); }
    else if Ending(step) { EndingKeepsData(s, step, data); }
    else { InstallingKeepsData(s, step, data); }
  }

  lemma QuietKeepsDatasets(s: State, step: Step, datasets: seq<nat>)
    requires AckedInOrder(s, datasets) && Enabled(s, step) && !step.Receive?
    ensures AckedInOrder(Next(s, step), datasets)
  {
  }

  lemma ReceiveKeepsOrder(s: State, input: Input, missing: Result<seq<Name>, ()>, data: seq<Delivery>, datasets: seq<nat>)
    requires s.phase.Listening? && InOrder(s, data) && AckedInOrder(s, datasets)
    ensures InOrder(AfterReceive(s, input, missing), data + (if input.Data? then [input.delivery] else []))
    ensures AckedInOrder(AfterReceive(s, input, missing), datasets + (if input.Dataset? then [input.id] else []))
  {
  }

  lemma StepKeepsOrder(s: State, step: Step)
    requires OrderInv(s) && Enabled(s, step)
    ensures OrderInv(Next(s, step))
  {
    ConsumedGrows(s, step);
    if step.Receive? {
      ConsumeOne(s.consumed, step.input);
      ReceiveKeepsOrder(s, step.input, step.missing, DataOf(s.consumed), DatasetsOf(s.consumed));
    } else {
      QuietKeepsData(s, step, DataOf(s.consumed));
      QuietKeepsDatasets(s, step, DatasetsOf(s.consumed));
    }
  }

  lemma SinkSideKeepsSession(s: State, step: Step)
    requires SessionInv(s) && Enabled(s, step) && SinkSide(step)
    ensures SessionInv(Next(s, step))
  {
  }

  lemma FeedingKeepsSession(s: State, step: Step)
    requires SessionInv(s) && Enabled(s, step) && Feeding(step)
    ensures SessionInv(Next(s, step))
  {
  }

  lemma BarrierKeepsSession(s: State, step: Step)
    requires SessionInv(s) && Enabled(s, step) && (Ending(step) || Installing(step))
    ensures SessionInv(Next(s, step))
  {
  }

  lemma MissingHead(missing: seq<Name>)
    requires missing != []
    ensures Elements(missing) == {missing[0]} + Elements(missing[1..])
  {
    forall x | x in Elements(missing) ensures x in {missing[0]} + Elements(missing[1..]) {
      var i :| 0 <= i < |missing| && missing[i] == x;
      if i > 0 { assert missing[1..][i - 1] == x; }
    }
    forall x | x in Elements(missing[1..]) ensures x in Elements(missing) {
      var i :| 0 <= i < |missing[1..]| && missing[1..][i] == x;
      assert missing[i + 1] == x;
    }
  }

  lemma SinkSideKeepsCatalog(s: State, step: Step)
    requires CatalogInv(s) && Enabled(s, step) && SinkSide(step)
    ensures CatalogInv(Next(s, step))
  {
  }

  lemma FeedingKeepsCatalog(s: State, step: Step)
    requires CatalogInv(s) && Enabled(s, step) && Feeding(step)
    ensures CatalogInv(Next(s, step))
  {
    if step.Receive? && step.input.Data? && step.missing.Ok? {
      NothingMissing(s, step.input.delivery, step.missing.value);
    }
  }

  lemma NothingMissing(s: State, delivery: Delivery, missing: seq<Name>)
    requires IsPending(s, delivery, missing)
    ensures delivery.datasets <= s.catalog + Elements(missing)
    ensures missing == [] ==> delivery.datasets <= s.catalog
  {
    if missing == [] {
      assert Elements(missing) == {};
    }
    forall x | x in delivery.datasets && x !in s.catalog ensures x in Elements(missing) {
      assert x in delivery.datasets - s.catalog;
    }
  }

  lemma EndingKeepsCatalog(s: State, step: Step)
    requires CatalogInv(s) && Enabled(s, step) && Ending(step)
    ensures CatalogInv(Next(s, step))
  {
  }

  lemma InstallingKeepsCatalog(s: State, step: Step)
    requires CatalogInv(s) && Enabled(s, step) && Installing(step)
    ensures CatalogInv(Next(s, step))
  {
    assert Elements<Name>([]) == {};
    if step.Prepare? && s.phase.PreparingData? {
      MissingHead(s.phase.missing);
    }
  }

  ghost predicate Inv(s: State) {
    OrderInv(s) && SessionInv(s) && CatalogInv(s)
  }

  lemma StepKeepsInv(s: State, step: Step)
    requires Inv(s) && Enabled(s, step)
    ensures Inv(Next(s, step))
  {
    StepKeepsOrder(s, step);
    if SinkSide(step) {
      SinkSideKeepsSession(s, step);
      SinkSideKeepsCatalog(s, step);
    } else if Feeding(step) {
      FeedingKeepsSession(s, step);
      FeedingKeepsCatalog(s, step);
    } else if Ending(step) {
      BarrierKeepsSession(s, step);
      EndingKeepsCatalog(s, step);
    } else {
      BarrierKeepsSession(s, step);
      InstallingKeepsCatalog(s, step);
    }
  }

  lemma {:induction false} RunsKeepInv(trace: seq<State>, steps: seq<Step>, i: nat)
    requires IsRun(trace, steps) && i <= |steps|
    ensures Inv(trace[i])
  {
    if i > 0 {
      RunsKeepInv(trace, steps, i - 1);
      StepKeepsInv(trace[i - 1], steps[i - 1]);
    }
  }

  // ---------------------------------------------------------------------------------------
  // Theorems about every run
  // ---------------------------------------------------------------------------------------

  /**
    Deliveries enter sessions in input order, once each. Unless one was dropped, everything taken
    from the input is in a session or in hand; one is dropped only on the way out, after a
    cancellation, a sink that closed its input, a rejected delivery or a failure. So a run that
    completes without any of these has passed on every delivery.
   */
  lemma DeliveriesKeepTheirOrder(trace: seq<State>, steps: seq<Step>, i: nat)
    requires IsRun(trace, steps) && i <= |steps|
    ensures var s := trace[i];
            && s.sink.entered <= DataOf(s.consumed)
            && |DataOf(s.consumed)| <= |s.sink.entered| + 1
            && (!s.lost ==> DataOf(s.consumed) == s.sink.entered + HeldSeq(s.phase))
            && (s.lost ==> s.cancelled || s.refused || RejectedOrFailed(s.phase))
            && (s.phase == Stopped(Completed) && !s.cancelled && !s.refused ==> s.sink.entered == DataOf(s.consumed))
  {
    RunsKeepInv(trace, steps, i);
  }

  /** A run that ends well, uncancelled, has passed on every delivery if and only if no session refused
      one by closing its input early: the code then ends well with that delivery dropped. */
  lemma CompletedRunPassesAllIff(trace: seq<State>, steps: seq<Step>, i: nat)
    requires IsRun(trace, steps) && i <= |steps|
    requires trace[i].phase == Stopped(Completed) && !trace[i].cancelled
    ensures trace[i].sink.entered == DataOf(trace[i].consumed) <==> !trace[i].refused
  {
    RunsKeepInv(trace, steps, i);
  }

  /** A delivery enters a session only when all its datasets are in the installed catalog. */
  lemma DeliveriesEnterWithTheirDatasets(trace: seq<State>, steps: seq<Step>, i: nat)
    requires IsRun(trace, steps) && i < |steps|
    requires trace[i + 1].sink.entered != trace[i].sink.entered
    ensures var entered := trace[i + 1].sink.entered;
            && |entered| > 0
            && entered == trace[i].sink.entered + [entered[|entered| - 1]]
            && entered[|entered| - 1].datasets <= trace[i].sink.installed
            && trace[i].sink.session
  {
    RunsKeepInv(trace, steps, i);
    EntersByOfferOrPrime(trace[i], steps[i]);
  }

  lemma EntersByOfferOrPrime(s: State, step: Step)
    requires Enabled(s, step)
    ensures step.Prime? ==> Next(s, step).sink.entered == s.sink.entered + [s.phase.first]
    ensures step.Offer? ==> Next(s, step).sink.entered == s.sink.entered + [s.phase.delivery]
    ensures !step.Prime? && !step.Offer? ==> Next(s, step).sink.entered == s.sink.entered
    ensures Next(s, step).sink.installed == s.sink.installed || step.Install?
  {
  }

  /** The catalog of the sink changes only while no session runs and everything sent is durable. */
  lemma CatalogChangesBetweenSessions(trace: seq<State>, steps: seq<Step>, i: nat)
    requires IsRun(trace, steps) && i < |steps|
    requires trace[i + 1].sink.installed != trace[i].sink.installed || steps[i].Install?
    ensures !trace[i].sink.session
    ensures trace[i].sink.durable == |trace[i].sink.entered|
    ensures trace[i].sink.installed <= trace[i + 1].sink.installed
  {
    RunsKeepInv(trace, steps, i);
    EntersByOfferOrPrime(trace[i], steps[i]);
  }

  /** A dataset is acknowledged only when it is installed and every delivery before it in the input
      has entered a session and been drained. */
  lemma AcknowledgementFollowsDrain(trace: seq<State>, steps: seq<Step>, i: nat)
    requires IsRun(trace, steps) && i < |steps| && steps[i] == Acknowledge(true)
    ensures var s := trace[i];
            && s.phase.dataset in s.sink.installed
            && s.sink.entered == DataOf(s.consumed)
            && s.sink.durable == |s.sink.entered|
            && trace[i + 1].acked == DatasetsOf(s.consumed)
            && trace[i + 1].acked == s.acked + [s.phase.id]
  {
    RunsKeepInv(trace, steps, i);
  }
}
