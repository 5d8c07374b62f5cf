/**
  What the reader waits for. A dataset holds the reader back from the moment it is sent until it is
  committed at the source, wherever it is in between: in a queue, in the parser, or in the hands of the
  admission barrier.
 */
module EvolvingBarriers {
  import opened Common
  import opened CommitLedger
  import opened PipelineFront
  import opened FrontSafety
  import opened EvolvingPipeline
  import AD = Admission

  ghost predicate HasDataset(envelopes: seq<Envelope>) {
    exists i | 0 <= i < |envelopes| :: envelopes[i].barrier
  }

  ghost predicate ParsesDataset(parser: Parser) {
    !parser.phase.ParserIdle? && parser.phase.envelope.barrier
  }

  /** A dataset is between the reader and the admission barrier. */
  ghost predicate DatasetOnItsWay(front: Front) {
    HasDataset(front.queues.envelopes) || ParsesDataset(front.parser) || HasDataset(front.queues.deliveries)
  }

  /** A dataset the admission barrier took is still in the ledger. */
  ghost predicate Uncommitted(datasets: seq<nat>, popped: int) {
    exists i | 0 <= i < |datasets| :: datasets[i] > popped
  }

  ghost predicate Waits(front: Front, datasets: seq<nat>) {
    DatasetOnItsWay(front) || Uncommitted(datasets, Popped(front.book)) ==> front.phase.Barrier? || front.phase.Stopped?
  }

  lemma {:induction false} DatasetPosition(inputs: seq<AD.Input>, j: nat)
    requires Numbered(inputs) && j < |AD.DatasetsOf(inputs)|
    ensures var id := AD.DatasetsOf(inputs)[j]; 1 <= id <= |inputs| && inputs[id - 1].Dataset?
  {
    var init := inputs[..|inputs| - 1];
    if j < |AD.DatasetsOf(init)| {
      DatasetPosition(init, j);
    }
  }

  /** Leaving the barrier: the ledger is empty, so nothing is on its way and everything taken is committed. */
  lemma BarrierDoneKeepsWaits(front: Front, datasets: seq<nat>, received: nat, safe: nat)
    requires FrontInv(front, received, safe) && ReaderEnabled(front, BarrierDone)
    requires forall i | 0 <= i < |datasets| :: datasets[i] < received
    ensures Waits(ReaderNext(front, BarrierDone), datasets)
  {
    EmptyLedgerIsCovered(front, received, safe);
  }

  lemma ReaderKeepsWaits(front: Front, step: ReaderStep, datasets: seq<nat>)
    requires Waits(front, datasets) && ReaderEnabled(front, step) && !step.BarrierDone?
    ensures Waits(ReaderNext(front, step), datasets)
  {
    ReaderKeepsEvents(front, step);
    if step.SendEnvelope? {
      SentIsLast(front.queues.envelopes, front.phase.envelope);
    }
  }

  lemma SentIsLast(envelopes: seq<Envelope>, envelope: Envelope)
    ensures HasDataset(envelopes + [envelope]) <==> HasDataset(envelopes) || envelope.barrier
  {
    var longer := envelopes + [envelope];
    assert longer[|envelopes|] == envelope;
    if HasDataset(envelopes) {
      var i :| 0 <= i < |envelopes| && envelopes[i].barrier;
      assert longer[i].barrier;
    }
  }

  lemma TakenIsFirst(envelopes: seq<Envelope>)
    requires envelopes != []
    ensures HasDataset(envelopes) <==> envelopes[0].barrier || HasDataset(envelopes[1..])
  {
    assert envelopes == [envelopes[0]] + envelopes[1..];
    if HasDataset(envelopes[1..]) {
      var i :| 0 <= i < |envelopes[1..]| && envelopes[1..][i].barrier;
      assert envelopes[i + 1].barrier;
    }
    if HasDataset(envelopes) {
      var i :| 0 <= i < |envelopes| && envelopes[i].barrier;
      assert i == 0 || envelopes[1..][i - 1].barrier;
    }
  }

  lemma CommitKeepsWaits(front: Front, step: CommitStep, datasets: seq<nat>)
    requires Waits(front, datasets) && CommitEnabled(front, step)
    ensures Waits(CommitNext(front, step), datasets)
  {
    var front' := CommitNext(front, step);
    assert Popped(front.book) <= Popped(front'.book);
    assert DatasetOnItsWay(front') <==> DatasetOnItsWay(front);
  }

  lemma ParserKeepsWaits(front: Front, step: ParserStep, datasets: seq<nat>)
    requires Waits(front, datasets) && ParserEnabled(front, step)
    ensures Waits(ParserNext(front, step), datasets)
  {
    match step
    case ParserReceives => TakenIsFirst(front.queues.envelopes);
    case ParserForwards => SentIsLast(front.queues.deliveries, front.parser.phase.envelope);
    case ParserAdmits(_) =>
    case ParserObserves(_) =>
  }

  lemma UpKeepsWaits(front: Front, up: FrontStep, datasets: seq<nat>, received: nat, safe: nat)
    requires Waits(front, datasets) && FrontEnabled(front, up) && FrontInv(front, received, safe)
    requires forall i | 0 <= i < |datasets| :: datasets[i] < received
    ensures Waits(FrontNext(front, up), datasets)
  {
    match up
    case Environment(_) =>
    case Reader(read) =>
      if read.BarrierDone? {
        BarrierDoneKeepsWaits(front, datasets, received, safe);
      } else {
        ReaderKeepsWaits(front, read, datasets);
      }
    case Committing(commit) => CommitKeepsWaits(front, commit, datasets);
    case Parsed(parse) => ParserKeepsWaits(front, parse, datasets);
  }

  /** A dataset passes from the queue to the admission barrier. */
  lemma TakeKeepsWaits(front: Front, datasets: seq<nat>, input: AD.Input)
    requires Waits(front, datasets) && front.queues.deliveries != [] && Carries(front.queues.deliveries[0], input)
    ensures Waits(TakeDelivery(front), datasets + (if input.Dataset? then [input.id] else []))
  {
    TakenIsFirst(front.queues.deliveries);
    var datasets' := datasets + (if input.Dataset? then [input.id] else []);
    if input.Data? {
      assert datasets' == datasets;
    }
  }

  lemma DownKeepsWaits(s: State, down: AD.Step)
    requires Waits(s.front, AD.DatasetsOf(s.back.consumed)) && Enabled(s, Down(down))
    ensures Waits(DownFront(s, down), AD.DatasetsOf(AD.Next(s.back, down).consumed))
  {
    AD.ConsumedGrows(s.back, down);
    if down.Receive? {
      AD.ConsumeOne(s.back.consumed, down.input);
      TakeKeepsWaits(s.front, AD.DatasetsOf(s.back.consumed), down.input);
    } else {
      var front' := DownFront(s, down);
      assert front'.phase == s.front.phase && front'.book == s.front.book && front'.parser == s.front.parser;
    }
  }

  lemma StepKeepsWaits(s: State, step: Step)
    requires Inv(s) && Waits(s.front, AD.DatasetsOf(s.back.consumed)) && Enabled(s, step)
    ensures Waits(Next(s, step).front, AD.DatasetsOf(Next(s, step).back.consumed))
  {
    match step
    case Up(up) =>
      forall j | 0 <= j < |AD.DatasetsOf(s.back.consumed)|
        ensures AD.DatasetsOf(s.back.consumed)[j] < |s.back.consumed| + 1
      {
        DatasetPosition(s.back.consumed, j);
      }
      UpKeepsWaits(s.front, up, AD.DatasetsOf(s.back.consumed), |s.back.consumed| + 1, Highest(s.back.events));
    case Down(down) => DownKeepsWaits(s, down);
  }

  lemma {:induction false} RunsKeepWaits(trace: seq<State>, steps: seq<Step>, i: nat)
    requires IsRun(trace, steps) && i <= |steps|
    ensures Waits(trace[i].front, AD.DatasetsOf(trace[i].back.consumed))
  {
    if i > 0 {
      RunsKeepWaits(trace, steps, i - 1);
      RunsKeepInv(trace, steps, i - 1);
      StepKeepsWaits(trace[i - 1], steps[i - 1]);
    }
  }

  /** Nothing is read behind a dataset. Whenever the reader takes a batch from the source, no dataset is on
      its way, and every dataset the admission barrier ever took has been acknowledged after its
      preparation and committed at the source. */
  lemma NothingIsReadBehindDataset(trace: seq<State>, steps: seq<Step>, i: nat, batch: Batch)
    requires IsRun(trace, steps) && i < |steps| && steps[i] == Up(Reader(ReadBatch(batch)))
    ensures var front, back := trace[i].front, trace[i].back;
            && !DatasetOnItsWay(front)
            && forall j | 0 <= j < |AD.DatasetsOf(back.consumed)| ::
                 AD.DatasetsOf(back.consumed)[j] <= front.book.covered && AD.DatasetsOf(back.consumed)[j] in back.acked
  {
    RunsKeepWaits(trace, steps, i);
    RunsKeepInv(trace, steps, i);
    assert Enabled(trace[i], steps[i]);
    var front, back := trace[i].front, trace[i].back;
    forall j | 0 <= j < |AD.DatasetsOf(back.consumed)|
      ensures AD.DatasetsOf(back.consumed)[j] <= front.book.covered && AD.DatasetsOf(back.consumed)[j] in back.acked
    {
      DatasetPosition(back.consumed, j);
      CoveredIsDurable(back, Highest(back.events), AD.DatasetsOf(back.consumed)[j]);
    }
  }
}
