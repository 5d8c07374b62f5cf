/**
  Runs of the pipeline with evolving datasets. All of them read a delivery and then a dataset, and pass
  the dataset's barrier, so that the theorems about barriers are not empty. One goes on with a sink that
  drained without reporting, and ends in the reader's protocol error. One goes on with the dataset's
  first delivery, which a delivery tracker refuses.
 */
module EvolvingWitness {
  import opened Common
  import opened CommitLedger
  import opened PipelineFront
  import opened EvolvingPipeline
  import opened EvolvingRuns
  import AD = Admission
  import AW = AdmissionWitness
  import DT = DeliveryTracking

  const IDLE: Parser := Parser(ParserIdle, false)
  const EMPTY: Queues := Queues([], [], [])
  const NOTHING_ISSUED: Book := Book([], 1, [], [], 0)

  function At(phase: ReaderPhase, commit: Commit, book: Book, queues: Queues, parser: Parser): Front {
    Front(true, false, phase, commit, book, queues, parser, false, None)
  }

  /** Where all the runs start: no row counter, and an empty catalog. */
  const START: State := State(At(Reading, NoCommit, NOTHING_ISSUED, EMPTY, IDLE), AW.Fresh({}))

  lemma RunsFromStart(s: State)
    requires Leads(START, s)
    ensures exists trace, steps :: IsRun(trace, steps) && trace[|steps|] == s
  {
    var none: seq<Step> := [];
    assert IsRun([START], none);
    RunGoesOn([START], none, s);
  }

  // ---------------------------------------------------------------------------------------
  // The upstream half, whatever is downstream
  // ---------------------------------------------------------------------------------------

  /** The book with one more delivery issued. */
  function Issued(book: Book, marker: Option<Marker>): Book {
    var entry := LedgerEntry(book.nextId, marker);
    book.(ledger := book.ledger + [entry], issued := book.issued + [entry], nextId := NextId(book.nextId))
  }

  /** The reader reads a batch, issues it and sends it. */
  lemma ReaderSends(book: Book, batch: Batch, back: AD.State)
    requires Leads(START, State(At(Reading, NoCommit, book, EMPTY, IDLE), back)) && book.nextId < U64_MAX
    requires Carried(batch) && !(batch.Records? && batch.needsMemory)
    ensures Leads(START, State(At(if batch.NewDataset? then Barrier else Reading, NoCommit, Issued(book, MarkerOf(batch)),
                                  Queues([EnvelopeOf(batch, book.nextId)], [], []), IDLE), back))
  {
    var envelope := EnvelopeOf(batch, book.nextId);
    var f0 := At(Reading, NoCommit, book, EMPTY, IDLE);
    var f1, f2 := f0.(phase := Draining(batch)), f0.(phase := Sending(envelope), book := Issued(book, MarkerOf(batch)));
    UpStep(START, f0, Reader(ReadBatch(batch)), f1, back);
    UpStep(START, f1, Reader(DrainDone), f2, back);
    assert [] + [envelope] == [envelope];
    UpStep(START, f2, Reader(SendEnvelope), Send(f2), back);
  }

  /** The parser takes the envelope from the read queue and forwards it. */
  lemma ParserForwardsIt(phase: ReaderPhase, book: Book, envelope: Envelope, back: AD.State)
    requires Leads(START, State(At(phase, NoCommit, book, Queues([envelope], [], []), IDLE), back))
    ensures Leads(START, State(At(phase, NoCommit, book, Queues([], [envelope], []), IDLE), back))
  {
    var f0 := At(phase, NoCommit, book, Queues([envelope], [], []), IDLE);
    var f1 := At(phase, NoCommit, book, EMPTY, Parser(Parsing(envelope), false));
    var f2 := At(phase, NoCommit, book, EMPTY, Parser(Forwarding(envelope), false));
    assert [envelope][1..] == [] && [] + [envelope] == [envelope];
    UpStep(START, f0, Parsed(ParserReceives), f1, back);
    UpStep(START, f1, Parsed(ParserObserves([])), f2, back);
    UpStep(START, f2, Parsed(ParserForwards), At(phase, NoCommit, book, Queues([], [envelope], []), IDLE), back);
  }

  /** The reader takes an event and commits through it. */
  lemma ReaderCommits(book: Book, id: nat, back: AD.State)
    requires Leads(START, State(At(Barrier, NoCommit, book, Queues([], [], [id]), IDLE), back)) && InRange(book.ledger, id)
    ensures Leads(START, State(At(Barrier, NoCommit, Offer(book, id).(ledger := book.ledger[Covered(book.ledger, id)..]),
                                  EMPTY, IDLE), back))
  {
    var f0, f1 := At(Barrier, NoCommit, book, Queues([], [], [id]), IDLE), At(Barrier, Received(id), book, EMPTY, IDLE);
    assert [id][1..] == [];
    UpStep(START, f0, Committing(ReceiveEvent), f1, back);
    var f2 := f1.(commit := Validated(id));
    UpStep(START, f1, Committing(Validate), f2, back);
    var f3 := f1.(commit := SourceDone(id), book := Offer(book, id));
    UpStep(START, f2, Committing(CommitSource(true)), f3, back);
    UpStep(START, f3, Committing(Publish), PublishRows(f3), back);
  }

  // ---------------------------------------------------------------------------------------
  // The barrier, whatever is upstream
  // ---------------------------------------------------------------------------------------

  /** A delivery without datasets of its own, numbered one. The dataset after it is numbered two. */
  const DELIVERY: AD.Delivery := AD.Delivery(1, {})

  /** A session opens, the delivery enters it and is written. */
  lemma SinkWrites(front: Front)
    requires Leads(START, State(front, AW.Fresh({}))) && front.queues.deliveries != []
    requires front.queues.deliveries[0].id == 1 && !front.queues.deliveries[0].barrier
    ensures Leads(START, State(TakeDelivery(front), AW.Written(DELIVERY)))
  {
    var open := AW.Fresh({}).(phase := AD.Listening, sink := AD.SinkState(true, [], 0, 0, {}));
    DownStep(START, front, AW.Fresh({}), AD.OpenSession, open);
    assert Elements<AD.Name>([]) == {} == DELIVERY.datasets - open.catalog;
    assert [] + [AD.Data(DELIVERY)] == [AD.Data(DELIVERY)] && [] + [DELIVERY] == [DELIVERY];
    TakeStep(START, front, open, AD.Data(DELIVERY), AW.Offered(DELIVERY));
    var entered := AW.Offered(DELIVERY).(phase := AD.Listening, sink := AD.SinkState(true, [DELIVERY], 0, 0, {}));
    DownStep(START, TakeDelivery(front), AW.Offered(DELIVERY), AD.Offer, entered);
    DownStep(START, TakeDelivery(front), entered, AD.SinkWrites(1), AW.Written(DELIVERY));
  }

  function SessionOver(dataset: AD.Name): AD.State {
    var back := AW.Unreported(DELIVERY, 2, dataset);
    back.(phase := AD.PreparingSource(2, dataset), sink := back.sink.(session := false))
  }

  /** The dataset is taken and the session drained, without a report. */
  lemma SessionDrains(front: Front, dataset: AD.Name)
    requires Leads(START, State(front, AW.Written(DELIVERY))) && front.queues.deliveries != []
    requires front.queues.deliveries[0].id == 2 && front.queues.deliveries[0].barrier
    ensures Leads(START, State(TakeDelivery(front), SessionOver(dataset)))
  {
    var input, back := AD.Dataset(2, dataset), AW.Unreported(DELIVERY, 2, dataset);
    assert [AD.Data(DELIVERY)] + [input] == [AD.Data(DELIVERY), input];
    TakeStep(START, front, AW.Written(DELIVERY), input, back);
    var ended := back.(phase := AD.Checking(AD.SourceBarrier(2, dataset)), sink := back.sink.(session := false));
    DownStep(START, TakeDelivery(front), back, AD.SessionEnds(true), ended);
    DownStep(START, TakeDelivery(front), ended, AD.Check, SessionOver(dataset));
  }

  /** The dataset is installed and acknowledged. */
  lemma BarrierAcknowledges(front: Front, dataset: AD.Name)
    requires Leads(START, State(front, SessionOver(dataset))) && CanReceive(front)
    ensures Leads(START, State(SendEvent(front, 2), AW.Acknowledged(DELIVERY, 2, dataset)))
  {
    var drained := SessionOver(dataset);
    var prepared := drained.(phase := AD.InstallingSource(2, dataset), catalog := drained.catalog + {dataset});
    DownStep(START, front, drained, AD.Prepare(true), prepared);
    var installed := prepared.(phase := AD.AckChecking(2, dataset), sink := prepared.sink.(installed := prepared.catalog));
    DownStep(START, front, prepared, AD.Install(true), installed);
    DownStep(START, front, installed, AD.Check, AW.Unacknowledged(DELIVERY, 2, dataset));
    assert [] + [2] == [2];
    SendStep(START, front, AW.Unacknowledged(DELIVERY, 2, dataset), AD.Acknowledge(true), 2,
             AW.Acknowledged(DELIVERY, 2, dataset));
  }

  /** The next session is open. */
  function Reopened(dataset: AD.Name): AD.State {
    var back := AW.Acknowledged(DELIVERY, 2, dataset);
    back.(phase := AD.Listening, sink := back.sink.(session := true))
  }

  /** The first delivery of the new dataset. */
  function NextDelivery(dataset: AD.Name): AD.Delivery { AD.Delivery(3, {dataset}) }

  /** It enters the next session. */
  lemma NextDeliveryEnters(front: Front, dataset: AD.Name)
    requires Leads(START, State(front, AW.Acknowledged(DELIVERY, 2, dataset))) && front.queues.deliveries != []
    requires front.queues.deliveries[0].id == 3 && !front.queues.deliveries[0].barrier
    ensures exists back ::
              Leads(START, State(TakeDelivery(front), back)) && back.sink.entered == [DELIVERY, NextDelivery(dataset)]
  {
    var open, next := Reopened(dataset), NextDelivery(dataset);
    DownStep(START, front, AW.Acknowledged(DELIVERY, 2, dataset), AD.OpenSession, open);
    assert Elements<AD.Name>([]) == {} == next.datasets - open.catalog;
    var offered := open.(phase := AD.Offering(next), consumed := open.consumed + [AD.Data(next)]);
    TakeStep(START, front, open, AD.Data(next), offered);
    assert [DELIVERY] + [next] == [DELIVERY, next];
    DownStep(START, TakeDelivery(front), offered, AD.Offer, AD.Enter(offered, next));
  }

  // ---------------------------------------------------------------------------------------
  // Past the dataset
  // ---------------------------------------------------------------------------------------

  function OneIssued(marker: Marker): Book { Issued(NOTHING_ISSUED, Some(marker)) }

  /** The delivery and the dataset issued, each with its marker. */
  function TwoIssued(marker: Marker, point: Marker): Book { Issued(OneIssued(marker), Some(point)) }

  /** Both issued, both markers handed to the source, the ledger empty. */
  function Settled(marker: Marker, point: Marker): Book {
    TwoIssued(marker, point).(ledger := [], offered := [[marker, point]], covered := 2)
  }

  lemma FirstIsWritten(marker: Marker)
    ensures Leads(START, State(At(Reading, NoCommit, OneIssued(marker), EMPTY, IDLE), AW.Written(DELIVERY)))
  {
    LeadsToItself(START);
    ReaderSends(NOTHING_ISSUED, Records(Some(marker), 1, false), AW.Fresh({}));
    ParserForwardsIt(Reading, OneIssued(marker), Envelope(1, false, 1), AW.Fresh({}));
    SinkWrites(At(Reading, NoCommit, OneIssued(marker), Queues([], [Envelope(1, false, 1)], []), IDLE));
  }

  lemma DatasetIsAcknowledged(marker: Marker, point: Marker, dataset: AD.Name)
    ensures Leads(START, State(At(Barrier, NoCommit, TwoIssued(marker, point), Queues([], [], [2]), IDLE),
                               AW.Acknowledged(DELIVERY, 2, dataset)))
  {
    FirstIsWritten(marker);
    ReaderSends(OneIssued(marker), NewDataset(point), AW.Written(DELIVERY));
    ParserForwardsIt(Barrier, TwoIssued(marker, point), Envelope(2, true, 0), AW.Written(DELIVERY));
    SessionDrains(At(Barrier, NoCommit, TwoIssued(marker, point), Queues([], [Envelope(2, true, 0)], []), IDLE), dataset);
    BarrierAcknowledges(At(Barrier, NoCommit, TwoIssued(marker, point), EMPTY, IDLE), dataset);
    assert [] + [2] == [2];
  }

  lemma GroupOfTwo(marker: Marker, point: Marker)
    ensures var book := TwoIssued(marker, point);
            && InRange(book.ledger, 2)
            && Offer(book, 2).(ledger := book.ledger[Covered(book.ledger, 2)..]) == Settled(marker, point)
  {
    var first, second := LedgerEntry(1, Some(marker)), LedgerEntry(2, Some(point));
    var entries := TwoIssued(marker, point).ledger;
    assert entries == [first, second];
    assert entries[1..] == [second] && [second][1..] == [] && Covered([second], 2) == 1;
    assert entries[..2] == entries && entries[..1] == [first] && [first][..0] == [];
    assert Markers([]) == [] && Markers([first]) == [marker] && Markers(entries) == [marker, point];
    assert [] + [[marker, point]] == [[marker, point]];
  }

  lemma DatasetIsCommitted(marker: Marker, point: Marker, dataset: AD.Name)
    ensures Leads(START, State(At(Barrier, NoCommit, Settled(marker, point), EMPTY, IDLE),
                               AW.Acknowledged(DELIVERY, 2, dataset)))
  {
    DatasetIsAcknowledged(marker, point, dataset);
    GroupOfTwo(marker, point);
    ReaderCommits(TwoIssued(marker, point), 2, AW.Acknowledged(DELIVERY, 2, dataset));
  }

  lemma BarrierIsLeft(marker: Marker, point: Marker, dataset: AD.Name)
    ensures Leads(START, State(At(Reading, NoCommit, Settled(marker, point), EMPTY, IDLE),
                               AW.Acknowledged(DELIVERY, 2, dataset)))
  {
    DatasetIsCommitted(marker, point, dataset);
    UpStep(START, At(Barrier, NoCommit, Settled(marker, point), EMPTY, IDLE), Reader(BarrierDone),
           At(Reading, NoCommit, Settled(marker, point), EMPTY, IDLE), AW.Acknowledged(DELIVERY, 2, dataset));
  }

  // ---------------------------------------------------------------------------------------
  // The runs
  // ---------------------------------------------------------------------------------------

  /** A run reads past a dataset: its last step is the reader leaving the barrier, with the dataset's marker
      handed to the source. */
  lemma SomeRunPassesBarrier(marker: Marker, point: Marker, dataset: AD.Name)
    ensures exists trace: seq<State>, steps: seq<Step> ::
              && IsRun(trace, steps) && steps != [] && steps[|steps| - 1] == Up(Reader(BarrierDone))
              && trace[|steps|].front.book == Settled(marker, point)
  {
    DatasetIsCommitted(marker, point, dataset);
    LeaveBarrier(State(At(Barrier, NoCommit, Settled(marker, point), EMPTY, IDLE), AW.Acknowledged(DELIVERY, 2, dataset)));
  }

  lemma LeaveBarrier(s: State)
    requires Leads(START, s) && s.front.phase.Barrier? && s.front.commit.NoCommit? && s.front.book.ledger == []
    ensures exists trace: seq<State>, steps: seq<Step> ::
              && IsRun(trace, steps) && steps != [] && steps[|steps| - 1] == Up(Reader(BarrierDone))
              && trace[|steps|] == State(s.front.(phase := Reading), s.back)
  {
    RunsFromStart(s);
    var trace: seq<State>, steps: seq<Step> :| IsRun(trace, steps) && trace[|steps|] == s;
    RunTakes(trace, steps, Up(Reader(BarrierDone)));
  }

  /** The next session reports the delivery that the drained one had not, and the reader stops: it has
      dropped that delivery from its ledger together with the dataset. */
  lemma UnreportedDrainStopsReader(marker: Marker, point: Marker, dataset: AD.Name)
    ensures exists trace: seq<State>, steps: seq<Step> ::
              IsRun(trace, steps) && trace[|steps|].front.phase == Stopped(Failed(SinkIdOutOfRange))
  {
    BarrierIsLeft(marker, point, dataset);
    var back, f1 := AW.Acknowledged(DELIVERY, 2, dataset), At(Reading, NoCommit, Settled(marker, point), EMPTY, IDLE);
    var f2 := f1.(phase := Draining(Nothing));
    UpStep(START, f1, Reader(ReadBatch(Nothing)), f2, back);
    DownStep(START, f2, back, AD.OpenSession, Reopened(dataset));
    var after := AD.Next(Reopened(dataset), AD.SinkReports(1));
    SendStep(START, f2, Reopened(dataset), AD.SinkReports(1), 1, after);
    assert [] + [1] == [1];
    StaleReportStops(SendEvent(f2, 1), after);
  }

  lemma StaleReportStops(front: Front, back: AD.State)
    requires Leads(START, State(front, back)) && front.phase.Draining? && front.commit.NoCommit?
    requires front.book.ledger == [] && front.queues.events == [1]
    ensures exists trace: seq<State>, steps: seq<Step> ::
              IsRun(trace, steps) && trace[|steps|].front.phase == Stopped(Failed(SinkIdOutOfRange))
  {
    var f1 := Receive(front);
    UpStep(START, front, Committing(ReceiveEvent), f1, back);
    var f2 := StopWith(f1, SinkIdOutOfRange);
    UpStep(START, f1, Committing(Validate), f2, back);
    RunsFromStart(State(f2, back));
  }

  lemma NextDeliveryIsForwarded(marker: Marker, point: Marker, third: Option<Marker>, dataset: AD.Name)
    ensures Leads(START, State(At(Reading, NoCommit, Issued(Settled(marker, point), third),
                                  Queues([], [Envelope(3, false, 1)], []), IDLE), AW.Acknowledged(DELIVERY, 2, dataset)))
  {
    BarrierIsLeft(marker, point, dataset);
    ReaderSends(Settled(marker, point), Records(third, 1, false), AW.Acknowledged(DELIVERY, 2, dataset));
    ParserForwardsIt(Reading, Issued(Settled(marker, point), third), Envelope(3, false, 1),
                     AW.Acknowledged(DELIVERY, 2, dataset));
  }

  lemma NextDeliveryEntersSomeRun(marker: Marker, point: Marker, third: Option<Marker>, dataset: AD.Name)
    ensures exists trace: seq<State>, steps: seq<Step> ::
              IsRun(trace, steps) && trace[|steps|].back.sink.entered == [DELIVERY, NextDelivery(dataset)]
  {
    NextDeliveryIsForwarded(marker, point, third, dataset);
    var front := At(Reading, NoCommit, Issued(Settled(marker, point), third), Queues([], [Envelope(3, false, 1)], []), IDLE);
    NextDeliveryEnters(front, dataset);
    var back :| Leads(START, State(TakeDelivery(front), back)) && back.sink.entered == [DELIVERY, NextDelivery(dataset)];
    RunsFromStart(State(TakeDelivery(front), back));
  }

  /** Behind a dataset a tracking sink fails: a run exists in which the dataset's first delivery enters a
      session, and a tracker that was offered the delivery before it, with any completions and takes,
      refuses it. */
  lemma DeliveryAfterDatasetIsRefused(
    marker: Marker, point: Marker, third: Option<Marker>, dataset: AD.Name, ops: seq<DT.Op>, units: nat, messages: nat)
    requires DT.OfferedIds(ops) == [DELIVERY.id]
    ensures exists trace: seq<State>, steps: seq<Step> ::
              IsRun(trace, steps) && trace[|steps|].back.sink.entered == [DELIVERY, NextDelivery(dataset)]
    ensures DT.Accept(DT.RunOf(ops).tracker, NextDelivery(dataset).id, units, messages) == Err(DT.OrderViolation)
  {
    NextDeliveryEntersSomeRun(marker, point, third, dataset);
    DT.AcceptsIffNoneLeftOut(ops, NextDelivery(dataset).id, units, messages);
  }
}
