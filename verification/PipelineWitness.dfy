/**
  The theorems about pipeline runs are not empty: a run exists that reads one delivery, counts its rows,
  carries it through parser and sink, commits its marker at the source, publishes the rows and drains.
 */
module PipelineWitness {
  import opened Common
  import opened CommitLedger
  import opened PipelineFront
  import opened Pipeline
  import RC = RowCounting
  import DT = DeliveryTracking

  ghost predicate Reachable(s: State) {
    exists trace, steps :: IsRun(trace, steps) && trace[|steps|] == s
  }

  lemma ReachableNext(s: State, step: Step)
    requires Reachable(s) && Enabled(s, step)
    ensures Reachable(Next(s, step))
  {
    var trace, steps :| IsRun(trace, steps) && trace[|steps|] == s;
    var longer, more := trace + [Next(s, step)], steps + [step];
    assert IsRun(longer, more) && longer[|more|] == Next(s, step);
  }

  lemma UpStep(front: Front, up: FrontStep, after: Front, sink: Sink)
    requires Reachable(State(front, sink)) && FrontEnabled(front, up) && FrontNext(front, up) == after
    ensures Reachable(State(after, sink))
  {
    ReachableNext(State(front, sink), Up(up));
  }

  // The row counter.

  ghost function Counting(dataset: RC.Dataset): RC.History { RC.Fresh({dataset}) }

  ghost function Counted(dataset: RC.Dataset, rows: nat): RC.History {
    RC.Apply(Counting(dataset), RC.OpObserve(1, [RC.Output(dataset, rows)]))
  }

  ghost function Publishing(dataset: RC.Dataset, rows: nat): RC.History {
    RC.Apply(Counted(dataset, rows), RC.OpCommit(1))
  }

  /** One delivery of one dataset is observed and can be committed. */
  lemma RowsAreCounted(dataset: RC.Dataset, rows: nat)
    requires rows <= U64_MAX
    ensures RC.CanObserve(Counting(dataset).counts, 1, [RC.Output(dataset, rows)])
    ensures RC.CanCommit(Counted(dataset, rows).counts, 1)
    ensures Publishing(dataset, rows).counts.committed == map[dataset := rows]
  {
    var outputs := [RC.Output(dataset, rows)];
    assert outputs[..0] == [] && RC.OutputRows(outputs[..0], dataset) == 0 && RC.OutputRows(outputs, dataset) == rows;
    assert outputs[0].dataset in RC.OutputDatasets(outputs) && RC.OutputDatasets(outputs) == {dataset};
    var h := Counted(dataset, rows);
    assert h.counts.pending == map[1 := RC.Tally(outputs)];
    RC.RowsBelowAbsent(h.counts.pending, 1, dataset);
    assert RC.RowsBelow(h.counts.pending, 2, dataset) == rows;
  }

  // The upstream half.

  const IDLE: Parser := Parser(ParserIdle, false)
  const EMPTY: Queues := Queues([], [], [])
  const ENVELOPE: Envelope := Envelope(1, false, 1)

  function Entry(marker: Marker): LedgerEntry { LedgerEntry(1, Some(marker)) }

  /** One delivery issued. */
  function Issued(marker: Marker): Book {
    Book([Entry(marker)], 2, [Entry(marker)], [], 0)
  }

  /** The same, with its marker committed at the source and its entry dropped. */
  function Settled(marker: Marker): Book {
    Book([], 2, [Entry(marker)], [[marker]], 1)
  }

  function At(phase: ReaderPhase, commit: Commit, book: Book, queues: Queues, parser: Parser, rows: RC.History): Front {
    Front(false, false, phase, commit, book, queues, parser, false, Some(rows))
  }

  /** The reader issues and sends the delivery, and the parser counts and forwards it. */
  lemma DeliveryIsForwarded(marker: Marker, dataset: RC.Dataset, rows: nat)
    requires rows <= U64_MAX
    ensures Reachable(State(At(Reading, NoCommit, Issued(marker), Queues([], [ENVELOPE], []), IDLE, Counted(dataset, rows)),
                            Quiet(DT.RunOf([]))))
  {
    var sink, h := Quiet(DT.RunOf([])), Counting(dataset);
    var f0 := At(Reading, NoCommit, Book([], 1, [], [], 0), EMPTY, IDLE, h);
    var none: seq<Step> := [];
    assert IsRun([State(f0, sink)], none) && [State(f0, sink)][|none|] == State(f0, sink);
    var batch := Records(Some(marker), 1, false);
    var f1, f2 := f0.(phase := Draining(batch)), f0.(phase := Sending(ENVELOPE), book := Issued(marker));
    assert [] + [Entry(marker)] == [Entry(marker)] && [] + [ENVELOPE] == [ENVELOPE] && [ENVELOPE][1..] == [];
    UpStep(f0, Reader(ReadBatch(batch)), f1, sink);
    UpStep(f1, Reader(DrainDone), f2, sink);
    var f3 := At(Reading, NoCommit, Issued(marker), Queues([ENVELOPE], [], []), IDLE, h);
    UpStep(f2, Reader(SendEnvelope), f3, sink);
    ParserForwardsIt(f3, dataset, rows, sink);
  }

  lemma ParserForwardsIt(front: Front, dataset: RC.Dataset, rows: nat, sink: Sink)
    requires Reachable(State(front, sink)) && rows <= U64_MAX
    requires front.parser == IDLE && front.queues == Queues([ENVELOPE], [], []) && !front.sinkStopped
    requires front.rows == Some(Counting(dataset))
    ensures Reachable(State(front.(queues := Queues([], [ENVELOPE], []), rows := Some(Counted(dataset, rows))), sink))
  {
    RowsAreCounted(dataset, rows);
    var outputs := [RC.Output(dataset, rows)];
    assert [] + [ENVELOPE] == [ENVELOPE] && [ENVELOPE][1..] == [];
    var f1 := front.(queues := EMPTY, parser := Parser(Parsing(ENVELOPE), false));
    UpStep(front, Parsed(ParserReceives), f1, sink);
    var f2 := f1.(parser := Parser(Forwarding(ENVELOPE), false), rows := Some(Counted(dataset, rows)));
    UpStep(f1, Parsed(ParserObserves(outputs)), f2, sink);
    UpStep(f2, Parsed(ParserForwards), ParserNext(f2, ParserForwards), sink);
  }

  // The sink.

  function Accepted(): DT.Run { DT.Apply(DT.RunOf([]), DT.OpAccept(1, 1, 1)) }

  function Completed(): DT.Run { DT.Apply(Accepted(), DT.OpComplete(1, 1)) }

  function Taken(): DT.Run { DT.Apply(Completed(), DT.OpTake) }

  function Quiet(run: DT.Run): Sink { Sink(run, None, false) }

  /** The tracker of the accepted delivery, once its one unit is complete, reports it. */
  lemma TrackerReports()
    ensures DT.Complete(Accepted().tracker, 1, 1).Ok?
    ensures DT.Take(Completed().tracker).1 == Some(DT.Committed(1, 1))
  {
    var t := Completed().tracker;
    assert t == DT.Tracker(map[1 := DT.Entry(0, 1)], 2, 1);
    var rest := DT.PopFront(t);
    assert rest == DT.Tracker(map[], 2, 2);
    assert DT.TakeFrom(t, None) == DT.TakeFrom(rest, Some(DT.Committed(1, 1)));
  }

  /** The sink accepts, completes and reports the delivery. */
  lemma SinkReportsIt(front: Front)
    requires Reachable(State(front, Quiet(DT.RunOf([])))) && front.queues == Queues([], [ENVELOPE], [])
    requires !front.sinkStopped && !front.phase.Stopped?
    ensures Reachable(State(front.(queues := Queues([], [], [1])), Quiet(Taken())))
  {
    TrackerReports();
    ReachableNext(State(front, Quiet(DT.RunOf([]))), Sunk(SinkAccepts(1)));
    var f1 := front.(queues := EMPTY);
    assert [ENVELOPE][1..] == [] && [] + [1] == [1];
    assert Next(State(front, Quiet(DT.RunOf([]))), Sunk(SinkAccepts(1))) == State(f1, Quiet(Accepted()));
    ReachableNext(State(f1, Quiet(Accepted())), Sunk(SinkCompletes(1, 1)));
    ReachableNext(State(f1, Quiet(Completed())), Sunk(SinkTakes));
    var reporting := Sink(Taken(), Some(1), false);
    assert Next(State(f1, Quiet(Completed())), Sunk(SinkTakes)) == State(f1, reporting);
    ReachableNext(State(f1, reporting), Sunk(SinkReports));
  }

  // The commit.

  lemma GroupOfOne(marker: Marker)
    ensures Covered([Entry(marker)], 1) == 1
    ensures Offer(Issued(marker), 1) == Settled(marker).(ledger := [Entry(marker)])
  {
    var entries := [Entry(marker)];
    assert entries[1..] == [] && entries[..1] == entries && entries[..0] == [];
    assert Markers([]) == [] && Markers(entries) == [marker];
    assert [] + [[marker]] == [[marker]];
  }

  /** The reader commits the delivery and publishes its rows while it drains its last batch. */
  lemma ReaderCommits(marker: Marker, dataset: RC.Dataset, rows: nat, sink: Sink)
    requires rows <= U64_MAX
    requires Reachable(State(At(Reading, NoCommit, Issued(marker), Queues([], [], [1]), IDLE, Counted(dataset, rows)), sink))
    ensures Reachable(State(At(Draining(Finished), NoCommit, Settled(marker), EMPTY, IDLE, Publishing(dataset, rows)), sink))
  {
    var h := Counted(dataset, rows);
    RowsAreCounted(dataset, rows);
    GroupOfOne(marker);
    assert [1][1..] == [];
    var f0 := At(Reading, NoCommit, Issued(marker), Queues([], [], [1]), IDLE, h);
    var f1 := f0.(phase := Draining(Finished));
    UpStep(f0, Reader(ReadBatch(Finished)), f1, sink);
    var f2 := At(Draining(Finished), Received(1), Issued(marker), EMPTY, IDLE, h);
    UpStep(f1, Committing(ReceiveEvent), f2, sink);
    var f3 := f2.(commit := Validated(1));
    UpStep(f2, Committing(Validate), f3, sink);
    var f4 := f2.(commit := SourceDone(1), book := Settled(marker).(ledger := [Entry(marker)]));
    UpStep(f3, Committing(CommitSource(true)), f4, sink);
    UpStep(f4, Committing(Publish), PublishRows(f4), sink);
  }

  /** For every marker, dataset and row count there is a run that commits the marker, publishes exactly
      the rows and ends with the finite source drained. */
  lemma SomeRunDrains(marker: Marker, dataset: RC.Dataset, rows: nat)
    requires rows <= U64_MAX
    ensures exists trace: seq<State>, steps: seq<Step> ::
              && IsRun(trace, steps) && Drained(trace[|steps|].front) && trace[|steps|].front.book == Settled(marker)
              && trace[|steps|].front.rows.Some?
              && trace[|steps|].front.rows.value.counts.committed == map[dataset := rows]
  {
    DeliveryIsForwarded(marker, dataset, rows);
    SinkReportsIt(At(Reading, NoCommit, Issued(marker), Queues([], [ENVELOPE], []), IDLE, Counted(dataset, rows)));
    ReaderCommits(marker, dataset, rows, Quiet(Taken()));
    RowsAreCounted(dataset, rows);
    var f0 := At(Draining(Finished), NoCommit, Settled(marker), EMPTY, IDLE, Publishing(dataset, rows));
    UpStep(f0, Reader(DrainDone), f0.(phase := Finishing), Quiet(Taken()));
    var last := f0.(phase := Stopped(FiniteSourceDrained));
    UpStep(f0.(phase := Finishing), Reader(FinishDone), last, Quiet(Taken()));
    var trace: seq<State>, steps: seq<Step> :| IsRun(trace, steps) && trace[|steps|] == State(last, Quiet(Taken()));
    assert trace[|steps|].front == last;
  }
}
