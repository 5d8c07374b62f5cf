/**
  The upstream half of the partition pipeline: reader, commit and parser, over bounded queues and a
  shared row counter.

  What receives the deliveries and sends the events is left open. `Pipeline` puts one sink there that
  tracks deliveries itself; `EvolvingPipeline` puts the admission barrier there.

  Every step is one atomic action. A commit is several steps, because the source commit is awaited
  while the parser and the sink go on.
 */
module PipelineFront {
  import opened Common
  import opened CommitLedger
  import RC = RowCounting

  const CHANNEL_CAPACITY: nat := 8

  /** A source batch: end of input, nothing at all, a new dataset with its marker, or records that may have
      a marker. */
  datatype Batch =
    | Finished
    | Nothing
    | NewDataset(point: Marker)
    | Records(marker: Option<Marker>, messages: nat, needsMemory: bool)

  /** The batch becomes a delivery. */
  predicate Carried(batch: Batch) {
    batch.NewDataset? || batch.Records?
  }

  /** What the ledger records for it. */
  function MarkerOf(batch: Batch): Option<Marker>
    requires Carried(batch)
  {
    if batch.NewDataset? then Some(batch.point) else batch.marker
  }

  /** What is sent for it. A dataset stops the reader behind it. */
  function EnvelopeOf(batch: Batch, id: nat): Envelope
    requires Carried(batch)
  {
    Envelope(id, batch.NewDataset?, if batch.NewDataset? then 0 else batch.messages)
  }

  datatype Envelope = Envelope(id: nat, barrier: bool, messages: nat)

  datatype Failure =
    | ReadFailed
    | SinkClosed
    | ParserClosed
    | SinkIdOutOfRange
    | RowsUnknownDelivery
    | RowsRejected
    | SourceRejected
    | PublishFailed

  datatype Outcome = Cancelled | FiniteSourceDrained | Failed(failure: Failure)

  datatype ReaderPhase =
    | Reading
    | Draining(batch: Batch)
    | Idling
    | Reserving(batch: Batch)
    | Sending(envelope: Envelope)
    | Barrier
    | Finishing
    | Stopped(outcome: Outcome)

  /** Progress of `commit_through`, between its suspension points. */
  datatype Commit = NoCommit | Received(id: nat) | Validated(id: nat) | SourceDone(id: nat)

  /** The reader's ledger, with its history: every entry ever pushed, every group handed to the
      source, and how many deliveries those groups cover. */
  datatype Book = Book(
    ledger: seq<LedgerEntry>,
    nextId: nat,
    issued: seq<LedgerEntry>,
    offered: seq<seq<Marker>>,
    covered: nat)

  datatype ParserPhase = ParserIdle | Parsing(envelope: Envelope) | Forwarding(envelope: Envelope)

  datatype Parser = Parser(phase: ParserPhase, stopped: bool)

  datatype Queues = Queues(envelopes: seq<Envelope>, deliveries: seq<Envelope>, events: seq<nat>)

  /** `evolving` says whether an admission coordinator takes the parser's output. */
  datatype Front = Front(
    evolving: bool,
    cancelled: bool,
    phase: ReaderPhase,
    commit: Commit,
    book: Book,
    queues: Queues,
    parser: Parser,
    sinkStopped: bool,
    rows: Option<RC.History>)

  datatype FrontStep =
    | Environment(cause: EnvironmentStep)
    | Reader(read: ReaderStep)
    | Committing(commit: CommitStep)
    | Parsed(parse: ParserStep)

  datatype EnvironmentStep = Cancel | ParserStops | SinkStops

  datatype ReaderStep =
    | ReadBatch(batch: Batch)
    | ReadFails
    | ReaderCancelled
    | EventsClosed
    | DrainDone
    | BackoffDone
    | MemoryReserved
    | SendEnvelope
    | SendFails
    | BarrierDone
    | FinishDone

  datatype CommitStep = ReceiveEvent | Validate | CommitSource(accepted: bool) | Publish

  datatype ParserStep =
    | ParserReceives
    | ParserAdmits(datasets: set<RC.Dataset>)
    | ParserObserves(outputs: seq<RC.Output>)
    | ParserForwards

  ghost predicate FrontInit(s: Front) {
    && s.phase == Reading && s.commit == NoCommit
    && s.book == Book([], 1, [], [], 0)
    && s.queues == Queues([], [], [])
    && s.parser == Parser(ParserIdle, false)
    && !s.cancelled && !s.sinkStopped
    && (s.rows.Some? ==> exists datasets :: s.rows.value == RC.Fresh(datasets))
  }

  // ---------------------------------------------------------------------------------------
  // The reader
  // ---------------------------------------------------------------------------------------

  /** The reader waits in a `select` that includes the event queue. */
  predicate AwaitsEvents(s: Front) {
    || s.phase.Reserving?
    || s.phase.Sending?
    || ((s.phase.Barrier? || s.phase.Finishing?) && s.book.ledger != [])
  }

  /** The batch in hand becomes a delivery. */
  predicate Issuing(phase: ReaderPhase) {
    || (phase.Draining? && Carried(phase.batch) && !(phase.batch.Records? && phase.batch.needsMemory))
    || (phase.Reserving? && Carried(phase.batch))
  }

  predicate ReaderEnabled(s: Front, step: ReaderStep) {
    && s.commit.NoCommit?
    && match step
       case ReadBatch(_) => s.phase.Reading?
       case ReadFails => s.phase.Reading?
       case ReaderCancelled => s.cancelled && (s.phase.Reading? || s.phase.Idling? || AwaitsEvents(s))
       case EventsClosed => s.sinkStopped && s.queues.events == [] && AwaitsEvents(s)
       case DrainDone => s.phase.Draining? && s.queues.events == [] && (Issuing(s.phase) ==> s.book.nextId < U64_MAX)
       case BackoffDone => s.phase.Idling?
       case MemoryReserved => s.phase.Reserving? && Issuing(s.phase) && s.book.nextId < U64_MAX
       case SendEnvelope => s.phase.Sending? && !s.parser.stopped && |s.queues.envelopes| < CHANNEL_CAPACITY
       case SendFails => s.phase.Sending? && s.parser.stopped
       case BarrierDone => s.phase.Barrier? && s.book.ledger == []
       case FinishDone => s.phase.Finishing? && s.book.ledger == []
  }

  /** Pushes the ledger entry and only then holds the envelope to send. */
  function Issue(s: Front): Front
    requires Issuing(s.phase)
  {
    var entry := LedgerEntry(s.book.nextId, MarkerOf(s.phase.batch));
    s.(book := s.book.(ledger := s.book.ledger + [entry],
                       issued := s.book.issued + [entry],
                       nextId := NextId(s.book.nextId)),
       phase := Sending(EnvelopeOf(s.phase.batch, s.book.nextId)))
  }

  function Send(s: Front): Front
    requires s.phase.Sending?
  {
    s.(queues := s.queues.(envelopes := s.queues.envelopes + [s.phase.envelope]),
       phase := if s.phase.envelope.barrier then Barrier else Reading)
  }

  /** The phase after a reader step that changes nothing else. */
  function NextPhase(phase: ReaderPhase, step: ReaderStep): ReaderPhase {
    match step
    case ReadBatch(batch) => Draining(batch)
    case ReadFails => Stopped(Failed(ReadFailed))
    case ReaderCancelled => Stopped(Cancelled)
    case EventsClosed => Stopped(Failed(SinkClosed))
    case DrainDone =>
      if phase.Draining? && Carried(phase.batch) then Reserving(phase.batch)
      else if phase.Draining? && phase.batch.Finished? then Finishing
      else Idling
    case SendFails => Stopped(Failed(ParserClosed))
    case FinishDone => Stopped(FiniteSourceDrained)
    case _ => Reading
  }

  function ReaderNext(s: Front, step: ReaderStep): Front
    requires ReaderEnabled(s, step)
  {
    if step.MemoryReserved? || (step.DrainDone? && Issuing(s.phase)) then Issue(s)
    else if step.SendEnvelope? then Send(s)
    else s.(phase := NextPhase(s.phase, step))
  }

  /** `PipelineProgress::finite_source_drained`. */
  predicate Drained(s: Front) {
    s.phase == Stopped(FiniteSourceDrained)
  }

  // ---------------------------------------------------------------------------------------
  // commit_through
  // ---------------------------------------------------------------------------------------

  predicate CommitEnabled(s: Front, step: CommitStep) {
    && !s.phase.Stopped?
    && match step
       case ReceiveEvent =>
         s.commit.NoCommit? && s.queues.events != [] && (s.phase.Draining? || s.phase.Idling? || AwaitsEvents(s))
       case Validate => s.commit.Received?
       case CommitSource(_) => s.commit.Validated?
       case Publish => s.commit.SourceDone?
  }

  function StopWith(s: Front, failure: Failure): Front {
    s.(phase := Stopped(Failed(failure)), commit := NoCommit)
  }

  function Receive(s: Front): Front
    requires CommitEnabled(s, ReceiveEvent)
  {
    s.(commit := Received(s.queues.events[0]),
       queues := s.queues.(events := s.queues.events[1..]),
       phase := if s.phase.Idling? then Reading else s.phase)
  }

  ghost predicate RowsPublishable(s: Front, id: nat) {
    s.rows.Some? ==> RC.CanCommit(s.rows.value.counts, id)
  }

  ghost function ValidateCommit(s: Front): Front
    requires CommitEnabled(s, Validate)
  {
    var id := s.commit.id;
    if !InRange(s.book.ledger, id) then StopWith(s, SinkIdOutOfRange)
    else if !RowsPublishable(s, id) then
      StopWith(s, if id in s.rows.value.counts.pending then RowsRejected else RowsUnknownDelivery)
    else s.(commit := Validated(id))
  }

  /** The markers of the ledger prefix that ends at `id`. */
  function Group(book: Book, id: nat): seq<Marker> {
    Markers(book.ledger[..Covered(book.ledger, id)])
  }

  function Offer(book: Book, id: nat): Book {
    book.(offered := if Group(book, id) == [] then book.offered else book.offered + [Group(book, id)],
          covered := book.covered + Covered(book.ledger, id))
  }

  function CommitAtSource(s: Front, accepted: bool): Front
    requires CommitEnabled(s, CommitSource(accepted))
  {
    var called := s.(book := Offer(s.book, s.commit.id));
    if Group(s.book, s.commit.id) == [] || accepted then called.(commit := SourceDone(s.commit.id))
    else StopWith(called, SourceRejected)
  }

  ghost function PublishRows(s: Front): Front
    requires CommitEnabled(s, Publish)
  {
    var id := s.commit.id;
    if !RowsPublishable(s, id) then StopWith(s, PublishFailed)
    else
      s.(rows := if s.rows.None? then None else Some(RC.Apply(s.rows.value, RC.OpCommit(id))),
         book := s.book.(ledger := s.book.ledger[Covered(s.book.ledger, id)..]),
         commit := NoCommit)
  }

  ghost function CommitNext(s: Front, step: CommitStep): Front
    requires CommitEnabled(s, step)
  {
    match step
    case ReceiveEvent => Receive(s)
    case Validate => ValidateCommit(s)
    case CommitSource(accepted) => CommitAtSource(s, accepted)
    case Publish => PublishRows(s)
  }

  // ---------------------------------------------------------------------------------------
  // The parser
  // ---------------------------------------------------------------------------------------

  predicate ParserEnabled(s: Front, step: ParserStep) {
    && !s.parser.stopped
    && match step
       case ParserReceives => s.parser.phase.ParserIdle? && s.queues.envelopes != []
       case ParserAdmits(_) => s.evolving && s.parser.phase.Parsing? && s.rows.Some?
       case ParserObserves(outputs) => s.parser.phase.Parsing? && (s.parser.phase.envelope.barrier ==> outputs == [])
       case ParserForwards =>
         s.parser.phase.Forwarding? && !s.sinkStopped && |s.queues.deliveries| < CHANNEL_CAPACITY
  }

  /** Counts the rows of the delivery before it can be forwarded. A dataset payload is counted too, and
      goes to the admission coordinator; without one the parser stops. */
  ghost function Observe(s: Front, outputs: seq<RC.Output>): Front
    requires ParserEnabled(s, ParserObserves(outputs))
  {
    var envelope := s.parser.phase.envelope;
    if s.rows.Some? && !RC.CanObserve(s.rows.value.counts, envelope.id, outputs) then
      s.(parser := s.parser.(stopped := true))
    else
      s.(rows := if s.rows.None? then None else Some(RC.Apply(s.rows.value, RC.OpObserve(envelope.id, outputs))),
         parser := Parser(Forwarding(envelope), envelope.barrier && !s.evolving))
  }

  ghost function ParserNext(s: Front, step: ParserStep): Front
    requires ParserEnabled(s, step)
  {
    match step
    case ParserReceives =>
      s.(parser := s.parser.(phase := Parsing(s.queues.envelopes[0])), queues := s.queues.(envelopes := s.queues.envelopes[1..]))
    case ParserAdmits(datasets) => s.(rows := Some(RC.Apply(s.rows.value, RC.OpAdmit(datasets))))
    case ParserObserves(outputs) => Observe(s, outputs)
    case ParserForwards =>
      s.(parser := s.parser.(phase := ParserIdle),
         queues := s.queues.(deliveries := s.queues.deliveries + [s.parser.phase.envelope]))
  }

  // ---------------------------------------------------------------------------------------
  // The ends of the queues that the sink side uses
  // ---------------------------------------------------------------------------------------

  /** An event can be sent: the reader lives and the queue has room. */
  predicate CanReceive(s: Front) {
    |s.queues.events| < CHANNEL_CAPACITY && !s.phase.Stopped?
  }

  function SendEvent(s: Front, id: nat): Front {
    s.(queues := s.queues.(events := s.queues.events + [id]))
  }

  function TakeDelivery(s: Front): Front
    requires s.queues.deliveries != []
  {
    s.(queues := s.queues.(deliveries := s.queues.deliveries[1..]))
  }

  // ---------------------------------------------------------------------------------------
  // Steps
  // ---------------------------------------------------------------------------------------

  function EnvironmentNext(s: Front, cause: EnvironmentStep): Front {
    match cause
    case Cancel => s.(cancelled := true)
    case ParserStops => s.(parser := s.parser.(stopped := true))
    case SinkStops => s.(sinkStopped := true)
  }

  predicate FrontEnabled(s: Front, step: FrontStep) {
    match step
    case Environment(_) => true
    case Reader(read) => ReaderEnabled(s, read)
    case Committing(commit) => CommitEnabled(s, commit)
    case Parsed(parse) => ParserEnabled(s, parse)
  }

  ghost function FrontNext(s: Front, step: FrontStep): Front
    requires FrontEnabled(s, step)
  {
    match step
    case Environment(cause) => EnvironmentNext(s, cause)
    case Reader(read) => ReaderNext(s, read)
    case Committing(commit) => CommitNext(s, commit)
    case Parsed(parse) => ParserNext(s, parse)
  }
}
