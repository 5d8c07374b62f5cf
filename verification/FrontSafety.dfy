/**
  What the upstream half of the pipeline keeps, whatever is downstream.

  Two numbers stand for the sink side: `received` is the id of the next delivery it takes, and every
  delivery up to `safe` is durable there. Each step of reader, commit and parser keeps `FrontInv` for
  the same two numbers; each move of the sink side raises them.
 */
module FrontSafety {
  import opened Common
  import opened CommitLedger
  import opened PipelineFront
  import RC = RowCounting

  /** How many deliveries have left the ledger. */
  ghost function Popped(book: Book): int {
    |book.issued| - |book.ledger|
  }

  /** The ledger is the tail of everything issued, and ids number the deliveries from one. */
  ghost predicate BookInv(book: Book) {
    && |book.ledger| <= |book.issued|
    && (forall i | 0 <= i < |book.ledger| :: book.ledger[i] == book.issued[Popped(book) + i])
    && (forall i | 0 <= i < |book.issued| :: book.issued[i].id == i + 1)
    && book.nextId == |book.issued| + 1 <= U64_MAX
  }

  /** The id the parser handles next. */
  ghost function ParserId(s: Front, received: nat): nat {
    received + |s.queues.deliveries|
  }

  /** The id at the head of the read queue, or the next one to be sent. */
  ghost function QueueId(s: Front, received: nat): nat {
    ParserId(s, received) + (if s.parser.phase.ParserIdle? then 0 else 1)
  }

  /** The id that the reader sends next. */
  ghost function SendId(s: Front, received: nat): nat {
    QueueId(s, received) + |s.queues.envelopes|
  }

  ghost predicate ConsecutiveFrom(envelopes: seq<Envelope>, start: nat) {
    forall i | 0 <= i < |envelopes| :: envelopes[i].id == start + i
  }

  /** Between the ledger and the sink side, ids are consecutive: nothing is lost, repeated or reordered. */
  ghost predicate FlowInv(s: Front, received: nat) {
    && ConsecutiveFrom(s.queues.deliveries, received)
    && (!s.parser.phase.ParserIdle? ==> s.parser.phase.envelope.id == ParserId(s, received))
    && ConsecutiveFrom(s.queues.envelopes, QueueId(s, received))
    && SendId(s, received) <= s.book.nextId
    && (s.phase.Sending? ==> s.phase.envelope.id == SendId(s, received) == |s.book.issued|)
    && (!s.phase.Sending? && !s.phase.Stopped? ==> SendId(s, received) == s.book.nextId)
  }

  /** Only durable deliveries are reported, and a commit that passed validation is above the dropped prefix. */
  ghost predicate EventsKnown(commit: Commit, events: seq<nat>, popped: int, safe: nat) {
    && (forall i | 0 <= i < |events| :: 1 <= events[i] <= safe)
    && (!commit.NoCommit? ==> 1 <= commit.id <= safe)
    && (commit.Validated? || commit.SourceDone? ==> popped < commit.id)
  }

  /** The first id the parser has not observed. */
  ghost function ObservedEnd(s: Front, received: nat): nat {
    ParserId(s, received) + (if s.parser.phase.Forwarding? then 1 else 0)
  }

  ghost predicate RowInv(h: RC.History, commit: Commit, popped: int, observedEnd: nat) {
    && RC.Exact(h)
    && (forall id :: id in h.observed <==> 1 <= id < observedEnd)
    && h.bound == (if popped == 0 then 0 else popped + 1)
    && (commit.Validated? || commit.SourceDone? ==> RC.CanCommit(h.counts, commit.id))
  }

  /** The groups handed to the source are the markers of the covered prefix. */
  ghost predicate OfferInv(book: Book) {
    && Popped(book) <= book.covered <= |book.issued|
    && Flatten(book.offered) == Markers(book.issued[..book.covered])
  }

  /** The source is ahead of the ledger only inside a commit, or after it refused one. */
  ghost predicate PhaseInv(s: Front, safe: nat) {
    && s.book.covered <= safe
    && (s.commit.SourceDone? ==> s.book.covered == s.commit.id)
    && (!s.commit.SourceDone? && s.phase != Stopped(Failed(SourceRejected)) ==> s.book.covered == Popped(s.book))
    && (Drained(s) ==> s.book.ledger == [])
    && (s.phase.Stopped? ==> s.commit.NoCommit?)
  }

  /** The row counter never refuses a reported delivery as unknown, nor a publication after the commit. */
  ghost predicate NoRowError(s: Front) {
    s.phase != Stopped(Failed(RowsUnknownDelivery)) && s.phase != Stopped(Failed(PublishFailed))
  }

  ghost predicate CapacityInv(q: Queues) {
    |q.envelopes| <= CHANNEL_CAPACITY && |q.deliveries| <= CHANNEL_CAPACITY && |q.events| <= CHANNEL_CAPACITY
  }

  ghost predicate FrontInv(s: Front, received: nat, safe: nat) {
    && BookInv(s.book)
    && safe < received
    && FlowInv(s, received)
    && EventsKnown(s.commit, s.queues.events, Popped(s.book), safe)
    && (s.rows.Some? ==> RowInv(s.rows.value, s.commit, Popped(s.book), ObservedEnd(s, received)))
    && OfferInv(s.book)
    && PhaseInv(s, safe)
    && NoRowError(s)
    && CapacityInv(s.queues)
  }

  lemma InitKeepsFront(s: Front)
    requires FrontInit(s)
    ensures FrontInv(s, 1, 0)
  {
    if s.rows.Some? {
      var datasets :| s.rows.value == RC.Fresh(datasets);
      RC.FreshRunsAreExact(datasets, [], 0);
    }
  }

  // ---------------------------------------------------------------------------------------
  // Facts about one state
  // ---------------------------------------------------------------------------------------

  /** In a consecutive ledger the covered prefix of an id in range ends right at that id. */
  lemma {:induction false} CoveredConsecutive(ledger: seq<LedgerEntry>, popped: nat, id: nat)
    requires forall i | 0 <= i < |ledger| :: ledger[i].id == popped + i + 1
    requires popped < id <= popped + |ledger|
    ensures Covered(ledger, id) == id - popped
  {
    var n := Covered(ledger, id);
    assert n < |ledger| ==> ledger[n].id == popped + n + 1;
    if n > 0 { assert ledger[n - 1].id <= id; }
  }

  /** An issued id that was not dropped is in the ledger, at its own place. */
  lemma IssuedIdIsCovered(book: Book, id: nat)
    requires BookInv(book) && Popped(book) < id <= |book.issued|
    ensures InRange(book.ledger, id) && Covered(book.ledger, id) == id - Popped(book)
  {
    CoveredConsecutive(book.ledger, Popped(book), id);
  }

  /** What is durable was issued, and the parser has observed it. */
  lemma SafeIdWasIssued(s: Front, received: nat, safe: nat)
    requires FrontInv(s, received, safe)
    ensures safe < ObservedEnd(s, received) && safe <= |s.book.issued|
  {
  }

  /** An id above the dropped prefix that is being committed is in the ledger and in the row counter. */
  lemma CommittedIdIsKnown(s: Front, received: nat, safe: nat)
    requires FrontInv(s, received, safe) && !s.commit.NoCommit? && Popped(s.book) < s.commit.id
    ensures s.commit.id <= |s.book.issued|
    ensures InRange(s.book.ledger, s.commit.id)
    ensures Covered(s.book.ledger, s.commit.id) == s.commit.id - Popped(s.book)
    ensures s.rows.Some? ==> s.commit.id in s.rows.value.counts.pending
  {
    SafeIdWasIssued(s, received, safe);
    IssuedIdIsCovered(s.book, s.commit.id);
  }

  /** A reported id is refused as unknown exactly when it is not above the dropped prefix. */
  lemma InRangeIff(s: Front, received: nat, safe: nat)
    requires FrontInv(s, received, safe) && !s.commit.NoCommit?
    ensures InRange(s.book.ledger, s.commit.id) <==> Popped(s.book) < s.commit.id
  {
    var book := s.book;
    if Popped(book) < s.commit.id {
      CommittedIdIsKnown(s, received, safe);
    }
    if InRange(book.ledger, s.commit.id) {
      assert book.ledger[0] == book.issued[Popped(book)];
    }
  }

  // ---------------------------------------------------------------------------------------
  // Reader, commit and parser
  // ---------------------------------------------------------------------------------------

  lemma EnvironmentKeepsFront(s: Front, cause: EnvironmentStep, received: nat, safe: nat)
    requires FrontInv(s, received, safe)
    ensures FrontInv(EnvironmentNext(s, cause), received, safe)
  {
  }

  lemma IssueKeepsFront(s: Front, received: nat, safe: nat)
    requires FrontInv(s, received, safe) && Issuing(s.phase) && s.commit.NoCommit? && s.book.nextId < U64_MAX
    ensures FrontInv(Issue(s), received, safe)
  {
    var book, book' := s.book, Issue(s).book;
    assert book'.issued[..book.covered] == book.issued[..book.covered];
  }

  lemma SendKeepsFront(s: Front, received: nat, safe: nat)
    requires FrontInv(s, received, safe) && s.phase.Sending? && s.commit.NoCommit?
    requires |s.queues.envelopes| < CHANNEL_CAPACITY
    ensures FrontInv(Send(s), received, safe)
  {
  }

  lemma ReaderKeepsFront(s: Front, step: ReaderStep, received: nat, safe: nat)
    requires FrontInv(s, received, safe) && ReaderEnabled(s, step)
    ensures FrontInv(ReaderNext(s, step), received, safe)
  {
    if step.MemoryReserved? || (step.DrainDone? && Issuing(s.phase)) {
      IssueKeepsFront(s, received, safe);
    } else if step.SendEnvelope? {
      SendKeepsFront(s, received, safe);
    }
  }

  lemma ReceiveKeepsFront(s: Front, received: nat, safe: nat)
    requires FrontInv(s, received, safe) && CommitEnabled(s, ReceiveEvent)
    ensures FrontInv(Receive(s), received, safe)
  {
  }

  /** The rows of all deliveries through `id` fit the machine integers that count them. */
  ghost predicate RowsFit(s: Front, id: nat) {
    s.rows.Some? ==>
      forall k | k in s.rows.value.counts.committed :: RC.RowsBelow(s.rows.value.observed, id + 1, k) <= U64_MAX
  }

  /** Above the dropped prefix, only totals that would overflow stand in the way of publication. */
  lemma PublishableIff(s: Front, received: nat, safe: nat)
    requires FrontInv(s, received, safe) && !s.commit.NoCommit? && Popped(s.book) < s.commit.id
    ensures RowsPublishable(s, s.commit.id) <==> RowsFit(s, s.commit.id)
  {
    CommittedIdIsKnown(s, received, safe);
    if s.rows.Some? {
      RC.CanCommitIff(s.rows.value, s.commit.id);
    }
  }

  /** Validation stops the reader exactly for an id that is not above the dropped prefix, or for totals
      that would overflow; the row counter always knows the id. */
  lemma ValidateOutcome(s: Front, received: nat, safe: nat)
    requires FrontInv(s, received, safe) && CommitEnabled(s, Validate)
    ensures Popped(s.book) < s.commit.id ==> (RowsPublishable(s, s.commit.id) <==> RowsFit(s, s.commit.id))
    ensures ValidateCommit(s) ==
            if s.commit.id <= Popped(s.book) then StopWith(s, SinkIdOutOfRange)
            else if RowsPublishable(s, s.commit.id) then s.(commit := Validated(s.commit.id))
            else StopWith(s, RowsRejected)
  {
    InRangeIff(s, received, safe);
    if Popped(s.book) < s.commit.id {
      CommittedIdIsKnown(s, received, safe);
      PublishableIff(s, received, safe);
    }
  }

  /** A commit given up before the source is asked leaves everything else in place. */
  lemma StopKeepsFront(s: Front, failure: Failure, received: nat, safe: nat)
    requires FrontInv(s, received, safe) && s.commit.Received?
    requires failure.RowsRejected? || failure.SinkIdOutOfRange?
    ensures FrontInv(StopWith(s, failure), received, safe)
  {
  }

  lemma ValidatedKeepsFront(s: Front, received: nat, safe: nat)
    requires FrontInv(s, received, safe) && s.commit.Received? && !s.phase.Stopped?
    requires Popped(s.book) < s.commit.id && RowsPublishable(s, s.commit.id)
    ensures FrontInv(s.(commit := Validated(s.commit.id)), received, safe)
  {
  }

  lemma ValidateKeepsFront(s: Front, received: nat, safe: nat)
    requires FrontInv(s, received, safe) && CommitEnabled(s, Validate)
    ensures FrontInv(ValidateCommit(s), received, safe)
  {
    ValidateOutcome(s, received, safe);
    if s.commit.id <= Popped(s.book) {
      StopKeepsFront(s, SinkIdOutOfRange, received, safe);
    } else if RowsPublishable(s, s.commit.id) {
      ValidatedKeepsFront(s, received, safe);
    } else {
      StopKeepsFront(s, RowsRejected, received, safe);
    }
  }

  lemma FlattenAppend(groups: seq<seq<Marker>>, group: seq<Marker>)
    ensures Flatten(groups + [group]) == Flatten(groups) + group
  {
    assert (groups + [group])[..|groups|] == groups;
  }

  lemma GroupIsIssuedSlice(book: Book, id: nat)
    requires BookInv(book) && 0 <= Popped(book) < id <= |book.issued| && Covered(book.ledger, id) == id - Popped(book)
    ensures Group(book, id) == Markers(book.issued[Popped(book)..id])
    ensures Markers(book.issued[..id]) == Markers(book.issued[..Popped(book)]) + Group(book, id)
  {
    var popped, issued := Popped(book), book.issued;
    assert book.ledger[..id - popped] == issued[popped..id];
    assert issued[..popped] + issued[popped..id] == issued[..id];
    MarkersConcat(issued[..popped], issued[popped..id]);
  }

  /** Handing the covered stretch of the ledger to the source extends the offered markers by it. */
  lemma OfferExtends(book: Book, id: nat)
    requires BookInv(book) && OfferInv(book) && book.covered == Popped(book)
    requires Popped(book) < id <= |book.issued| && Covered(book.ledger, id) == id - Popped(book)
    ensures OfferInv(Offer(book, id)) && Offer(book, id).covered == id
  {
    GroupIsIssuedSlice(book, id);
    FlattenAppend(book.offered, Group(book, id));
  }

  /** The source has been asked: the commit goes on, or the reader stops. */
  lemma OfferedBookKeepsFront(s: Front, book: Book, received: nat, safe: nat)
    requires FrontInv(s, received, safe) && s.commit.Validated? && !s.phase.Stopped?
    requires book == s.book.(offered := book.offered, covered := s.commit.id) && OfferInv(book)
    ensures FrontInv(s.(book := book, commit := SourceDone(s.commit.id)), received, safe)
  {
  }

  lemma RefusedBookKeepsFront(s: Front, book: Book, received: nat, safe: nat)
    requires FrontInv(s, received, safe) && s.commit.Validated? && !s.phase.Stopped?
    requires book == s.book.(offered := book.offered, covered := s.commit.id) && OfferInv(book)
    ensures FrontInv(StopWith(s.(book := book), SourceRejected), received, safe)
  {
  }

  lemma CommitSourceKeepsFront(s: Front, accepted: bool, received: nat, safe: nat)
    requires FrontInv(s, received, safe) && CommitEnabled(s, CommitSource(accepted))
    ensures FrontInv(CommitAtSource(s, accepted), received, safe)
  {
    CommittedIdIsKnown(s, received, safe);
    OfferExtends(s.book, s.commit.id);
    OfferedBookKeepsFront(s, Offer(s.book, s.commit.id), received, safe);
    RefusedBookKeepsFront(s, Offer(s.book, s.commit.id), received, safe);
  }

  lemma PublishKeepsRows(h: RC.History, id: nat, popped: int, observedEnd: nat)
    requires RowInv(h, SourceDone(id), popped, observedEnd) && id > 0
    ensures RowInv(RC.Apply(h, RC.OpCommit(id)), NoCommit, id, observedEnd)
  {
    RC.CommitKeepsExact(h, id);
  }

  lemma PublishKeepsBook(book: Book, id: nat)
    requires BookInv(book) && OfferInv(book) && book.covered == id
    requires Popped(book) < id <= |book.issued| && Covered(book.ledger, id) == id - Popped(book)
    ensures var book' := book.(ledger := book.ledger[Covered(book.ledger, id)..]);
            BookInv(book') && OfferInv(book') && Popped(book') == id
  {
  }

  /** The committed prefix is dropped from the ledger and its rows are published. */
  lemma PublishedKeepsFront(s: Front, book: Book, rows: Option<RC.History>, received: nat, safe: nat)
    requires FrontInv(s, received, safe) && s.commit.SourceDone? && !s.phase.Stopped?
    requires BookInv(book) && OfferInv(book) && Popped(book) == s.commit.id && book == s.book.(ledger := book.ledger)
    requires rows.Some? ==> RowInv(rows.value, NoCommit, s.commit.id, ObservedEnd(s, received))
    ensures FrontInv(s.(rows := rows, book := book, commit := NoCommit), received, safe)
  {
  }

  lemma PublishKeepsFront(s: Front, received: nat, safe: nat)
    requires FrontInv(s, received, safe) && CommitEnabled(s, Publish)
    ensures FrontInv(PublishRows(s), received, safe)
  {
    CommittedIdIsKnown(s, received, safe);
    var id := s.commit.id;
    PublishKeepsBook(s.book, id);
    if s.rows.Some? {
      PublishKeepsRows(s.rows.value, id, Popped(s.book), ObservedEnd(s, received));
    }
    PublishedKeepsFront(s, s.book.(ledger := s.book.ledger[Covered(s.book.ledger, id)..]),
                        if s.rows.None? then None else Some(RC.Apply(s.rows.value, RC.OpCommit(id))), received, safe);
  }

  lemma CommitKeepsFront(s: Front, step: CommitStep, received: nat, safe: nat)
    requires FrontInv(s, received, safe) && CommitEnabled(s, step)
    ensures FrontInv(CommitNext(s, step), received, safe)
  {
    match step
    case ReceiveEvent => ReceiveKeepsFront(s, received, safe);
    case Validate => ValidateKeepsFront(s, received, safe);
    case CommitSource(accepted) => CommitSourceKeepsFront(s, accepted, received, safe);
    case Publish => PublishKeepsFront(s, received, safe);
  }

  lemma AdmitKeepsRows(h: RC.History, commit: Commit, popped: int, observedEnd: nat, datasets: set<RC.Dataset>)
    requires RowInv(h, commit, popped, observedEnd)
    ensures RowInv(RC.Apply(h, RC.OpAdmit(datasets)), commit, popped, observedEnd)
  {
    RC.AdmitKeepsExact(h, datasets);
    if commit.Validated? || commit.SourceDone? {
      RC.ValidatedCommitSurvivesStep(h, commit.id, RC.OpAdmit(datasets));
    }
  }

  lemma ObserveKeepsRows(h: RC.History, commit: Commit, popped: int, id: nat, outputs: seq<RC.Output>)
    requires RowInv(h, commit, popped, id) && RC.CanObserve(h.counts, id, outputs)
    requires 0 <= popped < id && (!commit.NoCommit? ==> commit.id < id)
    ensures RowInv(RC.Apply(h, RC.OpObserve(id, outputs)), commit, popped, id + 1)
  {
    RC.ObserveKeepsExactIff(h, id, outputs);
    if commit.Validated? || commit.SourceDone? {
      RC.ValidatedCommitSurvivesStep(h, commit.id, RC.OpObserve(id, outputs));
    }
  }

  /** The parser moves on to forwarding, with the delivery counted if there is a counter. */
  lemma ForwardingKeepsFront(s: Front, rows: Option<RC.History>, stopped: bool, received: nat, safe: nat)
    requires FrontInv(s, received, safe) && s.parser.phase.Parsing?
    requires rows.Some? ==> RowInv(rows.value, s.commit, Popped(s.book), ParserId(s, received) + 1)
    ensures FrontInv(s.(rows := rows, parser := Parser(Forwarding(s.parser.phase.envelope), stopped)), received, safe)
  {
  }

  lemma CountingKeepsRows(s: Front, outputs: seq<RC.Output>, received: nat, safe: nat)
    requires FrontInv(s, received, safe) && s.parser.phase.Parsing? && s.rows.Some?
    requires RC.CanObserve(s.rows.value.counts, s.parser.phase.envelope.id, outputs)
    ensures RowInv(RC.Apply(s.rows.value, RC.OpObserve(s.parser.phase.envelope.id, outputs)), s.commit, Popped(s.book),
                   ParserId(s, received) + 1)
  {
    ObserveKeepsRows(s.rows.value, s.commit, Popped(s.book), s.parser.phase.envelope.id, outputs);
  }

  lemma ObserveKeepsFront(s: Front, outputs: seq<RC.Output>, received: nat, safe: nat)
    requires FrontInv(s, received, safe) && ParserEnabled(s, ParserObserves(outputs))
    ensures FrontInv(Observe(s, outputs), received, safe)
  {
    var envelope := s.parser.phase.envelope;
    var stopped := envelope.barrier && !s.evolving;
    if s.rows.None? {
      ForwardingKeepsFront(s, None, stopped, received, safe);
    } else if RC.CanObserve(s.rows.value.counts, envelope.id, outputs) {
      CountingKeepsRows(s, outputs, received, safe);
      ForwardingKeepsFront(s, Some(RC.Apply(s.rows.value, RC.OpObserve(envelope.id, outputs))), stopped, received, safe);
    } else {
      EnvironmentKeepsFront(s, ParserStops, received, safe);
    }
  }

  lemma ParserMovesKeepFront(s: Front, step: ParserStep, received: nat, safe: nat)
    requires FrontInv(s, received, safe) && ParserEnabled(s, step) && (step.ParserReceives? || step.ParserForwards?)
    ensures FrontInv(ParserNext(s, step), received, safe)
  {
  }

  lemma ParserKeepsFront(s: Front, step: ParserStep, received: nat, safe: nat)
    requires FrontInv(s, received, safe) && ParserEnabled(s, step)
    ensures FrontInv(ParserNext(s, step), received, safe)
  {
    match step
    case ParserAdmits(datasets) =>
      AdmitKeepsRows(s.rows.value, s.commit, Popped(s.book), ObservedEnd(s, received), datasets);
    case ParserObserves(outputs) => ObserveKeepsFront(s, outputs, received, safe);
    case ParserReceives => ParserMovesKeepFront(s, step, received, safe);
    case ParserForwards => ParserMovesKeepFront(s, step, received, safe);
  }

  /** Every step of the upstream half keeps the invariant, for the same two numbers. */
  lemma StepKeepsFront(s: Front, step: FrontStep, received: nat, safe: nat)
    requires FrontInv(s, received, safe) && FrontEnabled(s, step)
    ensures FrontInv(FrontNext(s, step), received, safe)
  {
    match step
    case Environment(cause) => EnvironmentKeepsFront(s, cause, received, safe);
    case Reader(read) => ReaderKeepsFront(s, read, received, safe);
    case Committing(commit) => CommitKeepsFront(s, commit, received, safe);
    case Parsed(parse) => ParserKeepsFront(s, parse, received, safe);
  }

  // ---------------------------------------------------------------------------------------
  // Moves of the sink side
  // ---------------------------------------------------------------------------------------

  lemma TakeDeliveryKeepsFront(s: Front, received: nat, safe: nat)
    requires FrontInv(s, received, safe) && s.queues.deliveries != []
    ensures s.queues.deliveries[0].id == received
    ensures FrontInv(TakeDelivery(s), received + 1, safe)
  {
  }

  lemma SafeGrows(s: Front, received: nat, safe: nat, more: nat)
    requires FrontInv(s, received, safe) && safe <= more < received
    ensures FrontInv(s, received, more)
  {
  }

  lemma SendEventKeepsFront(s: Front, id: nat, received: nat, safe: nat)
    requires FrontInv(s, received, safe) && CanReceive(s) && 1 <= id <= safe
    ensures FrontInv(SendEvent(s, id), received, safe)
  {
  }

  // ---------------------------------------------------------------------------------------
  // The order of the events
  // ---------------------------------------------------------------------------------------

  /** Reported ids on their way to the ledger, oldest first. */
  ghost function InFlight(commit: Commit, events: seq<nat>, reporting: Option<nat>): seq<nat> {
    (if commit.NoCommit? then [] else [commit.id]) + events + (if reporting.Some? then [reporting.value] else [])
  }

  /** The ids strictly increase between the ledger's front and `end`. */
  ghost predicate Ordered(ids: seq<nat>, popped: int, end: nat) {
    && (forall i | 0 <= i < |ids| :: popped < ids[i] < end)
    && (forall i, j | 0 <= i < j < |ids| :: ids[i] < ids[j])
  }

  /** Nothing out of order is on its way, and nothing out of order has stopped the reader. */
  ghost predicate InOrder(s: Front, reporting: Option<nat>, end: nat) {
    Ordered(InFlight(s.commit, s.queues.events, reporting), Popped(s.book), end)
    && s.phase != Stopped(Failed(SinkIdOutOfRange))
  }

  /** The oldest id leaves: it is committed, or its commit is given up. */
  lemma OrderedDrop(commit: Commit, events: seq<nat>, reporting: Option<nat>, popped: int, popped': int, end: nat)
    requires !commit.NoCommit? && Ordered(InFlight(commit, events, reporting), popped, end)
    requires popped' == popped || popped' == commit.id
    ensures Ordered(InFlight(NoCommit, events, reporting), popped', end)
    ensures popped < commit.id
  {
    var ids, ids' := InFlight(commit, events, reporting), InFlight(NoCommit, events, reporting);
    assert ids[0] == commit.id;
    assert ids' == ids[1..];
  }

  /** A new report enters: it is above everything reported before. */
  lemma OrderedReport(commit: Commit, events: seq<nat>, id: nat, popped: int, end: nat)
    requires Ordered(InFlight(commit, events, None), popped, end) && popped < end <= id
    ensures Ordered(InFlight(commit, events, Some(id)), popped, id + 1)
    ensures Ordered(InFlight(commit, events + [id], None), popped, id + 1)
  {
    assert InFlight(commit, events, Some(id)) == InFlight(commit, events, None) + [id];
    assert InFlight(commit, events + [id], None) == InFlight(commit, events, None) + [id];
  }

  lemma ReceiveKeepsOrder(s: Front, reporting: Option<nat>, end: nat)
    requires CommitEnabled(s, ReceiveEvent) && InOrder(s, reporting, end)
    ensures InOrder(Receive(s), reporting, end)
  {
    var s' := Receive(s);
    assert InFlight(s'.commit, s'.queues.events, reporting) == InFlight(s.commit, s.queues.events, reporting);
  }

  lemma ValidateKeepsOrder(s: Front, received: nat, safe: nat, reporting: Option<nat>, end: nat)
    requires FrontInv(s, received, safe) && CommitEnabled(s, Validate) && InOrder(s, reporting, end)
    ensures InOrder(ValidateCommit(s), reporting, end)
  {
    OrderedDrop(s.commit, s.queues.events, reporting, Popped(s.book), Popped(s.book), end);
    ValidateOutcome(s, received, safe);
  }

  lemma CommitSourceKeepsOrder(s: Front, accepted: bool, reporting: Option<nat>, end: nat)
    requires CommitEnabled(s, CommitSource(accepted)) && InOrder(s, reporting, end)
    ensures InOrder(CommitAtSource(s, accepted), reporting, end)
  {
    OrderedDrop(s.commit, s.queues.events, reporting, Popped(s.book), Popped(s.book), end);
  }

  lemma PublishKeepsOrder(s: Front, received: nat, safe: nat, reporting: Option<nat>, end: nat)
    requires FrontInv(s, received, safe) && CommitEnabled(s, Publish) && InOrder(s, reporting, end)
    ensures InOrder(PublishRows(s), reporting, end)
  {
    OrderedDrop(s.commit, s.queues.events, reporting, Popped(s.book), s.commit.id, end);
    CommittedIdIsKnown(s, received, safe);
    PublishKeepsBook(s.book, s.commit.id);
  }

  lemma CommitKeepsOrder(s: Front, step: CommitStep, received: nat, safe: nat, reporting: Option<nat>, end: nat)
    requires FrontInv(s, received, safe) && CommitEnabled(s, step) && InOrder(s, reporting, end)
    ensures InOrder(CommitNext(s, step), reporting, end)
  {
    match step
    case ReceiveEvent => ReceiveKeepsOrder(s, reporting, end);
    case Validate => ValidateKeepsOrder(s, received, safe, reporting, end);
    case CommitSource(accepted) => CommitSourceKeepsOrder(s, accepted, reporting, end);
    case Publish => PublishKeepsOrder(s, received, safe, reporting, end);
  }

  /** What the order is about stays as it is. */
  ghost predicate SameEvents(s: Front, s': Front) {
    && s'.commit == s.commit && s'.queues.events == s.queues.events && Popped(s'.book) == Popped(s.book)
    && (s'.phase == Stopped(Failed(SinkIdOutOfRange)) ==> s'.phase == s.phase)
  }

  lemma ReaderKeepsEvents(s: Front, step: ReaderStep)
    requires ReaderEnabled(s, step)
    ensures SameEvents(s, ReaderNext(s, step))
  {
  }

  lemma ParserKeepsEvents(s: Front, step: ParserStep)
    requires ParserEnabled(s, step)
    ensures SameEvents(s, ParserNext(s, step))
  {
  }

  lemma QuietKeepsOrder(s: Front, step: FrontStep, reporting: Option<nat>, end: nat)
    requires FrontEnabled(s, step) && !step.Committing? && InOrder(s, reporting, end)
    ensures InOrder(FrontNext(s, step), reporting, end)
  {
    match step
    case Environment(_) =>
    case Reader(read) => ReaderKeepsEvents(s, read);
    case Parsed(parse) => ParserKeepsEvents(s, parse);
  }

  /** No step of the upstream half disturbs the order. */
  lemma StepKeepsOrder(s: Front, step: FrontStep, received: nat, safe: nat, reporting: Option<nat>, end: nat)
    requires FrontInv(s, received, safe) && FrontEnabled(s, step) && InOrder(s, reporting, end)
    ensures InOrder(FrontNext(s, step), reporting, end)
  {
    if step.Committing? {
      CommitKeepsOrder(s, step.commit, received, safe, reporting, end);
    } else {
      QuietKeepsOrder(s, step, reporting, end);
    }
  }

  // ---------------------------------------------------------------------------------------
  // What the invariant says about the source
  // ---------------------------------------------------------------------------------------

  /** How many deliveries have their rows published. */
  ghost function Published(s: Front): int {
    Popped(s.book)
  }

  /** The groups handed to the source are the markers of a prefix of the issued deliveries, in order and
      once each, none of it beyond `safe`; the finite source counts as drained only with all of it. */
  ghost predicate CommitsPrefix(s: Front, safe: nat) {
    && s.book.covered <= |s.book.issued|
    && s.book.covered <= safe
    && (forall k | 0 <= k < |s.book.issued| :: s.book.issued[k].id == k + 1)
    && Flatten(s.book.offered) == Markers(s.book.issued[..s.book.covered])
    && (Drained(s) ==> s.book.covered == |s.book.issued|)
  }

  lemma FrontCommitsPrefix(s: Front, received: nat, safe: nat)
    requires FrontInv(s, received, safe)
    ensures CommitsPrefix(s, safe)
  {
  }

  /** With an empty ledger everything issued is covered, and the sink side has taken all of it. */
  lemma EmptyLedgerIsCovered(s: Front, received: nat, safe: nat)
    requires FrontInv(s, received, safe) && s.book.ledger == [] && s.commit.NoCommit? && !s.phase.Stopped?
    ensures s.book.covered == |s.book.issued| == received - 1
  {
  }

  /** Published totals are the rows of exactly the published deliveries, and the source is ahead of them
      only inside a commit whose publication is sure to succeed, or after it refused. */
  ghost predicate TotalsFollow(s: Front) {
    s.rows.Some? ==>
      var h := s.rows.value;
      && 0 <= Published(s) <= s.book.covered
      && (forall k | k in h.counts.committed :: h.counts.committed[k] == RC.RowsBelow(h.observed, Published(s) + 1, k))
      && (s.book.covered != Published(s) ==>
            s.phase == Stopped(Failed(SourceRejected)) || (s.commit.SourceDone? && RC.CanCommit(h.counts, s.commit.id)))
  }

  lemma FrontTotalsFollow(s: Front, received: nat, safe: nat)
    requires FrontInv(s, received, safe)
    ensures TotalsFollow(s)
  {
    if s.rows.Some? && Published(s) == 0 {
      var h := s.rows.value;
      assert 0 !in h.observed;
      forall k ensures RC.RowsBelow(h.observed, 1, k) == 0 {
        RC.RowsBelowAbsent(h.observed, 1, k);
      }
      forall k | k in h.counts.committed ensures h.counts.committed[k] == 0 {
        assert RC.RowsBelow(h.observed, 0, k) == 0;
      }
    }
  }

  /** Nothing is taken back: what was issued stays issued, what was handed to the source stays
      handed, and the covered prefix only grows. */
  ghost predicate Extends(a: Book, b: Book) {
    a.issued <= b.issued && a.offered <= b.offered && a.covered <= b.covered
  }

  lemma ExtendsFurther(a: Book, b: Book, c: Book)
    requires Extends(a, b) && Extends(b, c)
    ensures Extends(a, c)
  {
  }

  lemma ReaderExtends(s: Front, step: ReaderStep)
    requires ReaderEnabled(s, step)
    ensures Extends(s.book, ReaderNext(s, step).book)
  {
  }

  lemma CommitExtends(s: Front, step: CommitStep)
    requires CommitEnabled(s, step)
    ensures Extends(s.book, CommitNext(s, step).book)
  {
    if step.CommitSource? {
      assert Extends(s.book, Offer(s.book, s.commit.id));
    }
  }

  lemma StepExtends(s: Front, step: FrontStep)
    requires FrontEnabled(s, step)
    ensures Extends(s.book, FrontNext(s, step).book)
  {
    match step
    case Reader(read) => ReaderExtends(s, read);
    case Committing(commit) => CommitExtends(s, commit);
    case Environment(_) =>
    case Parsed(parse) => assert ParserNext(s, parse).book == s.book;
  }
}
