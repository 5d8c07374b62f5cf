/**
  When the reader's protocol error can happen. A dataset acknowledged before a delivery ahead of it is
  reported leaves that delivery's report behind the ledger: from there some continuation ends in the error.
  An acknowledgement that finds everything reported leaves none.
 */
module EvolvingErrors {
  import opened Common
  import opened CommitLedger
  import opened PipelineFront
  import opened FrontSafety
  import opened EvolvingPipeline
  import opened EvolvingRuns
  import opened EvolvingTheorems
  import EB = EvolvingBarriers
  import RC = RowCounting
  import AD = Admission
  import AE = AdmissionEvents

  /** The reader has stopped because it was told of a delivery it does not know. */
  predicate Broken(front: Front) {
    front.phase == Stopped(Failed(SinkIdOutOfRange))
  }

  // ---------------------------------------------------------------------------------------
  // Every id sent arrives
  // ---------------------------------------------------------------------------------------

  ghost function OnTheWay(front: Front): seq<nat> {
    InFlight(front.commit, front.queues.events, None)
  }

  /** Every id of `sent` is on its way, or at most `popped`. */
  ghost predicate AllKnown(sent: seq<nat>, ids: seq<nat>, popped: int) {
    forall i | 0 <= i < |sent| :: sent[i] <= popped || sent[i] in ids
  }

  /** Every id sent so far is on its way to the ledger, or has left it. */
  ghost predicate Arrives(front: Front, sent: seq<nat>) {
    !front.phase.Stopped? ==> AllKnown(sent, OnTheWay(front), Popped(front.book))
  }

  /** An id on its way that has already left the ledger. */
  ghost predicate SomeStale(ids: seq<nat>, popped: int) {
    exists i | 0 <= i < |ids| :: ids[i] <= popped
  }

  /** The oldest id leaves, with the prefix of the ledger that ends at it. */
  lemma OldestLeaves(sent: seq<nat>, id: nat, ids: seq<nat>, popped: int)
    requires popped < id
    ensures AllKnown(sent, [id] + ids, popped) ==> AllKnown(sent, ids, id)
    ensures SomeStale([id] + ids, popped) ==> SomeStale(ids, id)
  {
    var all := [id] + ids;
    if SomeStale(all, popped) {
      var i :| 0 <= i < |all| && all[i] <= popped;
      assert ids[i - 1] == all[i];
    }
  }

  /** After the source is done the publication is sure to succeed. */
  lemma PublishIsSure(front: Front, received: nat, safe: nat)
    requires FrontInv(front, received, safe) && front.commit.SourceDone?
    ensures RowsPublishable(front, front.commit.id)
    ensures BookInv(front.book) && OfferInv(front.book) && front.book.covered == front.commit.id
    ensures Popped(front.book) < front.commit.id <= |front.book.issued|
    ensures Covered(front.book.ledger, front.commit.id) == front.commit.id - Popped(front.book)
  {
    CommittedIdIsKnown(front, received, safe);
  }

  lemma PublishLeaves(front: Front)
    requires CommitEnabled(front, Publish) && RowsPublishable(front, front.commit.id)
    ensures var front' := PublishRows(front);
            && OnTheWay(front) == [front.commit.id] + OnTheWay(front')
            && front'.book == front.book.(ledger := front.book.ledger[Covered(front.book.ledger, front.commit.id)..])
  {
  }

  lemma PublishDropsOldest(front: Front, received: nat, safe: nat)
    requires FrontInv(front, received, safe) && CommitEnabled(front, Publish)
    ensures var front' := PublishRows(front);
            && OnTheWay(front) == [front.commit.id] + OnTheWay(front')
            && Popped(front.book) < front.commit.id == Popped(front'.book)
  {
    PublishIsSure(front, received, safe);
    PublishLeaves(front);
    PublishKeepsBook(front.book, front.commit.id);
  }

  /** What is on its way and what has left stays the same, as long as the reader lives. */
  ghost predicate SameWay(front: Front, front': Front) {
    && (!front'.phase.Stopped? ==> !front.phase.Stopped? && OnTheWay(front') == OnTheWay(front))
    && Popped(front'.book) == Popped(front.book)
  }

  lemma EarlyCommitKeepsWay(front: Front, step: CommitStep)
    requires CommitEnabled(front, step) && !step.Publish?
    ensures SameWay(front, CommitNext(front, step))
  {
  }

  lemma CommitKeepsArrives(front: Front, step: CommitStep, sent: seq<nat>, received: nat, safe: nat)
    requires Arrives(front, sent) && CommitEnabled(front, step) && FrontInv(front, received, safe)
    ensures Arrives(CommitNext(front, step), sent)
  {
    if step.Publish? {
      PublishDropsOldest(front, received, safe);
      OldestLeaves(sent, front.commit.id, OnTheWay(PublishRows(front)), Popped(front.book));
    } else {
      EarlyCommitKeepsWay(front, step);
    }
  }

  lemma UpKeepsArrives(front: Front, up: FrontStep, sent: seq<nat>, received: nat, safe: nat)
    requires Arrives(front, sent) && FrontEnabled(front, up) && FrontInv(front, received, safe)
    ensures Arrives(FrontNext(front, up), sent)
  {
    match up
    case Environment(_) =>
    case Reader(read) => ReaderKeepsEvents(front, read);
    case Committing(commit) => CommitKeepsArrives(front, commit, sent, received, safe);
    case Parsed(parse) => ParserKeepsEvents(front, parse);
  }

  lemma SendKeepsArrives(front: Front, id: nat, sent: seq<nat>)
    requires Arrives(front, sent)
    ensures Arrives(SendEvent(front, id), sent + [id])
  {
    assert OnTheWay(SendEvent(front, id)) == OnTheWay(front) + [id];
  }

  lemma StepKeepsArrives(s: State, step: Step)
    requires Inv(s) && Arrives(s.front, s.back.events) && Enabled(s, step)
    ensures Arrives(Next(s, step).front, Next(s, step).back.events)
  {
    match step
    case Up(up) => UpKeepsArrives(s.front, up, s.back.events, |s.back.consumed| + 1, Highest(s.back.events));
    case Down(down) =>
      BackGrows(s.back, down);
      if Sent(s.back, down).Some? {
        SendKeepsArrives(s.front, Sent(s.back, down).value, s.back.events);
      } else {
        assert AD.Next(s.back, down).events == s.back.events;
      }
  }

  lemma {:induction false} RunsKeepArrives(trace: seq<State>, steps: seq<Step>, i: nat)
    requires IsRun(trace, steps) && i <= |steps|
    ensures Arrives(trace[i].front, trace[i].back.events)
  {
    if i > 0 {
      RunsKeepArrives(trace, steps, i - 1);
      RunsKeepInv(trace, steps, i - 1);
      StepKeepsArrives(trace[i - 1], steps[i - 1]);
    }
  }

  // ---------------------------------------------------------------------------------------
  // A reader that takes event after event
  // ---------------------------------------------------------------------------------------

  /** The reader lives and has not reached the end of its source, and no total overflows. */
  ghost predicate Alive(front: Front, received: nat, sent: seq<nat>) {
    && FrontInv(front, received, Highest(sent))
    && Arrives(front, sent)
    && RowsFit(front, |front.book.issued|)
    && !front.phase.Stopped? && !front.phase.Finishing?
  }

  ghost predicate Stale(front: Front) {
    SomeStale(OnTheWay(front), Popped(front.book))
  }

  /** What the reader does next on the way to its next event. */
  function Onward(front: Front): FrontStep {
    match front.commit
    case Received(_) => Committing(Validate)
    case Validated(_) => Committing(CommitSource(true))
    case SourceDone(_) => Committing(Publish)
    case NoCommit =>
      if front.phase.Reading? then Reader(ReadBatch(Nothing))
      else if front.phase.Barrier? && front.book.ledger == [] then Reader(BarrierDone)
      else Committing(ReceiveEvent)
  }

  /** How many such steps are left, at most. */
  function Work(front: Front): nat {
    10 * |front.queues.events|
    + (match front.commit case NoCommit => 0 case SourceDone(_) => 4 case Validated(_) => 5 case Received(_) => 6)
    + (if front.phase.Reading? then 1 else if front.phase.Barrier? && front.book.ledger == [] then 2 else 0)
  }

  predicate Busy(front: Front) {
    !front.commit.NoCommit? || front.queues.events != []
  }

  /** Going on: less work, still alive, and what is stale stays so. */
  ghost predicate GoesOn(front: Front, front': Front, received: nat, sent: seq<nat>) {
    Alive(front', received, sent) && Work(front') < Work(front) && (Stale(front) ==> Stale(front'))
  }

  lemma ReceiveGoesOn(front: Front, received: nat, sent: seq<nat>)
    requires Alive(front, received, sent) && CommitEnabled(front, ReceiveEvent)
    ensures GoesOn(front, Receive(front), received, sent)
  {
    ReceiveKeepsFront(front, received, Highest(sent));
    EarlyCommitKeepsWay(front, ReceiveEvent);
  }

  /** The rows of what is committed fit, because the rows of everything issued do. */
  lemma FewerRowsFit(front: Front, id: nat, n: nat)
    requires RowsFit(front, n) && id <= n
    ensures RowsFit(front, id)
  {
    if front.rows.Some? {
      var h := front.rows.value;
      forall k | k in h.counts.committed ensures RC.RowsBelow(h.observed, id + 1, k) <= U64_MAX {
        RC.RowsBelowMonotone(h.observed, id + 1, n + 1, k);
      }
    }
  }

  lemma ValidatedGoesOn(front: Front, received: nat, sent: seq<nat>)
    requires Alive(front, received, sent) && front.commit.Received?
    requires Popped(front.book) < front.commit.id && RowsPublishable(front, front.commit.id)
    ensures GoesOn(front, front.(commit := Validated(front.commit.id)), received, sent)
  {
    ValidatedKeepsFront(front, received, Highest(sent));
    assert OnTheWay(front.(commit := Validated(front.commit.id))) == OnTheWay(front);
  }

  lemma ValidateGoesOn(front: Front, received: nat, sent: seq<nat>)
    requires Alive(front, received, sent) && front.commit.Received?
    ensures Broken(ValidateCommit(front)) || GoesOn(front, ValidateCommit(front), received, sent)
  {
    var safe := Highest(sent);
    ValidateOutcome(front, received, safe);
    if Popped(front.book) < front.commit.id {
      CommittedIdIsKnown(front, received, safe);
      FewerRowsFit(front, front.commit.id, |front.book.issued|);
      ValidatedGoesOn(front, received, sent);
    }
  }

  lemma SourceGoesOn(front: Front, received: nat, sent: seq<nat>)
    requires Alive(front, received, sent) && front.commit.Validated?
    ensures GoesOn(front, CommitAtSource(front, true), received, sent)
  {
    CommitSourceKeepsFront(front, true, received, Highest(sent));
    EarlyCommitKeepsWay(front, CommitSource(true));
    SourceChangesBook(front);
  }

  lemma SourceChangesBook(front: Front)
    requires CommitEnabled(front, CommitSource(true))
    ensures CommitAtSource(front, true)
            == front.(book := Offer(front.book, front.commit.id), commit := SourceDone(front.commit.id))
    ensures Work(CommitAtSource(front, true)) < Work(front)
  {
  }

  lemma PublishGoesOn(front: Front, received: nat, sent: seq<nat>)
    requires Alive(front, received, sent) && front.commit.SourceDone?
    ensures GoesOn(front, PublishRows(front), received, sent)
  {
    var safe := Highest(sent);
    PublishKeepsFront(front, received, safe);
    CommitKeepsArrives(front, Publish, sent, received, safe);
    PublishDropsOldest(front, received, safe);
    OldestLeaves(sent, front.commit.id, OnTheWay(PublishRows(front)), Popped(front.book));
    PublishKeepsFit(front);
  }

  lemma PublishKeepsFit(front: Front)
    requires CommitEnabled(front, Publish) && RowsPublishable(front, front.commit.id) && RowsFit(front, |front.book.issued|)
    ensures var front' := PublishRows(front);
            && RowsFit(front', |front'.book.issued|)
            && front'.phase == front.phase && front'.queues == front.queues && front'.commit.NoCommit?
  {
  }

  lemma ListenGoesOn(front: Front, step: ReaderStep, received: nat, sent: seq<nat>)
    requires Alive(front, received, sent) && ReaderEnabled(front, step)
    requires step == ReadBatch(Nothing) || step == BarrierDone
    ensures GoesOn(front, ReaderNext(front, step), received, sent)
  {
    ReaderKeepsFront(front, step, received, Highest(sent));
    ListenChangesPhase(front, step);
  }

  lemma ListenChangesPhase(front: Front, step: ReaderStep)
    requires ReaderEnabled(front, step) && (step == ReadBatch(Nothing) || step == BarrierDone)
    ensures var front' := ReaderNext(front, step);
            && front' == front.(phase := if step.BarrierDone? then Reading else Draining(Nothing))
            && OnTheWay(front') == OnTheWay(front) && Work(front') < Work(front)
  {
  }

  /** The next step is enabled, and it breaks the reader or goes on. */
  lemma OnwardGoesOn(front: Front, received: nat, sent: seq<nat>)
    requires Alive(front, received, sent) && Busy(front)
    ensures FrontEnabled(front, Onward(front))
    ensures var front' := FrontNext(front, Onward(front)); Broken(front') || GoesOn(front, front', received, sent)
  {
    match Onward(front)
    case Committing(ReceiveEvent) => ReceiveGoesOn(front, received, sent);
    case Committing(Validate) => ValidateGoesOn(front, received, sent);
    case Committing(CommitSource(_)) => SourceGoesOn(front, received, sent);
    case Committing(Publish) => PublishGoesOn(front, received, sent);
    case Reader(step) => ListenGoesOn(front, step, received, sent);
  }

  /** The reader works off all events, or breaks; it does break if one of them is stale. */
  lemma {:induction false} EventsAreWorkedOff(origin: State, front: Front, back: AD.State) returns (front': Front)
    requires Leads(origin, State(front, back)) && Alive(front, |back.consumed| + 1, back.events)
    ensures Leads(origin, State(front', back))
    ensures Broken(front') || (Alive(front', |back.consumed| + 1, back.events) && !Busy(front'))
    ensures Stale(front) ==> Broken(front')
    decreases Work(front)
  {
    front' := front;
    if Busy(front) {
      var received := |back.consumed| + 1;
      OnwardGoesOn(front, received, back.events);
      front' := FrontNext(front, Onward(front));
      UpStep(origin, front, Onward(front), front', back);
      if !Broken(front') {
        front' := EventsAreWorkedOff(origin, front', back);
      }
    }
  }

  // ---------------------------------------------------------------------------------------
  // The report that comes too late
  // ---------------------------------------------------------------------------------------

  /** A delivery has entered and is not reported, although an id above it was sent. */
  ghost predicate LeftBehind(back: AD.State) {
    back.sink.reported < |back.sink.entered| && back.sink.entered[back.sink.reported].id <= Highest(back.events)
  }

  /** Such a delivery is written, so a session may report it. */
  lemma LeftBehindIsWritten(back: AD.State)
    requires BackInv(back) && LeftBehind(back)
    ensures back.sink.reported < back.sink.durable && 1 <= back.sink.entered[back.sink.reported].id
  {
    var data := AD.DataOf(back.consumed);
    assert back.sink.entered <= data;
    DataPosition(back.consumed, back.sink.reported);
    var safe, id := Highest(back.events), back.sink.entered[back.sink.reported].id;
    OfPrefix(back.consumed[..safe], id);
    assert back.consumed[..safe][..id] == back.consumed[..id];
  }

  /** Once everything sent has arrived, the report is stale. */
  lemma HighestHasLeft(front: Front, sent: seq<nat>)
    requires Arrives(front, sent) && !Busy(front) && !front.phase.Stopped? && 0 <= Popped(front.book)
    ensures Highest(sent) <= Popped(front.book)
  {
    assert OnTheWay(front) == [];
    HighestBelow(sent, Popped(front.book) + 1);
  }

  lemma LateReportIsStale(front: Front, id: nat, received: nat, sent: seq<nat>)
    requires Alive(front, received, sent) && !Busy(front) && 1 <= id <= Highest(sent)
    ensures CanReceive(front)
    ensures Alive(SendEvent(front, id), received, sent + [id]) && Stale(SendEvent(front, id))
  {
    HighestHasLeft(front, sent);
    HighestOf(sent, id);
    SendEventKeepsFront(front, id, received, Highest(sent));
    SendKeepsArrives(front, id, sent);
    assert OnTheWay(SendEvent(front, id))[0] == id;
  }

  /** The session that reports it: the one running, or the next. */
  function InNextSession(back: AD.State): AD.State {
    if back.phase.Opening? then
      back.(sink := back.sink.(session := true),
            phase := if back.phase.pending.Some? then AD.Priming(back.phase.pending.value) else AD.Listening)
    else back
  }

  lemma NextSessionOpens(back: AD.State)
    requires back.phase.Opening?
    ensures AD.Enabled(back, AD.OpenSession) && AD.Next(back, AD.OpenSession) == InNextSession(back)
  {
  }

  /** There the delivery left behind can be reported. */
  lemma SessionMayReport(back: AD.State)
    requires back.sink.reported < back.sink.durable <= |back.sink.entered| && (back.sink.session || back.phase.Opening?)
    ensures var open, step := InNextSession(back), AD.SinkReports(back.sink.reported + 1);
            var id := back.sink.entered[back.sink.reported].id;
            && AD.Enabled(open, step) && Sent(open, step) == Some(id)
            && AD.Next(open, step).events == back.events + [id]
            && AD.Next(open, step).consumed == back.consumed && AD.Next(open, step).acked == back.acked
  {
  }

  lemma SessionReports(origin: State, front: Front, back: AD.State) returns (after: AD.State)
    requires Leads(origin, State(front, back)) && CanReceive(front) && BackInv(back) && LeftBehind(back)
    requires back.sink.session || back.phase.Opening?
    ensures Leads(origin, State(SendEvent(front, back.sink.entered[back.sink.reported].id), after))
    ensures after.events == back.events + [back.sink.entered[back.sink.reported].id]
    ensures after.consumed == back.consumed && after.acked == back.acked
  {
    LeftBehindIsWritten(back);
    var open, step := InNextSession(back), AD.SinkReports(back.sink.reported + 1);
    if back.phase.Opening? {
      NextSessionOpens(back);
      DownStep(origin, front, back, AD.OpenSession, open);
    }
    SessionMayReport(back);
    after := AD.Next(open, step);
    SendStep(origin, front, open, step, back.sink.entered[back.sink.reported].id, after);
  }

  /** The reader lives and still reads, the rows it counted fit, and a session is running or opens next. */
  ghost predicate GoesOnReading(s: State) {
    && !s.front.phase.Stopped? && !s.front.phase.Finishing?
    && RowsFit(s.front, |s.front.book.issued|)
    && (s.back.sink.session || s.back.phase.Opening?)
  }

  lemma LateReportBreaks(s: State) returns (t: State)
    requires Inv(s) && Arrives(s.front, s.back.events) && GoesOnReading(s) && LeftBehind(s.back)
    ensures Leads(s, t) && Broken(t.front) && t.back.acked == s.back.acked
  {
    var back := s.back;
    LeadsToItself(s);
    var front := EventsAreWorkedOff(s, s.front, back);
    if Broken(front) {
      t := State(front, back);
    } else {
      var id := back.sink.entered[back.sink.reported].id;
      LeftBehindIsWritten(back);
      LateReportIsStale(front, id, |back.consumed| + 1, back.events);
      var after := SessionReports(s, front, back);
      var front' := EventsAreWorkedOff(s, SendEvent(front, id), after);
      t := State(front', after);
    }
  }

  /** The run has a continuation without further acknowledgements that ends in the protocol error. */
  ghost predicate CanBreak(trace: seq<State>, steps: seq<Step>)
    requires |trace| == |steps| + 1
  {
    exists longer: seq<State>, more: seq<Step> ::
      && IsRun(longer, more) && trace <= longer && steps <= more
      && longer[|more|].back.acked == trace[|steps|].back.acked
      && Broken(longer[|more|].front)
  }

  /** From every state of every run in which a delivery was left behind, some continuation ends in the
      protocol error, if the reader still reads and a session can still report. */
  lemma LeftBehindCanBreak(trace: seq<State>, steps: seq<Step>)
    requires IsRun(trace, steps) && GoesOnReading(trace[|steps|]) && LeftBehind(trace[|steps|].back)
    ensures CanBreak(trace, steps)
  {
    RunsKeepInv(trace, steps, |steps|);
    RunsKeepArrives(trace, steps, |steps|);
    var t := LateReportBreaks(trace[|steps|]);
    RunGoesOn(trace, steps, t);
  }

  // ---------------------------------------------------------------------------------------
  // The acknowledgement decides
  // ---------------------------------------------------------------------------------------

  /** The dataset being acknowledged is above everything sent. */
  lemma AcknowledgedIsHighest(back: AD.State)
    requires BackInv(back) && back.phase.Acknowledging?
    ensures back.phase.id == |back.consumed| && Highest(back.events) < back.phase.id
    ensures AD.DatasetsOf(back.consumed) == back.acked + [back.phase.id]
  {
    AcknowledgementCovers(back);
    assert back.consumed[..|back.consumed|] == back.consumed;
  }

  /** So an unreported delivery is left behind by it. */
  lemma AcknowledgementLeavesBehind(back: AD.State)
    requires BackInv(back) && back.phase.Acknowledging? && !AE.AllReported(back)
    ensures LeftBehind(AD.Next(back, AD.Acknowledge(true)))
  {
    AcknowledgedIsHighest(back);
    assert back.sink.entered <= AD.DataOf(back.consumed);
    DataPosition(back.consumed, back.sink.reported);
    HighestOf(back.events, back.phase.id);
  }

  /** At that moment the reader waits for the dataset. */
  lemma ReaderAwaitsAcknowledgement(s: State)
    requires Inv(s) && EB.Waits(s.front, AD.DatasetsOf(s.back.consumed)) && Enabled(s, Down(AD.Acknowledge(true)))
    ensures s.front.phase.Barrier?
  {
    AcknowledgedIsHighest(s.back);
    DroppedIsSafe(s.front, |s.back.consumed| + 1, Highest(s.back.events));
    assert AD.DatasetsOf(s.back.consumed)[|s.back.acked|] == s.back.phase.id;
  }

  lemma DroppedIsSafe(front: Front, received: nat, safe: nat)
    requires FrontInv(front, received, safe)
    ensures Popped(front.book) <= safe
  {
  }

  /** After it, the reader still reads, with a delivery left behind. */
  lemma AcknowledgementGoesOn(s: State, s': State)
    requires Inv(s) && EB.Waits(s.front, AD.DatasetsOf(s.back.consumed))
    requires Enabled(s, Down(AD.Acknowledge(true))) && s' == Next(s, Down(AD.Acknowledge(true)))
    requires RowsFit(s.front, |s.front.book.issued|) && !AE.AllReported(s.back)
    ensures GoesOnReading(s') && LeftBehind(s'.back)
  {
    ReaderAwaitsAcknowledgement(s);
    AcknowledgementLeavesBehind(s.back);
  }

  /** An acknowledgement that does not find everything reported leaves a continuation into the error. */
  lemma UnreportedAcknowledgementCanBreak(trace: seq<State>, steps: seq<Step>)
    requires IsRun(trace, steps) && steps != [] && steps[|steps| - 1] == Down(AD.Acknowledge(true))
    requires RowsFit(trace[|steps| - 1].front, |trace[|steps| - 1].front.book.issued|)
    requires !AE.AllReported(trace[|steps| - 1].back)
    ensures CanBreak(trace, steps)
  {
    RunsKeepInv(trace, steps, |steps| - 1);
    EB.RunsKeepWaits(trace, steps, |steps| - 1);
    AcknowledgementGoesOn(trace[|steps| - 1], trace[|steps|]);
    LeftBehindCanBreak(trace, steps);
  }

  lemma StepKeepsAcked(s: State, step: Step)
    requires Enabled(s, step)
    ensures |s.back.acked| <= |Next(s, step).back.acked|
    ensures step == Down(AD.Acknowledge(true)) ==> |s.back.acked| < |Next(s, step).back.acked|
  {
    if step.Down? {
      BackGrows(s.back, step.down);
    }
  }

  lemma {:induction false} AckedGrows(trace: seq<State>, steps: seq<Step>, i: nat, j: nat)
    requires IsPath(trace, steps) && i <= j <= |steps|
    ensures |trace[i].back.acked| <= |trace[j].back.acked|
    decreases j - i
  {
    if i < j {
      StepKeepsAcked(trace[i], steps[i]);
      AckedGrows(trace, steps, i + 1, j);
    }
  }

  /** Where the acknowledged datasets stay the same, nothing is acknowledged. */
  lemma NothingAcknowledged(trace: seq<State>, steps: seq<Step>, i: nat, j: nat)
    requires IsPath(trace, steps) && i <= j < |steps| && trace[|steps|].back.acked == trace[i].back.acked
    ensures steps[j] != Down(AD.Acknowledge(true))
  {
    AckedGrows(trace, steps, i, j);
    StepKeepsAcked(trace[j], steps[j]);
    AckedGrows(trace, steps, j + 1, |steps|);
  }

  /** While every acknowledgement finds everything reported, no continuation breaks before the next one. */
  lemma ReportedRunsCannotBreak(trace: seq<State>, steps: seq<Step>)
    requires IsRun(trace, steps) && AcksFollowReports(trace, steps, |steps|)
    ensures !CanBreak(trace, steps)
  {
    forall longer: seq<State>, more: seq<Step>
      | IsRun(longer, more) && trace <= longer && steps <= more && longer[|more|].back.acked == trace[|steps|].back.acked
      ensures !Broken(longer[|more|].front)
    {
      forall i | 0 <= i < |more| && more[i] == Down(AD.Acknowledge(true))
        ensures AE.AllReported(longer[i].back)
      {
        if i < |steps| {
          assert more[i] == steps[i] && longer[i] == trace[i];
        } else {
          NothingAcknowledged(longer, more, |steps|, i);
        }
      }
      ProtocolErrorsAreUnreachable(longer, more, |more|);
    }
  }

  lemma PrefixIsRun(trace: seq<State>, steps: seq<Step>, n: nat)
    requires IsRun(trace, steps) && n <= |steps|
    ensures IsRun(trace[..n + 1], steps[..n])
    ensures AcksFollowReports(trace, steps, |steps|) ==> AcksFollowReports(trace[..n + 1], steps[..n], n)
  {
  }

  /** The error is in reach after some prefix of the run. */
  ghost predicate BreaksSomewhere(trace: seq<State>, steps: seq<Step>)
    requires |trace| == |steps| + 1
  {
    exists n: nat {:trigger steps[..n]} | n <= |steps| :: CanBreak(trace[..n + 1], steps[..n])
  }

  /** Over whole runs: the protocol error is out of reach throughout a run if and only if every
      acknowledgement of the run finds everything reported. */
  lemma RunIsSafeIff(trace: seq<State>, steps: seq<Step>)
    requires IsRun(trace, steps)
    requires forall i | 0 <= i < |steps| :: RowsFit(trace[i].front, |trace[i].front.book.issued|)
    ensures !BreaksSomewhere(trace, steps) <==> AcksFollowReports(trace, steps, |steps|)
  {
    if AcksFollowReports(trace, steps, |steps|) {
      forall n: nat | n <= |steps| ensures !CanBreak(trace[..n + 1], steps[..n]) {
        PrefixIsRun(trace, steps, n);
        ReportedRunsCannotBreak(trace[..n + 1], steps[..n]);
      }
    } else {
      var i :| 0 <= i < |steps| && steps[i] == Down(AD.Acknowledge(true)) && !AE.AllReported(trace[i].back);
      PrefixIsRun(trace, steps, i + 1);
      UnreportedAcknowledgementCanBreak(trace[..i + 2], steps[..i + 1]);
    }
  }
}
