/**
  What every run of the pipeline with a tracking sink guarantees. The tracker supplies the two numbers
  of the upstream invariant: what it has received, and what it has reported.
 */
module PipelineSafety {
  import opened Common
  import opened CommitLedger
  import opened PipelineFront
  import opened FrontSafety
  import opened Pipeline
  import DT = DeliveryTracking

  ghost predicate SinkInv(sink: Sink) {
    DT.Accounts(sink.run.tracker, sink.run.log) && !sink.orderViolation
  }

  /** The last delivery the tracker has found complete. */
  function Complete(sink: Sink): int {
    sink.run.tracker.nextCommit - 1
  }

  ghost predicate Inv(s: State) {
    && SinkInv(s.sink)
    && FrontInv(s.front, s.sink.run.tracker.nextReceived, Complete(s.sink))
    && (s.sink.reporting.Some? ==> 1 <= s.sink.reporting.value <= Complete(s.sink))
    && InOrder(s.front, s.sink.reporting, s.sink.run.tracker.nextCommit)
  }

  lemma InitSink(sink: Sink)
    requires sink == Sink(DT.RunOf([]), None, false)
    ensures SinkInv(sink) && sink.run.tracker.nextReceived == 1 && sink.run.tracker.nextCommit == 1
  {
    assert DT.Accounts(DT.INITIAL, DT.EMPTY_LOG);
  }

  lemma InitOrder(front: Front)
    requires FrontInit(front)
    ensures InOrder(front, None, 1)
  {
  }

  /** The parts of the invariant put together. */
  lemma InvOfParts(s: State, received: nat, safe: nat)
    requires SinkInv(s.sink) && s.sink.run.tracker.nextReceived == received && Complete(s.sink) == safe
    requires FrontInv(s.front, received, safe) && s.sink.reporting.None? && InOrder(s.front, None, safe + 1)
    ensures Inv(s)
  {
  }

  lemma InitInv(s: State)
    requires Init(s)
    ensures Inv(s)
  {
    InitKeepsFront(s.front);
    InitSink(s.sink);
    InitOrder(s.front);
    InvOfParts(s, 1, 0);
  }

  lemma UpKeepsInv(s: State, step: FrontStep)
    requires Inv(s) && FrontEnabled(s.front, step)
    ensures Inv(s.(front := FrontNext(s.front, step)))
  {
    StepKeepsFront(s.front, step, s.sink.run.tracker.nextReceived, Complete(s.sink));
    StepKeepsOrder(s.front, step, s.sink.run.tracker.nextReceived, Complete(s.sink), s.sink.reporting,
                   s.sink.run.tracker.nextCommit);
  }

  lemma AcceptKeepsInv(s: State, units: nat)
    requires Inv(s) && SinkEnabled(s, SinkAccepts(units))
    ensures Inv(AcceptDelivery(s, units))
  {
    var delivery := s.front.queues.deliveries[0];
    TakeDeliveryKeepsFront(s.front, s.sink.run.tracker.nextReceived, Complete(s.sink));
    DT.ApplyKeepsAccounts(s.sink.run, DT.OpAccept(delivery.id, units, delivery.messages));
  }

  /** What one take does, as far as the rest of the pipeline sees it. */
  lemma TakeFacts(sink: Sink)
    requires SinkInv(sink)
    ensures var taken := TakeReport(sink);
            && SinkInv(taken)
            && taken.run.tracker.nextReceived == sink.run.tracker.nextReceived
            && sink.run.tracker.nextCommit <= taken.run.tracker.nextCommit
            && (taken.reporting.None? ==> taken.run.tracker.nextCommit == sink.run.tracker.nextCommit)
            && (taken.reporting.Some? ==>
                  sink.run.tracker.nextCommit <= taken.reporting.value
                  && taken.run.tracker.nextCommit == taken.reporting.value + 1)
  {
    DT.TakeReportsMaximalPrefix(sink.run.tracker, sink.run.log);
  }

  lemma TakeKeepsInv(s: State)
    requires Inv(s) && SinkEnabled(s, SinkTakes)
    ensures Inv(s.(sink := TakeReport(s.sink)))
  {
    TakeFacts(s.sink);
    var sink, front := TakeReport(s.sink), s.front;
    SafeGrows(front, s.sink.run.tracker.nextReceived, Complete(s.sink), Complete(sink));
    if sink.reporting.Some? {
      OrderedReport(front.commit, front.queues.events, sink.reporting.value, Popped(front.book),
                    s.sink.run.tracker.nextCommit);
    }
  }

  lemma ReportKeepsInv(s: State)
    requires Inv(s) && SinkEnabled(s, SinkReports)
    ensures Inv(SinkNext(s, SinkReports))
  {
    var front, id := s.front, s.sink.reporting.value;
    SendEventKeepsFront(front, id, s.sink.run.tracker.nextReceived, Complete(s.sink));
    assert InFlight(front.commit, front.queues.events + [id], None) == InFlight(front.commit, front.queues.events, Some(id));
  }

  lemma CompleteKeepsInv(s: State, id: nat, units: nat)
    requires Inv(s) && SinkEnabled(s, SinkCompletes(id, units))
    ensures Inv(SinkNext(s, SinkCompletes(id, units)))
  {
    DT.ApplyKeepsAccounts(s.sink.run, DT.OpComplete(id, units));
  }

  lemma StepKeepsInv(s: State, step: Step)
    requires Inv(s) && Enabled(s, step)
    ensures Inv(Next(s, step))
  {
    match step
    case Up(up) => UpKeepsInv(s, up);
    case Sunk(SinkAccepts(units)) => AcceptKeepsInv(s, units);
    case Sunk(SinkCompletes(id, units)) => CompleteKeepsInv(s, id, units);
    case Sunk(SinkTakes) => TakeKeepsInv(s);
    case Sunk(SinkReports) => ReportKeepsInv(s);
  }

  lemma {:induction false} RunsKeepInv(trace: seq<State>, steps: seq<Step>, i: nat)
    requires IsRun(trace, steps) && i <= |steps|
    ensures Inv(trace[i])
  {
    if i == 0 {
      InitInv(trace[0]);
    } else {
      RunsKeepInv(trace, steps, i - 1);
      StepKeepsInv(trace[i - 1], steps[i - 1]);
    }
  }

  // ---------------------------------------------------------------------------------------
  // Theorems about every run
  // ---------------------------------------------------------------------------------------

  /**
    Durability. At every point of every run, the marker groups handed to the source concatenate
    to the markers of a prefix of the issued deliveries, in order and once each. Every delivery
    of that prefix has zero units left at the sink. The finite source counts as drained only if
    that prefix is every delivery issued.
   */
  lemma CommitsFollowDurability(trace: seq<State>, steps: seq<Step>, i: nat)
    requires IsRun(trace, steps) && i <= |steps|
    ensures var Book(_, _, issued, offered, covered) := trace[i].front.book;
            && covered <= |issued|
            && (forall k | 0 <= k < |issued| :: issued[k].id == k + 1)
            && Flatten(offered) == Markers(issued[..covered])
            && (forall id | 1 <= id <= covered :: DT.Finished(trace[i].sink.run.log, id))
            && (Drained(trace[i].front) ==> covered == |issued|)
  {
    RunsKeepInv(trace, steps, i);
    var s := trace[i];
    FrontCommitsPrefix(s.front, s.sink.run.tracker.nextReceived, Complete(s.sink));
    assert forall id | 1 <= id < s.sink.run.tracker.nextCommit :: DT.Finished(s.sink.run.log, id);
  }

  /** The reader never stopped on a branch that reports a broken protocol. */
  ghost predicate NoProtocolError(s: Front) {
    NoRowError(s) && s.phase != Stopped(Failed(SinkIdOutOfRange))
  }

  /** The branches that report a broken protocol are unreachable: every reported id is in the
      ledger's range and pending in the row counter, publishing never fails after the source was
      committed, and the sink sees the deliveries in order. */
  lemma ProtocolErrorsAreUnreachable(trace: seq<State>, steps: seq<Step>, i: nat)
    requires IsRun(trace, steps) && i <= |steps|
    ensures NoProtocolError(trace[i].front) && !trace[i].sink.orderViolation
    ensures var front := trace[i].front;
            front.commit.Received? ==>
              && InRange(front.book.ledger, front.commit.id)
              && (front.rows.Some? ==> front.commit.id in front.rows.value.counts.pending)
  {
    RunsKeepInv(trace, steps, i);
    var s := trace[i];
    if s.front.commit.Received? {
      OrderedDrop(s.front.commit, s.front.queues.events, s.sink.reporting, Popped(s.front.book), Popped(s.front.book),
                  s.sink.run.tracker.nextCommit);
      CommittedIdIsKnown(s.front, s.sink.run.tracker.nextReceived, Complete(s.sink));
    }
  }

  /**
    Exact totals. Published totals are the rows of exactly the published deliveries, and the source
    is never left ahead of them: outside a running commit the two agree, inside a commit the
    pending publication is sure to succeed, and only a refused source commit separates them.
   */
  lemma TotalsFollowSource(trace: seq<State>, steps: seq<Step>, i: nat)
    requires IsRun(trace, steps) && i <= |steps|
    ensures TotalsFollow(trace[i].front)
  {
    RunsKeepInv(trace, steps, i);
    FrontTotalsFollow(trace[i].front, trace[i].sink.run.tracker.nextReceived, Complete(trace[i].sink));
  }

  lemma BookOnlyGrows(s: State, step: Step)
    requires Enabled(s, step)
    ensures Extends(s.front.book, Next(s, step).front.book)
  {
    if step.Up? {
      StepExtends(s.front, step.step);
    } else {
      assert Next(s, step).front.book == s.front.book;
    }
  }

  /** Nothing issued or handed to the source is ever taken back. */
  lemma {:induction false} HistoryIsNeverRewritten(trace: seq<State>, steps: seq<Step>, i: nat, j: nat)
    requires IsRun(trace, steps) && i <= j <= |steps|
    ensures Extends(trace[i].front.book, trace[j].front.book)
    decreases j - i
  {
    if i < j {
      BookOnlyGrows(trace[i], steps[i]);
      HistoryIsNeverRewritten(trace, steps, i + 1, j);
      ExtendsFurther(trace[i].front.book, trace[i + 1].front.book, trace[j].front.book);
    }
  }
}
