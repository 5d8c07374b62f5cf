/**
  Ordered completion accounting of a durable sink.

  The tracker is written as a class whose methods change it in place; each method is proved
  against a function on `Tracker` values. The theorems are about runs: arbitrary
  interleavings of accept, complete and take.
 */
module DeliveryTracking {
  import opened Common

  datatype Entry = Entry(remaining: nat, messages: nat)

  datatype Committed = Committed(through: nat, messages: nat)

  datatype Tracker = Tracker(entries: map<nat, Entry>, nextReceived: nat, nextCommit: nat)

  const INITIAL: Tracker := Tracker(map[], 1, 1)

  datatype TrackerError = OrderViolation | MissingDelivery | Underflow

  function Accept(t: Tracker, id: nat, units: nat, messages: nat): Result<Tracker, TrackerError> {
    if id != t.nextReceived then Err(OrderViolation)
    else Ok(t.(nextReceived := NextId(t.nextReceived), entries := t.entries[id := Entry(units, messages)]))
  }

  function Complete(t: Tracker, id: nat, units: nat): Result<Tracker, TrackerError> {
    if id !in t.entries then Err(MissingDelivery)
    else if t.entries[id].remaining < units then Err(Underflow)
    else Ok(t.(entries := t.entries[id := t.entries[id].(remaining := t.entries[id].remaining - units)]))
  }

  /** The loop guard of `take_committed`. */
  predicate FrontFinished(t: Tracker) {
    t.nextCommit in t.entries && t.entries[t.nextCommit].remaining == 0
  }

  /** One iteration of the loop of `take_committed`. */
  function PopFront(t: Tracker): Tracker
    requires FrontFinished(t)
  {
    t.(entries := t.entries - {t.nextCommit}, nextCommit := NextId(t.nextCommit))
  }

  lemma PopFrontShrinks(t: Tracker)
    requires FrontFinished(t)
    ensures |PopFront(t).entries| < |t.entries|
  {
    assert PopFront(t).entries.Keys == t.entries.Keys - {t.nextCommit};
    assert |t.entries.Keys| == |t.entries|;
    assert |PopFront(t).entries.Keys| == |PopFront(t).entries|;
  }

  /** The report so far, extended by the finished front. */
  function Extended(t: Tracker, report: Option<Committed>): Option<Committed>
    requires FrontFinished(t)
  {
    var soFar := if report.Some? then report.value.messages else 0;
    Some(Committed(t.nextCommit, SaturatingAdd(soFar, t.entries[t.nextCommit].messages)))
  }

  /** The whole loop: the remaining tracker and the report built on top of `report`. */
  function TakeFrom(t: Tracker, report: Option<Committed>): (r: (Tracker, Option<Committed>))
    decreases |t.entries|
  {
    if FrontFinished(t) then
      PopFrontShrinks(t);
      TakeFrom(PopFront(t), Extended(t, report))
    else
      (t, report)
  }

  function Take(t: Tracker): (Tracker, Option<Committed>) {
    TakeFrom(t, None)
  }

  /** `DeliveryTracker`, updated in place. */
  class DeliveryTracker {
    var entries: map<nat, Entry>
    var nextReceived: nat
    var nextCommit: nat

    ghost function View(): Tracker
      reads this
    {
      Tracker(entries, nextReceived, nextCommit)
    }

    constructor ()
      ensures View() == INITIAL
    {
      entries, nextReceived, nextCommit := map[], 1, 1;
    }

    method AcceptDelivery(id: nat, remaining: nat, sourceMessages: nat) returns (r: Result<(), TrackerError>)
      modifies this
      ensures r.Ok? <==> id == old(nextReceived)
      ensures r.Ok? ==> Accept(old(View()), id, remaining, sourceMessages) == Ok(View())
      ensures r.Err? ==> View() == old(View()) && r.error == OrderViolation
    {
      if id != nextReceived {
        return Err(OrderViolation);
      }
      nextReceived := NextId(nextReceived);
      entries := entries[id := Entry(remaining, sourceMessages)];
      return Ok(());
    }

    method CompleteUnits(id: nat, units: nat) returns (r: Result<(), TrackerError>)
      modifies this
      ensures r.Ok? <==> id in old(entries) && units <= old(entries)[id].remaining
      ensures r.Ok? ==> Complete(old(View()), id, units) == Ok(View())
      ensures r.Err? ==> View() == old(View()) && Complete(View(), id, units) == Err(r.error)
    {
      if id !in entries {
        return Err(MissingDelivery);
      }
      var state := entries[id];
      if state.remaining < units {
        return Err(Underflow);
      }
      entries := entries[id := state.(remaining := state.remaining - units)];
      return Ok(());
    }

    method TakeCommitted() returns (report: Option<Committed>)
      modifies this
      ensures (View(), report) == Take(old(View()))
    {
      var through: Option<nat> := None;
      var messages := 0;
      while nextCommit in entries && entries[nextCommit].remaining == 0
        invariant through.None? ==> messages == 0
        invariant Take(old(View())) ==
                  TakeFrom(View(), if through.None? then None else Some(Committed(through.value, messages)))
        decreases |entries|
      {
        PopFrontShrinks(View());
        var state := entries[nextCommit];
        entries := entries - {nextCommit};
        messages := SaturatingAdd(messages, state.messages);
        through := Some(nextCommit);
        nextCommit := NextId(nextCommit);
      }
      report := if through.None? then None else Some(Committed(through.value, messages));
    }

    method IsEmpty() returns (empty: bool)
      ensures empty <==> entries == map[]
    {
      empty := |entries| == 0;
    }
  }

  /** The tracker holds exactly the deliveries received but not yet reported. */
  ghost predicate Valid(t: Tracker) {
    && 1 <= t.nextCommit <= t.nextReceived <= U64_MAX
    && forall id :: id in t.entries <==> t.nextCommit <= id < t.nextReceived
  }

  /** Ids saturate, so accepting the last id is what breaks the tracker, and nothing else does. */
  lemma AcceptKeepsValidIff(t: Tracker, id: nat, units: nat, messages: nat)
    requires Valid(t)
    requires Accept(t, id, units, messages).Ok?
    ensures Valid(Accept(t, id, units, messages).value) <==> id < U64_MAX
  {
    var next := Accept(t, id, units, messages).value;
    assert id in next.entries;
    assert id < U64_MAX ==> forall k :: k in next.entries <==> k in t.entries || k == id;
  }

  // ---------------------------------------------------------------------------------------
  // Runs
  // ---------------------------------------------------------------------------------------

  datatype Op =
    | OpAccept(id: nat, units: nat, messages: nat)
    | OpComplete(id: nat, units: nat)
    | OpTake

  /** What a run did: every accepted delivery (number `i + 1` at index `i`), every successful
      completion, and every report. */
  datatype Log = Log(accepted: seq<Entry>, completions: seq<(nat, nat)>, reports: seq<Committed>)

  const EMPTY_LOG: Log := Log([], [], [])

  datatype Run = Run(tracker: Tracker, log: Log)

  /** One operation. A failed operation changes nothing. */
  function Apply(run: Run, op: Op): Run {
    match op
    case OpAccept(id, units, messages) =>
      var r := Accept(run.tracker, id, units, messages);
      if r.Err? then run
      else Run(r.value, run.log.(accepted := run.log.accepted + [Entry(units, messages)]))
    case OpComplete(id, units) =>
      var r := Complete(run.tracker, id, units);
      if r.Err? then run
      else Run(r.value, run.log.(completions := run.log.completions + [(id, units)]))
    case OpTake =>
      var (t, report) := Take(run.tracker);
      if report.None? then Run(t, run.log)
      else Run(t, run.log.(reports := run.log.reports + [report.value]))
  }

  function RunOf(ops: seq<Op>): Run {
    if ops == [] then Run(INITIAL, EMPTY_LOG)
    else Apply(RunOf(ops[..|ops| - 1]), ops[|ops| - 1])
  }

  /** The standing assumption on ids: no delivery is numbered `u64::MAX`. */
  ghost predicate BelowSaturation(ops: seq<Op>) {
    forall i | 0 <= i < |ops| && ops[i].OpAccept? :: ops[i].id < U64_MAX
  }

  ghost function UnitsFor(id: nat): ((nat, nat)) -> int {
    (c: (nat, nat)) => if c.0 == id then c.1 else 0
  }

  /** The units completed for one delivery. */
  ghost function Done(completions: seq<(nat, nat)>, id: nat): int {
    Sum(completions, UnitsFor(id))
  }

  /** The source messages of the first `n` accepted deliveries. */
  ghost function Messages(accepted: seq<Entry>, n: nat): nat
    requires n <= |accepted|
  {
    if n == 0 then 0 else Messages(accepted, n - 1) + accepted[n - 1].messages
  }

  function ReportMessages(c: Committed): int { c.messages }

  /** Delivery `id` was accepted and has no units left. */
  ghost predicate Finished(log: Log, id: nat) {
    1 <= id <= |log.accepted| && Done(log.completions, id) == log.accepted[id - 1].remaining
  }

  /** The tracker is what the log says: units still open, nothing else. */
  ghost predicate Accounts(t: Tracker, log: Log) {
    && Valid(t)
    && |log.accepted| == t.nextReceived - 1
    && (forall id | 1 <= id < t.nextCommit :: Done(log.completions, id) == log.accepted[id - 1].remaining)
    && (forall id | t.nextCommit <= id < t.nextReceived ::
          t.entries[id].remaining == log.accepted[id - 1].remaining - Done(log.completions, id)
          && t.entries[id].messages == log.accepted[id - 1].messages)
    && (forall id | id >= t.nextReceived :: Done(log.completions, id) == 0)
  }

  /** The first delivery covered by report `j`. */
  ghost function ReportStart(reports: seq<Committed>, j: nat): nat
    requires j <= |reports|
  {
    if j == 0 then 1 else reports[j - 1].through + 1
  }

  /** `report` covers exactly deliveries `start .. end - 1`, with their (saturated) message count. */
  ghost predicate Covers(accepted: seq<Entry>, start: nat, end: nat, report: Committed) {
    && 1 <= start < end <= |accepted| + 1
    && report.through == end - 1
    && report.messages == Min(U64_MAX, Messages(accepted, end - 1) - Messages(accepted, start - 1))
  }

  /** The reports tile `1 .. nextCommit - 1`: each starts where the previous one ended and none
      is empty. */
  ghost predicate Tiles(t: Tracker, log: Log) {
    && ReportStart(log.reports, |log.reports|) == t.nextCommit
    && forall j {:trigger ReportStart(log.reports, j)} | 0 <= j < |log.reports| ::
         Covers(log.accepted, ReportStart(log.reports, j), log.reports[j].through + 1, log.reports[j])
  }

  lemma {:induction false} MessagesMonotone(accepted: seq<Entry>, m: nat, n: nat)
    requires m <= n <= |accepted|
    ensures Messages(accepted, m) <= Messages(accepted, n)
  {
    if m < n {
      MessagesMonotone(accepted, m, n - 1);
    }
  }

  lemma {:induction false} MessagesPrefix(accepted: seq<Entry>, e: Entry, n: nat)
    requires n <= |accepted|
    ensures Messages(accepted + [e], n) == Messages(accepted, n)
  {
    if n > 0 {
      MessagesPrefix(accepted, e, n - 1);
    }
  }

  lemma CoversPrefix(accepted: seq<Entry>, e: Entry, start: nat, end: nat, report: Committed)
    requires Covers(accepted, start, end, report)
    ensures Covers(accepted + [e], start, end, report)
  {
    MessagesPrefix(accepted, e, start - 1);
    MessagesPrefix(accepted, e, end - 1);
  }

  /** What the loop of `take_committed` has reported once the front moved from `start` to `end`. */
  ghost predicate Reports(log: Log, start: nat, end: nat, report: Option<Committed>) {
    if report.None? then start == end else Covers(log.accepted, start, end, report.value)
  }

  lemma PopFrontKeepsAccounts(t: Tracker, log: Log)
    requires Accounts(t, log) && FrontFinished(t)
    ensures Accounts(PopFront(t), log)
    ensures PopFront(t).nextCommit == t.nextCommit + 1
  {
  }

  lemma CoversExtend(accepted: seq<Entry>, start: nat, id: nat, report: Option<Committed>)
    requires 1 <= start <= id <= |accepted|
    requires if report.None? then start == id else Covers(accepted, start, id, report.value)
    ensures var soFar := if report.Some? then report.value.messages else 0;
            Covers(accepted, start, id + 1, Committed(id, SaturatingAdd(soFar, accepted[id - 1].messages)))
  {
    MessagesMonotone(accepted, start - 1, id - 1);
  }

  lemma {:induction false} TakeFromReports(t: Tracker, log: Log, start: nat, report: Option<Committed>)
    requires Accounts(t, log) && 1 <= start <= t.nextCommit
    requires Reports(log, start, t.nextCommit, report)
    ensures var (after, r) := TakeFrom(t, report);
            && Accounts(after, log)
            && !FrontFinished(after)
            && after.nextReceived == t.nextReceived
            && t.nextCommit <= after.nextCommit
            && Reports(log, start, after.nextCommit, r)
    decreases |t.entries|
  {
    if FrontFinished(t) {
      PopFrontShrinks(t);
      PopFrontKeepsAccounts(t, log);
      CoversExtend(log.accepted, start, t.nextCommit, report);
      TakeFromReports(PopFront(t), log, start, Extended(t, report));
      assert TakeFrom(t, report) == TakeFrom(PopFront(t), Extended(t, report));
    }
  }

  /** One take reports the maximal contiguous finished prefix: everything below the new front is
      finished, and the front itself, if it was received, is not. */
  lemma TakeReportsMaximalPrefix(t: Tracker, log: Log)
    requires Accounts(t, log)
    ensures var (after, report) := Take(t);
            && Accounts(after, log)
            && after.nextReceived == t.nextReceived
            && t.nextCommit <= after.nextCommit
            && Reports(log, t.nextCommit, after.nextCommit, report)
            && (forall id | 1 <= id < after.nextCommit :: Finished(log, id))
            && !Finished(log, after.nextCommit)
  {
    TakeFromReports(t, log, t.nextCommit, None);
  }

  lemma CompleteKeepsAccounts(t: Tracker, log: Log, id: nat, units: nat)
    requires Accounts(t, log)
    requires Complete(t, id, units).Ok?
    ensures Accounts(Complete(t, id, units).value, log.(completions := log.completions + [(id, units)]))
  {
    forall k: nat
      ensures Done(log.completions + [(id, units)], k) == Done(log.completions, k) + (if k == id then units else 0)
    {
      SumAppend(log.completions, (id, units), UnitsFor(k));
    }
  }

  lemma AcceptKeepsAccounts(t: Tracker, log: Log, id: nat, units: nat, messages: nat)
    requires Accounts(t, log) && id < U64_MAX
    requires Accept(t, id, units, messages).Ok?
    ensures Accounts(Accept(t, id, units, messages).value, log.(accepted := log.accepted + [Entry(units, messages)]))
  {
    AcceptKeepsValidIff(t, id, units, messages);
  }

  lemma ApplyKeepsAccounts(run: Run, op: Op)
    requires Accounts(run.tracker, run.log)
    requires op.OpAccept? ==> op.id < U64_MAX
    ensures Accounts(Apply(run, op).tracker, Apply(run, op).log)
  {
    match op
    case OpAccept(id, units, messages) =>
      if Accept(run.tracker, id, units, messages).Ok? {
        AcceptKeepsAccounts(run.tracker, run.log, id, units, messages);
      }
    case OpComplete(id, units) =>
      if Complete(run.tracker, id, units).Ok? {
        CompleteKeepsAccounts(run.tracker, run.log, id, units);
      }
    case OpTake =>
      TakeReportsMaximalPrefix(run.tracker, run.log);
  }

  lemma AcceptKeepsTiles(t: Tracker, log: Log, e: Entry)
    requires Tiles(t, log)
    ensures Tiles(t.(nextReceived := NextId(t.nextReceived)), log.(accepted := log.accepted + [e]))
  {
    forall j {:trigger ReportStart(log.reports, j)} | 0 <= j < |log.reports|
      ensures Covers(log.accepted + [e], ReportStart(log.reports, j), log.reports[j].through + 1, log.reports[j])
    {
      CoversPrefix(log.accepted, e, ReportStart(log.reports, j), log.reports[j].through + 1, log.reports[j]);
    }
  }

  lemma ReportKeepsTiles(t: Tracker, log: Log, after: Tracker, report: Committed)
    requires Tiles(t, log)
    requires Covers(log.accepted, t.nextCommit, after.nextCommit, report)
    ensures Tiles(after, log.(reports := log.reports + [report]))
  {
    var reports := log.reports + [report];
    forall j | 0 <= j <= |log.reports|
      ensures ReportStart(reports, j) == ReportStart(log.reports, j)
    {
    }
  }

  lemma ApplyKeepsTiles(run: Run, op: Op)
    requires Accounts(run.tracker, run.log) && Tiles(run.tracker, run.log)
    ensures Tiles(Apply(run, op).tracker, Apply(run, op).log)
  {
    match op
    case OpAccept(id, units, messages) =>
      AcceptKeepsTiles(run.tracker, run.log, Entry(units, messages));
    case OpComplete(id, units) =>
    case OpTake =>
      TakeReportsMaximalPrefix(run.tracker, run.log);
      var (after, report) := Take(run.tracker);
      if report.Some? {
        ReportKeepsTiles(run.tracker, run.log, after, report.value);
      }
  }

  /** Every run keeps the tracker consistent with what was accepted and completed, and its reports
      tile the finished prefix with the message total of each range. */
  lemma {:induction false} RunsAreAccounted(ops: seq<Op>)
    requires BelowSaturation(ops)
    ensures var run := RunOf(ops);
            Accounts(run.tracker, run.log) && Tiles(run.tracker, run.log)
  {
    if ops != [] {
      RunsAreAccounted(ops[..|ops| - 1]);
      var before := RunOf(ops[..|ops| - 1]);
      ApplyKeepsAccounts(before, ops[|ops| - 1]);
      ApplyKeepsTiles(before, ops[|ops| - 1]);
    }
  }

  lemma {:induction false} TiledReportsAdvance(t: Tracker, log: Log, i: nat, j: nat)
    requires Tiles(t, log) && i < j < |log.reports|
    ensures log.reports[i].through < log.reports[j].through < t.nextCommit
    decreases j - i, |log.reports| - j
  {
    assert ReportStart(log.reports, j) == log.reports[j - 1].through + 1;
    if i + 1 < j {
      TiledReportsAdvance(t, log, i, j - 1);
    }
    if j + 1 < |log.reports| {
      TiledReportsAdvance(t, log, j, j + 1);
    }
  }

  /** In every run reported ids strictly increase, and every delivery at or below the last reported
      id has zero units remaining. */
  lemma ReportsAdvance(ops: seq<Op>)
    requires BelowSaturation(ops)
    ensures var log := RunOf(ops).log;
            && (forall i, j | 0 <= i < j < |log.reports| :: log.reports[i].through < log.reports[j].through)
            && (forall j, id | 0 <= j < |log.reports| && 1 <= id <= log.reports[j].through :: Finished(log, id))
  {
    RunsAreAccounted(ops);
    var run := RunOf(ops);
    forall i, j | 0 <= i < j < |run.log.reports|
      ensures run.log.reports[i].through < run.log.reports[j].through
    {
      TiledReportsAdvance(run.tracker, run.log, i, j);
    }
    forall j | 0 <= j < |run.log.reports|
      ensures run.log.reports[j].through < run.tracker.nextCommit
    {
      if j + 1 < |run.log.reports| {
        TiledReportsAdvance(run.tracker, run.log, j, j + 1);
      }
    }
  }

  /** The message counts of the reports add up to the messages of the reported deliveries, as long
      as that total stays below saturation. */
  lemma MessagesConserved(ops: seq<Op>)
    requires BelowSaturation(ops)
    ensures var Run(t, log) := RunOf(ops);
            && 1 <= t.nextCommit <= |log.accepted| + 1
            && (Messages(log.accepted, t.nextCommit - 1) <= U64_MAX ==>
                  Sum(log.reports, ReportMessages) == Messages(log.accepted, t.nextCommit - 1))
  {
    RunsAreAccounted(ops);
    AllReportedMessages(RunOf(ops).tracker, RunOf(ops).log);
  }

  lemma AllReportedMessages(t: Tracker, log: Log)
    requires Accounts(t, log) && Tiles(t, log)
    ensures 1 <= t.nextCommit <= |log.accepted| + 1
    ensures Messages(log.accepted, t.nextCommit - 1) <= U64_MAX ==>
              Sum(log.reports, ReportMessages) == Messages(log.accepted, t.nextCommit - 1)
  {
    if Messages(log.accepted, t.nextCommit - 1) <= U64_MAX {
      ReportedMessages(t, log, |log.reports|);
      assert log.reports[..|log.reports|] == log.reports;
    }
  }

  lemma {:induction false} ReportedMessages(t: Tracker, log: Log, n: nat)
    requires Accounts(t, log) && Tiles(t, log) && n <= |log.reports|
    requires Messages(log.accepted, t.nextCommit - 1) <= U64_MAX
    ensures ReportStart(log.reports, n) <= t.nextCommit
    ensures Sum(log.reports[..n], ReportMessages) == Messages(log.accepted, ReportStart(log.reports, n) - 1)
  {
    if n > 0 {
      ReportedMessages(t, log, n - 1);
      var report := log.reports[n - 1];
      if n < |log.reports| {
        TiledReportsAdvance(t, log, n - 1, n);
      }
      assert Covers(log.accepted, ReportStart(log.reports, n - 1), report.through + 1, report);
      assert log.reports[..n] == log.reports[..n - 1] + [report];
      SumAppend(log.reports[..n - 1], report, ReportMessages);
      MessagesMonotone(log.accepted, report.through, t.nextCommit - 1);
      MessagesMonotone(log.accepted, ReportStart(log.reports, n - 1) - 1, report.through);
    }
  }

  /** Two consistent trackers with the same deliveries and the same units done, both just taken
      from, are equal: the front is the least unfinished delivery in each. */
  lemma TakenTrackerIsDetermined(a: Tracker, la: Log, b: Tracker, lb: Log)
    requires Accounts(a, la) && Accounts(b, lb)
    requires la.accepted == lb.accepted
    requires forall id :: Done(la.completions, id) == Done(lb.completions, id)
    requires !Finished(la, a.nextCommit) && !Finished(lb, b.nextCommit)
    ensures a == b
  {
    assert a.nextCommit == b.nextCommit by {
      assert Finished(la, b.nextCommit) == Finished(lb, b.nextCommit);
      assert Finished(lb, a.nextCommit) == Finished(la, a.nextCommit);
    }
    assert a.entries.Keys == b.entries.Keys;
    forall id | id in a.entries ensures a.entries[id] == b.entries[id] {
      assert a.entries[id].remaining == b.entries[id].remaining;
    }
  }

  /** The outcome depends only on which deliveries were accepted and on the multiset of successful
      completions: neither the order of the completions nor the position of the takes matters. */
  lemma OrderDoesNotMatter(ops: seq<Op>, ops': seq<Op>)
    requires BelowSaturation(ops) && BelowSaturation(ops')
    requires RunOf(ops).log.accepted == RunOf(ops').log.accepted
    requires multiset(RunOf(ops).log.completions) == multiset(RunOf(ops').log.completions)
    ensures Take(RunOf(ops).tracker).0 == Take(RunOf(ops').tracker).0
  {
    RunsAreAccounted(ops);
    RunsAreAccounted(ops');
    var r, r' := RunOf(ops), RunOf(ops');
    TakeReportsMaximalPrefix(r.tracker, r.log);
    TakeReportsMaximalPrefix(r'.tracker, r'.log);
    forall id: nat ensures Done(r.log.completions, id) == Done(r'.log.completions, id) {
      SumPermutation(r.log.completions, r'.log.completions, UnitsFor(id));
    }
    TakenTrackerIsDetermined(Take(r.tracker).0, r.log, Take(r'.tracker).0, r'.log);
  }

  // ---------------------------------------------------------------------------------------
  // Numbers that were never offered
  // ---------------------------------------------------------------------------------------

  /** What one operation offers. */
  function Offers(op: Op): seq<nat> {
    if op.OpAccept? then [op.id] else []
  }

  /** The ids offered to the tracker, in order, accepted or not. */
  ghost function OfferedIds(ops: seq<Op>): seq<nat> {
    if ops == [] then [] else OfferedIds(ops[..|ops| - 1]) + Offers(ops[|ops| - 1])
  }

  lemma {:induction false} TakeKeepsReceived(t: Tracker, report: Option<Committed>)
    ensures TakeFrom(t, report).0.nextReceived == t.nextReceived
    decreases |t.entries|
  {
    if FrontFinished(t) {
      PopFrontShrinks(t);
      TakeKeepsReceived(PopFront(t), Extended(t, report));
    }
  }

  /** Delivery ids start at one, and none is numbered `u64::MAX`. */
  ghost predicate AreIds(ids: seq<nat>) {
    forall i | 0 <= i < |ids| :: 1 <= ids[i] < U64_MAX
  }

  lemma IncreasingPrefix(ids: seq<nat>, more: seq<nat>)
    requires Increasing(ids + more) && AreIds(ids + more)
    ensures Increasing(ids) && AreIds(ids)
  {
    assert (ids + more)[..|ids|] == ids;
  }

  /** Increasing positive ids are at least their position. */
  lemma {:induction false} IncreasingAtLeast(ids: seq<nat>, i: nat)
    requires Increasing(ids) && AreIds(ids) && i < |ids|
    ensures ids[i] >= i + 1
  {
    if i > 0 {
      IncreasingAtLeast(ids, i - 1);
    }
  }

  /** What the tracker expects after increasing ids: the next one, unless it was left behind at a gap. */
  ghost predicate Expects(t: Tracker, ids: seq<nat>) {
    && t.nextReceived <= |ids| + 1
    && (ids == [] || ids[|ids| - 1] == |ids| ==> t.nextReceived == |ids| + 1)
  }

  lemma AcceptKeepsExpects(t: Tracker, ids: seq<nat>, id: nat, units: nat, messages: nat)
    requires Expects(t, ids) && Increasing(ids + [id]) && AreIds(ids + [id])
    ensures Accept(t, id, units, messages).Ok? <==> id == |ids| + 1
    ensures var r := Accept(t, id, units, messages); Expects(if r.Ok? then r.value else t, ids + [id])
  {
    var all := ids + [id];
    IncreasingAtLeast(all, |ids|);
    assert all[|ids|] == id;
    if ids != [] {
      IncreasingAtLeast(all, |ids| - 1);
      assert all[|ids| - 1] == ids[|ids| - 1] < id;
    }
  }

  lemma ApplyKeepsExpects(run: Run, op: Op, ids: seq<nat>)
    requires Expects(run.tracker, ids) && Increasing(ids + Offers(op)) && AreIds(ids + Offers(op))
    ensures Expects(Apply(run, op).tracker, ids + Offers(op))
  {
    match op
    case OpAccept(id, units, messages) => AcceptKeepsExpects(run.tracker, ids, id, units, messages);
    case OpComplete(_, _) => assert ids + [] == ids;
    case OpTake => TakeKeepsReceived(run.tracker, None); assert ids + [] == ids;
  }

  lemma {:induction false} RunsExpect(ops: seq<Op>)
    requires Increasing(OfferedIds(ops)) && AreIds(OfferedIds(ops))
    ensures Expects(RunOf(ops).tracker, OfferedIds(ops))
  {
    if ops != [] {
      var earlier, last := ops[..|ops| - 1], ops[|ops| - 1];
      var ids := OfferedIds(earlier);
      IncreasingPrefix(ids, Offers(last));
      RunsExpect(earlier);
      ApplyKeepsExpects(RunOf(earlier), last, ids);
    }
  }

  /** A tracker offered increasing ids, whatever was completed and taken in between, accepts the next one
      if and only if no number was left out so far. */
  lemma AcceptsIffNoneLeftOut(ops: seq<Op>, id: nat, units: nat, messages: nat)
    requires Increasing(OfferedIds(ops) + [id]) && AreIds(OfferedIds(ops) + [id])
    ensures Accept(RunOf(ops).tracker, id, units, messages).Ok? <==> id == |OfferedIds(ops)| + 1
  {
    var ids := OfferedIds(ops);
    IncreasingPrefix(ids, [id]);
    RunsExpect(ops);
    AcceptKeepsExpects(RunOf(ops).tracker, ids, id, units, messages);
  }
}
