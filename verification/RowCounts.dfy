/**
  Exact post-parser row totals of one pipeline attempt.

  Rows of a delivery stay pending until the delivery is committed at the source. The counter is
  a class updated in place; its methods are proved against functions on `Counts` values, and
  the theorems are about arbitrary sequences of observe, admit and commit.
 */
module RowCounting {
  import opened Common

  datatype Dataset = Dataset(isDlq: bool, table: string)

  datatype Output = Output(dataset: Dataset, rows: nat)

  type Rows = map<Dataset, nat>

  datatype Counts = Counts(committed: Rows, pending: map<nat, Rows>)

  datatype RowCountError =
    | RepeatedDataset
    | RepeatedDelivery
    | UndiscoveredDataset
    | UnknownDelivery
    | LostDataset
    | UnknownDataset
    | RowOverflow

  /** The rows of one dataset in one delivery. */
  function RowsOf(rows: Rows, k: Dataset): nat {
    if k in rows then rows[k] else 0
  }

  /** The rows of dataset `k` over the deliveries numbered below `n`. */
  ghost function RowsBelow(deliveries: map<nat, Rows>, n: nat, k: Dataset): nat {
    if n == 0 then 0
    else RowsBelow(deliveries, n - 1, k) + (if n - 1 in deliveries then RowsOf(deliveries[n - 1], k) else 0)
  }

  /** The rows of dataset `k` over a list of outputs. */
  ghost function OutputRows(outputs: seq<Output>, k: Dataset): nat {
    if outputs == [] then 0
    else OutputRows(outputs[..|outputs| - 1], k)
         + (if outputs[|outputs| - 1].dataset == k then outputs[|outputs| - 1].rows else 0)
  }

  ghost function OutputDatasets(outputs: seq<Output>): set<Dataset> {
    set i | 0 <= i < |outputs| :: outputs[i].dataset
  }

  /** The delivery recorded for a list of outputs. */
  ghost function Tally(outputs: seq<Output>): Rows {
    map k | k in OutputDatasets(outputs) :: OutputRows(outputs, k)
  }

  ghost predicate CanObserve(s: Counts, id: nat, outputs: seq<Output>) {
    && id !in s.pending
    && OutputDatasets(outputs) <= s.committed.Keys
    && forall k | k in OutputDatasets(outputs) :: OutputRows(outputs, k) <= U64_MAX
  }

  ghost function Observed(s: Counts, id: nat, outputs: seq<Output>): Counts {
    s.(pending := s.pending[id := Tally(outputs)])
  }

  ghost function Admitted(s: Counts, datasets: set<Dataset>): Counts {
    s.(committed := map k | k in s.committed.Keys + datasets :: RowsOf(s.committed, k))
  }

  /** Every dataset of a delivery numbered below `n` has a committed total. */
  ghost predicate Known(s: Counts, n: nat) {
    forall d | d in s.pending && d < n :: s.pending[d].Keys <= s.committed.Keys
  }

  /** `validated_committed_counts` succeeds. */
  ghost predicate CanCommit(s: Counts, id: nat) {
    && id in s.pending
    && Known(s, id + 1)
    && forall k | k in s.committed :: s.committed[k] + RowsBelow(s.pending, id + 1, k) <= U64_MAX
  }

  /** The totals `validated_committed_counts` returns. */
  ghost function CommittedCounts(s: Counts, id: nat): Rows {
    map k | k in s.committed :: s.committed[k] + RowsBelow(s.pending, id + 1, k)
  }

  ghost function CommittedThrough(s: Counts, id: nat): Counts {
    Counts(CommittedCounts(s, id), map d | d in s.pending && d > id :: s.pending[d])
  }

  ghost predicate CanMerge(into: Rows, from: Rows) {
    && from.Keys <= into.Keys
    && forall k | k in from :: into[k] + from[k] <= U64_MAX
  }

  ghost function Merged(into: Rows, from: Rows): Rows {
    map k | k in into :: into[k] + RowsOf(from, k)
  }

  /** The totals fit the machine integers that hold them. */
  ghost predicate Fits(rows: Rows) {
    forall k | k in rows :: rows[k] <= U64_MAX
  }

  lemma {:induction false} RowsBelowMonotone(deliveries: map<nat, Rows>, m: nat, n: nat, k: Dataset)
    requires m <= n
    ensures RowsBelow(deliveries, m, k) <= RowsBelow(deliveries, n, k)
  {
    if m < n {
      RowsBelowMonotone(deliveries, m, n - 1, k);
    }
  }

  /** `validated_committed_counts`: the totals through `id`, or why they cannot be published. */
  method ValidatedCommittedCounts(committed: Rows, pending: map<nat, Rows>, id: nat)
    returns (r: Result<Rows, RowCountError>)
    requires Fits(committed)
    ensures r.Ok? <==> CanCommit(Counts(committed, pending), id)
    ensures r.Ok? ==> r.value == CommittedCounts(Counts(committed, pending), id) && Fits(r.value)
    ensures r.Err? ==> (r.error == UnknownDelivery <==> id !in pending)
  {
    if id !in pending {
      return Err(UnknownDelivery);
    }
    ghost var s := Counts(committed, pending);
    var next := committed;
    for d := 0 to id + 1
      invariant next.Keys == committed.Keys
      invariant Known(s, d)
      invariant forall k | k in committed :: next[k] == committed[k] + RowsBelow(pending, d, k) <= U64_MAX
    {
      if d in pending {
        var delivery := pending[d];
        var rest := delivery.Keys;
        while rest != {}
          invariant rest <= delivery.Keys
          invariant next.Keys == committed.Keys
          invariant forall k | k in delivery && k !in rest :: k in committed
          invariant forall k | k in committed :: next[k] <= U64_MAX
          invariant forall k | k in committed ::
                      next[k] == committed[k] + RowsBelow(pending, d, k) + (if k in rest then 0 else RowsOf(delivery, k))
          decreases rest
        {
          var key :| key in rest;
          if key !in next {
            return Err(LostDataset);
          }
          if next[key] + delivery[key] > U64_MAX {
            RowsBelowMonotone(pending, d + 1, id + 1, key);
            return Err(RowOverflow);
          }
          next := next[key := next[key] + delivery[key]];
          rest := rest - {key};
        }
      }
    }
    return Ok(next);
  }

  /** `OutputRowCounts`, updated in place. */
  class OutputRowCounts {
    var committed: Rows
    var pending: map<nat, Rows>

    ghost function View(): Counts
      reads this
    {
      Counts(committed, pending)
    }

    ghost predicate Valid()
      reads this
    {
      Fits(committed)
    }

    constructor ()
      ensures Valid() && View() == Counts(map[], map[])
    {
      committed, pending := map[], map[];
    }

    /** The loop of `OutputRowCounts::new`: a fresh counter knows each dataset once, at zero. */
    method Register(datasets: seq<Dataset>) returns (r: Result<(), RowCountError>)
      requires Valid() && committed == map[]
      modifies this
      ensures Valid() && pending == old(pending)
      ensures r.Ok? <==> Distinct(datasets)
      ensures r.Ok? ==> committed.Keys == Elements(datasets) && forall k | k in committed :: committed[k] == 0
    {
      var rows: Rows := map[];
      for i := 0 to |datasets|
        invariant i <= |datasets| && Distinct(datasets[..i])
        invariant rows.Keys == Elements(datasets[..i]) && forall k | k in rows :: rows[k] == 0
        invariant committed == map[] && pending == old(pending)
      {
        if datasets[i] in rows {
          return Err(RepeatedDataset);
        }
        rows := rows[datasets[i] := 0];
        assert datasets[..i + 1] == datasets[..i] + [datasets[i]];
      }
      assert datasets[..|datasets|] == datasets;
      committed := rows;
      return Ok(());
    }

    /** Registration publishes zero rows and keeps every published total. */
    method AdmitDatasets(datasets: seq<Dataset>)
      requires Valid()
      modifies this
      ensures Valid()
      ensures View() == Admitted(old(View()), Elements(datasets))
    {
      for i := 0 to |datasets|
        invariant Valid() && pending == old(pending)
        invariant View() == Admitted(old(View()), Elements(datasets[..i]))
      {
        assert datasets[..i + 1] == datasets[..i] + [datasets[i]];
        if datasets[i] !in committed {
          committed := committed[datasets[i] := 0];
        }
      }
      assert datasets[..|datasets|] == datasets;
    }

    method ObserveDelivery(id: nat, outputs: seq<Output>) returns (r: Result<(), RowCountError>)
      requires Valid()
      modifies this
      ensures Valid()
      ensures r.Ok? <==> CanObserve(old(View()), id, outputs)
      ensures View() == if r.Ok? then Observed(old(View()), id, outputs) else old(View())
    {
      if id in pending {
        return Err(RepeatedDelivery);
      }
      var delivery: Rows := map[];
      for i := 0 to |outputs|
        invariant View() == old(View())
        invariant OutputDatasets(outputs[..i]) <= committed.Keys
        invariant delivery == Tally(outputs[..i])
        invariant Fits(delivery)
      {
        var output := outputs[i];
        assert outputs[..i + 1][..i] == outputs[..i];
        assert OutputDatasets(outputs[..i + 1]) == OutputDatasets(outputs[..i]) + {output.dataset};
        if output.dataset !in committed {
          assert output.dataset in OutputDatasets(outputs);
          return Err(UndiscoveredDataset);
        }
        var current := RowsOf(delivery, output.dataset);
        OutputRowsAbsent(outputs[..i], output.dataset);
        if current + output.rows > U64_MAX {
          OutputRowsMonotone(outputs, i + 1, output.dataset);
          assert output.dataset in OutputDatasets(outputs);
          return Err(RowOverflow);
        }
        delivery := delivery[output.dataset := current + output.rows];
      }
      assert outputs[..|outputs|] == outputs;
      assert forall k | k in OutputDatasets(outputs) :: k in delivery && delivery[k] == OutputRows(outputs, k);
      pending := pending[id := delivery];
      return Ok(());
    }

    method CommitThrough(id: nat) returns (r: Result<(), RowCountError>)
      requires Valid()
      modifies this
      ensures Valid()
      ensures r.Ok? <==> CanCommit(old(View()), id)
      ensures View() == if r.Ok? then CommittedThrough(old(View()), id) else old(View())
    {
      var next := ValidatedCommittedCounts(committed, pending, id);
      if next.Err? {
        return Err(next.error);
      }
      committed := next.value;
      pending := map d | d in pending && d > id :: pending[d];
      return Ok(());
    }

    method ValidateCommitThrough(id: nat) returns (r: Result<(), RowCountError>)
      requires Valid()
      ensures r.Ok? <==> CanCommit(View(), id)
      ensures r.Err? ==> (r.error == UnknownDelivery <==> id !in pending)
    {
      var next := ValidatedCommittedCounts(committed, pending, id);
      if next.Err? {
        return Err(next.error);
      }
      return Ok(());
    }

    /** Merging is all or nothing. `other` may be this very counter. */
    method Merge(other: OutputRowCounts) returns (r: Result<(), RowCountError>)
      requires Valid() && other.Valid()
      modifies this
      ensures Valid()
      ensures r.Ok? <==> CanMerge(old(committed), old(other.committed))
      ensures committed == if r.Ok? then Merged(old(committed), old(other.committed)) else old(committed)
      ensures pending == old(pending)
    {
      var snapshot := other.committed;
      var next := committed;
      var rest := snapshot.Keys;
      while rest != {}
        invariant rest <= snapshot.Keys && View() == old(View())
        invariant next.Keys == committed.Keys
        invariant forall k | k in snapshot && k !in rest :: k in committed && committed[k] + snapshot[k] <= U64_MAX
        invariant forall k | k in committed ::
                    next[k] == committed[k] + (if k in rest then 0 else RowsOf(snapshot, k))
        decreases rest
      {
        var key :| key in rest;
        if key !in next {
          return Err(UnknownDataset);
        }
        if next[key] + snapshot[key] > U64_MAX {
          return Err(RowOverflow);
        }
        next := next[key := next[key] + snapshot[key]];
        rest := rest - {key};
      }
      committed := next;
      return Ok(());
    }
  }

  lemma {:induction false} OutputRowsAbsent(outputs: seq<Output>, k: Dataset)
    ensures k !in OutputDatasets(outputs) ==> OutputRows(outputs, k) == 0
  {
    if outputs != [] && k !in OutputDatasets(outputs) {
      var last := |outputs| - 1;
      assert outputs[last].dataset in OutputDatasets(outputs);
      assert forall i | 0 <= i < last :: outputs[..last][i].dataset == outputs[i].dataset;
      OutputRowsAbsent(outputs[..last], k);
    }
  }

  lemma {:induction false} OutputRowsMonotone(outputs: seq<Output>, n: nat, k: Dataset)
    requires n <= |outputs|
    ensures OutputRows(outputs[..n], k) <= OutputRows(outputs, k)
    decreases |outputs| - n
  {
    if n == |outputs| {
      assert outputs[..n] == outputs;
    } else {
      assert outputs[..n + 1][..n] == outputs[..n];
      OutputRowsMonotone(outputs, n + 1, k);
    }
  }

  // ---------------------------------------------------------------------------------------
  // Runs
  // ---------------------------------------------------------------------------------------

  datatype Op =
    | OpObserve(id: nat, outputs: seq<Output>)
    | OpAdmit(datasets: set<Dataset>)
    | OpCommit(id: nat)

  /** The counter together with every delivery ever observed; ids below `bound` are committed. */
  datatype History = History(counts: Counts, observed: map<nat, Rows>, bound: nat)

  ghost function Fresh(datasets: set<Dataset>): History {
    History(Counts(map k: Dataset | k in datasets :: 0 as nat, map[]), map[], 0)
  }

  /** One operation. A failed operation changes nothing. */
  ghost function Apply(h: History, op: Op): History {
    match op
    case OpObserve(id, outputs) =>
      if CanObserve(h.counts, id, outputs)
      then h.(counts := Observed(h.counts, id, outputs), observed := h.observed[id := Tally(outputs)])
      else h
    case OpAdmit(datasets) => h.(counts := Admitted(h.counts, datasets))
    case OpCommit(id) =>
      if CanCommit(h.counts, id) then h.(counts := CommittedThrough(h.counts, id), bound := id + 1) else h
  }

  ghost function RunOf(datasets: set<Dataset>, ops: seq<Op>): History {
    if ops == [] then Fresh(datasets)
    else Apply(RunOf(datasets, ops[..|ops| - 1]), ops[|ops| - 1])
  }

  /** Each total is the sum over the committed deliveries, and pending is exactly the rest. */
  ghost predicate Exact(h: History) {
    && (forall id :: id in h.counts.pending <==> id in h.observed && id >= h.bound)
    && (forall id | id in h.counts.pending :: h.counts.pending[id] == h.observed[id])
    && (forall id | id in h.observed :: h.observed[id].Keys <= h.counts.committed.Keys)
    && (forall k | k in h.counts.committed :: h.counts.committed[k] == RowsBelow(h.observed, h.bound, k))
  }

  lemma {:induction false} RowsBelowUpdate(deliveries: map<nat, Rows>, id: nat, rows: Rows, n: nat, k: Dataset)
    requires n <= id
    ensures RowsBelow(deliveries[id := rows], n, k) == RowsBelow(deliveries, n, k)
  {
    if n > 0 {
      RowsBelowUpdate(deliveries, id, rows, n - 1, k);
    }
  }

  /** Rows below `n` split into those below `bound` and those of the deliveries from `bound` on. */
  lemma {:induction false} RowsBelowSplit(all: map<nat, Rows>, tail: map<nat, Rows>, bound: nat, n: nat, k: Dataset)
    requires forall id :: id in tail <==> id in all && id >= bound
    requires forall id | id in tail :: tail[id] == all[id]
    ensures RowsBelow(all, n, k) == RowsBelow(all, Min(bound, n), k) + RowsBelow(tail, n, k)
  {
    if n > 0 {
      RowsBelowSplit(all, tail, bound, n - 1, k);
    }
  }

  lemma {:induction false} RowsBelowAbsent(deliveries: map<nat, Rows>, n: nat, k: Dataset)
    requires forall id | id in deliveries && id < n :: k !in deliveries[id]
    ensures RowsBelow(deliveries, n, k) == 0
  {
    if n > 0 {
      RowsBelowAbsent(deliveries, n - 1, k);
    }
  }

  /** The code accepts a delivery that was committed before. Observing keeps the books exact if
      and only if the caller does not re-observe a committed id. */
  lemma ObserveKeepsExactIff(h: History, id: nat, outputs: seq<Output>)
    requires Exact(h) && CanObserve(h.counts, id, outputs)
    ensures Exact(Apply(h, OpObserve(id, outputs))) <==> id >= h.bound
  {
    var next := Apply(h, OpObserve(id, outputs));
    assert id in next.counts.pending;
    if id >= h.bound {
      forall k | k in next.counts.committed
        ensures next.counts.committed[k] == RowsBelow(next.observed, next.bound, k)
      {
        RowsBelowUpdate(h.observed, id, Tally(outputs), h.bound, k);
      }
    }
  }

  lemma AdmitKeepsExact(h: History, datasets: set<Dataset>)
    requires Exact(h)
    ensures Exact(Apply(h, OpAdmit(datasets)))
  {
    var next := Apply(h, OpAdmit(datasets));
    forall k | k in next.counts.committed
      ensures next.counts.committed[k] == RowsBelow(next.observed, next.bound, k)
    {
      if k !in h.counts.committed {
        RowsBelowAbsent(h.observed, h.bound, k);
      }
    }
  }

  lemma CommitKeepsExact(h: History, id: nat)
    requires Exact(h) && CanCommit(h.counts, id)
    ensures Exact(Apply(h, OpCommit(id)))
  {
    var next := Apply(h, OpCommit(id));
    forall k | k in next.counts.committed
      ensures next.counts.committed[k] == RowsBelow(next.observed, next.bound, k)
    {
      RowsBelowSplit(h.observed, h.counts.pending, h.bound, id + 1, k);
    }
  }

  /** Whether a pending delivery can be committed depends on nothing but the size of the new totals. */
  lemma CanCommitIff(h: History, id: nat)
    requires Exact(h) && id in h.counts.pending
    ensures CanCommit(h.counts, id) <==> forall k | k in h.counts.committed :: RowsBelow(h.observed, id + 1, k) <= U64_MAX
  {
    forall k | k in h.counts.committed
      ensures RowsBelow(h.observed, id + 1, k) == h.counts.committed[k] + RowsBelow(h.counts.pending, id + 1, k)
    {
      RowsBelowSplit(h.observed, h.counts.pending, h.bound, id + 1, k);
    }
  }

  /** The counter after the first `n` operations. */
  ghost function After(datasets: set<Dataset>, ops: seq<Op>, n: nat): History
    requires n <= |ops|
  {
    RunOf(datasets, ops[..n])
  }

  /** Operation `n` does not observe an id that is already committed. */
  ghost predicate ObservesFreshId(datasets: set<Dataset>, ops: seq<Op>, n: nat)
    requires n < |ops|
  {
    ops[n].OpObserve? && CanObserve(After(datasets, ops, n).counts, ops[n].id, ops[n].outputs)
    ==> ops[n].id >= After(datasets, ops, n).bound
  }

  lemma StepKeepsExactIff(datasets: set<Dataset>, ops: seq<Op>, n: nat)
    requires n < |ops| && Exact(After(datasets, ops, n))
    ensures Exact(After(datasets, ops, n + 1)) <==> ObservesFreshId(datasets, ops, n)
  {
    var h := After(datasets, ops, n);
    assert ops[..n + 1][..n] == ops[..n];
    match ops[n]
    case OpObserve(id, outputs) => if CanObserve(h.counts, id, outputs) { ObserveKeepsExactIff(h, id, outputs); }
    case OpAdmit(admitted) => AdmitKeepsExact(h, admitted);
    case OpCommit(id) => if CanCommit(h.counts, id) { CommitKeepsExact(h, id); }
  }

  lemma {:induction false} FreshRunsAreExact(datasets: set<Dataset>, ops: seq<Op>, n: nat)
    requires n <= |ops|
    requires forall i | 0 <= i < n :: ObservesFreshId(datasets, ops, i)
    ensures Exact(After(datasets, ops, n))
  {
    if n > 0 {
      FreshRunsAreExact(datasets, ops, n - 1);
      StepKeepsExactIff(datasets, ops, n - 1);
    } else {
      assert ops[..0] == [];
    }
  }

  /** The books are exact throughout a run exactly when the run never re-observes a committed id. */
  lemma RunIsExactIff(datasets: set<Dataset>, ops: seq<Op>)
    ensures (forall n | 0 <= n <= |ops| :: Exact(After(datasets, ops, n)))
       <==> (forall n | 0 <= n < |ops| :: ObservesFreshId(datasets, ops, n))
  {
    if forall n | 0 <= n < |ops| :: ObservesFreshId(datasets, ops, n) {
      forall n | 0 <= n <= |ops| ensures Exact(After(datasets, ops, n)) {
        FreshRunsAreExact(datasets, ops, n);
      }
    }
    if forall n | 0 <= n <= |ops| :: Exact(After(datasets, ops, n)) {
      forall n | 0 <= n < |ops| ensures ObservesFreshId(datasets, ops, n) {
        assert Exact(After(datasets, ops, n + 1));
        StepKeepsExactIff(datasets, ops, n);
      }
    }
  }

  /** The re-observation the code lets through. */
  lemma ReobservedDeliveryIsPendingAgain(k: Dataset, rows: nat)
    requires 0 < rows <= U64_MAX
    ensures var ops := [OpObserve(1, [Output(k, rows)]), OpCommit(1), OpObserve(1, [Output(k, rows)])];
            && After({k}, ops, 3).bound == 2
            && 1 in After({k}, ops, 3).counts.pending
            && !Exact(After({k}, ops, 3))
  {
    var outputs := [Output(k, rows)];
    var ops := [OpObserve(1, outputs), OpCommit(1), OpObserve(1, outputs)];
    assert ops[..0] == [] && ops[..1][..0] == [] && ops[..2][..1] == ops[..1] && ops[..3][..2] == ops[..2];
    assert outputs[..0] == [] && OutputRows(outputs[..0], k) == 0 && OutputRows(outputs, k) == rows;
    assert outputs[0].dataset in OutputDatasets(outputs) && OutputDatasets(outputs) == {k};
    var start, h := Fresh({k}), After({k}, ops, 1);
    assert RunOf({k}, ops[..0]) == start;
    assert h == Apply(start, ops[0]) && h.counts.pending == map[1 := Tally(outputs)];
    RowsBelowAbsent(h.counts.pending, 1, k);
    assert CanCommit(h.counts, 1);
    assert After({k}, ops, 2) == Apply(h, ops[1]);
    assert After({k}, ops, 3) == Apply(After({k}, ops, 2), ops[2]);
    assert 1 in After({k}, ops, 3).counts.pending;
  }

  // ---------------------------------------------------------------------------------------
  // Validation ahead of the source commit
  // ---------------------------------------------------------------------------------------

  /** What the parser may do while the source commits through `id`. */
  predicate LaterThan(op: Op, id: nat) {
    op.OpAdmit? || (op.OpObserve? && op.id > id)
  }

  lemma {:induction false} RowsBelowSame(a: map<nat, Rows>, b: map<nat, Rows>, n: nat, k: Dataset)
    requires forall id | id < n :: id in a <==> id in b
    requires forall id | id < n && id in a :: a[id] == b[id]
    ensures RowsBelow(a, n, k) == RowsBelow(b, n, k)
  {
    if n > 0 {
      RowsBelowSame(a, b, n - 1, k);
    }
  }

  /** `s'` publishes for `id` what `s` validated, and zero for every dataset admitted since. */
  ghost predicate PublishesValidated(s: Counts, s': Counts, id: nat) {
    && CanCommit(s', id)
    && s.committed.Keys <= s'.committed.Keys
    && forall k | k in s'.committed ::
         CommittedCounts(s', id)[k] == if k in s.committed then CommittedCounts(s, id)[k] else 0
  }

  lemma ValidatedCommitSurvivesStep(h: History, id: nat, op: Op)
    requires CanCommit(h.counts, id) && LaterThan(op, id)
    ensures PublishesValidated(h.counts, Apply(h, op).counts, id)
    ensures CommittedCounts(Apply(h, op).counts, id).Keys == Apply(h, op).counts.committed.Keys
  {
    var s, s' := h.counts, Apply(h, op).counts;
    forall k | k in s'.committed ensures RowsBelow(s'.pending, id + 1, k) == RowsBelow(s.pending, id + 1, k) {
      RowsBelowSame(s.pending, s'.pending, id + 1, k);
    }
    forall k | k in s'.committed && k !in s.committed ensures RowsBelow(s.pending, id + 1, k) == 0 {
      RowsBelowAbsent(s.pending, id + 1, k);
    }
  }

  ghost function ApplyAll(h: History, ops: seq<Op>): History {
    if ops == [] then h else Apply(ApplyAll(h, ops[..|ops| - 1]), ops[|ops| - 1])
  }

  /** Once `validate_commit_through(id)` succeeded, the later `commit_through(id)` succeeds and
      publishes the validated totals, whatever the parser observes or admits in between. */
  lemma {:induction false} ValidatedCommitSurvives(h: History, id: nat, ops: seq<Op>)
    requires CanCommit(h.counts, id)
    requires forall i | 0 <= i < |ops| :: LaterThan(ops[i], id)
    ensures PublishesValidated(h.counts, ApplyAll(h, ops).counts, id)
  {
    if ops != [] {
      var last := |ops| - 1;
      ValidatedCommitSurvives(h, id, ops[..last]);
      ValidatedCommitSurvivesStep(ApplyAll(h, ops[..last]), id, ops[last]);
    }
  }

  // ---------------------------------------------------------------------------------------
  // Merging attempts
  // ---------------------------------------------------------------------------------------

  /** Merges the attempts one after the other, keeping the totals unchanged where one fails. */
  ghost function MergeAll(total: Rows, attempts: seq<History>): Rows {
    if attempts == [] then total
    else
      var before := MergeAll(total, attempts[..|attempts| - 1]);
      var attempt := attempts[|attempts| - 1].counts.committed;
      if CanMerge(before, attempt) then Merged(before, attempt) else before
  }

  /** The attempts that merged, in order. */
  ghost function MergedAttempts(total: Rows, attempts: seq<History>): seq<History> {
    if attempts == [] then []
    else
      var earlier, last := attempts[..|attempts| - 1], attempts[|attempts| - 1];
      var merged := MergedAttempts(total, earlier);
      if CanMerge(MergeAll(total, earlier), last.counts.committed) then merged + [last] else merged
  }

  /** The rows of one dataset that an attempt committed, by its own totals. */
  ghost function CommittedRows(k: Dataset): History -> int {
    (attempt: History) => RowsOf(attempt.counts.committed, k)
  }

  /** The same by the deliveries it observed below its bound. */
  ghost function DeliveredRows(k: Dataset): History -> int {
    (attempt: History) => RowsBelow(attempt.observed, attempt.bound, k)
  }

  lemma MergeKeepsTotals(total: Rows, attempts: seq<History>, k: Dataset)
    requires attempts != [] && Fits(MergeAll(total, attempts[..|attempts| - 1]))
    requires MergeAll(total, attempts[..|attempts| - 1]).Keys == total.Keys && k in total
    requires MergeAll(total, attempts[..|attempts| - 1])[k]
             == total[k] + Sum(MergedAttempts(total, attempts[..|attempts| - 1]), CommittedRows(k))
    ensures MergeAll(total, attempts).Keys == total.Keys
    ensures MergeAll(total, attempts)[k] == total[k] + Sum(MergedAttempts(total, attempts), CommittedRows(k))
  {
    SumAppend(MergedAttempts(total, attempts[..|attempts| - 1]), attempts[|attempts| - 1], CommittedRows(k));
  }

  lemma {:induction false} TotalsAddUp(total: Rows, attempts: seq<History>)
    requires Fits(total)
    ensures MergeAll(total, attempts).Keys == total.Keys
    ensures Fits(MergeAll(total, attempts))
    ensures forall k | k in total ::
              MergeAll(total, attempts)[k] == total[k] + Sum(MergedAttempts(total, attempts), CommittedRows(k))
  {
    if attempts != [] {
      TotalsAddUp(total, attempts[..|attempts| - 1]);
      forall k | k in total
        ensures MergeAll(total, attempts)[k] == total[k] + Sum(MergedAttempts(total, attempts), CommittedRows(k))
      {
        MergeKeepsTotals(total, attempts, k);
      }
    }
  }

  /** The totals of an exact attempt are the rows of its committed deliveries. */
  lemma ExactTotals(attempt: History, k: Dataset)
    requires Exact(attempt)
    ensures CommittedRows(k)(attempt) == DeliveredRows(k)(attempt)
  {
    if k !in attempt.counts.committed {
      RowsBelowAbsent(attempt.observed, attempt.bound, k);
    }
  }

  lemma {:induction false} MergedAreExact(total: Rows, attempts: seq<History>, k: Dataset)
    requires forall i | 0 <= i < |attempts| :: Exact(attempts[i])
    ensures Sum(MergedAttempts(total, attempts), CommittedRows(k)) == Sum(MergedAttempts(total, attempts), DeliveredRows(k))
  {
    if attempts != [] {
      var earlier, last := attempts[..|attempts| - 1], attempts[|attempts| - 1];
      MergedAreExact(total, earlier, k);
      SumAppend(MergedAttempts(total, earlier), last, CommittedRows(k));
      SumAppend(MergedAttempts(total, earlier), last, DeliveredRows(k));
      ExactTotals(last, k);
    }
  }

  /** However many exact attempts are merged, each total is the start total plus the rows of the committed
      deliveries of the attempts that merged, whole or not at all, and never overflows. */
  lemma MergesAddUp(total: Rows, attempts: seq<History>)
    requires Fits(total)
    ensures MergeAll(total, attempts).Keys == total.Keys && Fits(MergeAll(total, attempts))
    ensures forall k | k in total ::
              MergeAll(total, attempts)[k] == total[k] + Sum(MergedAttempts(total, attempts), CommittedRows(k))
    ensures (forall i | 0 <= i < |attempts| :: Exact(attempts[i])) ==>
              forall k | k in total ::
                MergeAll(total, attempts)[k] == total[k] + Sum(MergedAttempts(total, attempts), DeliveredRows(k))
  {
    TotalsAddUp(total, attempts);
    if forall i | 0 <= i < |attempts| :: Exact(attempts[i]) {
      forall k | k in total
        ensures MergeAll(total, attempts)[k] == total[k] + Sum(MergedAttempts(total, attempts), DeliveredRows(k))
      {
        MergedAreExact(total, attempts, k);
      }
    }
  }

  /** Merging an exact attempt adds exactly the rows of its committed deliveries. */
  lemma MergedAttemptAddsItsCommittedPrefix(total: Rows, attempt: History)
    requires Exact(attempt) && CanMerge(total, attempt.counts.committed)
    ensures forall k | k in total ::
              Merged(total, attempt.counts.committed)[k] == total[k] + RowsBelow(attempt.observed, attempt.bound, k)
  {
    forall k | k in total
      ensures RowsOf(attempt.counts.committed, k) == RowsBelow(attempt.observed, attempt.bound, k)
    {
      ExactTotals(attempt, k);
    }
  }
}
