/**
  What the memory budget guarantees: exact accounting, no lost wakeup, and the limit of the
  ordinary reservation path.
 */
module MemoryTheorems {
  import opened Common
  import opened Memory
  import opened MemorySafety

  // ---------------------------------------------------------------------------------------
  // Accounting
  // ---------------------------------------------------------------------------------------

  /** How far a call in flight lets `used` run ahead of the other counters. Zero between calls. */
  function PcDebt(pc: Pc): int {
    PcUsed(pc) - PcSource(pc) - PcTransform(pc) - PcActiveBytes(pc)
  }

  lemma {:induction false} DebtSums(threads: seq<Pc>)
    ensures Sum(threads, PcDebt) == Sum(threads, PcUsed) - Sum(threads, PcSource) - Sum(threads, PcTransform) - Sum(threads, PcActiveBytes)
  {
    if threads != [] {
      DebtSums(threads[1..]);
    }
  }

  lemma {:induction false} ObjSumsSplit(objs: seq<Obj>)
    ensures Sum(objs, ObjUsed) == Sum(objs, ObjSource) + Sum(objs, ObjTransform) + Sum(objs, ObjActiveBytes)
  {
    if objs != [] {
      ObjSumsSplit(objs[1..]);
    }
  }

  /** No call in flight. */
  ghost predicate Quiescent(s: State) {
    forall t | 0 <= t < |s.threads| :: !s.threads[t].Run?
  }

  /** Two elements that each count one cannot share a sum of at most one. */
  lemma AtMostOne<T>(xs: seq<T>, f: T -> int, i: nat, j: nat)
    requires i < j < |xs| && f(xs[i]) == 1 && f(xs[j]) == 1
    requires forall k | 0 <= k < |xs| :: f(xs[k]) >= 0
    ensures Sum(xs, f) >= 2
  {
    SumSplit(xs, i, f);
    SumNonNegative(xs[..i], f);
    assert xs[i + 1..][j - i - 1] == xs[j];
    SumAtLeast(xs[i + 1..], j - i - 1, f);
  }

  /**
    At every atomic step of every concurrent run `used` is the sum of the other counters up to the
    debt of the calls in flight, no counter ever overflowed or underflowed, and at most one active
    transform and one progress-source lease exist.
   */
  lemma CountersAlwaysAgree(trace: seq<State>, steps: seq<(nat, Step)>, i: nat)
    requires IsRun(trace, steps) && i <= |steps|
    ensures var s := trace[i];
            && s.used == s.source + s.transform + s.active + Sum(s.threads, PcDebt)
            && (forall t | 0 <= t < |s.threads| :: !s.threads[t].Overflowed?)
            && (forall o, p | 0 <= o < p < |s.objs| :: !(s.objs[o].Active? && s.objs[p].Active?))
            && (forall o, p | 0 <= o < p < |s.objs| :: ObjProgress(s.objs[o]) + ObjProgress(s.objs[p]) <= 1)
  {
    RunsKeepInv(trace, steps, i);
    var s := trace[i];
    DebtSums(s.threads);
    ObjSumsSplit(s.objs);
    forall t | 0 <= t < |s.threads| ensures PcProgress(s.threads[t]) >= 0 && PcActive(s.threads[t]) >= 0 {
      PcOkIsSound(s, t);
    }
    SumNonNegative(s.threads, PcProgress);
    SumNonNegative(s.threads, PcActive);
    forall o, p | 0 <= o < p < |s.objs|
      ensures !(s.objs[o].Active? && s.objs[p].Active?)
      ensures ObjProgress(s.objs[o]) + ObjProgress(s.objs[p]) <= 1
    {
      if s.objs[o].Active? && s.objs[p].Active? {
        AtMostOne(s.objs, ObjActive, o, p);
      }
      if ObjProgress(s.objs[o]) == 1 && ObjProgress(s.objs[p]) == 1 {
        AtMostOne(s.objs, ObjProgress, o, p);
      }
    }
    forall t | 0 <= t < |s.threads| ensures !s.threads[t].Overflowed? {
      assert PcOk(s, t, s.threads[t]);
    }
  }

  /** Between calls every counter is exactly the sum of the live reservations. */
  lemma QuiescentCountersAreExact(trace: seq<State>, steps: seq<(nat, Step)>, i: nat)
    requires IsRun(trace, steps) && i <= |steps| && Quiescent(trace[i])
    ensures var s := trace[i];
            && s.used == Sum(s.objs, ObjUsed) == s.source + s.transform + s.active
            && s.source == Sum(s.objs, ObjSource)
            && s.transform == Sum(s.objs, ObjTransform)
            && s.active == Sum(s.objs, ObjActiveBytes)
            && s.progress == Sum(s.objs, ObjProgress)
  {
    RunsKeepInv(trace, steps, i);
    var s := trace[i];
    SumAllZero(s.threads, PcUsed);
    SumAllZero(s.threads, PcSource);
    SumAllZero(s.threads, PcTransform);
    SumAllZero(s.threads, PcActiveBytes);
    SumAllZero(s.threads, PcProgress);
    ObjSumsSplit(s.objs);
  }

  // ---------------------------------------------------------------------------------------
  // Wakeups
  // ---------------------------------------------------------------------------------------

  /** What a waiting call waits for. */
  predicate Admissible(s: State, request: Request) {
    match request
    case Reserve(bytes) => Fits(bytes, s.used, s.limit)
    case ReserveProgress(_) => s.progress == 0
    case Admit(_) => s.transform < s.limit && s.active == 0
    case WaitBelow => s.transform < s.limit
  }

  ghost predicate WillNotify(pc: Pc) {
    pc.Run? && Notifies(pc.todo)
  }

  /** Parked, and not yet woken. */
  predicate Asleep(s: State, pc: Pc) {
    pc.Parked? && pc.registration == s.notifications
  }

  /** A sleeper that could be admitted has a notification coming. */
  ghost predicate WakeInv(s: State) {
    forall t | 0 <= t < |s.threads| && Asleep(s, s.threads[t]) && Admissible(s, s.threads[t].request) ::
      exists u | 0 <= u < |s.threads| :: WillNotify(s.threads[u])
  }

  lemma PerformAdmits(s: State, t: nat, request: Request)
    requires Inv(s) && t < |s.threads| && Ready(s, t, Perform)
    requires !Admissible(s, request) && Admissible(PerformHead(s, t), request)
    ensures WillNotify(PerformHead(s, t).threads[t])
  {
    assert PcOk(s, t, s.threads[t]);
    NoOverflow(s, t);
  }

  /** No other step makes a request admissible. */
  lemma OthersDoNotAdmit(s: State, t: nat, step: Step, request: Request)
    requires Inv(s) && t < |s.threads| && Ready(s, t, step) && !step.Perform?
    ensures Admissible(Next(s, t, step), request) ==> Admissible(s, request)
  {
    assert PcOk(s, t, s.threads[t]);
    if step.Exchange? && s.threads[t].Fitting? {
      NoSaturation(s, t);
    }
  }

  /** A request becomes admissible only by a release of the moving thread, which then owes a
      notification. */
  lemma BecomesAdmissible(s: State, t: nat, step: Step, s': State, request: Request)
    requires Inv(s) && IsStep(s, t, step, s')
    requires !Admissible(s, request) && Admissible(s', request)
    ensures WillNotify(s'.threads[t])
  {
    if step.Perform? {
      PerformAdmits(s, t, request);
    } else {
      OthersDoNotAdmit(s, t, step, request);
    }
  }

  /** A pending notification stays pending until it is sent. */
  lemma NotificationStaysPending(s: State, t: nat, step: Step, s': State, u: nat)
    requires Inv(s) && IsStep(s, t, step, s') && u < |s.threads| && WillNotify(s.threads[u])
    ensures WillNotify(s'.threads[u]) || s'.notifications > s.notifications
  {
    assert PcOk(s, t, s.threads[t]);
    StepFrame(s, t, step, s');
    if u == t {
      assert step.Perform?;
      NoOverflow(s, t);
      var todo := s.threads[t].todo;
      assert todo.head.NotifyWaiters? || (Notifies(todo.rest) && s'.threads[t] == Run(todo.rest));
    }
  }

  lemma StepFrame(s: State, t: nat, step: Step, s': State)
    requires IsStep(s, t, step, s')
    ensures |s'.threads| == |s.threads| && s'.threads == s.threads[t := s'.threads[t]]
    ensures s.notifications <= s'.notifications && s'.limit == s.limit
  {
  }

  /** A call goes to sleep only when it cannot be admitted. */
  lemma ParksOnlyIfNotAdmissible(s: State, t: nat, step: Step, s': State)
    requires Inv(s) && IsStep(s, t, step, s') && !s.threads[t].Parked? && s'.threads[t].Parked?
    ensures !Admissible(s', s'.threads[t].request)
  {
  }

  lemma StepKeepsWakeInv(s: State, t: nat, step: Step, s': State)
    requires Inv(s) && WakeInv(s) && IsStep(s, t, step, s')
    ensures WakeInv(s')
  {
    StepFrame(s, t, step, s');
    forall v | 0 <= v < |s'.threads| && Asleep(s', s'.threads[v]) && Admissible(s', s'.threads[v].request)
      ensures exists u | 0 <= u < |s'.threads| :: WillNotify(s'.threads[u])
    {
      if v == t && !s.threads[t].Parked? {
        ParksOnlyIfNotAdmissible(s, t, step, s');
      } else {
        SleeperKeepsNotifier(s, t, step, s', v);
      }
    }
  }

  lemma SleeperKeepsNotifier(s: State, t: nat, step: Step, s': State, v: nat)
    requires Inv(s) && WakeInv(s) && IsStep(s, t, step, s')
    requires v < |s.threads| && (v != t || s.threads[t].Parked?)
    requires |s'.threads| == |s.threads| && Asleep(s', s'.threads[v]) && Admissible(s', s'.threads[v].request)
    ensures exists u | 0 <= u < |s'.threads| :: WillNotify(s'.threads[u])
  {
    StepFrame(s, t, step, s');
    assert PcOk(s, v, s.threads[v]);
    assert s'.threads[v] == s.threads[v] && Asleep(s, s.threads[v]) by {
      StaysParked(s, t, step, s', v);
    }
    if Admissible(s, s.threads[v].request) {
      var u :| 0 <= u < |s.threads| && WillNotify(s.threads[u]);
      NotificationStaysPending(s, t, step, s', u);
    } else {
      BecomesAdmissible(s, t, step, s', s.threads[v].request);
    }
  }

  lemma StaysParked(s: State, t: nat, step: Step, s': State, v: nat)
    requires Inv(s) && IsStep(s, t, step, s') && v < |s.threads| && (v != t || s.threads[t].Parked?)
    requires |s'.threads| == |s.threads| && Asleep(s', s'.threads[v])
    ensures s'.threads[v] == s.threads[v] && Asleep(s, s.threads[v])
  {
    StepFrame(s, t, step, s');
    assert PcOk(s, v, s.threads[v]);
  }

  lemma {:induction false} RunsKeepWakeInv(trace: seq<State>, steps: seq<(nat, Step)>, i: nat)
    requires IsRun(trace, steps) && i <= |steps|
    ensures WakeInv(trace[i])
  {
    if i > 0 {
      RunsKeepWakeInv(trace, steps, i - 1);
      RunsKeepInv(trace, steps, i - 1);
      StepKeepsWakeInv(trace[i - 1], steps[i - 1].0, steps[i - 1].1, trace[i]);
    }
  }

  /** No wakeup is lost: with no call in flight, a parked call that could be admitted is awake. */
  lemma NoLostWakeup(trace: seq<State>, steps: seq<(nat, Step)>, i: nat, t: nat)
    requires IsRun(trace, steps) && i <= |steps| && Quiescent(trace[i])
    requires t < |trace[i].threads| && trace[i].threads[t].Parked?
    ensures Asleep(trace[i], trace[i].threads[t]) ==> !Admissible(trace[i], trace[i].threads[t].request)
    ensures Admissible(trace[i], trace[i].threads[t].request) ==> Ready(trace[i], t, Wake)
  {
    RunsKeepWakeInv(trace, steps, i);
    RunsKeepInv(trace, steps, i);
    assert PcOk(trace[i], t, trace[i].threads[t]);
  }

  /** A woken call that can be admitted is admitted by its own next steps. */
  lemma WokenCallIsAdmitted(s: State, t: nat)
    requires t < |s.threads| && Ready(s, t, Wake) && Admissible(s, s.threads[t].request)
    ensures var request := s.threads[t].request;
            var s1 := Next(s, t, Wake);
            && Ready(s1, t, Register)
            && var s2 := Next(s1, t, Register);
            && Ready(s2, t, Poll)
            && var s3 := Next(s2, t, Poll);
            match request
            case ReserveProgress(bytes) => s3.threads[t] == Run(ProgressProgram(bytes)) && s3.progress == 1
            case WaitBelow => s3.threads[t] == Idle
            case Reserve(bytes) =>
              && Ready(s3, t, Exchange(false))
              && Next(s3, t, Exchange(false)).threads[t] == Run(ReserveProgram(bytes))
            case Admit(bytes) =>
              && Ready(s3, t, Exchange(false))
              && Next(s3, t, Exchange(false)).threads[t] == Run(AdmitProgram(bytes))
              && Next(s3, t, Exchange(false)).active == bytes
  {
  }
}
