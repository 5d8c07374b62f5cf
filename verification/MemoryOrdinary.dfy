/**
  Runs that use only `reserve`, clone, `shrink_to` and drop: the budget is exceeded by a lone
  oversized reservation or not at all.
 */
module MemoryOrdinary {
  import opened Common
  import opened Memory
  import opened MemorySafety
  import opened MemoryTheorems

  predicate OrdinaryStep(step: Step) {
    match step
    case Call(request) => request.Reserve?
    case ReserveTransform(_) => false
    case Grow(_, _) => false
    case Companion(_, _) => false
    case Finish(_, _) => false
    case Abandon(_) => false
    case _ => true
  }

  ghost predicate IsOrdinaryRun(trace: seq<State>, steps: seq<(nat, Step)>) {
    IsRun(trace, steps) && forall i | 0 <= i < |steps| :: OrdinaryStep(steps[i].1)
  }

  /** The rest of an ordinary call: handing out a source lease, or taking one (or part of one) back. */
  predicate OrdinaryTodo(todo: Todo) {
    match todo
    case Done => true
    case Do(AddSource(_), rest) => rest.Do? && rest.head.Grant? && OrdinaryTodo(rest)
    case Do(Grant(obj), rest) => obj.Lease? && obj.kind.Source? && rest.Done?
    case Do(SubUsed(n), rest) => n >= 1 && rest.Do? && rest.head.SubSource? && OrdinaryTodo(rest)
    case Do(SubSource(_), rest) => rest.Do? && rest.head.NotifyWaiters? && OrdinaryTodo(rest)
    case Do(NotifyWaiters, rest) => rest.Done? || (rest.head.Unlock? && rest.rest.Done?)
    case Do(Unlock(_), rest) => rest.Done?
    case _ => false
  }

  predicate OrdinaryPc(pc: Pc) {
    match pc
    case Begin(request) => request.Reserve?
    case Registered(request, _) => request.Reserve?
    case Parked(request, _) => request.Reserve?
    case Below(_, _) => false
    case Run(todo) => OrdinaryTodo(todo)
    case _ => true
  }

  ghost predicate OrdinaryThreads(threads: seq<Pc>) {
    forall t | 0 <= t < |threads| :: OrdinaryPc(threads[t])
  }

  ghost predicate OrdinaryObjs(objs: seq<Obj>) {
    forall o | 0 <= o < |objs| :: objs[o].Gone? || (objs[o].Lease? && objs[o].kind.Source?)
  }

  ghost predicate OrdinaryInv(s: State) {
    OrdinaryThreads(s.threads) && OrdinaryObjs(s.objs)
  }

  /** One for a call that holds a whole reservation: about to hand it out, or about to return it. */
  function Whole(todo: Todo): int {
    if todo.Do? && (todo.head.AddSource? || todo.head.Grant? || (todo.head.SubUsed? && Locks(todo) == 0)) then 1 else 0
  }

  function PcWhole(pc: Pc): int { if pc.Run? then Whole(pc.todo) else 0 }

  function ObjLease(o: Obj): int { if o.Lease? then 1 else 0 }

  /** The number of reservations, live or on their way in or out. */
  ghost function Reservations(s: State): int {
    Sum(s.threads, PcWhole) + Sum(s.objs, ObjLease)
  }

  lemma OrdinaryTodoFacts(todo: Todo)
    requires OrdinaryTodo(todo) && Sound(todo)
    ensures 0 <= Whole(todo) <= Used(todo)
    ensures Locks(todo) == 0 && Whole(todo) == 0 ==> Used(todo) == 0
  {
    match todo
    case Do(AddSource(_), rest) => assert Used(todo) == Used(rest); GrantLast(rest.head.obj);
    case Do(Grant(obj), _) => GrantLast(obj);
    case Do(SubUsed(n), rest) => OrdinaryReturn(rest);
    case Do(SubSource(_), _) => OrdinaryReturn(todo);
    case Do(NotifyWaiters, rest) => OrdinaryReturn(Do(SubSource(0), todo));
    case Do(Unlock(lease), _) => UnlockLast(lease);
    case Done =>
  }

  /** Once `used` is settled, returning a lease owes it nothing more. */
  lemma OrdinaryReturn(todo: Todo)
    requires OrdinaryTodo(todo) && todo.Do? && todo.head.SubSource?
    ensures Used(todo) == 0 && Used(todo.rest) == 0
  {
    var rest := todo.rest.rest;
    if rest.Do? {
      UnlockLast(rest.head.lease);
    }
    assert Used(rest) == 0;
    assert Used(todo.rest) == Used(rest);
    assert Used(todo) == Used(todo.rest);
  }

  lemma ThreadWhole(threads: seq<Pc>, t: nat, pc: Pc)
    requires t < |threads|
    ensures Sum(threads[t := pc], PcWhole) == Sum(threads, PcWhole) - PcWhole(threads[t]) + PcWhole(pc)
  {
    SumUpdate(threads, t, pc, PcWhole);
  }

  /** Every reservation counts at least one byte; with none, nothing is used. */
  lemma ReservationsBound(s: State)
    requires Inv(s) && OrdinaryInv(s)
    ensures 0 <= Reservations(s) <= s.used
    ensures Reservations(s) == 0 ==> s.used == 0
  {
    forall t | 0 <= t < |s.threads| ensures 0 <= PcWhole(s.threads[t]) <= PcUsed(s.threads[t]) {
      assert PcOk(s, t, s.threads[t]);
      if s.threads[t].Run? { OrdinaryTodoFacts(s.threads[t].todo); }
    }
    SumMonotone(s.threads, PcWhole, PcUsed);
    SumMonotone(s.objs, ObjLease, ObjUsed);
    SumNonNegative(s.threads, PcWhole);
    SumNonNegative(s.objs, ObjLease);
    if Reservations(s) == 0 {
      SumZero(s.threads, PcWhole);
      SumZero(s.objs, ObjLease);
      forall t | 0 <= t < |s.threads| ensures PcUsed(s.threads[t]) == 0 {
        NoLeaseNoDebt(s, t);
      }
      SumAllZero(s.threads, PcUsed);
      SumAllZero(s.objs, ObjUsed);
    }
  }

  lemma NoLeaseNoDebt(s: State, t: nat)
    requires Inv(s) && OrdinaryInv(s) && t < |s.threads| && PcWhole(s.threads[t]) == 0
    requires forall o | 0 <= o < |s.objs| :: ObjLease(s.objs[o]) == 0
    ensures PcUsed(s.threads[t]) == 0
  {
    assert PcOk(s, t, s.threads[t]);
    if s.threads[t].Run? {
      OrdinaryTodoFacts(s.threads[t].todo);
      if Locks(s.threads[t].todo) > 0 {
        LockedLeaseExists(s.objs, t, s.threads[t].todo);
      }
    }
  }

  lemma {:induction false} LockedLeaseExists(objs: seq<Obj>, t: nat, todo: Todo)
    requires Holds(objs, t, todo) && Locks(todo) > 0
    ensures exists o | 0 <= o < |objs| :: ObjLease(objs[o]) == 1
  {
    if todo.head.Unlock? || todo.head.StoreBytes? {
      assert ObjLease(objs[todo.head.lease]) == 1;
    } else {
      LockedLeaseExists(objs, t, todo.rest);
    }
  }

  /** The budget is exceeded only by a lone reservation. */
  ghost predicate AloneInv(s: State) {
    s.used > s.limit ==> Reservations(s) == 1
  }

  lemma ShrinkIsOrdinary(lease: nat, released: nat)
    requires released >= 1
    ensures OrdinaryTodo(ShrinkProgram(lease, Source, released)) && Whole(ShrinkProgram(lease, Source, released)) == 0
  {
    ShrinkFacts(lease, Source, released);
    var n := Do(NotifyWaiters, Do(Unlock(lease), Done));
    assert OrdinaryTodo(n);
    assert OrdinaryTodo(Do(SubSource(released), n));
  }

  lemma ReleaseIsOrdinary(bytes: nat)
    requires bytes >= 1
    ensures OrdinaryTodo(ReleaseProgram(Source, bytes)) && Whole(ReleaseProgram(Source, bytes)) == 1
  {
    ReleaseFacts(Source, bytes);
    var n := Do(NotifyWaiters, Done);
    assert OrdinaryTodo(n);
    assert OrdinaryTodo(Do(SubSource(bytes), n));
  }

  lemma ReserveIsOrdinary(bytes: nat)
    ensures OrdinaryTodo(ReserveProgram(bytes)) && Whole(ReserveProgram(bytes)) == 1
  {
    assert OrdinaryTodo(Do(Grant(NewLease(Source, bytes)), Done));
  }

  /** Steps that start or finish work on a lease. */
  predicate LeaseStep(step: Step) {
    step.Clone? || step.Release? || step.Shrink?
  }

  lemma LeaseStepKeepsOrdinary(s: State, t: nat, step: Step)
    requires Inv(s) && OrdinaryInv(s) && t < |s.threads| && Ready(s, t, step) && LeaseStep(step)
    ensures OrdinaryInv(Next(s, t, step))
  {
    match step
    case Clone(_) =>
    case Release(lease) => ReleaseIsOrdinary(s.objs[lease].bytes);
    case Shrink(lease, bytes) => ShrinkIsOrdinary(lease, s.objs[lease].bytes - AtLeastOne(bytes));
  }

  lemma PerformKeepsOrdinary(s: State, t: nat)
    requires Inv(s) && OrdinaryInv(s) && t < |s.threads| && Ready(s, t, Perform)
    ensures OrdinaryInv(PerformHead(s, t))
  {
    assert OrdinaryPc(s.threads[t]);
    NoOverflow(s, t);
  }

  lemma WaitingStepKeepsOrdinary(s: State, t: nat, step: Step)
    requires Inv(s) && OrdinaryInv(s) && t < |s.threads| && Ready(s, t, step)
    requires OrdinaryStep(step) && !LeaseStep(step) && !step.Perform?
    ensures OrdinaryInv(Next(s, t, step))
  {
    assert OrdinaryPc(s.threads[t]);
    if step.Exchange? {
      ReserveIsOrdinary(s.threads[t].bytes);
    }
  }

  lemma StepKeepsOrdinary(s: State, t: nat, step: Step, s': State)
    requires Inv(s) && OrdinaryInv(s) && IsStep(s, t, step, s') && OrdinaryStep(step)
    ensures OrdinaryInv(s')
  {
    if LeaseStep(step) {
      LeaseStepKeepsOrdinary(s, t, step);
    } else if step.Perform? {
      PerformKeepsOrdinary(s, t);
    } else {
      WaitingStepKeepsOrdinary(s, t, step);
    }
  }

  /** Usage and reservations move together: both stay or fall, or one reservation is admitted. */
  ghost predicate Moves(s: State, s': State) {
    || (s'.used <= s.used && Reservations(s') == Reservations(s))
    || (s'.used < s.used && Reservations(s') == Reservations(s) - 1)
    || ((s'.used <= s.limit || s.used == 0) && Reservations(s') == Reservations(s) + 1)
  }

  lemma PerformMoves(s: State, t: nat)
    requires Inv(s) && OrdinaryInv(s) && t < |s.threads| && Ready(s, t, Perform)
    ensures Moves(s, PerformHead(s, t))
  {
    var s' := PerformHead(s, t);
    var todo := s.threads[t].todo;
    assert PcOk(s, t, s.threads[t]) && OrdinaryPc(s.threads[t]);
    NoOverflow(s, t);
    ThreadWhole(s.threads, t, Continue(todo.rest));
    match todo.head
    case Grant(obj) => SumAppend(s.objs, obj, ObjLease);
    case Unlock(lease) => SumUpdate(s.objs, lease, s'.objs[lease], ObjLease);
    case SubUsed(_) => assert Whole(todo.rest) == 0;
    case _ =>
  }

  lemma LeaseStepMoves(s: State, t: nat, step: Step)
    requires Inv(s) && OrdinaryInv(s) && t < |s.threads| && Ready(s, t, step) && LeaseStep(step)
    ensures Moves(s, Next(s, t, step))
  {
    var s' := Next(s, t, step);
    SumUpdate(s.objs, step.lease, s'.objs[step.lease], ObjLease);
    ThreadWhole(s.threads, t, s'.threads[t]);
    assert s.threads[t := s.threads[t]] == s.threads;
    match step
    case Clone(_) =>
    case Release(lease) => ReleaseIsOrdinary(s.objs[lease].bytes);
    case Shrink(lease, bytes) => ShrinkIsOrdinary(lease, s.objs[lease].bytes - AtLeastOne(bytes));
  }

  lemma WaitingStepMoves(s: State, t: nat, step: Step)
    requires Inv(s) && OrdinaryInv(s) && t < |s.threads| && Ready(s, t, step)
    requires OrdinaryStep(step) && !LeaseStep(step) && !step.Perform?
    ensures Moves(s, Next(s, t, step))
  {
    assert PcOk(s, t, s.threads[t]) && OrdinaryPc(s.threads[t]);
    ThreadWhole(s.threads, t, Next(s, t, step).threads[t]);
    if step.Exchange? {
      ReserveIsOrdinary(s.threads[t].bytes);
      NoSaturation(s, t);
    }
  }

  lemma StepKeepsAlone(s: State, t: nat, step: Step, s': State)
    requires Inv(s) && OrdinaryInv(s) && AloneInv(s) && IsStep(s, t, step, s') && OrdinaryStep(step)
    requires Inv(s') && OrdinaryInv(s') && s'.limit == s.limit
    ensures AloneInv(s')
  {
    if LeaseStep(step) {
      LeaseStepMoves(s, t, step);
    } else if step.Perform? {
      PerformMoves(s, t);
    } else {
      WaitingStepMoves(s, t, step);
    }
    ReservationsBound(s);
    ReservationsBound(s');
  }

  lemma {:induction false} OrdinaryRunsKeepAlone(trace: seq<State>, steps: seq<(nat, Step)>, i: nat)
    requires IsOrdinaryRun(trace, steps) && i <= |steps|
    ensures Inv(trace[i]) && OrdinaryInv(trace[i]) && AloneInv(trace[i])
  {
    RunsKeepInv(trace, steps, i);
    if i > 0 {
      OrdinaryRunsKeepAlone(trace, steps, i - 1);
      StepKeepsOrdinary(trace[i - 1], steps[i - 1].0, steps[i - 1].1, trace[i]);
      StepFrame(trace[i - 1], steps[i - 1].0, steps[i - 1].1, trace[i]);
      StepKeepsAlone(trace[i - 1], steps[i - 1].0, steps[i - 1].1, trace[i]);
    }
  }

  /** In ordinary runs, after every atomic operation: above the limit there is exactly one reservation, live
      or on its way in or out, and nothing is used exactly when there is none. Between calls these are
      the live leases. */
  lemma OversizedReservationIsAlone(trace: seq<State>, steps: seq<(nat, Step)>, i: nat)
    requires IsOrdinaryRun(trace, steps) && i <= |steps|
    ensures trace[i].used > trace[i].limit ==> Reservations(trace[i]) == 1
    ensures trace[i].used == 0 <==> Reservations(trace[i]) == 0
    ensures Quiescent(trace[i]) ==>
              && (trace[i].used > trace[i].limit ==> Sum(trace[i].objs, ObjLease) == 1)
              && (trace[i].used == 0 <==> forall o | 0 <= o < |trace[i].objs| :: !trace[i].objs[o].Lease?)
  {
    OrdinaryRunsKeepAlone(trace, steps, i);
    ReservationsBound(trace[i]);
    if Quiescent(trace[i]) {
      QuiescentReservations(trace[i]);
    }
  }

  /** Between calls every reservation is a live lease. */
  lemma QuiescentReservations(s: State)
    requires Quiescent(s)
    ensures Reservations(s) == Sum(s.objs, ObjLease)
    ensures Reservations(s) == 0 <==> forall o | 0 <= o < |s.objs| :: !s.objs[o].Lease?
  {
    SumAllZero(s.threads, PcWhole);
    SumZero(s.objs, ObjLease);
    assert forall o | 0 <= o < |s.objs| :: ObjLease(s.objs[o]) == 0 <==> !s.objs[o].Lease?;
  }
}
