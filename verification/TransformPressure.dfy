/**
  The parser loop as the only transform reserver of a memory budget: a transform may cross the
  limit once, and the overage never cascades.

  Thread 0 of the budget is the parser. `Control` is its position in the loop; every other
  thread may do anything with the budget except reserve transform bytes.
 */
module TransformPressure {
  import opened Common
  import opened Memory
  import opened MemorySafety

  datatype Control =
    | Top(pressured: bool)          // loop head, with the pressure sampled last time round
    | Clear                         // past the pressure check, handling an envelope
    | Admitting                     // inside admit_active_transform
    | Admitted(reservation: nat)    // transforming under an active reservation
    | Abandoning                    // dropping an active reservation that produced no output
    | Settling                      // inside finish or reserve_transform
    | Sending                       // output counted, delivery on its way

  /** `last` is the size of the latest finished output. */
  datatype ParserState = ParserState(mem: Memory.State, control: Control, last: nat)

  datatype ParserStep =
    | Other(thread: nat, step: Memory.Step)
    | Housekeeping(step: Memory.Step)   // clones and drops of buffers the parser holds
    | Resume
    | EnterLoop
    | CallWait
    | WaitReturns
    | Skip(pressured: bool)
    | CallAdmit(bytes: nat)
    | AdmitReturns
    | CallFinish(bytes: nat)
    | CallAbandon
    | AbandonReturns
    | CallReserve(bytes: nat)
    | SettleReturns
    | SamplePressure

  /** Memory steps that never start reserving transform bytes. */
  predicate Neutral(step: Memory.Step) {
    match step
    case Call(request) => !request.Admit?
    case ReserveTransform(_) => false
    case Finish(_, _) => false
    case Abandon(_) => false
    case _ => true
  }

  predicate Keeping(step: Memory.Step) {
    step.Clone? || step.Release? || step.Shrink? || step.Perform?
  }

  /** A step inside a call the parser is in. */
  predicate Continues(step: Memory.Step) {
    step.Register? || step.Poll? || step.Exchange? || step.Wake? || step.Perform?
  }

  predicate Inside(control: Control) {
    control == Top(true) || control.Admitting? || control.Abandoning? || control.Settling?
  }

  ghost predicate MemStep(s: ParserState, t: nat, step: Memory.Step, s': ParserState) {
    IsStep(s.mem, t, step, s'.mem)
  }

  /** Which step the parser loop takes where. The memory steps of a call are taken by `Resume`. */
  ghost predicate IsClientStep(s: ParserState, step: ParserStep, s': ParserState) {
    && 0 < |s.mem.threads| == |s'.mem.threads|
    && var idle := s.mem.threads[0].Idle?;
       match step
       case Other(t, m) => t != 0 && Neutral(m) && MemStep(s, t, m, s') && s'.control == s.control && s'.last == s.last
       case Housekeeping(m) =>
         Keeping(m) && !Inside(s.control) && MemStep(s, 0, m, s') && s'.control == s.control && s'.last == s.last
       case Resume =>
         && Inside(s.control) && s'.control == s.control && s'.last == s.last
         && exists m | Continues(m) :: MemStep(s, 0, m, s')
       case EnterLoop => s.control == Top(false) && idle && s' == s.(control := Clear)
       case CallWait =>
         && s.control == Top(true) && idle && MemStep(s, 0, Call(WaitBelow), s')
         && s'.control == s.control && s'.last == s.last
       case WaitReturns =>
         && s.control == Top(true) && MemStep(s, 0, Poll, s') && s.mem.threads[0].Registered? && s'.mem.threads[0].Idle?
         && s'.control == Clear && s'.last == s.last
       case Skip(pressured) => s.control.Clear? && idle && s' == s.(control := Top(pressured))
       case CallAdmit(bytes) =>
         s.control.Clear? && idle && MemStep(s, 0, Call(Admit(bytes)), s') && s'.control == Admitting && s'.last == s.last
       case AdmitReturns =>
         && s.control.Admitting? && idle
         && exists o | 0 <= o < |s.mem.objs| :: s.mem.objs[o].Active? && s' == s.(control := Admitted(o))
       case CallFinish(bytes) =>
         && s.control.Admitted? && idle && MemStep(s, 0, Finish(s.control.reservation, bytes), s')
         && s'.control == Settling && s'.last == AtLeastOne(bytes)
       case CallAbandon =>
         && s.control.Admitted? && idle && MemStep(s, 0, Abandon(s.control.reservation), s')
         && s'.control == Abandoning && s'.last == s.last
       case AbandonReturns => s.control.Abandoning? && idle && s' == s.(control := Sending)
       case CallReserve(bytes) =>
         && s.control.Clear? && idle && MemStep(s, 0, ReserveTransform(bytes), s')
         && s'.control == Settling && s'.last == AtLeastOne(bytes)
       case SettleReturns => s.control.Settling? && idle && s' == s.(control := Sending)
       case SamplePressure => s.control.Sending? && idle && s' == s.(control := Top(s.mem.transform >= s.mem.limit))
  }

  ghost predicate ClientInit(s: ParserState) {
    Init(s.mem) && 0 < |s.mem.threads| && s.control == Top(false) && s.last == 0
  }

  ghost predicate IsClientRun(trace: seq<ParserState>, steps: seq<ParserStep>) {
    && |trace| == |steps| + 1
    && ClientInit(trace[0])
    && forall i | 0 <= i < |steps| :: IsClientStep(trace[i], steps[i], trace[i + 1])
  }

  // ---------------------------------------------------------------------------------------
  // The invariant
  // ---------------------------------------------------------------------------------------

  /** Transform bytes a call is yet to add. */
  function Adds(todo: Todo): nat {
    if todo.Done? then 0 else (if todo.head.AddTransform? then todo.head.n else 0) + Adds(todo.rest)
  }

  function PcAdds(pc: Pc): nat { if pc.Run? then Adds(pc.todo) else 0 }

  predicate WantsAdmission(pc: Pc) {
    match pc
    case Begin(request) => request.Admit?
    case Registered(request, _) => request.Admit?
    case Parked(request, _) => request.Admit?
    case Below(_, _) => true
    case _ => false
  }

  /** Only the parser ever reserves transform bytes. */
  ghost predicate OnlyParserReserves(m: Memory.State) {
    forall t | 0 < t < |m.threads| :: PcAdds(m.threads[t]) == 0 && !WantsAdmission(m.threads[t])
  }

  /** Positions at which retained transform bytes are known to be below the limit. */
  predicate KnowsRoom(control: Control) {
    control == Top(false) || control.Clear? || control.Admitting? || control.Admitted? || control.Abandoning?
  }

  ghost predicate PressureInv(s: ParserState) {
    && 0 < |s.mem.threads| && 0 < s.mem.limit
    && OnlyParserReserves(s.mem)
    && (!s.control.Settling? ==> PcAdds(s.mem.threads[0]) == 0)
    && s.mem.transform + PcAdds(s.mem.threads[0]) < s.mem.limit + s.last
    && (KnowsRoom(s.control) ==> s.mem.transform < s.mem.limit)
  }

  lemma ProgramAdds(bytes: nat, other: nat, lease: nat, kind: Kind)
    ensures Adds(ReserveProgram(bytes)) == 0
    ensures Adds(ProgressProgram(bytes)) == 0
    ensures Adds(CompanionProgram(bytes)) == 0
    ensures Adds(AdmitProgram(bytes)) == 0
    ensures Adds(AbandonProgram(bytes)) == 0
    ensures Adds(GrowProgram(lease, bytes, other)) == 0
    ensures Adds(ShrinkProgram(lease, kind, bytes)) == 0
    ensures Adds(ReleaseProgram(kind, bytes)) == 0
    ensures Adds(TransformProgram(bytes)) == bytes
    ensures Adds(FinishProgram(other, bytes)) == bytes
  {
    assert Adds(Done) == 0;
    assert Adds(Do(NotifyWaiters, Done)) == 0;
    assert Adds(Do(Unlock(lease), Done)) == 0;
    assert Adds(Do(Grant(NewLease(Transform, bytes)), Done)) == 0;
    assert Adds(Do(AddSource(bytes), Do(Grant(NewLease(ProgressSource, bytes)), Done))) == 0;
    assert Adds(Do(AddSource(bytes), Do(Grant(NewLease(Source, bytes)), Done))) == 0;
    assert Adds(Do(NotifyWaiters, Do(Grant(NewLease(Transform, bytes)), Done))) == 0;
    assert Adds(Do(ClearActive(other), Do(NotifyWaiters, Do(Grant(NewLease(Transform, bytes)), Done)))) == 0;
    assert Adds(Do(NotifyWaiters, Do(Unlock(lease), Done))) == 0;
    assert Adds(Do(ClearProgress, Do(NotifyWaiters, Done))) == 0;
    assert Adds(Do(StoreBytes(lease, bytes, other), Do(Unlock(lease), Done))) == 0;
  }

  /** The moving thread trades pending additions for retained bytes at most, and no other thread moves. */
  ghost predicate AddsNothing(m: Memory.State, t: nat, m': Memory.State)
    requires t < |m.threads|
  {
    && |m'.threads| == |m.threads| && m'.threads == m.threads[t := m'.threads[t]] && m'.limit == m.limit
    && m'.transform + PcAdds(m'.threads[t]) <= m.transform + PcAdds(m.threads[t])
    && PcAdds(m'.threads[t]) <= PcAdds(m.threads[t])
  }

  lemma PerformAddsNothing(m: Memory.State, t: nat)
    requires t < |m.threads| && Ready(m, t, Perform)
    ensures AddsNothing(m, t, PerformHead(m, t))
  {
  }

  lemma WaitingStepAddsNothing(m: Memory.State, t: nat, step: Memory.Step)
    requires t < |m.threads| && Ready(m, t, step)
    requires step.Call? || step.Register? || step.Poll? || step.Exchange? || step.Wake? || step.GiveUp? || step.Clone?
    ensures AddsNothing(m, t, Next(m, t, step))
  {
    if step.Poll? && m.threads[t].request.ReserveProgress? {
      ProgramAdds(m.threads[t].request.bytes, 0, 0, Source);
    } else if step.Exchange? {
      ProgramAdds(m.threads[t].bytes, 0, 0, Source);
    }
  }

  lemma ReleaseAddsNothing(m: Memory.State, t: nat, lease: nat)
    requires t < |m.threads| && Ready(m, t, Release(lease))
    ensures AddsNothing(m, t, ReleaseOwner(m, t, lease))
  {
    ProgramAdds(m.objs[lease].bytes, 0, 0, m.objs[lease].kind);
  }

  lemma ShrinkAddsNothing(m: Memory.State, t: nat, lease: nat, bytes: nat)
    requires t < |m.threads| && Ready(m, t, Shrink(lease, bytes))
    ensures AddsNothing(m, t, StartShrink(m, t, lease, bytes))
  {
    ProgramAdds(m.objs[lease].bytes - AtLeastOne(bytes), 0, lease, m.objs[lease].kind);
  }

  lemma ReturningStepAddsNothing(m: Memory.State, t: nat, step: Memory.Step)
    requires t < |m.threads| && Ready(m, t, step)
    requires step.Release? || step.Shrink? || step.Abandon?
    ensures AddsNothing(m, t, Next(m, t, step))
  {
    match step
    case Release(lease) => ReleaseAddsNothing(m, t, lease);
    case Shrink(lease, bytes) => ShrinkAddsNothing(m, t, lease, bytes);
    case Abandon(reservation) => ProgramAdds(m.objs[reservation].bytes, 0, 0, Source);
  }

  lemma SourceStepAddsNothing(m: Memory.State, t: nat, step: Memory.Step)
    requires t < |m.threads| && Ready(m, t, step) && (step.Grow? || step.Companion?)
    ensures AddsNothing(m, t, Next(m, t, step))
  {
    match step
    case Grow(lease, bytes) => ProgramAdds(AtLeastOne(bytes), AtLeastOne(bytes) - m.objs[lease].bytes, lease, Source);
    case Companion(_, bytes) => ProgramAdds(AtLeastOne(bytes), 0, 0, Source);
  }

  /** Steps that start no transform reservation only ever trade pending additions for retained bytes. */
  lemma OtherStepsAddNothing(m: Memory.State, t: nat, step: Memory.Step, m': Memory.State)
    requires IsStep(m, t, step, m') && !step.ReserveTransform? && !step.Finish?
    ensures AddsNothing(m, t, m')
  {
    if step.Perform? {
      PerformAddsNothing(m, t);
    } else if step.Release? || step.Shrink? || step.Abandon? {
      ReturningStepAddsNothing(m, t, step);
    } else if step.Grow? || step.Companion? {
      SourceStepAddsNothing(m, t, step);
    } else {
      WaitingStepAddsNothing(m, t, step);
    }
  }

  /** A step of another thread never makes it ask for a transform. */
  lemma NeutralStaysNeutral(m: Memory.State, t: nat, step: Memory.Step, m': Memory.State)
    requires IsStep(m, t, step, m') && Neutral(step) && !WantsAdmission(m.threads[t]) && PcAdds(m.threads[t]) == 0
    ensures !WantsAdmission(m'.threads[t]) && PcAdds(m'.threads[t]) == 0
  {
    OtherStepsAddNothing(m, t, step, m');
  }

  lemma ParserStepAddsNothing(s: ParserState, m: Memory.Step, s': ParserState)
    requires PressureInv(s) && MemStep(s, 0, m, s') && !m.ReserveTransform? && !m.Finish?
    requires s'.last == s.last && (s'.control == s.control || (KnowsRoom(s.control) && !s'.control.Settling?))
    ensures PressureInv(s')
  {
    OtherStepsAddNothing(s.mem, 0, m, s'.mem);
    forall t | 0 < t < |s'.mem.threads| ensures s'.mem.threads[t] == s.mem.threads[t] {
    }
  }

  /** Starting to reserve, with room known, keeps the bound with the new output as the latest. */
  lemma SettlingStarts(s: ParserState, m: Memory.Step, s': ParserState, bytes: nat)
    requires PressureInv(s) && KnowsRoom(s.control) && MemStep(s, 0, m, s')
    requires m == ReserveTransform(bytes) || (m.Finish? && m.bytes == bytes)
    requires s'.control == Settling && s'.last == AtLeastOne(bytes)
    ensures PressureInv(s')
  {
    ProgramAdds(AtLeastOne(bytes), if m.Finish? then s.mem.objs[m.reservation].bytes else 0, 0, Source);
    forall t | 0 < t < |s'.mem.threads| ensures s'.mem.threads[t] == s.mem.threads[t] {
    }
  }

  lemma OtherKeepsPressure(s: ParserState, t: nat, m: Memory.Step, s': ParserState)
    requires PressureInv(s) && t != 0 && t < |s.mem.threads| && Neutral(m) && MemStep(s, t, m, s')
    requires s'.control == s.control && s'.last == s.last
    ensures PressureInv(s')
  {
    OtherStepsAddNothing(s.mem, t, m, s'.mem);
    NeutralStaysNeutral(s.mem, t, m, s'.mem);
    forall u | 0 < u < |s'.mem.threads| ensures PcAdds(s'.mem.threads[u]) == 0 && !WantsAdmission(s'.mem.threads[u]) {
    }
  }

  lemma StepKeepsPressure(s: ParserState, step: ParserStep, s': ParserState)
    requires PressureInv(s) && IsClientStep(s, step, s')
    ensures PressureInv(s')
  {
    match step
    case Other(t, m) => OtherKeepsPressure(s, t, m, s');
    case Housekeeping(m) => ParserStepAddsNothing(s, m, s');
    case Resume =>
      var m :| Continues(m) && MemStep(s, 0, m, s');
      ParserStepAddsNothing(s, m, s');
    case CallWait => ParserStepAddsNothing(s, Call(WaitBelow), s');
    case WaitReturns => WaitFindsRoom(s, s');
    case CallAdmit(bytes) => ParserStepAddsNothing(s, Call(Admit(bytes)), s');
    case CallFinish(bytes) => SettlingStarts(s, Finish(s.control.reservation, bytes), s', bytes);
    case CallAbandon => ParserStepAddsNothing(s, Abandon(s.control.reservation), s');
    case CallReserve(bytes) => SettlingStarts(s, ReserveTransform(bytes), s', bytes);
    case _ =>
  }

  /** `wait_transform_below_limit` returns only when there is room. */
  lemma WaitFindsRoom(s: ParserState, s': ParserState)
    requires PressureInv(s) && MemStep(s, 0, Poll, s') && s.mem.threads[0].Registered? && s'.mem.threads[0].Idle?
    requires s'.control == Clear && s'.last == s.last && !s.control.Settling?
    ensures PressureInv(s')
  {
    OtherStepsAddNothing(s.mem, 0, Poll, s'.mem);
    forall t | 0 < t < |s'.mem.threads| ensures s'.mem.threads[t] == s.mem.threads[t] {
    }
  }

  lemma {:induction false} RunsKeepPressure(trace: seq<ParserState>, steps: seq<ParserStep>, i: nat)
    requires IsClientRun(trace, steps) && i <= |steps|
    ensures PressureInv(trace[i])
  {
    if i > 0 {
      RunsKeepPressure(trace, steps, i - 1);
      StepKeepsPressure(trace[i - 1], steps[i - 1], trace[i]);
    }
  }

  /** The overage never cascades: retained transform bytes stay below the limit plus the latest
      finished output, and every reservation of new output starts below the limit. */
  lemma OverageNeverCascades(trace: seq<ParserState>, steps: seq<ParserStep>, i: nat)
    requires IsClientRun(trace, steps) && i <= |steps|
    ensures trace[i].mem.transform < trace[i].mem.limit + trace[i].last
    ensures i < |steps| && (steps[i].CallAdmit? || steps[i].CallFinish? || steps[i].CallReserve?) ==>
              trace[i].mem.transform < trace[i].mem.limit
  {
    RunsKeepPressure(trace, steps, i);
    if i < |steps| {
      assert IsClientStep(trace[i], steps[i], trace[i + 1]);
    }
  }

  /** `reserve_transform` itself never looks at the limit: a second reserver that does not go through
      the parser's check adds any amount on top of anything. The bound above is the loop's. */
  lemma ReserveTransformIgnoresLimit(m: Memory.State, t: nat, bytes: nat)
    requires Inv(m) && t < |m.threads| && m.threads[t].Idle? && bytes >= 1
    requires Demand(Next(m, t, ReserveTransform(bytes))) <= U64_MAX
    ensures var m1 := Next(m, t, ReserveTransform(bytes));
            && Ready(m1, t, Perform)
            && var m2 := Next(m1, t, Perform);
            && Ready(m2, t, Perform)
            && var m3 := Next(m2, t, Perform);
            && m3.transform == m.transform + bytes && m3.used == m.used + bytes
            && (m3.transform < m.limit + bytes <==> m.transform < m.limit)
  {
    var m1 := Next(m, t, ReserveTransform(bytes));
    StepKeepsInv(m, t, ReserveTransform(bytes), m1);
    NoOverflow(m1, t);
    var m2 := Next(m1, t, Perform);
    StepKeepsInv(m1, t, Perform, m2);
    NoOverflow(m2, t);
  }

  ghost predicate Reachable(m: Memory.State) {
    exists trace: seq<Memory.State>, steps :: IsRun(trace, steps) && trace[|steps|] == m
  }

  lemma ReachableStep(m: Memory.State, step: Memory.Step, m': Memory.State)
    requires Reachable(m) && IsStep(m, 0, step, m')
    ensures Reachable(m')
  {
    var trace: seq<Memory.State>, steps :| IsRun(trace, steps) && trace[|steps|] == m;
    var longer, more := trace + [m'], steps + [(0, step)];
    assert IsRun(longer, more) && longer[|more|] == m';
  }

  /** A budget with one thread, at rest, whose leases hold `transform` bytes of output. */
  function Resting(limit: nat, transform: nat, objs: seq<Obj>): Memory.State {
    Memory.State(limit, transform, 0, transform, 0, 0, 0, [Idle], objs)
  }

  /** The thread performs its next operation. */
  lemma PerformOnce(m: Memory.State, todo: Todo)
    requires Reachable(m) && m.threads == [Run(todo)] && todo.Do?
    requires CanPerform(m, todo.head) && Effect(m, todo.head).Some?
    ensures Reachable(Effect(m, todo.head).value.(threads := [Continue(todo.rest)]))
  {
    assert m.threads[0 := Continue(todo.rest)] == [Continue(todo.rest)];
    ReachableStep(m, Perform, PerformHead(m, 0));
  }

  lemma StartReserving(m: Memory.State, bytes: nat)
    requires Reachable(m) && m.threads == [Idle] && bytes >= 1 && Sum(m.objs, ObjUsed) + bytes <= U64_MAX
    ensures Reachable(m.(threads := [Run(TransformProgram(bytes))]))
  {
    var todo := TransformProgram(bytes);
    assert m.threads[0 := Run(todo)] == [Run(todo)] == [] + [Run(todo)];
    TransformFacts(bytes);
    SumAppend([], Run(todo), PcDemand);
    ReachableStep(m, ReserveTransform(bytes), m.(threads := [Run(todo)]));
  }

  /** A whole `reserve_transform` call of that thread. */
  lemma ReserveOnce(limit: nat, transform: nat, objs: seq<Obj>, bytes: nat)
    requires Reachable(Resting(limit, transform, objs)) && bytes >= 1
    requires Sum(objs, ObjUsed) == transform && transform + bytes <= U64_MAX
    ensures var after := objs + [NewLease(Transform, bytes)];
            Reachable(Resting(limit, transform + bytes, after)) && Sum(after, ObjUsed) == transform + bytes
  {
    var m, todo := Resting(limit, transform, objs), TransformProgram(bytes);
    StartReserving(m, bytes);
    PerformOnce(m.(threads := [Run(todo)]), todo);
    PerformOnce(m.(used := transform + bytes, threads := [Run(todo.rest)]), todo.rest);
    PerformOnce(m.(used := transform + bytes, transform := transform + bytes, threads := [Run(todo.rest.rest)]),
                todo.rest.rest);
    SumAppend(objs, NewLease(Transform, bytes), ObjUsed);
  }

  /** Two `reserve_transform` calls that nothing checks in between leave the budget at or above its limit
      plus the latest output, for every limit: the bound above is the loop's and not the budget's. */
  lemma UncheckedReservationsCascade(limit: nat, first: nat, second: nat)
    requires 0 < limit <= first && 1 <= second && first + second <= U64_MAX
    ensures exists m :: Reachable(m) && m.limit == limit && m.transform == first + second >= limit + second
  {
    var m0 := Resting(limit, 0, []);
    var none: seq<(nat, Memory.Step)> := [];
    assert IsRun([m0], none) && [m0][|none|] == m0;
    ReserveOnce(limit, 0, [], first);
    var one := [] + [NewLease(Transform, first)];
    ReserveOnce(limit, first, one, second);
    assert Reachable(Resting(limit, first + second, one + [NewLease(Transform, second)]));
  }
}
