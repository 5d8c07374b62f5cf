/**
  The memory admission budget as a step system over its atomics.

  Every atomic operation of every call is one step of one thread, so the theorems hold for all
  interleavings. A call in flight is the list of atomic operations it still has to perform, in
  the order of the source; `Programs` below gives that list for each call. Waiting follows the
  notify protocol: a registration remembers how many notifications had been sent, and a parked
  call is woken by any later one.
 */
module Memory {
  import opened Common

  datatype Kind = Source | ProgressSource | Transform

  /** A reservation object: a shared lease, or the exclusive reservation of a running transform. */
  datatype Obj =
    | Gone
    | Lease(kind: Kind, bytes: nat, owners: nat, lockedBy: Option<nat>)
    | Active(bytes: nat)

  /** One atomic operation still to be performed by a call. */
  datatype Micro =
    | AddUsed(n: nat)
    | SubUsed(n: nat)
    | AddSource(n: nat)
    | SubSource(n: nat)
    | AddTransform(n: nat)
    | SubTransform(n: nat)
    | ClearActive(n: nat)
    | ClearProgress
    | NotifyWaiters
    | Grant(obj: Obj)
    | StoreBytes(lease: nat, bytes: nat, added: nat)
    | Unlock(lease: nat)

  /** The operations a call still has to perform, first one first. */
  datatype Todo = Done | Do(head: Micro, rest: Todo)

  /** A call that may have to wait. */
  datatype Request =
    | Reserve(bytes: nat)
    | ReserveProgress(bytes: nat)
    | Admit(bytes: nat)
    | WaitBelow

  datatype Pc =
    | Idle
    | Begin(request: Request)
    | Registered(request: Request, registration: nat)
    | Fitting(bytes: nat, seen: nat)
    | Below(bytes: nat, registration: nat)
    | Parked(request: Request, registration: nat)
    | Run(todo: Todo)
    | Overflowed

  datatype State = State(
    limit: nat,
    used: nat,
    source: nat,
    transform: nat,
    progress: nat,
    active: nat,
    notifications: nat,
    threads: seq<Pc>,
    objs: seq<Obj>)

  datatype Step =
    | Call(request: Request)
    | Register
    | Poll
    | Exchange(spurious: bool)
    | Wake
    | GiveUp
    | Perform
    | ReserveTransform(bytes: nat)
    | Clone(lease: nat)
    | Release(lease: nat)
    | Shrink(lease: nat, bytes: nat)
    | Grow(lease: nat, bytes: nat)
    | Companion(lease: nat, bytes: nat)
    | Finish(reservation: nat, bytes: nat)
    | Abandon(reservation: nat)

  ghost predicate Init(s: State) {
    && 0 < s.limit <= U64_MAX
    && s.used == s.source == s.transform == s.progress == s.active == 0
    && s.objs == []
    && (forall t | 0 <= t < |s.threads| :: s.threads[t] == Idle)
  }

  /** Requests count at least one byte. */
  function AtLeastOne(bytes: nat): nat { Max(1, bytes) }

  function Normalized(request: Request): Request {
    match request
    case Reserve(bytes) => Reserve(AtLeastOne(bytes))
    case ReserveProgress(bytes) => ReserveProgress(AtLeastOne(bytes))
    case Admit(bytes) => Admit(AtLeastOne(bytes))
    case WaitBelow => WaitBelow
  }

  function NewLease(kind: Kind, bytes: nat): Obj {
    Lease(kind, bytes, 1, None)
  }

  /** The admission test of `reserve`: an oversized request is admitted only alone. */
  predicate Fits(bytes: nat, used: nat, limit: nat) {
    if bytes > limit then used == 0 else used + bytes <= limit
  }

  // ---------------------------------------------------------------------------------------
  // Programs: what each call does, in order
  // ---------------------------------------------------------------------------------------

  function ReserveProgram(bytes: nat): Todo {
    Do(AddSource(bytes), Do(Grant(NewLease(Source, bytes)), Done))
  }

  function ProgressProgram(bytes: nat): Todo {
    Do(AddUsed(bytes), Do(AddSource(bytes), Do(Grant(NewLease(ProgressSource, bytes)), Done)))
  }

  function TransformProgram(bytes: nat): Todo {
    Do(AddUsed(bytes), Do(AddTransform(bytes), Do(Grant(NewLease(Transform, bytes)), Done)))
  }

  function AdmitProgram(bytes: nat): Todo {
    Do(AddUsed(bytes), Do(Grant(Active(bytes)), Done))
  }

  function FinishProgram(estimate: nat, bytes: nat): Todo {
    Do(if bytes >= estimate then AddUsed(bytes - estimate) else SubUsed(estimate - bytes),
       Do(AddTransform(bytes), Do(ClearActive(estimate), Do(NotifyWaiters, Do(Grant(NewLease(Transform, bytes)), Done)))))
  }

  function AbandonProgram(bytes: nat): Todo {
    Do(SubUsed(bytes), Do(ClearActive(bytes), Do(NotifyWaiters, Done)))
  }

  function GrowProgram(lease: nat, bytes: nat, added: nat): Todo {
    Do(AddUsed(added), Do(AddSource(added), Do(StoreBytes(lease, bytes, added), Do(Unlock(lease), Done))))
  }

  function CompanionProgram(bytes: nat): Todo {
    Do(AddUsed(bytes), Do(AddSource(bytes), Do(Grant(NewLease(Source, bytes)), Done)))
  }

  function SubStage(kind: Kind, bytes: nat): Micro {
    if kind.Transform? then SubTransform(bytes) else SubSource(bytes)
  }

  function ShrinkProgram(lease: nat, kind: Kind, released: nat): Todo {
    Do(SubUsed(released), Do(SubStage(kind, released), Do(NotifyWaiters, Do(Unlock(lease), Done))))
  }

  function ReleaseProgram(kind: Kind, bytes: nat): Todo {
    var last := Do(NotifyWaiters, Done);
    Do(SubUsed(bytes), Do(SubStage(kind, bytes), if kind.ProgressSource? then Do(ClearProgress, last) else last))
  }

  // ---------------------------------------------------------------------------------------
  // Steps
  // ---------------------------------------------------------------------------------------

  predicate IsLease(s: State, o: nat) {
    o < |s.objs| && s.objs[o].Lease?
  }

  predicate IsActive(s: State, o: nat) {
    o < |s.objs| && s.objs[o].Active?
  }

  function SetThread(s: State, t: nat, pc: Pc): State
    requires t < |s.threads|
  {
    s.(threads := s.threads[t := pc])
  }

  function SetObj(s: State, o: nat, obj: Obj): State
    requires o < |s.objs|
  {
    s.(objs := s.objs[o := obj])
  }

  predicate Ready(s: State, t: nat, step: Step)
    requires t < |s.threads|
  {
    var pc := s.threads[t];
    match step
    case Call(_) => pc.Idle?
    case Register => pc.Begin?
    case Poll => pc.Registered?
    case Exchange(_) => pc.Fitting? || pc.Below?
    case Wake => pc.Parked? && pc.registration < s.notifications
    case GiveUp => pc.Parked?
    case Perform => pc.Run? && pc.todo.Do? && CanPerform(s, pc.todo.head)
    case ReserveTransform(_) => pc.Idle?
    case Clone(lease) => pc.Idle? && IsLease(s, lease)
    case Release(lease) => pc.Idle? && IsLease(s, lease) && (s.objs[lease].owners > 1 || s.objs[lease].lockedBy.None?)
    case Shrink(lease, bytes) =>
      pc.Idle? && IsLease(s, lease) && s.objs[lease].lockedBy.None? && AtLeastOne(bytes) < s.objs[lease].bytes
    case Grow(lease, bytes) =>
      pc.Idle? && IsLease(s, lease) && s.objs[lease].kind.ProgressSource? && s.objs[lease].lockedBy.None?
      && AtLeastOne(bytes) > s.objs[lease].bytes
    case Companion(lease, _) => pc.Idle? && IsLease(s, lease) && s.objs[lease].kind.ProgressSource?
    case Finish(reservation, _) => pc.Idle? && IsActive(s, reservation)
    case Abandon(reservation) => pc.Idle? && IsActive(s, reservation)
  }

  /** The object an operation writes is still there (a call holds a reference to its lease). */
  predicate CanPerform(s: State, m: Micro) {
    (m.StoreBytes? || m.Unlock? ==> IsLease(s, m.lease))
  }

  function Continue(todo: Todo): Pc { if todo.Done? then Idle else Run(todo) }

  /** One atomic operation. An addition past the word size, or a subtraction below zero, overflows. */
  function Effect(s: State, m: Micro): Option<State>
    requires CanPerform(s, m)
  {
    match m
    case AddUsed(n) => if s.used + n <= U64_MAX then Some(s.(used := s.used + n)) else None
    case SubUsed(n) => if n <= s.used then Some(s.(used := s.used - n)) else None
    case AddSource(n) => if s.source + n <= U64_MAX then Some(s.(source := s.source + n)) else None
    case SubSource(n) => if n <= s.source then Some(s.(source := s.source - n)) else None
    case AddTransform(n) => if s.transform + n <= U64_MAX then Some(s.(transform := s.transform + n)) else None
    case SubTransform(n) => if n <= s.transform then Some(s.(transform := s.transform - n)) else None
    case ClearActive(_) => Some(s.(active := 0))
    case ClearProgress => Some(s.(progress := 0))
    case NotifyWaiters => Some(s.(notifications := s.notifications + 1))
    case Grant(obj) => Some(s.(objs := s.objs + [obj]))
    case StoreBytes(lease, bytes, _) => Some(SetObj(s, lease, s.objs[lease].(bytes := bytes)))
    case Unlock(lease) => Some(SetObj(s, lease, s.objs[lease].(lockedBy := None)))
  }

  function PerformHead(s: State, t: nat): State
    requires t < |s.threads| && Ready(s, t, Perform)
  {
    var todo := s.threads[t].todo;
    var effect := Effect(s, todo.head);
    if effect.None? then SetThread(s, t, Overflowed)
    else effect.value.(threads := s.threads[t := Continue(todo.rest)])
  }

  function PollRequest(s: State, t: nat): State
    requires t < |s.threads| && Ready(s, t, Poll)
  {
    var Registered(request, registration) := s.threads[t];
    var parked := SetThread(s, t, Parked(request, registration));
    match request
    case Reserve(bytes) => if Fits(bytes, s.used, s.limit) then SetThread(s, t, Fitting(bytes, s.used)) else parked
    case ReserveProgress(bytes) =>
      if s.progress == 0 then SetThread(s.(progress := 1), t, Run(ProgressProgram(bytes))) else parked
    case Admit(bytes) => if s.transform < s.limit then SetThread(s, t, Below(bytes, registration)) else parked
    case WaitBelow => if s.transform < s.limit then SetThread(s, t, Idle) else parked
  }

  function TryExchange(s: State, t: nat, spurious: bool): State
    requires t < |s.threads| && Ready(s, t, Exchange(spurious))
  {
    match s.threads[t]
    case Fitting(bytes, seen) =>
      if s.used == seen && !spurious
      then SetThread(s.(used := SaturatingAdd(seen, bytes)), t, Run(ReserveProgram(bytes)))
      else SetThread(s, t, Begin(Reserve(bytes)))
    case Below(bytes, registration) =>
      if s.active == 0
      then SetThread(s.(active := bytes), t, Run(AdmitProgram(bytes)))
      else SetThread(s, t, Parked(Admit(bytes), registration))
    case _ => s
  }

  function ReleaseOwner(s: State, t: nat, lease: nat): State
    requires t < |s.threads| && Ready(s, t, Release(lease))
  {
    var obj := s.objs[lease];
    if obj.owners > 1 then SetObj(s, lease, obj.(owners := obj.owners - 1))
    else SetThread(SetObj(s, lease, Gone), t, Run(ReleaseProgram(obj.kind, obj.bytes)))
  }

  function StartShrink(s: State, t: nat, lease: nat, bytes: nat): State
    requires t < |s.threads| && Ready(s, t, Shrink(lease, bytes))
  {
    var obj := s.objs[lease];
    var kept := AtLeastOne(bytes);
    SetThread(SetObj(s, lease, obj.(bytes := kept, lockedBy := Some(t))), t,
              Run(ShrinkProgram(lease, obj.kind, obj.bytes - kept)))
  }

  function StartGrow(s: State, t: nat, lease: nat, bytes: nat): State
    requires t < |s.threads| && Ready(s, t, Grow(lease, bytes))
  {
    var obj := s.objs[lease];
    SetThread(SetObj(s, lease, obj.(lockedBy := Some(t))), t,
              Run(GrowProgram(lease, AtLeastOne(bytes), AtLeastOne(bytes) - obj.bytes)))
  }

  function Next(s: State, t: nat, step: Step): State
    requires t < |s.threads| && Ready(s, t, step)
  {
    match step
    case Call(request) => SetThread(s, t, Begin(Normalized(request)))
    case Register => SetThread(s, t, Registered(s.threads[t].request, s.notifications))
    case Poll => PollRequest(s, t)
    case Exchange(spurious) => TryExchange(s, t, spurious)
    case Wake => SetThread(s, t, Begin(s.threads[t].request))
    case GiveUp => SetThread(s, t, Idle)
    case Perform => PerformHead(s, t)
    case ReserveTransform(bytes) => SetThread(s, t, Run(TransformProgram(AtLeastOne(bytes))))
    case Clone(lease) => SetObj(s, lease, s.objs[lease].(owners := s.objs[lease].owners + 1))
    case Release(lease) => ReleaseOwner(s, t, lease)
    case Shrink(lease, bytes) => StartShrink(s, t, lease, bytes)
    case Grow(lease, bytes) => StartGrow(s, t, lease, bytes)
    case Companion(_, bytes) => SetThread(s, t, Run(CompanionProgram(AtLeastOne(bytes))))
    case Finish(reservation, bytes) =>
      SetThread(SetObj(s, reservation, Gone), t, Run(FinishProgram(s.objs[reservation].bytes, AtLeastOne(bytes))))
    case Abandon(reservation) =>
      SetThread(SetObj(s, reservation, Gone), t, Run(AbandonProgram(s.objs[reservation].bytes)))
  }

  // ---------------------------------------------------------------------------------------
  // What is still owed
  // ---------------------------------------------------------------------------------------

  function ObjUsed(o: Obj): int { if o.Gone? then 0 else o.bytes }
  function ObjSource(o: Obj): int { if o.Lease? && !o.kind.Transform? then o.bytes else 0 }
  function ObjTransform(o: Obj): int { if o.Lease? && o.kind.Transform? then o.bytes else 0 }
  function ObjProgress(o: Obj): int { if o.Lease? && o.kind.ProgressSource? then 1 else 0 }
  function ObjActive(o: Obj): int { if o.Active? then 1 else 0 }
  function ObjActiveBytes(o: Obj): int { if o.Active? then o.bytes else 0 }

  function MicroUsed(m: Micro): int {
    match m
    case AddUsed(n) => -(n as int)
    case SubUsed(n) => n
    case Grant(obj) => ObjUsed(obj)
    case StoreBytes(_, _, added) => added
    case _ => 0
  }

  /** The part of `used` that the rest of a call still answers for. */
  function Used(todo: Todo): int {
    if todo.Done? then 0 else MicroUsed(todo.head) + Used(todo.rest)
  }

  function MicroSource(m: Micro): int {
    match m
    case AddSource(n) => -(n as int)
    case SubSource(n) => n
    case Grant(obj) => ObjSource(obj)
    case StoreBytes(_, _, added) => added
    case _ => 0
  }

  /** Likewise for `source_used`. */
  function SourceUsed(todo: Todo): int {
    if todo.Done? then 0 else MicroSource(todo.head) + SourceUsed(todo.rest)
  }

  function MicroTransform(m: Micro): int {
    match m
    case AddTransform(n) => -(n as int)
    case SubTransform(n) => n
    case Grant(obj) => ObjTransform(obj)
    case _ => 0
  }

  /** Likewise for `transform_used`. */
  function TransformUsed(todo: Todo): int {
    if todo.Done? then 0 else MicroTransform(todo.head) + TransformUsed(todo.rest)
  }

  function MicroProgress(m: Micro): int {
    match m
    case ClearProgress => 1
    case Grant(obj) => ObjProgress(obj)
    case _ => 0
  }

  /** Whether the call holds the progress-source slot. */
  function ProgressSlots(todo: Todo): int {
    if todo.Done? then 0 else MicroProgress(todo.head) + ProgressSlots(todo.rest)
  }

  function MicroActive(m: Micro): int {
    match m
    case ClearActive(_) => 1
    case Grant(obj) => ObjActive(obj)
    case _ => 0
  }

  /** Whether the call holds the active-transform slot, and for how many bytes. */
  function ActiveSlots(todo: Todo): int {
    if todo.Done? then 0 else MicroActive(todo.head) + ActiveSlots(todo.rest)
  }

  function MicroActiveBytes(m: Micro): int {
    match m
    case ClearActive(n) => n
    case Grant(obj) => ObjActiveBytes(obj)
    case _ => 0
  }

  /** The bytes behind the active-transform slot. */
  function ActiveBytes(todo: Todo): int {
    if todo.Done? then 0 else MicroActiveBytes(todo.head) + ActiveBytes(todo.rest)
  }

  /** The most that a call will ever hold in any one counter. */
  function Peak(todo: Todo): int {
    if todo.Done? then 0
    else Max(Max(Used(todo), SourceUsed(todo)), Max(TransformUsed(todo), Peak(todo.rest)))
  }

  function PcUsed(pc: Pc): int { if pc.Run? then Used(pc.todo) else 0 }
  function PcSource(pc: Pc): int { if pc.Run? then SourceUsed(pc.todo) else 0 }
  function PcTransform(pc: Pc): int { if pc.Run? then TransformUsed(pc.todo) else 0 }
  function PcProgress(pc: Pc): int { if pc.Run? then ProgressSlots(pc.todo) else 0 }
  function PcActive(pc: Pc): int { if pc.Run? then ActiveSlots(pc.todo) else 0 }
  function PcActiveBytes(pc: Pc): int { if pc.Run? then ActiveBytes(pc.todo) else 0 }

  function RequestBytes(request: Request): int { if request.WaitBelow? then 0 else request.bytes }

  /** The bytes a thread may yet add to the budget. */
  function PcDemand(pc: Pc): int {
    match pc
    case Begin(request) => RequestBytes(request)
    case Registered(request, _) => RequestBytes(request)
    case Parked(request, _) => RequestBytes(request)
    case Fitting(bytes, _) => bytes
    case Below(bytes, _) => bytes
    case Run(todo) => Peak(todo)
    case _ => 0
  }

  ghost function Demand(s: State): int {
    Sum(s.threads, PcDemand) + Sum(s.objs, ObjUsed)
  }

  /** The steps by which new bytes are asked for. */
  predicate Asks(step: Step) {
    step.Call? || step.ReserveTransform? || step.Grow? || step.Companion? || step.Finish?
  }

  /** A step of a run. New bytes are asked for only while all outstanding requests and
      reservations together fit the word size: a process cannot hold more bytes than that. */
  ghost predicate IsStep(s: State, t: nat, step: Step, s': State) {
    t < |s.threads| && Ready(s, t, step) && s' == Next(s, t, step) && (Asks(step) ==> Demand(s') <= U64_MAX)
  }

  ghost predicate IsRun(trace: seq<State>, steps: seq<(nat, Step)>) {
    && |trace| == |steps| + 1
    && Init(trace[0])
    && forall i | 0 <= i < |steps| :: IsStep(trace[i], steps[i].0, steps[i].1, trace[i + 1])
  }
}
