/**
  Accounting of the memory budget at every atomic step of every concurrent run.
 */
module MemorySafety {
  import opened Common
  import opened Memory

  // ---------------------------------------------------------------------------------------
  // Calls in flight
  // ---------------------------------------------------------------------------------------

  /** Operations that can make room for a waiter. */
  predicate Releases(m: Micro) {
    m.SubUsed? || m.SubSource? || m.SubTransform? || m.ClearActive? || m.ClearProgress?
  }

  predicate Notifies(todo: Todo) {
    todo.Do? && (todo.head.NotifyWaiters? || Notifies(todo.rest))
  }

  predicate GoodObj(obj: Obj) {
    !obj.Gone? && obj.bytes >= 1 && (obj.Lease? ==> obj.owners >= 1)
  }

  /** A well-behaved rest of a call: it owes nothing negative at any point, every release is
      followed by a notification, and a grant or an unlock ends the call. */
  ghost predicate Sound(todo: Todo) {
    todo.Done? || (
      && Used(todo) >= 0 && SourceUsed(todo) >= 0 && TransformUsed(todo) >= 0
      && (Releases(todo.head) ==> Notifies(todo.rest))
      && (todo.head.Grant? ==> GoodObj(todo.head.obj) && (todo.head.obj.Lease? ==> todo.head.obj.lockedBy.None?))
      && (todo.head.Grant? || todo.head.Unlock? ==> todo.rest == Done)
      && (todo.head.StoreBytes? ==> todo.rest == Do(Unlock(todo.head.lease), Done))
      && Sound(todo.rest))
  }

  /** The leases a call has locked are still there and locked by it. */
  ghost predicate Holds(objs: seq<Obj>, t: nat, todo: Todo) {
    todo.Done? || (
      && Holds(objs, t, todo.rest)
      && (todo.head.Unlock? || todo.head.StoreBytes? ==>
            var l := todo.head.lease;
            l < |objs| && objs[l].Lease? && objs[l].lockedBy == Some(t))
      && (todo.head.StoreBytes? ==>
            var obj := objs[todo.head.lease];
            obj.kind.ProgressSource? && obj.bytes + todo.head.added == todo.head.bytes))
  }

  /** What a call in flight answers for: used, source, transform, progress, active, active bytes,
      peak, and how many of its operations touch a locked lease. */
  datatype Account = Account(used: int, source: int, transform: int, progress: int, active: int, activeBytes: int,
                             peak: int, locks: nat)

  function Locks(todo: Todo): nat {
    if todo.Done? then 0
    else (if todo.head.Unlock? || todo.head.StoreBytes? then 1 else 0) + Locks(todo.rest)
  }

  function AccountOf(todo: Todo): Account {
    Account(Used(todo), SourceUsed(todo), TransformUsed(todo), ProgressSlots(todo), ActiveSlots(todo), ActiveBytes(todo),
            Peak(todo), Locks(todo))
  }

  lemma NotifyLast()
    ensures var n := Do(NotifyWaiters, Done);
            Sound(n) && Notifies(n) && AccountOf(n) == Account(0, 0, 0, 0, 0, 0, 0, 0)
  {
  }

  lemma GrantLast(obj: Obj)
    requires GoodObj(obj) && (obj.Lease? ==> obj.lockedBy.None?)
    ensures var g := Do(Grant(obj), Done);
            Sound(g) && AccountOf(g) == Account(ObjUsed(obj), ObjSource(obj), ObjTransform(obj), ObjProgress(obj),
                                                ObjActive(obj), ObjActiveBytes(obj), obj.bytes, 0)
  {
    assert AccountOf(Done) == Account(0, 0, 0, 0, 0, 0, 0, 0);
  }

  lemma UnlockLast(lease: nat)
    ensures var u := Do(Unlock(lease), Done);
            Sound(u) && AccountOf(u) == Account(0, 0, 0, 0, 0, 0, 0, 1)
  {
    assert AccountOf(Done) == Account(0, 0, 0, 0, 0, 0, 0, 0);
    assert Used(Do(Unlock(lease), Done)) == 0;
  }

  /** A new source lease whose bytes are already in `used`. */
  lemma ReserveFacts(bytes: nat)
    requires bytes >= 1
    ensures Sound(ReserveProgram(bytes)) && AccountOf(ReserveProgram(bytes)) == Account(bytes, 0, 0, 0, 0, 0, bytes, 0)
  {
    GrantLast(NewLease(Source, bytes));
  }

  /** The calls that add fresh bytes start with nothing owed. */
  lemma ProgressFacts(bytes: nat)
    requires bytes >= 1
    ensures Sound(ProgressProgram(bytes)) && AccountOf(ProgressProgram(bytes)) == Account(0, 0, 0, 1, 0, 0, bytes, 0)
  {
    GrantLast(NewLease(ProgressSource, bytes));
    var p := Do(AddSource(bytes), Do(Grant(NewLease(ProgressSource, bytes)), Done));
    assert Sound(p) && AccountOf(p) == Account(bytes, 0, 0, 1, 0, 0, bytes, 0);
  }

  lemma CompanionFacts(bytes: nat)
    requires bytes >= 1
    ensures Sound(CompanionProgram(bytes)) && AccountOf(CompanionProgram(bytes)) == Account(0, 0, 0, 0, 0, 0, bytes, 0)
  {
    ReserveFacts(bytes);
  }

  lemma TransformFacts(bytes: nat)
    requires bytes >= 1
    ensures Sound(TransformProgram(bytes)) && AccountOf(TransformProgram(bytes)) == Account(0, 0, 0, 0, 0, 0, bytes, 0)
  {
    GrantLast(NewLease(Transform, bytes));
    var r := Do(AddTransform(bytes), Do(Grant(NewLease(Transform, bytes)), Done));
    assert Sound(r) && AccountOf(r) == Account(bytes, 0, 0, 0, 0, 0, bytes, 0);
  }

  lemma AdmitFacts(bytes: nat)
    requires bytes >= 1
    ensures Sound(AdmitProgram(bytes)) && AccountOf(AdmitProgram(bytes)) == Account(0, 0, 0, 0, 1, bytes, bytes, 0)
  {
    GrantLast(Active(bytes));
  }

  /** The end of finishing: free the slot, notify, hand out the lease. */
  lemma FinishEndFacts(estimate: nat, bytes: nat)
    requires estimate >= 1 && bytes >= 1
    ensures var c := Do(ClearActive(estimate), Do(NotifyWaiters, Do(Grant(NewLease(Transform, bytes)), Done)));
            Sound(c) && Notifies(c) && AccountOf(c) == Account(bytes, 0, bytes, 0, 1, estimate, bytes, 0)
  {
    GrantLast(NewLease(Transform, bytes));
    var n := Do(NotifyWaiters, Do(Grant(NewLease(Transform, bytes)), Done));
    assert Sound(n) && Notifies(n) && AccountOf(n) == Account(bytes, 0, bytes, 0, 0, 0, bytes, 0);
  }

  /** Finishing swaps the estimate for the exact output without a gap. */
  lemma FinishFacts(estimate: nat, bytes: nat)
    requires estimate >= 1 && bytes >= 1
    ensures Sound(FinishProgram(estimate, bytes))
    ensures AccountOf(FinishProgram(estimate, bytes)) == Account(estimate, 0, 0, 0, 1, estimate, Max(estimate, bytes), 0)
  {
    FinishEndFacts(estimate, bytes);
    var c := Do(ClearActive(estimate), Do(NotifyWaiters, Do(Grant(NewLease(Transform, bytes)), Done)));
    var a := Do(AddTransform(bytes), c);
    assert Sound(a) && Notifies(a) && AccountOf(a) == Account(bytes, 0, 0, 0, 1, estimate, bytes, 0);
  }

  /** `rest` is what is left of a call after some of its operations. */
  predicate IsRemainder(rest: Todo, todo: Todo) {
    rest == todo || (todo.Do? && IsRemainder(rest, todo.rest))
  }

  /** Until the lease is handed out, finishing answers in `used` for the smaller of estimate and output at
      least, and for exactly the output once `used` has been adjusted: there is no gap in which neither
      counts. */
  lemma FinishLeavesNoGap(estimate: nat, bytes: nat, rest: Todo)
    requires IsRemainder(rest, FinishProgram(estimate, bytes)) && rest.Do?
    ensures Used(rest) >= Min(estimate, bytes)
    ensures rest != FinishProgram(estimate, bytes) ==> Used(rest) == bytes
  {
    var grant := Do(Grant(NewLease(Transform, bytes)), Done);
    var notify := Do(NotifyWaiters, grant);
    var clear := Do(ClearActive(estimate), notify);
    var add := Do(AddTransform(bytes), clear);
    assert Used(grant) == bytes + Used(Done) && Used(notify) == Used(clear) == Used(add) == bytes;
    assert Used(FinishProgram(estimate, bytes)) == estimate;
    if rest != FinishProgram(estimate, bytes) && rest != add && rest != clear {
      assert IsRemainder(rest, add) && IsRemainder(rest, clear) && IsRemainder(rest, notify);
      assert rest != notify ==> IsRemainder(rest, grant);
      assert rest != notify && rest != grant ==> IsRemainder(rest, Done);
    }
  }

  lemma AbandonFacts(bytes: nat)
    requires bytes >= 1
    ensures Sound(AbandonProgram(bytes)) && AccountOf(AbandonProgram(bytes)) == Account(bytes, 0, 0, 0, 1, bytes, bytes, 0)
  {
    NotifyLast();
    var c := Do(ClearActive(bytes), Do(NotifyWaiters, Done));
    assert Sound(c) && Notifies(c) && AccountOf(c) == Account(0, 0, 0, 0, 1, bytes, 0, 0);
  }

  lemma GrowFacts(lease: nat, bytes: nat, added: nat)
    ensures Sound(GrowProgram(lease, bytes, added))
    ensures AccountOf(GrowProgram(lease, bytes, added)) == Account(0, 0, 0, 0, 0, 0, added, 2)
  {
    UnlockLast(lease);
    var u := Do(Unlock(lease), Done);
    var b := Do(StoreBytes(lease, bytes, added), u);
    assert Sound(b) && AccountOf(b) == Account(added, added, 0, 0, 0, 0, added, 2);
    var a := Do(AddSource(added), b);
    assert Sound(a) && AccountOf(a) == Account(added, 0, 0, 0, 0, 0, added, 2);
  }

  lemma ShrinkFacts(lease: nat, kind: Kind, released: nat)
    ensures Sound(ShrinkProgram(lease, kind, released))
    ensures AccountOf(ShrinkProgram(lease, kind, released)) ==
            Account(released, if kind.Transform? then 0 else released, if kind.Transform? then released else 0, 0, 0, 0, released, 1)
  {
    UnlockLast(lease);
    var u := Do(Unlock(lease), Done);
    var n := Do(NotifyWaiters, u);
    assert Sound(n) && Notifies(n) && AccountOf(n) == Account(0, 0, 0, 0, 0, 0, 0, 1);
    var g := Do(SubStage(kind, released), n);
    assert Sound(g) && Notifies(g);
    assert AccountOf(g) == Account(0, if kind.Transform? then 0 else released, if kind.Transform? then released else 0, 0, 0, 0, released, 1);
  }

  lemma ReleaseFacts(kind: Kind, bytes: nat)
    ensures Sound(ReleaseProgram(kind, bytes))
    ensures AccountOf(ReleaseProgram(kind, bytes)) ==
            Account(bytes, if kind.Transform? then 0 else bytes, if kind.Transform? then bytes else 0,
                    if kind.ProgressSource? then 1 else 0, 0, 0, bytes, 0)
  {
    NotifyLast();
    var last := Do(NotifyWaiters, Done);
    var c := Do(ClearProgress, last);
    assert Sound(c) && Notifies(c) && AccountOf(c) == Account(0, 0, 0, 1, 0, 0, 0, 0);
    var e := if kind.ProgressSource? then c else last;
    var g := Do(SubStage(kind, bytes), e);
    assert Sound(g) && Notifies(g);
    assert AccountOf(g) == Account(0, if kind.Transform? then 0 else bytes, if kind.Transform? then bytes else 0,
                                   if kind.ProgressSource? then 1 else 0, 0, 0, bytes, 0);
  }

  /** A call that locks nothing depends on no object. */
  lemma {:induction false} NoLocksHolds(objs: seq<Obj>, t: nat, todo: Todo)
    requires Locks(todo) == 0
    ensures Holds(objs, t, todo)
  {
    if todo.Do? {
      NoLocksHolds(objs, t, todo.rest);
    }
  }

  lemma {:induction false} SlotFacts(todo: Todo)
    requires Sound(todo)
    ensures ProgressSlots(todo) >= 0 && ActiveSlots(todo) >= 0
    ensures ActiveSlots(todo) == 0 ==> ActiveBytes(todo) == 0
    ensures Peak(todo) >= 0
  {
    if todo.Do? {
      SlotFacts(todo.rest);
    }
  }

  // ---------------------------------------------------------------------------------------
  // The invariant
  // ---------------------------------------------------------------------------------------

  ghost predicate PcOk(s: State, t: nat, pc: Pc) {
    match pc
    case Idle => true
    case Begin(request) => request.WaitBelow? || request.bytes >= 1
    case Registered(request, r) => (request.WaitBelow? || request.bytes >= 1) && r <= s.notifications
    case Parked(request, r) => (request.WaitBelow? || request.bytes >= 1) && r <= s.notifications
    case Fitting(bytes, seen) => bytes >= 1 && Fits(bytes, seen, s.limit)
    case Below(bytes, r) => bytes >= 1 && r <= s.notifications
    case Run(todo) => todo.Do? && Sound(todo) && Holds(s.objs, t, todo)
    case Overflowed => false
  }

  ghost predicate Shape(s: State) {
    && (forall t | 0 <= t < |s.threads| :: PcOk(s, t, s.threads[t]))
    && (forall o | 0 <= o < |s.objs| :: s.objs[o].Gone? || GoodObj(s.objs[o]))
    && 0 < s.limit <= U64_MAX
  }

  /** Every counter is the sum over live objects and calls in flight; the slots are exclusive. */
  ghost predicate Balance(s: State) {
    && s.used == Sum(s.threads, PcUsed) + Sum(s.objs, ObjUsed)
    && s.source == Sum(s.threads, PcSource) + Sum(s.objs, ObjSource)
    && s.transform == Sum(s.threads, PcTransform) + Sum(s.objs, ObjTransform)
    && s.progress == Sum(s.threads, PcProgress) + Sum(s.objs, ObjProgress) <= 1
    && s.active == Sum(s.threads, PcActiveBytes) + Sum(s.objs, ObjActiveBytes)
    && Sum(s.threads, PcActive) + Sum(s.objs, ObjActive) == (if s.active == 0 then 0 else 1)
    && Demand(s) <= U64_MAX
  }

  ghost predicate Inv(s: State) {
    Shape(s) && Balance(s)
  }

  lemma {:induction false} SumAllZero<T>(xs: seq<T>, f: T -> int)
    requires forall i | 0 <= i < |xs| :: f(xs[i]) == 0
    ensures Sum(xs, f) == 0
  {
    SumZero(xs, f);
  }

  lemma InitInv(s: State)
    requires Init(s)
    ensures Inv(s)
  {
    SumAllZero(s.threads, PcUsed);
    SumAllZero(s.threads, PcSource);
    SumAllZero(s.threads, PcTransform);
    SumAllZero(s.threads, PcProgress);
    SumAllZero(s.threads, PcActive);
    SumAllZero(s.threads, PcActiveBytes);
    SumAllZero(s.threads, PcDemand);
  }

  /** How the sums move when one thread moves. */
  lemma ThreadSums(threads: seq<Pc>, t: nat, pc: Pc)
    requires t < |threads|
    ensures Sum(threads[t := pc], PcUsed) == Sum(threads, PcUsed) - PcUsed(threads[t]) + PcUsed(pc)
    ensures Sum(threads[t := pc], PcSource) == Sum(threads, PcSource) - PcSource(threads[t]) + PcSource(pc)
    ensures Sum(threads[t := pc], PcTransform) == Sum(threads, PcTransform) - PcTransform(threads[t]) + PcTransform(pc)
    ensures Sum(threads[t := pc], PcProgress) == Sum(threads, PcProgress) - PcProgress(threads[t]) + PcProgress(pc)
    ensures Sum(threads[t := pc], PcActive) == Sum(threads, PcActive) - PcActive(threads[t]) + PcActive(pc)
    ensures Sum(threads[t := pc], PcActiveBytes) == Sum(threads, PcActiveBytes) - PcActiveBytes(threads[t]) + PcActiveBytes(pc)
    ensures Sum(threads[t := pc], PcDemand) == Sum(threads, PcDemand) - PcDemand(threads[t]) + PcDemand(pc)
  {
    SumUpdate(threads, t, pc, PcUsed);
    SumUpdate(threads, t, pc, PcSource);
    SumUpdate(threads, t, pc, PcTransform);
    SumUpdate(threads, t, pc, PcProgress);
    SumUpdate(threads, t, pc, PcActive);
    SumUpdate(threads, t, pc, PcActiveBytes);
    SumUpdate(threads, t, pc, PcDemand);
  }

  lemma ObjSums(objs: seq<Obj>, o: nat, obj: Obj)
    requires o < |objs|
    ensures Sum(objs[o := obj], ObjUsed) == Sum(objs, ObjUsed) - ObjUsed(objs[o]) + ObjUsed(obj)
    ensures Sum(objs[o := obj], ObjSource) == Sum(objs, ObjSource) - ObjSource(objs[o]) + ObjSource(obj)
    ensures Sum(objs[o := obj], ObjTransform) == Sum(objs, ObjTransform) - ObjTransform(objs[o]) + ObjTransform(obj)
    ensures Sum(objs[o := obj], ObjProgress) == Sum(objs, ObjProgress) - ObjProgress(objs[o]) + ObjProgress(obj)
    ensures Sum(objs[o := obj], ObjActive) == Sum(objs, ObjActive) - ObjActive(objs[o]) + ObjActive(obj)
    ensures Sum(objs[o := obj], ObjActiveBytes) == Sum(objs, ObjActiveBytes) - ObjActiveBytes(objs[o]) + ObjActiveBytes(obj)
  {
    SumUpdate(objs, o, obj, ObjUsed);
    SumUpdate(objs, o, obj, ObjSource);
    SumUpdate(objs, o, obj, ObjTransform);
    SumUpdate(objs, o, obj, ObjProgress);
    SumUpdate(objs, o, obj, ObjActive);
    SumUpdate(objs, o, obj, ObjActiveBytes);
  }

  lemma ObjAppendSums(objs: seq<Obj>, obj: Obj)
    ensures Sum(objs + [obj], ObjUsed) == Sum(objs, ObjUsed) + ObjUsed(obj)
    ensures Sum(objs + [obj], ObjSource) == Sum(objs, ObjSource) + ObjSource(obj)
    ensures Sum(objs + [obj], ObjTransform) == Sum(objs, ObjTransform) + ObjTransform(obj)
    ensures Sum(objs + [obj], ObjProgress) == Sum(objs, ObjProgress) + ObjProgress(obj)
    ensures Sum(objs + [obj], ObjActive) == Sum(objs, ObjActive) + ObjActive(obj)
    ensures Sum(objs + [obj], ObjActiveBytes) == Sum(objs, ObjActiveBytes) + ObjActiveBytes(obj)
  {
    SumAppend(objs, obj, ObjUsed);
    SumAppend(objs, obj, ObjSource);
    SumAppend(objs, obj, ObjTransform);
    SumAppend(objs, obj, ObjProgress);
    SumAppend(objs, obj, ObjActive);
    SumAppend(objs, obj, ObjActiveBytes);
  }

  // ---------------------------------------------------------------------------------------
  // Shape is kept
  // ---------------------------------------------------------------------------------------

  /** The leases locked by `t` look the same in both object lists. */
  ghost predicate SameLocked(objs: seq<Obj>, objs': seq<Obj>, t: nat) {
    && |objs| <= |objs'|
    && forall l | 0 <= l < |objs| && objs[l].Lease? && objs[l].lockedBy == Some(t) ::
         objs'[l].Lease? && objs'[l].lockedBy == Some(t) && objs'[l].bytes == objs[l].bytes && objs'[l].kind == objs[l].kind
  }

  lemma {:induction false} HoldsFrame(objs: seq<Obj>, objs': seq<Obj>, t: nat, todo: Todo)
    requires Holds(objs, t, todo) && SameLocked(objs, objs', t)
    ensures Holds(objs', t, todo)
  {
    if todo.Do? {
      HoldsFrame(objs, objs', t, todo.rest);
    }
  }

  /** One thread moves, some objects change: the shape is kept if the other threads' locks are. */
  lemma ShapeFrame(s: State, s': State, t: nat)
    requires Shape(s) && t < |s.threads| && s'.limit == s.limit
    requires |s'.threads| == |s.threads| && s'.threads == s.threads[t := s'.threads[t]]
    requires s.notifications <= s'.notifications
    requires PcOk(s', t, s'.threads[t])
    requires forall u | 0 <= u < |s.threads| && u != t :: SameLocked(s.objs, s'.objs, u)
    requires forall o | 0 <= o < |s'.objs| :: s'.objs[o].Gone? || GoodObj(s'.objs[o])
    ensures Shape(s')
  {
    forall u | 0 <= u < |s'.threads| ensures PcOk(s', u, s'.threads[u]) {
      if u != t && s.threads[u].Run? {
        assert PcOk(s, u, s.threads[u]);
        HoldsFrame(s.objs, s'.objs, u, s.threads[u].todo);
      }
    }
  }

  // ---------------------------------------------------------------------------------------
  // One atomic operation
  // ---------------------------------------------------------------------------------------

  ghost predicate PcSound(pc: Pc) {
    && (pc.Run? ==> Sound(pc.todo))
    && PcDemand(pc) >= 0
  }

  lemma PcOkIsSound(s: State, t: nat)
    requires Shape(s) && t < |s.threads|
    ensures PcSound(s.threads[t])
    ensures PcUsed(s.threads[t]) >= 0 && PcSource(s.threads[t]) >= 0 && PcTransform(s.threads[t]) >= 0
    ensures PcProgress(s.threads[t]) >= 0 && PcActive(s.threads[t]) >= 0
    ensures PcActive(s.threads[t]) == 0 ==> PcActiveBytes(s.threads[t]) == 0
  {
    assert PcOk(s, t, s.threads[t]);
    if s.threads[t].Run? {
      SlotFacts(s.threads[t].todo);
    }
  }

  /** No counter exceeds the outstanding demand. */
  lemma WithinDemand(threads: seq<Pc>, objs: seq<Obj>)
    requires forall t | 0 <= t < |threads| :: PcSound(threads[t])
    ensures Sum(threads, PcUsed) <= Sum(threads, PcDemand)
    ensures Sum(threads, PcSource) <= Sum(threads, PcDemand)
    ensures Sum(threads, PcTransform) <= Sum(threads, PcDemand)
    ensures Sum(objs, ObjSource) <= Sum(objs, ObjUsed)
    ensures Sum(objs, ObjTransform) <= Sum(objs, ObjUsed)
  {
    SumMonotone(threads, PcUsed, PcDemand);
    SumMonotone(threads, PcSource, PcDemand);
    SumMonotone(threads, PcTransform, PcDemand);
    SumMonotone(objs, ObjSource, ObjUsed);
    SumMonotone(objs, ObjTransform, ObjUsed);
  }

  /** Each counter covers the share of every single thread. */
  lemma CountersCoverThread(s: State, t: nat)
    requires Inv(s) && t < |s.threads|
    ensures PcUsed(s.threads[t]) <= s.used
    ensures PcSource(s.threads[t]) <= s.source
    ensures PcTransform(s.threads[t]) <= s.transform
    ensures PcProgress(s.threads[t]) <= s.progress
    ensures PcActive(s.threads[t]) <= (if s.active == 0 then 0 else 1)
  {
    forall u | 0 <= u < |s.threads|
      ensures PcUsed(s.threads[u]) >= 0 && PcSource(s.threads[u]) >= 0 && PcTransform(s.threads[u]) >= 0
      ensures PcProgress(s.threads[u]) >= 0 && PcActive(s.threads[u]) >= 0
    {
      PcOkIsSound(s, u);
    }
    SumAtLeast(s.threads, t, PcUsed);
    SumAtLeast(s.threads, t, PcSource);
    SumAtLeast(s.threads, t, PcTransform);
    SumAtLeast(s.threads, t, PcProgress);
    SumAtLeast(s.threads, t, PcActive);
    SumNonNegative(s.objs, ObjUsed);
    SumNonNegative(s.objs, ObjSource);
    SumNonNegative(s.objs, ObjTransform);
    SumNonNegative(s.objs, ObjProgress);
    SumNonNegative(s.objs, ObjActive);
  }

  /** Moving on never raises a thread's demand. */
  lemma ContinueDemand(todo: Todo)
    requires todo.Do? && Sound(todo)
    ensures PcSound(Continue(todo.rest)) && PcDemand(Continue(todo.rest)) <= Peak(todo)
    ensures PcUsed(Continue(todo.rest)) == Used(todo) - MicroUsed(todo.head)
    ensures PcSource(Continue(todo.rest)) == SourceUsed(todo) - MicroSource(todo.head)
    ensures PcTransform(Continue(todo.rest)) == TransformUsed(todo) - MicroTransform(todo.head)
    ensures PcProgress(Continue(todo.rest)) == ProgressSlots(todo) - MicroProgress(todo.head)
    ensures PcActive(Continue(todo.rest)) == ActiveSlots(todo) - MicroActive(todo.head)
    ensures PcActiveBytes(Continue(todo.rest)) == ActiveBytes(todo) - MicroActiveBytes(todo.head)
  {
    SlotFacts(todo.rest);
  }

  /** The counters stay within the word size after thread `t` moves on. */
  lemma MovedWithinDemand(s: State, t: nat)
    requires Inv(s) && t < |s.threads| && s.threads[t].Run?
    ensures var todo := s.threads[t].todo;
            && s.used - MicroUsed(todo.head) <= U64_MAX
            && s.source - MicroSource(todo.head) <= U64_MAX
            && s.transform - MicroTransform(todo.head) <= U64_MAX
  {
    var todo := s.threads[t].todo;
    assert PcOk(s, t, s.threads[t]);
    ContinueDemand(todo);
    var threads := s.threads[t := Continue(todo.rest)];
    forall u | 0 <= u < |threads| ensures PcSound(threads[u]) {
      PcOkIsSound(s, u);
    }
    ThreadSums(s.threads, t, Continue(todo.rest));
    WithinDemand(threads, s.objs);
  }

  /** No addition wraps, no subtraction underflows, and no write goes to a vanished lease. */
  lemma NoOverflow(s: State, t: nat)
    requires Inv(s) && t < |s.threads| && s.threads[t].Run?
    ensures s.threads[t].todo.Do? && CanPerform(s, s.threads[t].todo.head)
    ensures Effect(s, s.threads[t].todo.head).Some?
  {
    assert PcOk(s, t, s.threads[t]);
    MovedWithinDemand(s, t);
    CountersCoverThread(s, t);
    PcOkIsSound(s, t);
    ContinueDemand(s.threads[t].todo);
  }

  predicate MovesCounter(m: Micro) {
    m.AddUsed? || m.SubUsed? || m.AddSource? || m.SubSource? || m.AddTransform? || m.SubTransform? || m.NotifyWaiters?
  }

  /** The threads after `t` has performed its next operation. */
  ghost function MovedOn(s: State, t: nat): seq<Pc>
    requires t < |s.threads| && s.threads[t].Run? && s.threads[t].todo.Do?
  {
    s.threads[t := Continue(s.threads[t].todo.rest)]
  }

  /** How the sums move when thread `t` performs its next operation. */
  lemma MovedSums(s: State, t: nat)
    requires Shape(s) && t < |s.threads| && s.threads[t].Run? && s.threads[t].todo.Do?
    ensures var head := s.threads[t].todo.head;
            && Sum(MovedOn(s, t), PcUsed) == Sum(s.threads, PcUsed) - MicroUsed(head)
            && Sum(MovedOn(s, t), PcSource) == Sum(s.threads, PcSource) - MicroSource(head)
            && Sum(MovedOn(s, t), PcTransform) == Sum(s.threads, PcTransform) - MicroTransform(head)
            && Sum(MovedOn(s, t), PcProgress) == Sum(s.threads, PcProgress) - MicroProgress(head)
            && Sum(MovedOn(s, t), PcActive) == Sum(s.threads, PcActive) - MicroActive(head)
            && Sum(MovedOn(s, t), PcActiveBytes) == Sum(s.threads, PcActiveBytes) - MicroActiveBytes(head)
            && Sum(MovedOn(s, t), PcDemand) <= Sum(s.threads, PcDemand)
  {
    assert PcOk(s, t, s.threads[t]);
    ContinueDemand(s.threads[t].todo);
    ThreadSums(s.threads, t, Continue(s.threads[t].todo.rest));
  }

  /** Slots are never held a negative number of times. */
  lemma MovedSlots(s: State, t: nat)
    requires Shape(s) && t < |s.threads| && s.threads[t].Run? && s.threads[t].todo.Do?
    ensures forall u | 0 <= u < |s.threads| ::
              var pc := MovedOn(s, t)[u];
              PcProgress(pc) >= 0 && PcActive(pc) >= 0 && (PcActive(pc) == 0 ==> PcActiveBytes(pc) == 0)
  {
    assert PcOk(s, t, s.threads[t]);
    SlotFacts(s.threads[t].todo.rest);
    forall u | 0 <= u < |s.threads| && u != t
      ensures var pc := MovedOn(s, t)[u];
              PcProgress(pc) >= 0 && PcActive(pc) >= 0 && (PcActive(pc) == 0 ==> PcActiveBytes(pc) == 0)
    {
      PcOkIsSound(s, u);
    }
  }

  lemma CounterKeepsBalance(s: State, t: nat)
    requires Inv(s) && t < |s.threads| && s.threads[t].Run? && MovesCounter(s.threads[t].todo.head)
    requires Ready(s, t, Perform)
    ensures Balance(PerformHead(s, t))
  {
    NoOverflow(s, t);
    MovedSums(s, t);
  }

  lemma GrantKeepsBalance(s: State, t: nat)
    requires Inv(s) && t < |s.threads| && s.threads[t].Run? && s.threads[t].todo.head.Grant?
    requires Ready(s, t, Perform)
    ensures Balance(PerformHead(s, t))
  {
    var todo := s.threads[t].todo;
    assert PcOk(s, t, s.threads[t]);
    GrantLast(todo.head.obj);
    ThreadSums(s.threads, t, Idle);
    ObjAppendSums(s.objs, todo.head.obj);
  }

  lemma StoreKeepsBalance(s: State, t: nat)
    requires Inv(s) && t < |s.threads| && s.threads[t].Run? && s.threads[t].todo.head.StoreBytes?
    requires Ready(s, t, Perform)
    ensures Balance(PerformHead(s, t))
  {
    var todo := s.threads[t].todo;
    assert PcOk(s, t, s.threads[t]);
    var StoreBytes(lease, bytes, added) := todo.head;
    UnlockLast(lease);
    assert AccountOf(todo) == Account(added, added, 0, 0, 0, 0, added, 2);
    ThreadSums(s.threads, t, Run(Do(Unlock(lease), Done)));
    ObjSums(s.objs, lease, s.objs[lease].(bytes := bytes));
  }

  lemma UnlockKeepsBalance(s: State, t: nat)
    requires Inv(s) && t < |s.threads| && s.threads[t].Run? && s.threads[t].todo.head.Unlock?
    requires Ready(s, t, Perform)
    ensures Balance(PerformHead(s, t))
  {
    assert PcOk(s, t, s.threads[t]);
    var lease := s.threads[t].todo.head.lease;
    UnlockLast(lease);
    assert s.threads[t].todo.rest.Done?;
    assert PerformHead(s, t).threads == s.threads[t := Idle];
    ThreadSums(s.threads, t, Idle);
    ObjSums(s.objs, lease, s.objs[lease].(lockedBy := None));
  }

  /** With no holder of the active slot, no active bytes are left. */
  lemma NoActiveBytes(s: State, threads: seq<Pc>)
    requires forall u | 0 <= u < |threads| :: PcActive(threads[u]) >= 0 && (PcActive(threads[u]) == 0 ==> PcActiveBytes(threads[u]) == 0)
    requires Sum(threads, PcActive) + Sum(s.objs, ObjActive) == 0
    ensures Sum(threads, PcActiveBytes) + Sum(s.objs, ObjActiveBytes) == 0
  {
    SumNonNegative(threads, PcActive);
    SumNonNegative(s.objs, ObjActive);
    SumZero(threads, PcActive);
    SumZero(s.objs, ObjActive);
    SumAllZero(threads, PcActiveBytes);
    SumAllZero(s.objs, ObjActiveBytes);
  }

  lemma ClearProgressKeepsBalance(s: State, t: nat)
    requires Inv(s) && t < |s.threads| && Ready(s, t, Perform) && s.threads[t].todo.head.ClearProgress?
    ensures Balance(PerformHead(s, t))
  {
    MovedSums(s, t);
    MovedSlots(s, t);
    SumNonNegative(MovedOn(s, t), PcProgress);
    SumNonNegative(s.objs, ObjProgress);
  }

  lemma ClearActiveKeepsBalance(s: State, t: nat)
    requires Inv(s) && t < |s.threads| && Ready(s, t, Perform) && s.threads[t].todo.head.ClearActive?
    ensures Balance(PerformHead(s, t))
  {
    MovedSums(s, t);
    MovedSlots(s, t);
    SumNonNegative(MovedOn(s, t), PcActive);
    SumNonNegative(s.objs, ObjActive);
    NoActiveBytes(s, MovedOn(s, t));
  }

  lemma PerformKeepsBalance(s: State, t: nat)
    requires Inv(s) && t < |s.threads| && Ready(s, t, Perform)
    ensures Balance(PerformHead(s, t))
  {
    var head := s.threads[t].todo.head;
    if MovesCounter(head) { CounterKeepsBalance(s, t); }
    else if head.Grant? { GrantKeepsBalance(s, t); }
    else if head.StoreBytes? { StoreKeepsBalance(s, t); }
    else if head.Unlock? { UnlockKeepsBalance(s, t); }
    else if head.ClearActive? { ClearActiveKeepsBalance(s, t); }
    else { ClearProgressKeepsBalance(s, t); }
  }

  lemma WriteKeepsShape(s: State, t: nat)
    requires Inv(s) && t < |s.threads| && Ready(s, t, Perform)
    requires s.threads[t].todo.head.StoreBytes? || s.threads[t].todo.head.Unlock?
    ensures Shape(PerformHead(s, t))
  {
    var s' := PerformHead(s, t);
    var todo := s.threads[t].todo;
    assert PcOk(s, t, s.threads[t]);
    UnlockLast(todo.head.lease);
    assert PcOk(s', t, s'.threads[t]);
    ShapeFrame(s, s', t);
  }

  lemma PerformKeepsShape(s: State, t: nat)
    requires Inv(s) && t < |s.threads| && Ready(s, t, Perform)
    ensures Shape(PerformHead(s, t))
  {
    var s' := PerformHead(s, t);
    var todo := s.threads[t].todo;
    if todo.head.StoreBytes? || todo.head.Unlock? {
      WriteKeepsShape(s, t);
    } else {
      assert PcOk(s, t, s.threads[t]);
      NoOverflow(s, t);
      HoldsFrame(s.objs, s'.objs, t, todo.rest);
      ShapeFrame(s, s', t);
    }
  }

  // ---------------------------------------------------------------------------------------
  // The other steps
  // ---------------------------------------------------------------------------------------

  /** A thread without a call in flight moves between waiting states. */
  lemma QuietKeepsInv(s: State, t: nat, pc: Pc)
    requires Inv(s) && t < |s.threads| && !s.threads[t].Run? && !pc.Run?
    requires PcOk(s, t, pc) && (PcDemand(pc) <= PcDemand(s.threads[t]) || Demand(SetThread(s, t, pc)) <= U64_MAX)
    ensures Inv(SetThread(s, t, pc))
  {
    ThreadSums(s.threads, t, pc);
    ShapeFrame(s, SetThread(s, t, pc), t);
  }

  /** The progress slot is claimed. */
  lemma ClaimProgressKeepsInv(s: State, t: nat, bytes: nat)
    requires Inv(s) && t < |s.threads| && !s.threads[t].Run? && s.progress == 0
    requires bytes >= 1 && PcDemand(s.threads[t]) == bytes
    ensures Inv(SetThread(s.(progress := 1), t, Run(ProgressProgram(bytes))))
  {
    ProgressFacts(bytes);
    NoLocksHolds(s.objs, t, ProgressProgram(bytes));
    ThreadSums(s.threads, t, Run(ProgressProgram(bytes)));
    ShapeFrame(s, SetThread(s.(progress := 1), t, Run(ProgressProgram(bytes))), t);
  }

  lemma PollKeepsInv(s: State, t: nat)
    requires Inv(s) && t < |s.threads| && Ready(s, t, Poll)
    ensures Inv(PollRequest(s, t))
  {
    assert PcOk(s, t, s.threads[t]);
    var request := s.threads[t].request;
    if request.ReserveProgress? && s.progress == 0 {
      ClaimProgressKeepsInv(s, t, request.bytes);
    } else {
      QuietKeepsInv(s, t, PollRequest(s, t).threads[t]);
    }
  }

  /** `reserve` wins its exchange on `used`. */
  lemma WinUsedKeepsInv(s: State, t: nat)
    requires Inv(s) && t < |s.threads| && s.threads[t].Fitting? && s.threads[t].seen == s.used
    ensures Inv(SetThread(s.(used := SaturatingAdd(s.used, s.threads[t].bytes)), t, Run(ReserveProgram(s.threads[t].bytes))))
  {
    assert PcOk(s, t, s.threads[t]);
    var bytes := s.threads[t].bytes;
    ReserveFacts(bytes);
    NoLocksHolds(s.objs, t, ReserveProgram(bytes));
    ThreadSums(s.threads, t, Run(ReserveProgram(bytes)));
    NoSaturation(s, t);
    ShapeFrame(s, SetThread(s.(used := s.used + bytes), t, Run(ReserveProgram(bytes))), t);
  }

  /** `admit_active_transform` wins the active slot. */
  lemma WinActiveKeepsInv(s: State, t: nat)
    requires Inv(s) && t < |s.threads| && s.threads[t].Below? && s.active == 0
    ensures Inv(SetThread(s.(active := s.threads[t].bytes), t, Run(AdmitProgram(s.threads[t].bytes))))
  {
    assert PcOk(s, t, s.threads[t]);
    var bytes := s.threads[t].bytes;
    AdmitFacts(bytes);
    NoLocksHolds(s.objs, t, AdmitProgram(bytes));
    ThreadSums(s.threads, t, Run(AdmitProgram(bytes)));
    ShapeFrame(s, SetThread(s.(active := bytes), t, Run(AdmitProgram(bytes))), t);
  }

  lemma ExchangeKeepsInv(s: State, t: nat, spurious: bool)
    requires Inv(s) && t < |s.threads| && Ready(s, t, Exchange(spurious))
    ensures Inv(TryExchange(s, t, spurious))
  {
    assert PcOk(s, t, s.threads[t]);
    if s.threads[t].Fitting? && s.threads[t].seen == s.used && !spurious {
      WinUsedKeepsInv(s, t);
    } else if s.threads[t].Below? && s.active == 0 {
      WinActiveKeepsInv(s, t);
    } else {
      QuietKeepsInv(s, t, TryExchange(s, t, spurious).threads[t]);
    }
  }

  /** The saturating addition of `reserve` is an ordinary one. */
  lemma NoSaturation(s: State, t: nat)
    requires Inv(s) && t < |s.threads| && s.threads[t].Fitting?
    ensures SaturatingAdd(s.threads[t].seen, s.threads[t].bytes) == s.threads[t].seen + s.threads[t].bytes
  {
    assert PcOk(s, t, s.threads[t]);
    forall u | 0 <= u < |s.threads| ensures PcDemand(s.threads[u]) >= 0 {
      PcOkIsSound(s, u);
    }
    SumAtLeast(s.threads, t, PcDemand);
    SumNonNegative(s.objs, ObjUsed);
  }

  /** A call that adds fresh bytes starts. */
  lemma AddingKeepsInv(s: State, t: nat, todo: Todo, bytes: nat)
    requires Inv(s) && t < |s.threads| && s.threads[t].Idle?
    requires todo.Do? && Sound(todo)
    requires AccountOf(todo) == Account(0, 0, 0, 0, 0, 0, bytes, 0)
    requires Demand(SetThread(s, t, Run(todo))) <= U64_MAX
    ensures Inv(SetThread(s, t, Run(todo)))
  {
    NoLocksHolds(s.objs, t, todo);
    ThreadSums(s.threads, t, Run(todo));
    ShapeFrame(s, SetThread(s, t, Run(todo)), t);
  }

  /** An object changes in a way the counters do not see. */
  lemma OwnersKeepInv(s: State, lease: nat, owners: nat)
    requires Inv(s) && IsLease(s, lease) && owners >= 1
    ensures Inv(SetObj(s, lease, s.objs[lease].(owners := owners)))
  {
    var s' := SetObj(s, lease, s.objs[lease].(owners := owners));
    ObjSums(s.objs, lease, s'.objs[lease]);
    forall u | 0 <= u < |s.threads| && s.threads[u].Run? ensures Holds(s'.objs, u, s.threads[u].todo) {
      assert PcOk(s, u, s.threads[u]);
      HoldsFrame(s.objs, s'.objs, u, s.threads[u].todo);
    }
    assert forall u | 0 <= u < |s.threads| :: PcOk(s, u, s.threads[u]) ==> PcOk(s', u, s.threads[u]);
  }

  /** An object is handed over to a call that answers for the same amounts. */
  lemma HandOverKeepsInv(s: State, t: nat, o: nat, obj: Obj, todo: Todo)
    requires Inv(s) && t < |s.threads| && s.threads[t].Idle? && o < |s.objs|
    requires (obj.Gone? || GoodObj(obj)) && (s.objs[o].Lease? ==> s.objs[o].lockedBy.None?)
    requires todo.Do? && Sound(todo) && Holds(s.objs[o := obj], t, todo)
    requires AccountOf(todo) == Account(ObjUsed(s.objs[o]) - ObjUsed(obj), ObjSource(s.objs[o]) - ObjSource(obj),
                                        ObjTransform(s.objs[o]) - ObjTransform(obj), ObjProgress(s.objs[o]) - ObjProgress(obj),
                                        ObjActive(s.objs[o]) - ObjActive(obj), ObjActiveBytes(s.objs[o]) - ObjActiveBytes(obj),
                                        Peak(todo), Locks(todo))
    requires Demand(SetThread(SetObj(s, o, obj), t, Run(todo))) <= U64_MAX
    ensures Inv(SetThread(SetObj(s, o, obj), t, Run(todo)))
  {
    ThreadSums(s.threads, t, Run(todo));
    ObjSums(s.objs, o, obj);
    ShapeFrame(s, SetThread(SetObj(s, o, obj), t, Run(todo)), t);
  }

  /** Handing over never raises the demand when the call peaks at what the object held. */
  lemma HandOverDemand(s: State, t: nat, o: nat, obj: Obj, todo: Todo)
    requires Inv(s) && t < |s.threads| && s.threads[t].Idle? && o < |s.objs|
    requires Peak(todo) <= ObjUsed(s.objs[o]) - ObjUsed(obj)
    ensures Demand(SetThread(SetObj(s, o, obj), t, Run(todo))) <= U64_MAX
  {
    SumUpdate(s.threads, t, Run(todo), PcDemand);
    SumUpdate(s.objs, o, obj, ObjUsed);
  }

  lemma ReleaseKeepsInv(s: State, t: nat, lease: nat)
    requires Inv(s) && t < |s.threads| && Ready(s, t, Release(lease))
    ensures Inv(ReleaseOwner(s, t, lease))
  {
    var obj := s.objs[lease];
    if obj.owners > 1 {
      OwnersKeepInv(s, lease, obj.owners - 1);
    } else {
      var todo := ReleaseProgram(obj.kind, obj.bytes);
      ReleaseFacts(obj.kind, obj.bytes);
      NoLocksHolds(s.objs[lease := Gone], t, todo);
      HandOverDemand(s, t, lease, Gone, todo);
      HandOverKeepsInv(s, t, lease, Gone, todo);
    }
  }

  lemma ShrinkHolds(objs: seq<Obj>, t: nat, lease: nat, kind: Kind, released: nat)
    requires lease < |objs| && objs[lease].Lease? && objs[lease].lockedBy == Some(t)
    ensures Holds(objs, t, ShrinkProgram(lease, kind, released))
  {
    var n := Do(NotifyWaiters, Do(Unlock(lease), Done));
    assert Holds(objs, t, n);
    assert Holds(objs, t, Do(SubStage(kind, released), n));
  }

  lemma ShrinkKeepsInv(s: State, t: nat, lease: nat, bytes: nat)
    requires Inv(s) && t < |s.threads| && Ready(s, t, Shrink(lease, bytes))
    ensures Inv(StartShrink(s, t, lease, bytes))
  {
    var obj := s.objs[lease];
    var kept := AtLeastOne(bytes);
    var todo := ShrinkProgram(lease, obj.kind, obj.bytes - kept);
    var obj' := obj.(bytes := kept, lockedBy := Some(t));
    assert StartShrink(s, t, lease, bytes) == SetThread(SetObj(s, lease, obj'), t, Run(todo));
    ShrinkFacts(lease, obj.kind, obj.bytes - kept);
    ShrinkHolds(s.objs[lease := obj'], t, lease, obj.kind, obj.bytes - kept);
    HandOverDemand(s, t, lease, obj', todo);
    HandOverKeepsInv(s, t, lease, obj', todo);
  }

  lemma GrowKeepsInv(s: State, t: nat, lease: nat, bytes: nat)
    requires Inv(s) && t < |s.threads| && Ready(s, t, Grow(lease, bytes))
    requires Demand(StartGrow(s, t, lease, bytes)) <= U64_MAX
    ensures Inv(StartGrow(s, t, lease, bytes))
  {
    var obj := s.objs[lease];
    var kept := AtLeastOne(bytes);
    var todo := GrowProgram(lease, kept, kept - obj.bytes);
    var obj' := obj.(lockedBy := Some(t));
    assert StartGrow(s, t, lease, bytes) == SetThread(SetObj(s, lease, obj'), t, Run(todo));
    GrowFacts(lease, kept, kept - obj.bytes);
    assert Holds(s.objs[lease := obj'], t, Do(StoreBytes(lease, kept, kept - obj.bytes), Do(Unlock(lease), Done)));
    HandOverKeepsInv(s, t, lease, obj', todo);
  }

  lemma FinishKeepsInv(s: State, t: nat, reservation: nat, bytes: nat)
    requires Inv(s) && t < |s.threads| && s.threads[t].Idle? && IsActive(s, reservation) && bytes >= 1
    requires Demand(SetThread(SetObj(s, reservation, Gone), t, Run(FinishProgram(s.objs[reservation].bytes, bytes)))) <= U64_MAX
    ensures Inv(SetThread(SetObj(s, reservation, Gone), t, Run(FinishProgram(s.objs[reservation].bytes, bytes))))
  {
    var todo := FinishProgram(s.objs[reservation].bytes, bytes);
    FinishFacts(s.objs[reservation].bytes, bytes);
    NoLocksHolds(s.objs[reservation := Gone], t, todo);
    HandOverKeepsInv(s, t, reservation, Gone, todo);
  }

  lemma AbandonKeepsInv(s: State, t: nat, reservation: nat)
    requires Inv(s) && t < |s.threads| && s.threads[t].Idle? && IsActive(s, reservation)
    ensures Inv(SetThread(SetObj(s, reservation, Gone), t, Run(AbandonProgram(s.objs[reservation].bytes))))
  {
    var todo := AbandonProgram(s.objs[reservation].bytes);
    AbandonFacts(s.objs[reservation].bytes);
    NoLocksHolds(s.objs[reservation := Gone], t, todo);
    HandOverDemand(s, t, reservation, Gone, todo);
    HandOverKeepsInv(s, t, reservation, Gone, todo);
  }

  lemma WaitingStepKeepsInv(s: State, t: nat, step: Step, s': State)
    requires Inv(s) && IsStep(s, t, step, s')
    requires step.Call? || step.Register? || step.Poll? || step.Exchange? || step.Wake? || step.GiveUp?
    ensures Inv(s')
  {
    assert PcOk(s, t, s.threads[t]);
    if step.Poll? {
      PollKeepsInv(s, t);
    } else if step.Exchange? {
      ExchangeKeepsInv(s, t, step.spurious);
    } else {
      QuietKeepsInv(s, t, s'.threads[t]);
    }
  }

  lemma AddingStepKeepsInv(s: State, t: nat, step: Step, s': State)
    requires Inv(s) && IsStep(s, t, step, s') && (step.ReserveTransform? || step.Companion?)
    ensures Inv(s')
  {
    var bytes := AtLeastOne(step.bytes);
    if step.ReserveTransform? {
      TransformFacts(bytes);
      AddingKeepsInv(s, t, TransformProgram(bytes), bytes);
    } else {
      CompanionFacts(bytes);
      AddingKeepsInv(s, t, CompanionProgram(bytes), bytes);
    }
  }

  lemma ObjectStepKeepsInv(s: State, t: nat, step: Step, s': State)
    requires Inv(s) && IsStep(s, t, step, s')
    requires step.Clone? || step.Release? || step.Shrink? || step.Grow? || step.Finish? || step.Abandon?
    ensures Inv(s')
  {
    match step
    case Clone(lease) => OwnersKeepInv(s, lease, s.objs[lease].owners + 1);
    case Release(lease) => ReleaseKeepsInv(s, t, lease);
    case Shrink(lease, bytes) => ShrinkKeepsInv(s, t, lease, bytes);
    case Grow(lease, bytes) => GrowKeepsInv(s, t, lease, bytes);
    case Finish(reservation, bytes) => FinishKeepsInv(s, t, reservation, AtLeastOne(bytes));
    case Abandon(reservation) => AbandonKeepsInv(s, t, reservation);
  }

  lemma StepKeepsInv(s: State, t: nat, step: Step, s': State)
    requires Inv(s) && IsStep(s, t, step, s')
    ensures Inv(s')
  {
    if step.Perform? {
      PerformKeepsBalance(s, t);
      PerformKeepsShape(s, t);
    } else if step.ReserveTransform? || step.Companion? {
      AddingStepKeepsInv(s, t, step, s');
    } else if step.Call? || step.Register? || step.Poll? || step.Exchange? || step.Wake? || step.GiveUp? {
      WaitingStepKeepsInv(s, t, step, s');
    } else {
      ObjectStepKeepsInv(s, t, step, s');
    }
  }

  lemma {:induction false} RunsKeepInv(trace: seq<State>, steps: seq<(nat, Step)>, i: nat)
    requires IsRun(trace, steps) && i <= |steps|
    ensures Inv(trace[i])
  {
    if i == 0 {
      InitInv(trace[0]);
    } else {
      RunsKeepInv(trace, steps, i - 1);
      StepKeepsInv(trace[i - 1], steps[i - 1].0, steps[i - 1].1, trace[i]);
    }
  }
}
