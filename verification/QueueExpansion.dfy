/** The ticket invariant through an expansion: acquiring the seqlock, preparing and
    publishing a larger array, or giving up when there is no memory. */
module QueueExpansion {
  import opened Options
  import opened Arith
  import opened TicketIndex
  import opened QueueMachine
  import opened QueueTickets

  // ---- steps inside the critical section ---------------------------------------

  /** Only the locals of an expansion, and where it is, may differ. */
  predicate SameButExpansion(op: Op, op': Op) {
    op' == op.(pc := op'.pc, seen := op'.seen, newOffset := op'.newOffset,
               newSlots := op'.newSlots, newCap := op'.newCap, newStride := op'.newStride)
  }

  lemma ExpOp(c: Config, v: View, v': View, id: nat, op: Op, op': Op)
    requires OpOk(c, v, id, op) && InExp(op.pc) && InExp(op'.pc) && SameButExpansion(op, op') && Advances(v, v')
    ensures OpOk(c, v', id, op')
  {
    OpAdvances(c, v, v', id, op);
  }

  lemma OpsAdvance(c: Config, s: State, s': State, id: nat, op': Op)
    requires s.locker.Some? ==> s.locker.value < |s.ops|
    requires s'.locker.Some? ==> s'.locker.value < |s'.ops|
    requires OpsOk(c, s) && id < |s.ops| && s'.ops == s.ops[id := op']
    requires Advances(ViewOf(s), ViewOf(s')) && OpOk(c, ViewOf(s'), id, op')
    ensures OpsOk(c, s')
  {
    forall j | 0 <= j < |s'.ops| ensures OpAt(c, s', j) {
      assert OpAt(c, s, j);
      if j != id { OpAdvances(c, ViewOf(s), ViewOf(s'), j, s.ops[j]); }
    }
  }

  /** The operation in the critical section stays in it and publishes nothing yet. */
  ghost predicate Inside(s: State, s': State, id: nat, op': Op) {
    (&& id < |s.ops| && s.locker == Some(id) && s'.locker == Some(id)
     && s'.ops == s.ops[id := op']
     && s'.push == s.push && s'.pop == s.pop && s'.pushHolder == s.pushHolder && s'.popHolder == s.popHolder
     && s'.arrays == s.arrays
     && InExp(s.ops[id].pc) && InExp(op'.pc) && SameButExpansion(s.ops[id], op')) == true
  }

  lemma InsideStep(c: Config, s: State, s': State, id: nat, op': Op)
    requires WfConfig(c) && TicketInv(c, s) && Inside(s, s', id, op')
    requires Advances(ViewOf(s), ViewOf(s')) && LockerOk(c, s', op') && DynamicOk(c, s')
    ensures TicketInv(c, s')
  {
    hide OpOk, ArraysOk, DynamicOk, Advances;
    assert OpAt(c, s, id);
    ExpOp(c, ViewOf(s), ViewOf(s'), id, s.ops[id], op');
    OpsAdvance(c, s, s', id, op');
    HoldersKept(s, id, op');
    HoldersSame(Put(s, id, op'), s');
  }

  lemma HoldersSame(s: State, s': State)
    requires HoldersOk(s) && s'.ops == s.ops
    requires s'.push == s.push && s'.pop == s.pop && s'.pushHolder == s.pushHolder && s'.popHolder == s.popHolder
    ensures HoldersOk(s')
  {
    forall t | 0 <= t < |s'.pushHolder| ensures PushHeld(s', t) { assert PushHeld(s, t); }
    forall t | 0 <= t < |s'.popHolder| ensures PopHeld(s', t) { assert PopHeld(s, t); }
  }

  lemma ExpFirstStep(c: Config, s: State, id: nat, op: Op)
    requires WfConfig(c) && TicketInv(c, s) && id < |s.ops| && s.ops[id] == op && op.pc.ExpFirst?
    ensures var popFirst := op.pc.popFirst;
            Kept(c, s, id, Only(op.(seen := OneCounter(s, popFirst), pc := ExpSecond(popFirst))))
  {
    hide GoodStride, CapacityChain;
    var op' := op.(seen := OneCounter(s, op.pc.popFirst), pc := ExpSecond(op.pc.popFirst));
    InsideStep(c, s, Put(s, id, op'), id, op');
  }

  lemma NextCapacity(c: Config, cap: nat)
    requires WfConfig(c) && 0 < cap < c.capacity
    ensures cap < Min(c.mult * cap, c.capacity)
    ensures GoodStride(Min(c.mult * cap, c.capacity), StrideOf(Min(c.mult * cap, c.capacity)))
  {
    MulLe(2, c.mult, cap);
    StrideIsGood(Min(c.mult * cap, c.capacity));
  }

  lemma StrideIsGood(cap: nat)
    requires cap > 0
    ensures GoodStride(cap, StrideOf(cap))
  {
    forall t1: nat, t2: nat
      | Idx(t1, cap, StrideOf(cap)) == Idx(t2, cap, StrideOf(cap)) && Turn(t1, cap) == Turn(t2, cap)
      ensures t1 == t2
    {
      SlotAndTurnDetermineTicket(cap, t1, t2);
    }
  }

  lemma ExpSecondStep(c: Config, s: State, id: nat, op: Op)
    requires WfConfig(c) && TicketInv(c, s) && id < |s.ops| && s.ops[id] == op && op.pc.ExpSecond?
    ensures Kept(c, s, id, Only(AtExpSecond(c, op, OneCounter(s, !op.pc.popFirst))))
  {
    hide GoodStride, CapacityChain;
    var op' := AtExpSecond(c, op, OneCounter(s, !op.pc.popFirst));
    NextCapacity(c, op.cap);
    InsideStep(c, s, Put(s, id, op'), id, op');
  }

  lemma NoMemoryStep(c: Config, s: State, id: nat, op: Op)
    requires WfConfig(c) && TicketInv(c, s) && id < |s.ops| && s.ops[id] == op && op.pc.ExpAlloc?
    ensures Kept(c, s, id, Only(op.(pc := ExpRestore)))
  {
    hide GoodStride, CapacityChain;
    var op' := op.(pc := ExpRestore);
    InsideStep(c, s, Put(s, id, op'), id, op');
  }

  lemma AllocateStep(c: Config, s: State, id: nat, op: Op)
    requires WfConfig(c) && TicketInv(c, s) && id < |s.ops| && s.ops[id] == op && op.pc.ExpAlloc?
    ensures Kept(c, s, id, Allocate(op.(newSlots := |s.heap|, pc := FillOffset)))
  {
    hide GoodStride, CapacityChain;
    var op' := op.(newSlots := |s.heap|, pc := FillOffset);
    var s' := Perform(s, id, Allocate(op'));
    InsideStep(c, s, s', id, op');
  }

  lemma FillLocker(c: Config, s: State, op: Op, s': State)
    requires WfConfig(c) && ArraysOk(c, s.arrays) && LockerOk(c, s, op) && InFill(op.pc)
    requires s.dslots == |s.arrays| - 1 && s.dstride == s.arrays[|s.arrays| - 1].stride
    requires s' == s.(closed := s.closed[op.state.numClosed := AtFill(s, op, s.closed[op.state.numClosed]).record],
                      ops := s'.ops)
    ensures LockerOk(c, s', AtFill(s, op, s.closed[op.state.numClosed]).op)
  {
  }

  lemma FillStep(c: Config, s: State, id: nat, op: Op)
    requires WfConfig(c) && TicketInv(c, s) && id < |s.ops| && s.ops[id] == op && InFill(op.pc)
    requires op.state.numClosed < |s.closed|
    ensures Kept(c, s, id, AtFill(s, op, s.closed[op.state.numClosed]))
  {
    hide GoodStride, CapacityChain;
    var e := AtFill(s, op, s.closed[op.state.numClosed]);
    var s' := Perform(s, id, e);
    FillLocker(c, s, op, s');
    FillDynamic(c, s, id, op, e);
    InsideStep(c, s, s', id, e.op);
  }

  lemma FillDynamic(c: Config, s: State, id: nat, op: Op, e: Effect)
    requires WfConfig(c) && ArraysOk(c, s.arrays) && s.locker == Some(id) && id < |s.ops| && DynamicOk(c, s)
    requires s.ops[id] == op && InFill(op.pc) && op.state.numClosed == |s.arrays| - 1 < |s.closed|
    requires e == AtFill(s, op, s.closed[op.state.numClosed])
    ensures DynamicOk(c, Perform(s, id, e)) && Advances(ViewOf(s), ViewOf(Perform(s, id, e)))
  {
    hide GoodStride, CapacityChain;
  }

  lemma StoreSlotsStep(c: Config, s: State, id: nat, op: Op)
    requires WfConfig(c) && TicketInv(c, s) && id < |s.ops| && s.ops[id] == op && op.pc.ExpSlots?
    ensures Kept(c, s, id, StoreSlots(op.(pc := ExpCap)))
  {
    hide GoodStride, CapacityChain;
    var op' := op.(pc := ExpCap);
    InsideStep(c, s, Perform(s, id, StoreSlots(op')), id, op');
  }

  lemma StoreCapStep(c: Config, s: State, id: nat, op: Op)
    requires WfConfig(c) && TicketInv(c, s) && id < |s.ops| && s.ops[id] == op && op.pc.ExpCap?
    ensures Kept(c, s, id, StoreCap(op.(pc := ExpStride)))
  {
    hide GoodStride, CapacityChain;
    var op' := op.(pc := ExpStride);
    InsideStep(c, s, Perform(s, id, StoreCap(op')), id, op');
  }

  lemma StoreStrideStep(c: Config, s: State, id: nat, op: Op)
    requires WfConfig(c) && TicketInv(c, s) && id < |s.ops| && s.ops[id] == op && op.pc.ExpStride?
    ensures Kept(c, s, id, StoreStride(op.(pc := ExpRelease)))
  {
    hide GoodStride, CapacityChain;
    var op' := op.(pc := ExpRelease);
    InsideStep(c, s, Perform(s, id, StoreStride(op')), id, op');
  }

  // ---- entering and leaving ------------------------------------------------------

  lemma AcquireOp(c: Config, v: View, v': View, id: nat, op: Op, popFirst: bool)
    requires OpOk(c, v, id, op) && op.pc.TryLock? && Advances(v, v') && op.cap < c.capacity
    ensures OpOk(c, v', id, op.(pc := ExpFirst(popFirst)))
  {
    OpAdvances(c, v, v', id, op);
  }

  lemma AcquireStep(c: Config, s: State, id: nat, op: Op, popFirst: bool)
    requires WfConfig(c) && TicketInv(c, s) && id < |s.ops| && s.ops[id] == op && op.pc.TryLock?
    requires op.cap != c.capacity && s.dstate == op.state
    ensures TicketInv(c, Perform(s, id, Acquire(op.(pc := ExpFirst(popFirst)))))
  {
    hide OpOk, ArraysOk, DynamicOk, LockerOk, Advances;
    var op' := op.(pc := ExpFirst(popFirst));
    var s' := Perform(s, id, Acquire(op'));
    assert OpAt(c, s, id);
    AcquireLock(c, s, id, op, popFirst);
    AcquireOp(c, ViewOf(s), ViewOf(s'), id, op, popFirst);
    OpsAdvance(c, s, s', id, op');
    HoldersKept(s, id, op');
    HoldersSame(Put(s, id, op'), s');
  }

  lemma AcquireLock(c: Config, s: State, id: nat, op: Op, popFirst: bool)
    requires WfConfig(c) && ArraysOk(c, s.arrays) && LockOk(c, s) && DynamicOk(c, s)
    requires id < |s.ops| && s.ops[id] == op && op.pc.TryLock?
    requires OpOk(c, ViewOf(s), id, op)
    requires op.cap != c.capacity && s.dstate == op.state
    ensures op.cap < c.capacity
    ensures var s' := Perform(s, id, Acquire(op.(pc := ExpFirst(popFirst))));
            LockOk(c, s') && DynamicOk(c, s') && Advances(ViewOf(s), ViewOf(s'))
  {
    hide GoodStride, CapacityChain;
  }

  lemma RestoreStep(c: Config, s: State, id: nat, op: Op)
    requires WfConfig(c) && TicketInv(c, s) && id < |s.ops| && s.ops[id] == op && op.pc.ExpRestore?
    ensures Kept(c, s, id, Restore(CannotExpand(op)))
  {
    hide OpOk, ArraysOk, DynamicOk, LockerOk, Advances;
    var op' := CannotExpand(op);
    var s' := Perform(s, id, Restore(op'));
    assert OpAt(c, s, id);
    RestoreLock(c, s, id, op);
    OpAdvances(c, ViewOf(s), ViewOf(s'), id, op);
    CannotExpandOp(c, ViewOf(s'), id, op);
    OpsAdvance(c, s, s', id, op');
    HoldersKept(s, id, op');
    HoldersSame(Put(s, id, op'), s');
  }

  lemma RestoreLock(c: Config, s: State, id: nat, op: Op)
    requires WfConfig(c) && ArraysOk(c, s.arrays) && LockOk(c, s) && DynamicOk(c, s)
    requires id < |s.ops| && s.ops[id] == op && op.pc.ExpRestore?
    ensures var s' := Perform(s, id, Restore(CannotExpand(op)));
            LockOk(c, s') && DynamicOk(c, s') && Advances(ViewOf(s), ViewOf(s'))
  {
    hide GoodStride, CapacityChain;
  }

  // ---- publishing ------------------------------------------------------------------

  lemma {:induction false} CapacitiesLeft(c: Config, arrays: seq<Array>, i: nat)
    requires WfConfig(c) && Sized(c) && ArraysOk(c, arrays) && i < |arrays|
    ensures i + MaxClosed(arrays[i].cap, c.mult, c.capacity) == c.maxClosed
  {
    if i > 0 {
      CapacitiesLeft(c, arrays, i - 1);
      assert CapacityLink(c, arrays, i);
      CapacityStep(arrays[i - 1].cap, c.mult, c.capacity);
    }
  }

  lemma CapacityStep(cap: nat, mult: nat, capacity: nat)
    requires 0 < cap < capacity && mult >= 2
    ensures Min(mult * cap, capacity) > cap
    ensures MaxClosed(cap, mult, capacity) == 1 + MaxClosed(Min(mult * cap, capacity), mult, capacity)
  {
    MulLe(2, mult, cap);
  }

  function NewArray(op: Op): (a: Array) {
    Array(op.newOffset, op.newSlots, op.newCap, op.newStride)
  }

  lemma ArraysGrow(c: Config, s: State, op: Op)
    requires WfConfig(c) && Sized(c) && ArraysOk(c, s.arrays) && LockerOk(c, s, op) && op.pc.ExpRelease?
    ensures ArraysOk(c, s.arrays + [NewArray(op)])
  {
    RoomLeft(c, s.arrays);
    ArraysAppend(c, s.arrays, NewArray(op));
  }

  /** One more array fits in the closed_ table, and yet one more unless this is the largest. */
  lemma RoomLeft(c: Config, arrays: seq<Array>)
    requires WfConfig(c) && Sized(c) && ArraysOk(c, arrays) && arrays[|arrays| - 1].cap < c.capacity
    ensures |arrays| <= c.maxClosed
    ensures Min(c.mult * arrays[|arrays| - 1].cap, c.capacity) < c.capacity ==> |arrays| < c.maxClosed
  {
    var n := |arrays| - 1;
    CapacitiesLeft(c, arrays, n);
    CapacityStep(arrays[n].cap, c.mult, c.capacity);
  }

  lemma ArraysAppend(c: Config, arrays: seq<Array>, a: Array)
    requires WfConfig(c) && ArraysOk(c, arrays)
    requires var last := arrays[|arrays| - 1];
      && last.offset < a.offset && a.slots == |arrays| && last.cap < a.cap
      && a.cap == Min(c.mult * last.cap, c.capacity) && GoodStride(a.cap, a.stride)
    requires |arrays| <= c.maxClosed && (a.cap < c.capacity ==> |arrays| < c.maxClosed)
    ensures ArraysOk(c, arrays + [a])
  {
    hide GoodStride;
    var arrays' := arrays + [a];
    forall i | 0 < i < |arrays'| ensures CapacityLink(c, arrays', i) {
      if i < |arrays| { assert CapacityLink(c, arrays, i); }
    }
  }

  function ReleasedView(v: View, a: Array): (v': View) {
    View(v.push, v.pop, v.pushHolder, v.popHolder, v.arrays + [a], false, Start, 0, 0)
  }

  /** The new array starts above every ticket whose array is already settled. */
  lemma ReleasedOp(c: Config, v: View, a: Array, id: nat, op: Op)
    requires OpOk(c, v, id, op) && v.held && v.lockPc.ExpRelease? && a.offset == v.newOffset
    ensures OpOk(c, ReleasedView(v, a), id, op)
  {
    var v' := ReleasedView(v, a);
    assert HasState(op.pc) ==> StateOk(v, op) && StateOk(v', op);
  }

  lemma ReleaseStep(c: Config, s: State, id: nat, op: Op)
    requires WfConfig(c) && Sized(c) && TicketInv(c, s) && id < |s.ops| && s.ops[id] == op && op.pc.ExpRelease?
    ensures Kept(c, s, id, Release(Retry(op)))
  {
    var s' := PerformRelease(s, id, Retry(op));
    ArraysGrow(c, s, op);
    ReleaseDynamic(c, s, id, op);
    ReleaseOps(c, s, id, op);
    assert OpAt(c, s, id);
    HoldersKept(s, id, Retry(op));
    HoldersSame(Put(s, id, Retry(op)), s');
  }

  lemma ReleaseOps(c: Config, s: State, id: nat, op: Op)
    requires WfConfig(c) && ArraysOk(c, s.arrays) && LockOk(c, s) && OpsOk(c, s) && s.locker == Some(id)
    requires id < |s.ops| && s.ops[id] == op && op.pc.ExpRelease?
    requires c.dynamic
    ensures OpsOk(c, PerformRelease(s, id, Retry(op)))
  {
    var s' := PerformRelease(s, id, Retry(op));
    var v, v' := ViewOf(s), ReleasedView(ViewOf(s), NewArray(op));
    forall j | 0 <= j < |s'.ops| ensures OpAt(c, s', j) {
      assert OpAt(c, s, j);
      ReleasedOp(c, v, NewArray(op), j, s.ops[j]);
      if j == id { RetryOp(c, v', id, op); }
    }
  }

  lemma ReleaseDynamic(c: Config, s: State, id: nat, op: Op)
    requires WfConfig(c) && ArraysOk(c, s.arrays) && LockOk(c, s) && DynamicOk(c, s) && s.locker == Some(id)
    requires id < |s.ops| && s.ops[id] == op && op.pc.ExpRelease?
    requires ArraysOk(c, s.arrays + [NewArray(op)])
    ensures LockOk(c, PerformRelease(s, id, Retry(op))) && DynamicOk(c, PerformRelease(s, id, Retry(op)))
  {
    hide ArraysOk, DynamicOk, LockerOk;
    ReleaseLock(c, s, id, op);
    ReleaseWords(c, s, id, op);
  }

  lemma ReleaseLock(c: Config, s: State, id: nat, op: Op)
    requires WfConfig(c) && ArraysOk(c, s.arrays) && LockOk(c, s) && s.locker == Some(id)
    requires id < |s.ops| && s.ops[id] == op && op.pc.ExpRelease?
    requires ArraysOk(c, s.arrays + [NewArray(op)])
    ensures LockOk(c, PerformRelease(s, id, Retry(op)))
  {
    hide ArraysOk, LockerOk;
  }

  lemma ReleaseWords(c: Config, s: State, id: nat, op: Op)
    requires WfConfig(c) && ArraysOk(c, s.arrays) && s.locker == Some(id) && id < |s.ops| && s.ops[id] == op
    requires DynamicOk(c, s) && op.pc.ExpRelease? && LockerOk(c, s, op)
    requires ArraysOk(c, s.arrays + [NewArray(op)])
    ensures DynamicOk(c, PerformRelease(s, id, Retry(op)))
  {
    hide GoodStride, CapacityChain;
    FreshLength(op.newCap);
  }

  lemma FreshLength(cap: nat)
    ensures |FreshSlots(cap)| == cap
  {
  }
}
