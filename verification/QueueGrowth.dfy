/** When a dynamic queue grows: a push waits or fails only where it cannot, and tries only where it must. */
module QueueGrowth {
  import opened Options
  import opened QueueFailures
  import opened QueueMachine
  import opened QueueSafety
  import opened QueueSlots
  import opened QueueTheorems
  import opened QueueTickets
  import opened QueueTraces
  import opened TicketIndex

  /** In state m the operation asked for memory for a larger array and got none. */
  ghost predicate OutOfMemory(events: seq<Event>, run: seq<State>, m: nat, id: nat) {
    m < |events| && m < |run| && id < |run[m].ops| && events[m] == Move(id, false) && run[m].ops[id].pc.ExpAlloc?
  }

  /** The move with which an operation got to where it is. */
  lemma {:induction false} CameFrom(c: Config, events: seq<Event>, run: seq<State>, j: nat, id: nat) returns (i: nat)
    requires WfConfig(c) && Trace(c, events, run) && j < |run| && id < |run[j].ops| && !run[j].ops[id].pc.Start?
    ensures i < j && id < |run[i].ops| && Safe(run[i], run[i].ops[id])
    ensures events[i].Move? && events[i].id == id
    ensures var e := EffectOf(c, run[i], run[i].ops[id], events[i].choice); !e.Blocked? && e.op == run[j].ops[id]
    decreases j
  {
    hide Safe, EffectOf;
    if j == 0 {
      assert false;
    }
    assert Apply(c, run[j - 1], events[j - 1]) == Some(run[j]);
    MovedOrStayed(c, run[j - 1], events[j - 1], run[j], id);
    if events[j - 1].Move? && events[j - 1].id == id {
      i := j - 1;
    } else {
      i := CameFrom(c, events, run, j - 1, id);
    }
  }

  /** The event moves the operation; otherwise the operation stays as it is, or is new. */
  lemma MovedOrStayed(c: Config, s: State, e: Event, s': State, id: nat)
    requires WfConfig(c) && Apply(c, s, e) == Some(s') && id < |s'.ops|
    ensures if e.Move? && e.id == id
            then id < |s.ops| && Safe(s, s.ops[id]) &&
                 var f := EffectOf(c, s, s.ops[id], e.choice); !f.Blocked? && s'.ops[id] == f.op
            else if id < |s.ops| then s'.ops[id] == s.ops[id] else s'.ops[id].pc.Start?
  {
    hide EffectOf, Perform, Safe;
    if e.Move? {
      EffectIsPossible(c, s, s.ops[e.id], e.choice);
      PerformOps(s, e.id, EffectOf(c, s, s.ops[e.id], e.choice));
    }
  }

  // ---- steps that end a push, or make it wait -----------------------------------------------------

  /** Only where there is no memory does an expansion go on to restore the seqlock. */
  lemma IntoRestore(c: Config, s: State, op: Op, choice: bool)
    requires WfConfig(c) && Safe(s, op)
    requires var e := EffectOf(c, s, op, choice); !e.Blocked? && e.op.pc.ExpRestore?
    ensures op.pc.ExpAlloc? && !choice
  {
    hide SlotOf, MyTurn;
  }

  /** How a blocking write gets to wait: its array is the only one or the largest, or closed, its slot is ready, or
      there was no memory. */
  lemma IntoWait(c: Config, s: State, op: Op, choice: bool)
    requires WfConfig(c) && Safe(s, op) && Facts(c, s, op)
    requires var e := EffectOf(c, s, op, choice); !e.Blocked? && e.op.pc.Wait? && e.op.kind.BlockingWrite?
    ensures var op' := EffectOf(c, s, op, choice).op;
            || op'.cap == c.capacity || Lags(op') || op.pc.ExpRestore?
            || (op.pc.CheckSlot? && SlotOf(s, op).turn == MyTurn(op) && op' == op.(pc := Wait))
  {
    hide SlotOf, MyTurn, Serves;
  }

  lemma RestoreIsOutOfMemory(c: Config, events: seq<Event>, run: seq<State>, j: nat, id: nat) returns (m: nat)
    requires WfConfig(c) && Trace(c, events, run) && j < |run| && id < |run[j].ops| && run[j].ops[id].pc.ExpRestore?
    ensures m < j && OutOfMemory(events, run, m, id)
  {
    hide Apply, EffectOf, Safe;
    m := CameFrom(c, events, run, j, id);
    IntoRestore(c, run[m], run[m].ops[id], events[m].choice);
  }

  /** A slot at the turn of a push has been left by the pop one lap earlier. */
  lemma ReadyMeansLeft(c: Config, s: State, op: Op)
    requires WfConfig(c) && Inv(c, s) && Safe(s, op) && Facts(c, s, op) && op.pc.CheckSlot? && IsPush(op.kind)
    requires SlotOf(s, op).turn == MyTurn(op)
    ensures op.ticket >= op.offset + op.cap ==> PopStage(s, op.ticket - op.cap).After?
  {
    hide Inv, Idx, Turn, PopStage, PushStage;
    InvParts(c, s);
    if op.ticket >= op.offset + op.cap {
      OneLapEarlier(op.ticket - op.offset, op.cap, op.stride);
      var u := op.ticket - op.cap;
      assert u - op.offset == op.ticket - op.offset - op.cap;
      assert Serves(s.arrays, op.slots, u);
      assert TicketSlotOk(s, op.slots, u);
    }
  }

  lemma OneLapEarlier(t: nat, cap: nat, stride: nat)
    requires 0 < cap <= t
    ensures Idx(t - cap, cap, stride) == Idx(t, cap, stride) && Turn(t - cap, cap) == Turn(t, cap) - 1
  {
    NextLap(t - cap, cap, stride);
  }

  // ---- whole runs -----------------------------------------------------------------------------------

  /** A blocking write waits only where the queue cannot grow for it: at full capacity, with a ticket of a closed array,
      or after memory was refused. */
  lemma WaitsWhenItCannotExpand(c: Config, events: seq<Event>, run: seq<State>, j: nat, id: nat) returns (m: nat)
    requires WfConfig(c) && Sized(c) && Trace(c, events, run) && j < |run| && id < |run[j].ops|
    requires run[j].ops[id].kind.BlockingWrite? && Waits(run[j], run[j].ops[id])
    ensures var op := run[j].ops[id];
            op.cap == c.capacity || Lags(op) || (m < j && OutOfMemory(events, run, m, id))
  {
    hide Apply, Sized, Inv, Follows, EffectOf, Facts, PopStage, Safe;
    var i := CameFrom(c, events, run, j, id);
    TraceIsRun(c, events, run);
    InvOverRun(c, run, i);
    InvOverRun(c, run, j);
    InvGivesFacts(c, run[i], id);
    var op, op' := run[i].ops[id], run[j].ops[id];
    IntoWait(c, run[i], op, events[i].choice);
    m := 0;
    if op.pc.ExpRestore? {
      m := RestoreIsOutOfMemory(c, events, run, i, id);
    } else if op'.cap != c.capacity && !Lags(op') {
      ReadyMeansLeft(c, run[i], op);
      PreviousLap(c, run[j], id);
      PopDoneOverRun(c, run, i, j, op'.ticket - op'.cap);
    }
  }

  /** A push of a dynamic queue fails only where the queue cannot grow for it, in the same three cases. */
  lemma FailsWhenItCannotExpand(c: Config, events: seq<Event>, run: seq<State>, j: nat, id: nat)
    returns (i: nat, m: nat)
    requires WfConfig(c) && Sized(c) && Trace(c, events, run) && j < |run| && id < |run[j].ops|
    requires var op := run[j].ops[id]; c.dynamic && IsPush(op.kind) && op.pc.Failed?
    ensures i < j && id < |run[i].ops|
    ensures var op := run[i].ops[id];
            op.cap == c.capacity || Lags(op) || (m < j && OutOfMemory(events, run, m, id))
  {
    hide Apply, Sized, Inv, Follows, EffectOf, Facts, Safe;
    i := CameFrom(c, events, run, j, id);
    TraceIsRun(c, events, run);
    InvOverRun(c, run, i);
    InvGivesFacts(c, run[i], id);
    FailingPush(c, run[i], run[i].ops[id], events[i].choice);
    m := 0;
    if run[i].ops[id].pc.ExpRestore? {
      m := RestoreIsOutOfMemory(c, events, run, i, id);
    }
  }

  lemma FailingPush(c: Config, s: State, op: Op, choice: bool)
    requires WfConfig(c) && Safe(s, op) && Facts(c, s, op) && c.dynamic
    requires var e := EffectOf(c, s, op, choice); !e.Blocked? && e.op.pc.Failed? && IsPush(e.op.kind)
    ensures op.cap == c.capacity || Lags(op) || op.pc.ExpRestore?
  {
    hide EffectOf;
    if op.pc.Failed? {
      FailedIsBlocked(c, s, op, choice);
    } else {
      FailingStep(c, s, op, choice);
    }
  }

  lemma FailedIsBlocked(c: Config, s: State, op: Op, choice: bool)
    requires WfConfig(c) && Safe(s, op) && op.pc.Failed?
    ensures EffectOf(c, s, op, choice).Blocked?
  {
  }

  // ---- why a push tries to grow the queue -------------------------------------------------------------

  /** A blocking write on its way through an expansion. */
  predicate Expanding(op: Op) {
    op.kind.BlockingWrite? && (op.pc.TryLock? || InExp(op.pc))
  }

  lemma IntoExpansion(c: Config, s: State, op: Op, choice: bool)
    requires WfConfig(c) && Safe(s, op) && Facts(c, s, op)
    requires var e := EffectOf(c, s, op, choice); !e.Blocked? && Expanding(e.op)
    ensures var op' := EffectOf(c, s, op, choice).op;
            && op'.ticket == op.ticket && op'.cap == op.cap && op.kind.BlockingWrite?
            && (Expanding(op) || (op.pc.CheckPop? && s.pop + op.cap <= op.ticket))
  {
    hide EffectOf, Facts, Safe;
    KindStays(c, s, op, choice);
    if Expanding(op) {
      ExpansionGoesOn(c, s, op, choice);
    } else if op.pc.CheckPop? {
      ExpansionBegins(c, s, op, choice);
    } else {
      NoExpansion(c, s, op, choice);
    }
  }

  lemma ExpansionGoesOn(c: Config, s: State, op: Op, choice: bool)
    requires WfConfig(c) && Safe(s, op) && Expanding(op)
    ensures var e := EffectOf(c, s, op, choice); !e.Blocked? && e.op.ticket == op.ticket && e.op.cap == op.cap
  {
    hide SlotOf, MyTurn, AtStart, AtLoadOther, AtSeqState, AtValidate, AtScan, AtCompare, AtCheckSlot, AtCheckPop;
    hide AtRecheck, AtGrant, AtAccess;
  }

  lemma ExpansionBegins(c: Config, s: State, op: Op, choice: bool)
    requires WfConfig(c) && Safe(s, op) && op.pc.CheckPop?
    ensures var e := EffectOf(c, s, op, choice);
            && !e.Blocked? && e.op.ticket == op.ticket && e.op.cap == op.cap
            && (Expanding(e.op) ==> s.pop + op.cap <= op.ticket)
  {
    hide SlotOf, MyTurn, AtStart, AtLoadOther, AtSeqState, AtValidate, AtScan, AtCompare, AtCheckSlot;
    hide AtRecheck, AtGrant, AtTryLock, AtExpSecond, AtFill, AtAccess;
  }

  /** Nowhere else does a blocking write turn to an expansion. */
  lemma NoExpansion(c: Config, s: State, op: Op, choice: bool)
    requires WfConfig(c) && Safe(s, op) && Facts(c, s, op) && op.kind.BlockingWrite?
    requires !op.pc.CheckPop? && !Expanding(op)
    ensures var e := EffectOf(c, s, op, choice); e.Blocked? || !Expanding(e.op)
  {
    hide SlotOf, MyTurn, Serves, AtCheckPop, AtTryLock, AtExpSecond, AtFill;
  }

  /** A blocking write tries to grow the queue only after it saw that the pop its slot waits for has no ticket. */
  lemma {:induction false} ExpandsWhenNobodyPops(c: Config, events: seq<Event>, run: seq<State>, j: nat, id: nat)
    returns (i: nat)
    requires WfConfig(c) && Sized(c) && Trace(c, events, run) && j < |run| && id < |run[j].ops|
    requires Expanding(run[j].ops[id])
    ensures i < j && id < |run[i].ops| && run[i].pop + run[j].ops[id].cap <= run[j].ops[id].ticket
    decreases j
  {
    hide Apply, Sized, Inv, Follows, EffectOf, Facts, Safe;
    i := CameFrom(c, events, run, j, id);
    TraceIsRun(c, events, run);
    InvOverRun(c, run, i);
    InvGivesFacts(c, run[i], id);
    IntoExpansion(c, run[i], run[i].ops[id], events[i].choice);
    if Expanding(run[i].ops[id]) {
      i := ExpandsWhenNobodyPops(c, events, run, i, id);
    }
  }

  /** A push that has prepared a larger array has itself a ticket of the array it closes, so that a blocking write which
      expands the queue still waits for its slot there. */
  lemma ExpanderLags(c: Config, s: State, id: nat)
    requires WfConfig(c) && Sized(c) && Reachable(c, s) && id < |s.ops| && s.ops[id].pc.ExpRelease?
    ensures var op := s.ops[id]; s.dstate.offset <= op.ticket < op.newOffset
  {
    hide Reachable, Sized, SlotInv, OpsOk, HoldersOk, GoodStride, CapacityChain;
    ReachableInv(c, s);
  }

  // ---- where a new array begins ------------------------------------------------------------------------

  function Larger(s: State): (n: nat) {
    if s.push < s.pop then s.pop else s.push
  }

  /** What an operation prepares begins at most one ticket beyond the larger counter. */
  predicate TightOp(n: nat, op: Op) {
    && (op.pc.ExpSecond? ==> op.seen <= n)
    && (HasOffset(op.pc) ==> op.newOffset <= n + 1)
  }

  ghost predicate Tight(s: State) {
    && (forall i :: 0 <= i < |s.arrays| ==> s.arrays[i].offset <= Larger(s) + 1)
    && (forall id :: 0 <= id < |s.ops| ==> TightOp(Larger(s), s.ops[id]))
  }

  lemma EffectIsTight(c: Config, s: State, op: Op, choice: bool)
    requires WfConfig(c) && Safe(s, op) && TightOp(Larger(s), op)
    ensures var e := EffectOf(c, s, op, choice);
            e.Blocked? || (TightOp(Larger(s), e.op) && (e.Release? ==> e.op.newOffset <= Larger(s) + 1))
  {
    hide EffectOf;
    if op.pc.TryLock? || InExp(op.pc) {
      ExpansionIsTight(c, s, op, choice);
    } else {
      PrepareNothing(c, s, op, choice);
    }
  }

  lemma ExpansionIsTight(c: Config, s: State, op: Op, choice: bool)
    requires WfConfig(c) && Safe(s, op) && TightOp(Larger(s), op) && (op.pc.TryLock? || InExp(op.pc))
    ensures var e := EffectOf(c, s, op, choice);
            !e.Blocked? && TightOp(Larger(s), e.op) && (e.Release? ==> e.op.newOffset <= Larger(s) + 1)
  {
    hide SlotOf, MyTurn, StrideOf, AtStart, AtLoadOther, AtSeqState, AtValidate, AtScan, AtCompare, AtCheckSlot;
    hide AtCheckPop, AtRecheck, AtGrant, AtAccess;
  }

  /** Outside an expansion nothing is prepared. */
  predicate PreparesNothing(c: Config, s: State, op: Op, choice: bool)
    requires WfConfig(c) && Safe(s, op)
  {
    var e := EffectOf(c, s, op, choice);
    e.Blocked? || (!InExp(e.op.pc) && !e.Release?)
  }

  predicate Reading(pc: Pc) {
    || pc.Start? || pc.LoadOther? || pc.SeqState? || pc.SeqSlots? || pc.SeqCap? || pc.SeqStride? || pc.SeqValidate?
    || pc.Scan?
  }

  predicate Testing(pc: Pc) {
    pc.Compare? || pc.CheckSlot? || pc.CheckPop? || pc.Recheck? || pc.Grant?
  }

  lemma PrepareNothing(c: Config, s: State, op: Op, choice: bool)
    requires WfConfig(c) && Safe(s, op) && !op.pc.TryLock? && !InExp(op.pc)
    ensures PreparesNothing(c, s, op, choice)
  {
    hide PreparesNothing;
    if Reading(op.pc) {
      ReadingPrepares(c, s, op, choice);
    } else if Testing(op.pc) {
      TestingPrepares(c, s, op, choice);
    } else {
      SlotPrepares(c, s, op, choice);
    }
  }

  lemma ReadingPrepares(c: Config, s: State, op: Op, choice: bool)
    requires WfConfig(c) && Safe(s, op) && Reading(op.pc)
    ensures PreparesNothing(c, s, op, choice)
  {
    hide SlotOf, MyTurn, AtCompare, AtCheckSlot, AtCheckPop, AtRecheck, AtGrant, AtTryLock, AtExpSecond, AtFill;
    hide AtAccess;
  }

  lemma TestingPrepares(c: Config, s: State, op: Op, choice: bool)
    requires WfConfig(c) && Safe(s, op) && Testing(op.pc)
    ensures PreparesNothing(c, s, op, choice)
  {
    hide SlotOf, MyTurn, AtStart, AtLoadOther, AtSeqState, AtValidate, AtScan, AtTryLock, AtExpSecond, AtFill, AtAccess;
  }

  lemma SlotPrepares(c: Config, s: State, op: Op, choice: bool)
    requires WfConfig(c) && Safe(s, op)
    requires op.pc.Wait? || op.pc.Access? || op.pc.Complete? || op.pc.Done? || op.pc.Failed?
    ensures PreparesNothing(c, s, op, choice)
  {
    hide SlotOf, MyTurn, AtStart, AtLoadOther, AtSeqState, AtValidate, AtScan, AtCompare, AtCheckSlot, AtCheckPop;
    hide AtRecheck, AtGrant, AtTryLock, AtExpSecond, AtFill;
  }

  lemma PerformIsTight(s: State, id: nat, e: Effect)
    requires id < |s.ops| && !e.Blocked? && Possible(s, e) && Tight(s)
    requires TightOp(Larger(s), e.op) && (e.Release? ==> e.op.newOffset <= Larger(s) + 1)
    ensures Tight(Perform(s, id, e))
  {
    hide HasOffset;
  }

  /** A new array begins at most one ticket beyond those granted when it was prepared: no more tickets than need be are
      left to closed arrays. */
  lemma {:induction false} OffsetsAreTight(c: Config, run: seq<State>, j: nat)
    requires WfConfig(c) && Run(c, run) && j < |run|
    ensures Tight(run[j])
    decreases j
  {
    hide Follows, Tight, TightOp;
    if j == 0 {
      InitIsTight(c);
    } else {
      OffsetsAreTight(c, run, j - 1);
      assert Follows(c, run[j - 1], run[j]);
      FollowsIsTight(c, run[j - 1], run[j]);
    }
  }

  lemma InitIsTight(c: Config)
    requires WfConfig(c)
    ensures Tight(Init(c))
  {
  }

  lemma FollowsIsTight(c: Config, s: State, s': State)
    requires WfConfig(c) && Follows(c, s, s') && Tight(s)
    ensures Tight(s')
  {
    hide EffectOf, Perform, Safe;
    var e :| Apply(c, s, e) == Some(s');
    if e.Move? {
      EffectIsTight(c, s, s.ops[e.id], e.choice);
      EffectIsPossible(c, s, s.ops[e.id], e.choice);
      PerformIsTight(s, e.id, EffectOf(c, s, s.ops[e.id], e.choice));
    }
  }
}
