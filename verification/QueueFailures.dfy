/** What a failed call means: at some moment of the call the queue was full, or empty, or, for a read of a dynamic
    queue, another read had used its ticket. */
module QueueFailures {
  import opened Options
  import opened QueueMachine
  import opened QueueSafety
  import opened QueueSlots
  import opened QueueTheorems
  import opened QueueTicketProof
  import opened QueueTickets
  import opened TicketIndex

  // ---- what an operation has seen -----------------------------------------------------------

  /** The operation has given up, or is trying to expand the queue before it does. */
  predicate Settled(pc: Pc) {
    pc.TryLock? || InExp(pc) || pc.Failed?
  }

  /** The slot of the operation's ticket is at another turn. */
  ghost predicate NotReady(s: State, op: Op) {
    && Serves(s.arrays, op.slots, op.ticket)
    && s.arrays[op.slots] == Array(op.offset, op.slots, op.cap, op.stride)
    && SlotInBounds(s, op) && SlotOf(s, op).turn != MyTurn(op)
  }

  predicate Counts(kind: Kind) {
    kind.WriteIfNotFull? || kind.ReadIfNotEmpty?
  }

  predicate Checks(kind: Kind) {
    kind.Write? || kind.Read?
  }

  /** State s is one in which the operation read the opposite counter, or found its slot not ready; if it then
      found the ticket counter unchanged, the ticket was the next one in s. */
  ghost predicate Seen(c: Config, op: Op, s: State) {
    && (Counts(op.kind) && !op.pc.Start? && !op.pc.LoadOther? ==>
          OtherCounter(s, op.kind) == op.other && op.ticket <= Counter(s, op.kind))
    && (Checks(op.kind) && (op.pc.Recheck? || Settled(op.pc)) ==>
          && op.ticket <= Counter(s, op.kind) && NotReady(s, op)
          && (Settled(op.pc) && !(c.dynamic && op.kind.Read?) ==> op.ticket == Counter(s, op.kind)))
  }

  /** Why the operation gives up, as far as it can tell by itself. */
  predicate Grounds(c: Config, op: Op) {
    && (op.kind.WriteIfNotFull? && Settled(op.pc) ==> op.ticket >= op.other + op.cap)
    && (op.kind.ReadIfNotEmpty? && Settled(op.pc) ==> op.ticket >= op.other)
    && (IsPush(op.kind) && !IsBlocking(op.kind) && !c.dynamic && Settled(op.pc) ==> op.cap == c.capacity)
  }

  /** The step leads to an operation that has seen what it needs, then or before. */
  ghost predicate Goes(c: Config, s: State, id: nat, choice: bool, before: State)
    requires WfConfig(c) && id < |s.ops| && Safe(s, s.ops[id])
  {
    var e := EffectOf(c, s, s.ops[id], choice);
    e.Blocked? || (Grounds(c, e.op) && (Seen(c, e.op, before) || Seen(c, e.op, s)))
  }

  /** The ticket belongs to an array that was closed when the operation looked. */
  predicate Lags(op: Op) {
    op.slots < op.state.numClosed
  }

  /** What the invariant says of an operation, as far as it matters here. */
  ghost predicate Facts(c: Config, s: State, op: Op) {
    (&& (!op.pc.Start? ==> op.ticket <= Counter(s, op.kind))
     && (op.pc.SeqValidate? ==> op.state.numClosed > 0 || op.state.offset <= op.ticket)
     && (op.pc.Scan? ==>
           && op.pc.i < |s.closed| && (op.pc.i == 0 ==> s.closed[0].offset <= op.ticket)
           && s.closed[op.pc.i].slots < op.state.numClosed)
     && (op.pc.CheckSlot? ==>
           Serves(s.arrays, op.slots, op.ticket) && s.arrays[op.slots] == Array(op.offset, op.slots, op.cap, op.stride))
     && (op.pc.Compare? ==> Counts(op.kind))
     && (op.pc.CheckPop? ==> op.kind.BlockingWrite?)
     && (op.pc.Grant? ==> !IsBlocking(op.kind))
     && (op.pc.Recheck? ==> op.kind.Write? || (op.kind.Read? && !c.dynamic))
     && (op.pc.TryLock? || InExp(op.pc) ==> IsPush(op.kind) && c.dynamic)
     && (op.pc.Compare? || op.pc.Recheck? ==> !Lags(op) ==> op.cap == op.curCap && op.offset == op.state.offset)
     && (!c.dynamic && (op.pc.Compare? || op.pc.Recheck?) ==> op.cap == c.capacity)) == true
  }

  lemma InvGivesFacts(c: Config, s: State, id: nat)
    requires WfConfig(c) && Inv(c, s) && id < |s.ops|
    ensures Facts(c, s, s.ops[id])
  {
    hide Inv, TicketInv, ArraysOk;
    var op := s.ops[id];
    InvIsTickets(c, s, id);
    ArrayAt(c, s.arrays, 0);
    if op.pc.Scan? {
      ScanFinds(c, s, op);
    }
  }

  lemma InvIsTickets(c: Config, s: State, id: nat)
    requires WfConfig(c) && Inv(c, s) && id < |s.ops|
    ensures TicketInv(c, s) && (s.locker.Some? ==> s.locker.value < |s.ops|)
    ensures ViewOk(c, ViewOf(s)) && OpOk(c, ViewOf(s), id, s.ops[id])
  {
    InvGivesView(c, s, id);
  }

  lemma ScanFinds(c: Config, s: State, op: Op)
    requires WfConfig(c) && TicketInv(c, s) && op.pc.Scan? && op.pc.i < |s.arrays| - 1
    ensures op.pc.i < |s.closed| && s.closed[op.pc.i] == s.arrays[op.pc.i] && s.arrays[0].offset == 0
    ensures s.closed[op.pc.i].slots == op.pc.i
  {
  }

  /** What every step starts from. */
  ghost predicate Ready(c: Config, s: State, id: nat, before: State)
    requires WfConfig(c)
  {
    && id < |s.ops| && Safe(s, s.ops[id]) && Facts(c, s, s.ops[id])
    && Seen(c, s.ops[id], before) && Grounds(c, s.ops[id])
    && before.push <= s.push && before.pop <= s.pop
  }

  // ---- steps after which the operation knows what it knew, or starts again ---------------------

  predicate SameArray(op: Op, op': Op) {
    op'.slots == op.slots && op'.offset == op.offset && op'.cap == op.cap && op'.stride == op.stride
  }

  predicate SameTicket(op: Op, op': Op) {
    op'.kind == op.kind && op'.ticket == op.ticket && op'.other == op.other
  }

  predicate Carries(op: Op, op': Op) {
    && SameTicket(op, op') && !op.pc.Start? && !op.pc.LoadOther? && !op'.pc.Recheck?
    && (Settled(op'.pc) ==> Settled(op.pc) && SameArray(op, op'))
  }

  predicate Restarts(op': Op) {
    || IsBlocking(op'.kind)
    || (!Settled(op'.pc) && !op'.pc.Recheck? && (Counts(op'.kind) ==> op'.pc.Start? || op'.pc.LoadOther?))
  }

  lemma NotReadySame(s: State, op: Op, op': Op)
    requires NotReady(s, op) && SameTicket(op, op') && SameArray(op, op')
    ensures NotReady(s, op')
  {
  }

  lemma Carried(c: Config, op: Op, op': Op, before: State)
    requires Seen(c, op, before) && Grounds(c, op) && Carries(op, op')
    ensures Seen(c, op', before) && Grounds(c, op')
  {
    if Checks(op.kind) && Settled(op'.pc) {
      NotReadySame(before, op, op');
    }
  }

  lemma Restarted(c: Config, op': Op, before: State)
    requires Restarts(op')
    ensures Seen(c, op', before) && Grounds(c, op')
  {
  }

  predicate Plain(pc: Pc) {
    !pc.LoadOther? && !pc.Compare? && !pc.CheckSlot? && !pc.Recheck?
  }

  /** The step carries on or starts again. */
  predicate GoesOn(c: Config, s: State, op: Op, choice: bool)
    requires WfConfig(c) && Safe(s, op)
  {
    var e := EffectOf(c, s, op, choice);
    e.Blocked? || Carries(op, e.op) || Restarts(e.op)
  }

  lemma EarlyStep(c: Config, s: State, op: Op, choice: bool)
    requires WfConfig(c) && Safe(s, op) && Facts(c, s, op) && Plain(op.pc)
    requires !Settled(op.pc) && !op.pc.Wait? && !op.pc.Access? && !op.pc.Complete?
    ensures GoesOn(c, s, op, choice)
  {
    hide SlotOf, MyTurn, Serves;
  }

  lemma SettledStep(c: Config, s: State, op: Op, choice: bool)
    requires WfConfig(c) && Safe(s, op) && Settled(op.pc)
    ensures GoesOn(c, s, op, choice)
  {
    hide SlotOf, MyTurn, Serves, AtStart, AtLoadOther, AtSeqState, AtValidate, AtScan, AtCompare, AtCheckSlot;
    hide AtCheckPop, AtRecheck, AtGrant, AtAccess;
  }

  lemma SlotStep(c: Config, s: State, op: Op, choice: bool)
    requires WfConfig(c) && Safe(s, op) && (op.pc.Wait? || op.pc.Access? || op.pc.Complete?)
    ensures GoesOn(c, s, op, choice)
  {
    hide SlotOf, MyTurn, Serves, AtStart, AtLoadOther, AtSeqState, AtValidate, AtScan, AtCompare, AtCheckSlot;
    hide AtCheckPop, AtRecheck, AtGrant, AtTryLock, AtExpSecond, AtFill;
  }

  // ---- the steps that look ------------------------------------------------------------------

  lemma LoadStep(c: Config, s: State, id: nat, choice: bool, before: State)
    requires WfConfig(c) && Ready(c, s, id, before) && s.ops[id].pc.LoadOther?
    ensures Goes(c, s, id, choice, before)
  {
    hide NotReady, Serves;
  }

  lemma CompareStep(c: Config, s: State, id: nat, choice: bool, before: State)
    requires WfConfig(c) && Ready(c, s, id, before) && s.ops[id].pc.Compare?
    ensures Goes(c, s, id, choice, before)
  {
    hide NotReady, Serves;
  }

  lemma CheckStep(c: Config, s: State, id: nat, choice: bool, before: State)
    requires WfConfig(c) && Ready(c, s, id, before) && s.ops[id].pc.CheckSlot?
    ensures Goes(c, s, id, choice, before)
  {
    hide NotReady, Serves;
    var op := s.ops[id];
    if SlotOf(s, op).turn != MyTurn(op) {
      IsNotReady(c, s, op);
      NotReadySame(s, op, EffectOf(c, s, op, choice).op);
    }
  }

  lemma IsNotReady(c: Config, s: State, op: Op)
    requires Safe(s, op) && Facts(c, s, op) && op.pc.CheckSlot? && SlotOf(s, op).turn != MyTurn(op)
    ensures NotReady(s, op)
  {
  }

  lemma RecheckStep(c: Config, s: State, id: nat, choice: bool, before: State)
    requires WfConfig(c) && Ready(c, s, id, before) && s.ops[id].pc.Recheck?
    ensures Goes(c, s, id, choice, before)
  {
    hide NotReady, Serves;
    var op := s.ops[id];
    var op' := EffectOf(c, s, op, choice).op;
    if Settled(op'.pc) {
      NotReadySame(before, op, op');
    }
  }

  lemma OnGoes(c: Config, s: State, id: nat, choice: bool, before: State)
    requires WfConfig(c) && Ready(c, s, id, before) && GoesOn(c, s, s.ops[id], choice)
    ensures Goes(c, s, id, choice, before)
  {
    hide Seen, Grounds, EffectOf, Facts, Safe;
    var e := EffectOf(c, s, s.ops[id], choice);
    if !e.Blocked? {
      var op' := e.op;
      if Restarts(op') {
        Restarted(c, op', before);
      } else {
        Carried(c, s.ops[id], op', before);
      }
    }
  }

  lemma StepGoes(c: Config, s: State, id: nat, choice: bool, before: State)
    requires WfConfig(c) && Ready(c, s, id, before)
    ensures Goes(c, s, id, choice, before)
  {
    hide Seen, Grounds, Serves, EffectOf, Facts, Safe;
    var op := s.ops[id];
    match op.pc
    case LoadOther => LoadStep(c, s, id, choice, before);
    case Compare => CompareStep(c, s, id, choice, before);
    case CheckSlot => CheckStep(c, s, id, choice, before);
    case Recheck => RecheckStep(c, s, id, choice, before);
    case _ =>
      if Settled(op.pc) {
        SettledStep(c, s, op, choice);
      } else if op.pc.Wait? || op.pc.Access? || op.pc.Complete? {
        SlotStep(c, s, op, choice);
      } else {
        EarlyStep(c, s, op, choice);
      }
      OnGoes(c, s, id, choice, before);
  }

  // ---- whole runs ---------------------------------------------------------------------------

  /** How the operation of a call stands in the next state of a run: it is new, or as it was, or one step on. */
  datatype Next = New | Same | Moved(choice: bool)

  lemma NextOf(c: Config, s: State, s': State, id: nat) returns (n: Next)
    requires WfConfig(c) && Follows(c, s, s') && id < |s'.ops|
    ensures n.New? ==> s'.ops[id].pc.Start?
    ensures n.New? <==> id >= |s.ops|
    ensures n.Same? ==> s'.ops[id] == s.ops[id]
    ensures n.Moved? ==> Safe(s, s.ops[id])
    ensures n.Moved? ==> var e := EffectOf(c, s, s.ops[id], n.choice); !e.Blocked? && s'.ops[id] == e.op
  {
    hide EffectOf;
    var e :| Apply(c, s, e) == Some(s');
    if e.Call? {
      n := if id < |s.ops| then Same else New;
    } else {
      n := if e.id == id then Moved(e.choice) else Same;
    }
  }

  /** The operation of a call, in state j of a run, has seen what it needs in some state of the call. */
  lemma {:induction false} HasSeen(c: Config, run: seq<State>, j: nat, id: nat) returns (i: nat)
    requires WfConfig(c) && Sized(c) && Run(c, run) && j < |run| && id < |run[j].ops|
    ensures i <= j && id < |run[i].ops| && Seen(c, run[j].ops[id], run[i]) && Grounds(c, run[j].ops[id])
    decreases j
  {
    hide Seen, Grounds, Inv, Sized, Follows, EffectOf;
    if j == 0 {
      assert false;
    }
    var s, s' := run[j - 1], run[j];
    assert Follows(c, s, s');
    var n := NextOf(c, s, s', id);
    if n.New? {
      i := j;
      Restarted(c, s'.ops[id], s');
    } else {
      i := HasSeen(c, run, j - 1, id);
      if n.Moved? {
        InvOverRun(c, run, j - 1);
        InvGivesFacts(c, s, id);
        RunExtends(c, run, i, j - 1);
        StepGoes(c, s, id, n.choice, run[i]);
        if !Seen(c, s'.ops[id], run[i]) {
          i := j - 1;
        }
      }
    }
  }

  /** The step with which an operation fails. */
  lemma {:induction false} FailsAt(c: Config, run: seq<State>, j: nat, id: nat) returns (i: nat, choice: bool)
    requires WfConfig(c) && Run(c, run) && j < |run| && id < |run[j].ops| && run[j].ops[id].pc.Failed?
    ensures i < j && id < |run[i].ops| && !run[i].ops[id].pc.Failed? && Safe(run[i], run[i].ops[id])
    ensures var e := EffectOf(c, run[i], run[i].ops[id], choice); !e.Blocked? && e.op == run[j].ops[id]
    decreases j
  {
    hide Follows, Safe;
    if j == 0 {
      assert false;
    }
    assert Follows(c, run[j - 1], run[j]);
    var n := NextOf(c, run[j - 1], run[j], id);
    if n.Same? {
      i, choice := FailsAt(c, run, j - 1, id);
    } else {
      i, choice := j - 1, n.choice;
    }
  }

  // ---- what a failure means -----------------------------------------------------------------

  /** The push ticket t would have to wait: the element one lap before it has not been popped. */
  ghost predicate PushMustWait(s: State, t: nat, cap: nat) {
    t >= cap && !PopStage(s, t - cap).After?
  }

  /** The pop ticket t would have to wait: its push is not complete. */
  ghost predicate PopMustWait(s: State, t: nat) {
    !PushStage(s, t).After?
  }

  /** A slot that is not at the turn of the next push ticket still holds, or will hold, the element one lap before. */
  lemma NotReadyForPush(c: Config, s: State, op: Op)
    requires WfConfig(c) && Inv(c, s) && NotReady(s, op) && IsPush(op.kind) && op.ticket == s.push
    ensures PushMustWait(s, op.ticket, op.cap)
  {
    hide Inv;
    InvParts(c, s);
    LapBefore(s, op);
  }

  lemma LapBefore(s: State, op: Op)
    requires ArraysAllotted(s) && SlotsOk(s) && s.push == |s.pushHolder|
    requires NotReady(s, op) && IsPush(op.kind) && op.ticket == s.push
    ensures PushMustWait(s, op.ticket, op.cap)
  {
    hide Idx, Turn;
    assert TicketSlotOk(s, op.slots, op.ticket);
    LapEarlier(s, op.slots, op.ticket);
  }

  /** A slot that is not at the turn of a pop ticket waits for its push, or has been emptied by its pop. */
  lemma NotReadyForPop(c: Config, s: State, op: Op)
    requires WfConfig(c) && Inv(c, s) && NotReady(s, op) && !IsPush(op.kind)
    ensures PopMustWait(s, op.ticket) || PopStage(s, op.ticket).After?
    ensures PopStage(s, op.ticket).After? ==> op.ticket < s.pop
  {
    assert TicketSlotOk(s, op.slots, op.ticket);
    assert s.pop == |s.popHolder|;
  }

  /** `write` fails only if, at some moment of the call, the next push would have had to wait for a pop. */
  lemma WriteFailsWhenFull(c: Config, run: seq<State>, j: nat, id: nat) returns (i: nat)
    requires WfConfig(c) && Sized(c) && Run(c, run) && j < |run| && id < |run[j].ops|
    requires var op := run[j].ops[id]; op.kind.Write? && op.pc.Failed?
    ensures i <= j && id < |run[i].ops| && PushMustWait(run[i], run[i].push, run[j].ops[id].cap)
    ensures !c.dynamic ==> run[j].ops[id].cap == c.capacity
  {
    hide Inv, Sized, Follows, NotReady, PushMustWait, Run;
    i := HasSeen(c, run, j, id);
    InvOverRun(c, run, i);
    NotReadyForPush(c, run[i], run[j].ops[id]);
  }

  /** `writeIfNotFull` fails only if, at some moment of the call, as many tickets were pushed and not popped as the
      array has slots. */
  lemma WriteIfNotFullFailsWhenFull(c: Config, run: seq<State>, j: nat, id: nat) returns (i: nat)
    requires WfConfig(c) && Sized(c) && Run(c, run) && j < |run| && id < |run[j].ops|
    requires var op := run[j].ops[id]; op.kind.WriteIfNotFull? && op.pc.Failed?
    ensures i <= j && id < |run[i].ops| && run[i].push - run[i].pop >= run[j].ops[id].cap
    ensures !c.dynamic ==> run[j].ops[id].cap == c.capacity
  {
    hide Inv, Sized, Follows, NotReady, Run;
    i := HasSeen(c, run, j, id);
  }

  /** `readIfNotEmpty` fails only if, at some moment of the call, no ticket was pushed and not popped. */
  lemma ReadIfNotEmptyFailsWhenEmpty(c: Config, run: seq<State>, j: nat, id: nat) returns (i: nat)
    requires WfConfig(c) && Sized(c) && Run(c, run) && j < |run| && id < |run[j].ops|
    requires var op := run[j].ops[id]; op.kind.ReadIfNotEmpty? && op.pc.Failed?
    ensures i <= j && id < |run[i].ops| && run[i].push <= run[i].pop
  {
    hide Inv, Sized, Follows, NotReady, Run;
    i := HasSeen(c, run, j, id);
  }

  /** `read` of a static queue fails only if, at some moment of the call, the next pop would have had to wait for its
      push. */
  lemma StaticReadFailsWhenEmpty(c: Config, run: seq<State>, j: nat, id: nat) returns (i: nat)
    requires WfConfig(c) && Sized(c) && Run(c, run) && j < |run| && id < |run[j].ops| && !c.dynamic
    requires var op := run[j].ops[id]; op.kind.Read? && op.pc.Failed?
    ensures i <= j && id < |run[i].ops| && PopMustWait(run[i], run[i].pop)
  {
    hide Inv, Sized, Follows, NotReady, Run, PopMustWait, PopStage;
    i := HasSeen(c, run, j, id);
    InvOverRun(c, run, i);
    NotReadyForPop(c, run[i], run[j].ops[id]);
  }

  lemma FailingStep(c: Config, s: State, op: Op, choice: bool)
    requires WfConfig(c) && Safe(s, op) && Facts(c, s, op) && c.dynamic && !op.pc.Failed?
    requires var e := EffectOf(c, s, op, choice); !e.Blocked? && e.op.pc.Failed? && IsPush(e.op.kind)
    ensures op.cap == c.capacity || Lags(op) || op.pc.ExpRestore?
  {
    hide SlotOf, MyTurn, Serves;
  }

  /** A read of a dynamic queue gives up at its slot exactly when its push is not complete or another read has used
      its ticket: in the second case whatever the queue holds by then. */
  lemma DynamicReadGivesUp(c: Config, s: State, id: nat, choice: bool)
    requires WfConfig(c) && Sized(c) && Reachable(c, s) && c.dynamic && id < |s.ops|
    requires s.ops[id].kind.Read? && s.ops[id].pc.CheckSlot?
    ensures var t := s.ops[id].ticket;
            Safe(s, s.ops[id]) &&
            (EffectOf(c, s, s.ops[id], choice).op.pc.Failed? <==> PopMustWait(s, t) || PopStage(s, t).After?)
  {
    hide Sized, Reachable, EffectOf, PopStage, PushStage;
    ReachableInv(c, s);
    AlwaysSafe(c, s, id);
    InvGivesFacts(c, s, id);
    var op := s.ops[id];
    CheckAgrees(c, s, op);
    ReadChecks(c, s, op, choice);
  }

  lemma ReadChecks(c: Config, s: State, op: Op, choice: bool)
    requires WfConfig(c) && c.dynamic && Safe(s, op) && op.kind.Read? && op.pc.CheckSlot?
    ensures EffectOf(c, s, op, choice).op.pc.Failed? <==> SlotOf(s, op).turn != MyTurn(op)
  {
    hide SlotOf, MyTurn;
  }

  lemma CheckAgrees(c: Config, s: State, op: Op)
    requires WfConfig(c) && Inv(c, s) && Safe(s, op) && Facts(c, s, op) && op.kind.Read? && op.pc.CheckSlot?
    ensures SlotOf(s, op).turn != MyTurn(op) <==> PopMustWait(s, op.ticket) || PopStage(s, op.ticket).After?
  {
    assert TicketSlotOk(s, op.slots, op.ticket);
  }

  // ---- what is done stays done ----------------------------------------------------------------

  lemma HoldersExtend(c: Config, s: State, s': State)
    requires WfConfig(c) && Follows(c, s, s')
    ensures s.pushHolder <= s'.pushHolder && s.popHolder <= s'.popHolder && |s.ops| <= |s'.ops|
  {
    hide EffectOf, Perform;
    var e :| Apply(c, s, e) == Some(s');
    if e.Move? {
      EffectIsPossible(c, s, s.ops[e.id], e.choice);
      PerformGrows(s, e.id, EffectOf(c, s, s.ops[e.id], e.choice));
    }
  }

  lemma EffectIsPossible(c: Config, s: State, op: Op, choice: bool)
    requires WfConfig(c) && Safe(s, op)
    ensures Possible(s, EffectOf(c, s, op, choice))
  {
    hide SlotOf, MyTurn;
  }

  lemma PerformGrows(s: State, id: nat, e: Effect)
    requires id < |s.ops| && !e.Blocked? && Possible(s, e)
    ensures var s' := Perform(s, id, e);
            s.pushHolder <= s'.pushHolder && s.popHolder <= s'.popHolder && |s.ops| == |s'.ops|
  {
  }

  lemma DoneStays(c: Config, s: State, s': State, t: nat)
    requires WfConfig(c) && Follows(c, s, s') && PushStage(s, t).After?
    ensures PushStage(s', t).After?
  {
    hide Follows;
    HoldersExtend(c, s, s');
    var h := s.pushHolder[t];
    assert s'.pushHolder[t] == h;
    var n := NextOf(c, s, s', h);
  }

  lemma PopDoneStays(c: Config, s: State, s': State, t: nat)
    requires WfConfig(c) && Follows(c, s, s') && PopStage(s, t).After?
    ensures PopStage(s', t).After?
  {
    hide Follows;
    HoldersExtend(c, s, s');
    var h := s.popHolder[t];
    assert s'.popHolder[t] == h;
    var n := NextOf(c, s, s', h);
  }

  lemma {:induction false} PopDoneOverRun(c: Config, run: seq<State>, i: nat, j: nat, t: nat)
    requires WfConfig(c) && Run(c, run) && i <= j < |run| && PopStage(run[i], t).After?
    ensures PopStage(run[j], t).After?
    decreases j
  {
    hide Follows;
    if i < j {
      PopDoneOverRun(c, run, i, j - 1, t);
      assert Follows(c, run[j - 1], run[j]);
      PopDoneStays(c, run[j - 1], run[j], t);
    }
  }

  lemma {:induction false} DoneOverRun(c: Config, run: seq<State>, i: nat, j: nat, t: nat)
    requires WfConfig(c) && Run(c, run) && i <= j < |run| && PushStage(run[i], t).After?
    ensures PushStage(run[j], t).After?
    decreases j
  {
    hide Follows;
    if i < j {
      DoneOverRun(c, run, i, j - 1, t);
      assert Follows(c, run[j - 1], run[j]);
      DoneStays(c, run[j - 1], run[j], t);
    }
  }

  // ---- a read of a dynamic queue that fails -------------------------------------------------------

  /** A read of a dynamic queue keeps the ticket it has loaded until it starts again. */
  lemma ReadKeepsTicket(c: Config, s: State, op: Op, choice: bool)
    requires WfConfig(c) && c.dynamic && Safe(s, op) && Facts(c, s, op) && op.kind.Read?
    ensures var e := EffectOf(c, s, op, choice);
            || e.Blocked? || e.op.pc.Start?
            || e.op.ticket == if op.pc.Start? then s.pop else op.ticket
  {
    hide SlotOf, MyTurn, Serves;
  }

  /** The state in which a read loaded its ticket. */
  lemma {:induction false} LoadedAt(c: Config, run: seq<State>, j: nat, id: nat) returns (l: nat)
    requires WfConfig(c) && Sized(c) && Run(c, run) && j < |run| && id < |run[j].ops| && c.dynamic
    requires run[j].ops[id].kind.Read? && !run[j].ops[id].pc.Start?
    ensures l < j && id < |run[l].ops| && run[j].ops[id].ticket == run[l].pop
    decreases j
  {
    hide Inv, Sized, Follows, EffectOf, Facts;
    if j == 0 {
      assert false;
    }
    var s, s' := run[j - 1], run[j];
    assert Follows(c, s, s');
    var n := NextOf(c, s, s', id);
    if n.Moved? {
      InvOverRun(c, run, j - 1);
      InvGivesFacts(c, s, id);
      KindStays(c, s, s.ops[id], n.choice);
      ReadKeepsTicket(c, s, s.ops[id], n.choice);
    }
    if n.Moved? && s.ops[id].pc.Start? {
      l := j - 1;
    } else {
      l := LoadedAt(c, run, j - 1, id);
    }
  }

  lemma KindStays(c: Config, s: State, op: Op, choice: bool)
    requires WfConfig(c) && Safe(s, op)
    ensures var e := EffectOf(c, s, op, choice); e.Blocked? || (e.op.kind == op.kind && e.op.value == op.value)
  {
    hide EffectOf;
    if Settled(op.pc) || op.pc.Wait? || op.pc.Access? || op.pc.Complete? || op.pc.Done? {
      KindStaysLate(c, s, op, choice);
    } else {
      KindStaysEarly(c, s, op, choice);
    }
  }

  lemma KindStaysEarly(c: Config, s: State, op: Op, choice: bool)
    requires WfConfig(c) && Safe(s, op) && !Settled(op.pc)
    requires !(op.pc.Wait? || op.pc.Access? || op.pc.Complete? || op.pc.Done?)
    ensures var e := EffectOf(c, s, op, choice); !e.Blocked? && e.op.kind == op.kind && e.op.value == op.value
  {
    hide SlotOf, MyTurn, AtTryLock, AtExpSecond, AtFill, AtAccess;
  }

  lemma KindStaysLate(c: Config, s: State, op: Op, choice: bool)
    requires WfConfig(c) && Safe(s, op)
    requires Settled(op.pc) || op.pc.Wait? || op.pc.Access? || op.pc.Complete? || op.pc.Done?
    ensures var e := EffectOf(c, s, op, choice); e.Blocked? || (e.op.kind == op.kind && e.op.value == op.value)
  {
    hide SlotOf, MyTurn, AtStart, AtLoadOther, AtSeqState, AtValidate, AtScan, AtCompare, AtCheckSlot, AtCheckPop;
    hide AtRecheck, AtGrant;
  }

  lemma FailingRead(c: Config, s: State, op: Op, choice: bool)
    requires WfConfig(c) && Safe(s, op) && Facts(c, s, op) && c.dynamic && !op.pc.Failed?
    requires var e := EffectOf(c, s, op, choice); !e.Blocked? && e.op.pc.Failed? && e.op.kind.Read?
    ensures op.kind.Read? && op.pc.CheckSlot? && op.ticket == EffectOf(c, s, op, choice).op.ticket
  {
    hide SlotOf, MyTurn, Serves;
  }

  /** `read` of a dynamic queue, of ticket t, fails only if the next pop would have had to wait for its push in the
      state in which the read loaded t, or another read had used t when it looked at the slot. */
  lemma DynamicReadFailsWhenEmptyOrOutrun(c: Config, run: seq<State>, j: nat, id: nat) returns (l: nat, i: nat)
    requires WfConfig(c) && Sized(c) && Run(c, run) && j < |run| && id < |run[j].ops| && c.dynamic
    requires var op := run[j].ops[id]; op.kind.Read? && op.pc.Failed?
    ensures l <= i < j && id < |run[l].ops| && run[j].ops[id].ticket == run[l].pop
    ensures PopMustWait(run[l], run[l].pop) || PopStage(run[i], run[l].pop).After?
  {
    hide Inv, Sized, Follows, Run, EffectOf, Facts, PopStage, PushStage;
    var choice: bool;
    i, choice := FailsAt(c, run, j, id);
    InvOverRun(c, run, i);
    InvGivesFacts(c, run[i], id);
    var op := run[i].ops[id];
    FailingRead(c, run[i], op, choice);
    l := LoadedAt(c, run, i, id);
    CheckAgrees(c, run[i], op);
    ReadChecks(c, run[i], op, choice);
    if PushStage(run[l], op.ticket).After? {
      DoneOverRun(c, run, l, i, op.ticket);
    }
  }
}
