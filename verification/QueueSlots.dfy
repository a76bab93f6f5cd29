/** The invariant that ties every slot's sequencer and storage to the progress of the
    push and the pop holding each ticket. */
module QueueSlots {
  import opened Options
  import opened TicketIndex
  import opened QueueMachine
  import opened QueueTickets
  import opened QueueExpansion

  /** How far the operation holding a ticket has got with its slot. */
  datatype Stage = Before | Touched | After

  function StageOf(pc: Pc): (g: Stage) {
    if pc.Complete? then Touched else if pc.Done? then After else Before
  }

  function PushStage(s: State, t: nat): (g: Stage) {
    if t < |s.pushHolder| && s.pushHolder[t] < |s.ops| then StageOf(s.ops[s.pushHolder[t]].pc) else Before
  }

  function PopStage(s: State, t: nat): (g: Stage) {
    if t < |s.popHolder| && s.popHolder[t] < |s.ops| then StageOf(s.ops[s.popHolder[t]].pc) else Before
  }

  /** The element carried by the push that holds ticket t. */
  function Pushed(s: State, t: nat): (v: Elem) {
    if t < |s.pushHolder| && s.pushHolder[t] < |s.ops| then s.ops[s.pushHolder[t]].value else 0
  }

  /** Tickets between an array's offset and the next array's offset belong to it. */
  ghost predicate Serves(arrays: seq<Array>, i: nat, t: nat) {
    i < |arrays| && arrays[i].offset <= t && forall j :: i < j < |arrays| ==> t < arrays[j].offset
  }

  predicate Allotted(s: State, i: nat) {
    i < |s.arrays| && i < |s.heap| && s.arrays[i].cap > 0 && |s.heap[i]| == s.arrays[i].cap
  }

  function SlotAt(s: State, i: nat, t: nat): (slot: Slot)
    requires Allotted(s, i) && s.arrays[i].offset <= t
  {
    s.heap[i][Idx(t - s.arrays[i].offset, s.arrays[i].cap, s.arrays[i].stride)]
  }

  function LapAt(s: State, i: nat, t: nat): (k: nat)
    requires Allotted(s, i) && s.arrays[i].offset <= t
  {
    Turn(t - s.arrays[i].offset, s.arrays[i].cap)
  }

  /** The slot of ticket t, against the progress of its push and its pop. */
  predicate Agrees(slot: Slot, k: nat, push: Stage, pop: Stage, v: Elem) {
    (&& (push.After? <==> slot.turn > 2 * k)
     && (pop.After? <==> slot.turn > 2 * k + 1)
     && (slot.turn == 2 * k ==> slot.contents == if push.Touched? then Some(v) else None)
     && (slot.turn == 2 * k + 1 ==> slot.contents == if pop.Touched? then None else Some(v))) == true
  }

  predicate TicketSlotOk(s: State, i: nat, t: nat)
    requires Allotted(s, i) && s.arrays[i].offset <= t
  {
    Agrees(SlotAt(s, i, t), LapAt(s, i, t), PushStage(s, t), PopStage(s, t), Pushed(s, t))
  }

  ghost predicate ArraysAllotted(s: State) {
    forall i :: 0 <= i < |s.arrays| ==> Allotted(s, i)
  }

  ghost predicate SlotsOk(s: State)
    requires ArraysAllotted(s)
  {
    forall i: nat, t: nat :: Serves(s.arrays, i, t) ==> TicketSlotOk(s, i, t)
  }

  /** An operation on its slot finds its own turn; a pop that has read holds the pushed element. */
  predicate OpSlotOk(s: State, op: Op) {
    && (op.pc.Access? || op.pc.Complete? ==> SlotInBounds(s, op) && SlotOf(s, op).turn == MyTurn(op))
    && ((op.kind.Write? || op.kind.Read?) && (op.pc.Grant? || op.pc.Wait?) ==>
          SlotInBounds(s, op) && SlotOf(s, op).turn >= MyTurn(op))
    && (!IsPush(op.kind) && (op.pc.Complete? || op.pc.Done?) ==>
          op.ticket < s.push && op.elem == Some(Pushed(s, op.ticket)))
  }

  ghost predicate OpSlotsOk(s: State) {
    forall id :: 0 <= id < |s.ops| ==> OpSlotOk(s, s.ops[id])
  }

  ghost predicate SlotInv(s: State) {
    ArraysAllotted(s) && SlotsOk(s) && OpSlotsOk(s)
  }

  // ---- steps that touch no slot ----------------------------------------------------

  lemma SlotSame(s: State, s': State, i: nat, t: nat)
    requires Allotted(s, i) && s.arrays[i].offset <= t
    requires i < |s'.arrays| && s'.arrays[i] == s.arrays[i] && i < |s'.heap| && s'.heap[i] == s.heap[i]
    ensures Allotted(s', i) && SlotAt(s', i, t) == SlotAt(s, i, t) && LapAt(s', i, t) == LapAt(s, i, t)
  {
  }

  ghost predicate SameArrays(s: State, s': State) {
    && s'.arrays == s.arrays
    && |s.arrays| <= |s'.heap|
    && forall i :: 0 <= i < |s.arrays| && i < |s.heap| ==> s'.heap[i] == s.heap[i]
  }

  ghost predicate SameTicket(s: State, s': State, t: nat) {
    && PushStage(s', t) == PushStage(s, t)
    && PopStage(s', t) == PopStage(s, t)
    && (t < |s.pushHolder| ==> Pushed(s', t) == Pushed(s, t))
  }

  lemma TicketSlotSame(s: State, s': State, i: nat, t: nat)
    requires Allotted(s, i) && s.arrays[i].offset <= t && TicketSlotOk(s, i, t)
    requires SameArrays(s, s') && SameTicket(s, s', t)
    ensures Allotted(s', i) && TicketSlotOk(s', i, t)
  {
    SlotSame(s, s', i, t);
  }

  lemma SlotsSame(s: State, s': State)
    requires ArraysAllotted(s) && SlotsOk(s) && SameArrays(s, s')
    requires forall t: nat :: SameTicket(s, s', t)
    ensures ArraysAllotted(s') && SlotsOk(s')
  {
    forall i | 0 <= i < |s'.arrays| ensures Allotted(s', i) { assert Allotted(s, i); }
    forall i: nat, t: nat | Serves(s'.arrays, i, t) ensures TicketSlotOk(s', i, t) {
      assert Serves(s.arrays, i, t);
      assert SameTicket(s, s', t);
      TicketSlotSame(s, s', i, t);
    }
  }

  /** Operation `id` moves without a change of stage, perhaps taking the next ticket. */
  ghost predicate Quiet(s: State, s': State, id: nat, op': Op) {
    && id < |s.ops| && s'.ops == s.ops[id := op']
    && op'.value == s.ops[id].value && StageOf(op'.pc) == StageOf(s.ops[id].pc)
    && s.push == |s.pushHolder| && s'.push == |s'.pushHolder|
    && (s'.pushHolder == s.pushHolder || (s'.pushHolder == s.pushHolder + [id] && StageOf(op'.pc).Before?))
    && (s'.popHolder == s.popHolder || (s'.popHolder == s.popHolder + [id] && StageOf(op'.pc).Before?))
  }

  lemma QuietTicket(s: State, s': State, id: nat, op': Op, t: nat)
    requires Quiet(s, s', id, op')
    ensures SameTicket(s, s', t)
  {
  }

  lemma QuietOp(s: State, s': State, id: nat, op': Op, op: Op)
    requires Quiet(s, s', id, op') && s.heap <= s'.heap && OpSlotOk(s, op)
    ensures OpSlotOk(s', op)
  {
    QuietTicket(s, s', id, op', op.ticket);
  }

  lemma QuietStep(s: State, s': State, id: nat, op': Op)
    requires SlotInv(s) && Quiet(s, s', id, op') && s'.arrays == s.arrays && s.heap <= s'.heap
    requires OpSlotOk(s', op')
    ensures SlotInv(s')
  {
    forall t: nat ensures SameTicket(s, s', t) { QuietTicket(s, s', id, op', t); }
    assert SameArrays(s, s') by {
      if |s.arrays| > 0 { assert Allotted(s, |s.arrays| - 1); }
    }
    SlotsSame(s, s');
    forall j | 0 <= j < |s'.ops| ensures OpSlotOk(s', s'.ops[j]) {
      if j != id { QuietOp(s, s', id, op', s.ops[j]); }
    }
  }

  // ---- steps on a slot ---------------------------------------------------------------

  /** Whoever holds the ticket of a push or a pop under way is that push or pop. */
  lemma StageOfHolder(c: Config, s: State, id: nat)
    requires WfConfig(c) && TicketInv(c, s) && id < |s.ops|
    requires Granted(s.ops[id]) && Resolved(s.ops[id].pc)
    ensures var op := s.ops[id];
      && Serves(s.arrays, op.slots, op.ticket)
      && s.arrays[op.slots] == Array(op.offset, op.slots, op.cap, op.stride)
      && op.slots < |s.heap| && op.cap > 0 && |s.heap[op.slots]| == op.cap
      && (if IsPush(op.kind) then op.ticket < |s.pushHolder| && s.pushHolder[op.ticket] == id
          else op.ticket < |s.popHolder| && s.popHolder[op.ticket] == id)
  {
    assert OpAt(c, s, id);
  }

  /** Two operations on one slot have different turns. */
  lemma TurnsDiffer(c: Config, s: State, id1: nat, id2: nat)
    requires WfConfig(c) && TicketInv(c, s) && id1 < |s.ops| && id2 < |s.ops| && id1 != id2
    requires Granted(s.ops[id1]) && Resolved(s.ops[id1].pc)
    requires Granted(s.ops[id2]) && Resolved(s.ops[id2].pc)
    requires s.ops[id1].slots == s.ops[id2].slots
    ensures SlotInBounds(s, s.ops[id1]) && SlotInBounds(s, s.ops[id2])
    ensures SlotIndex(s.ops[id1]) == SlotIndex(s.ops[id2]) ==> MyTurn(s.ops[id1]) != MyTurn(s.ops[id2])
  {
    StageOfHolder(c, s, id1);
    StageOfHolder(c, s, id2);
    var o1, o2 := s.ops[id1], s.ops[id2];
    assert GoodStride(o1.cap, o1.stride) by { assert GoodStride(s.arrays[o1.slots].cap, s.arrays[o1.slots].stride); }
    SameTurnSameTicket(o1.ticket - o1.offset, o2.ticket - o1.offset, o1.cap, o1.stride);
  }

  lemma SameTurnSameTicket(t1: nat, t2: nat, cap: nat, stride: nat)
    requires cap > 0 && GoodStride(cap, stride)
    ensures Idx(t1, cap, stride) == Idx(t2, cap, stride) && Turn(t1, cap) == Turn(t2, cap) ==> t1 == t2
  {
  }

  /** What an operation at Access or Complete does to its slot. */
  function TouchEffect(op: Op, slot: Slot): (e: Effect)
    requires (op.pc.Access? || op.pc.Complete?) && op.cap > 0 && op.offset <= op.ticket
    ensures e.Touch? && e.op.kind == op.kind && e.op.value == op.value && (e.op.pc.Complete? || e.op.pc.Done?)
    ensures e.op.ticket == op.ticket && e.op.slots == op.slots
    ensures e.op.offset == op.offset && e.op.cap == op.cap && e.op.stride == op.stride
  {
    if op.pc.Access? then AtAccess(op, slot) else Touch(op.(pc := Done), slot.(turn := MyTurn(op) + 1))
  }

  /** The ticket itself: its stage and its slot move together. */
  lemma OwnTicket(op: Op, slot: Slot, k: nat, push: Stage, pop: Stage, v: Elem)
    requires (op.pc.Access? || op.pc.Complete?) && op.cap > 0 && op.offset <= op.ticket
    requires Agrees(slot, k, push, pop, v) && slot.turn == MyTurn(op) == 2 * k + (if IsPush(op.kind) then 0 else 1)
    requires if IsPush(op.kind) then push == StageOf(op.pc) && v == op.value else pop == StageOf(op.pc)
    requires pop.Touched? ==> slot.turn == 2 * k + 1
    ensures var e := TouchEffect(op, slot);
      && Agrees(e.slot, k, if IsPush(op.kind) then StageOf(e.op.pc) else push,
                if IsPush(op.kind) then pop else StageOf(e.op.pc), v)
      && (!IsPush(op.kind) && op.pc.Access? ==> e.op.elem == Some(v) && push.After?)
  {
  }

  /** Another ticket on the same slot, on another lap, notices nothing. */
  lemma OtherLap(op: Op, slot: Slot, k: nat, k2: nat, push: Stage, pop: Stage, v: Elem)
    requires (op.pc.Access? || op.pc.Complete?) && op.cap > 0 && op.offset <= op.ticket
    requires Agrees(slot, k2, push, pop, v) && slot.turn == MyTurn(op) == 2 * k + (if IsPush(op.kind) then 0 else 1)
    requires k2 != k
    requires op.pc.Complete? && !IsPush(op.kind) ==> slot.contents == None
    requires push.Touched? ==> slot.turn == 2 * k2
    requires pop.Touched? ==> slot.turn == 2 * k2 + 1
    ensures Agrees(TouchEffect(op, slot).slot, k2, push, pop, v)
  {
  }

  /** A touched ticket's slot shows the toucher's turn. */
  lemma TouchedShowsTurn(c: Config, s: State, i: nat, t: nat)
    requires WfConfig(c) && TicketInv(c, s) && OpSlotsOk(s) && Serves(s.arrays, i, t) && Allotted(s, i)
    ensures PushStage(s, t).Touched? ==> SlotAt(s, i, t).turn == 2 * LapAt(s, i, t)
    ensures PopStage(s, t).Touched? ==> SlotAt(s, i, t).turn == 2 * LapAt(s, i, t) + 1
  {
    hide GoodStride, CapacityChain, DynamicOk;
    if PushStage(s, t).Touched? {
      assert PushHeld(s, t);
      var id := s.pushHolder[t];
      StageOfHolder(c, s, id);
      SameArray(s.arrays, i, s.ops[id].slots, t);
    }
    if PopStage(s, t).Touched? {
      assert PopHeld(s, t);
      var id := s.popHolder[t];
      StageOfHolder(c, s, id);
      SameArray(s.arrays, i, s.ops[id].slots, t);
    }
  }

  /** At most one array serves a ticket. */
  lemma SameArray(arrays: seq<Array>, i: nat, j: nat, t: nat)
    requires Serves(arrays, i, t) && Serves(arrays, j, t)
    ensures i == j
  {
  }

  /** What the ticket invariant says of an operation that is on its slot. */
  ghost predicate OnSlot(s: State, id: nat) {
    && id < |s.ops|
    && var op := s.ops[id];
       && (op.pc.Access? || op.pc.Complete?)
       && SlotInBounds(s, op)
       && Serves(s.arrays, op.slots, op.ticket)
       && s.arrays[op.slots] == Array(op.offset, op.slots, op.cap, op.stride)
       && GoodStride(op.cap, op.stride)
       && (if IsPush(op.kind) then op.ticket < |s.pushHolder| && s.pushHolder[op.ticket] == id
           else op.ticket < |s.popHolder| && s.popHolder[op.ticket] == id)
  }

  lemma IsOnSlot(c: Config, s: State, id: nat)
    requires WfConfig(c) && TicketInv(c, s) && id < |s.ops| && (s.ops[id].pc.Access? || s.ops[id].pc.Complete?)
    ensures OnSlot(s, id) && HoldersOk(s)
  {
    StageOfHolder(c, s, id);
    var a := s.arrays[s.ops[id].slots];
    assert GoodStride(a.cap, a.stride);
  }

  function TouchOf(s: State, id: nat): (e: Effect)
    requires id < |s.ops| && (s.ops[id].pc.Access? || s.ops[id].pc.Complete?) && SlotInBounds(s, s.ops[id])
  {
    TouchEffect(s.ops[id], SlotOf(s, s.ops[id]))
  }

  function AfterTouch(s: State, id: nat): (s': State)
    requires id < |s.ops| && (s.ops[id].pc.Access? || s.ops[id].pc.Complete?) && SlotInBounds(s, s.ops[id])
  {
    PerformTouch(s, id, TouchOf(s, id).op, TouchOf(s, id).slot)
  }

  /** Only the toucher's own ticket changes stage. */
  lemma TouchStages(s: State, id: nat, t: nat)
    requires OnSlot(s, id) && HoldersOk(s)
    ensures var op, s' := s.ops[id], AfterTouch(s, id);
      && PushStage(s', t) == (if IsPush(op.kind) && t == op.ticket then StageOf(TouchOf(s, id).op.pc)
                              else PushStage(s, t))
      && PopStage(s', t) == (if !IsPush(op.kind) && t == op.ticket then StageOf(TouchOf(s, id).op.pc)
                             else PopStage(s, t))
      && Pushed(s', t) == Pushed(s, t)
  {
    if t < |s.pushHolder| { assert PushHeld(s, t); }
    if t < |s.popHolder| { assert PopHeld(s, t); }
  }

  lemma TouchSlotAt(s: State, id: nat, i: nat, t: nat)
    requires OnSlot(s, id) && Allotted(s, i) && s.arrays[i].offset <= t
    ensures var op, s' := s.ops[id], AfterTouch(s, id);
      && Allotted(s', i) && LapAt(s', i, t) == LapAt(s, i, t)
      && SlotAt(s', i, t) ==
           if i == op.slots && Idx(t - op.offset, op.cap, op.stride) == SlotIndex(op) then TouchOf(s, id).slot
           else SlotAt(s, i, t)
  {
  }

  /** The step of operation `id` on its slot, seen from any ticket. */
  lemma TouchTicket(s: State, id: nat, i: nat, t: nat)
    requires OnSlot(s, id) && HoldersOk(s) && Allotted(s, i) && Serves(s.arrays, i, t) && TicketSlotOk(s, i, t)
    requires Allotted(s, s.ops[id].slots) && TicketSlotOk(s, s.ops[id].slots, s.ops[id].ticket)
    requires SlotOf(s, s.ops[id]).turn == MyTurn(s.ops[id])
    requires PushStage(s, t).Touched? ==> SlotAt(s, i, t).turn == 2 * LapAt(s, i, t)
    requires PopStage(s, t).Touched? ==> SlotAt(s, i, t).turn == 2 * LapAt(s, i, t) + 1
    ensures Allotted(AfterTouch(s, id), i) && TicketSlotOk(AfterTouch(s, id), i, t)
  {
    var op := s.ops[id];
    var slot := SlotOf(s, op);
    var k := Turn(op.ticket - op.offset, op.cap);
    TouchStages(s, id, t);
    TouchSlotAt(s, id, i, t);
    if t == op.ticket {
      SameArray(s.arrays, i, op.slots, t);
      OwnTicket(op, slot, k, PushStage(s, t), PopStage(s, t), Pushed(s, t));
    } else if i == op.slots && Idx(t - op.offset, op.cap, op.stride) == SlotIndex(op) {
      SameTurnSameTicket(t - op.offset, op.ticket - op.offset, op.cap, op.stride);
      OtherLap(op, slot, k, LapAt(s, i, t), PushStage(s, t), PopStage(s, t), Pushed(s, t));
    }
  }

  /** Another operation's view of its own slot survives the touch. */
  lemma TouchOther(c: Config, s: State, id: nat, j: nat)
    requires WfConfig(c) && TicketInv(c, s) && OnSlot(s, id) && HoldersOk(s)
    requires j < |s.ops| && j != id && OpSlotOk(s, s.ops[j]) && OpSlotOk(s, s.ops[id])
    ensures OpSlotOk(AfterTouch(s, id), s.ops[j])
  {
    var o, op := s.ops[j], s.ops[id];
    if (o.pc.Access? || o.pc.Complete?) && o.slots == op.slots {
      TurnsDiffer(c, s, id, j);
    }
    TouchStages(s, id, o.ticket);
    TouchedSlotOf(s, id, o);
  }

  lemma TouchedSlotOf(s: State, id: nat, o: Op)
    requires OnSlot(s, id)
    ensures SlotInBounds(s, o) ==>
      && SlotInBounds(AfterTouch(s, id), o)
      && SlotOf(AfterTouch(s, id), o) ==
           if o.slots == s.ops[id].slots && SlotIndex(o) == SlotIndex(s.ops[id]) then TouchOf(s, id).slot
           else SlotOf(s, o)
  {
  }

  lemma TouchSelf(s: State, id: nat)
    requires OnSlot(s, id) && HoldersOk(s) && OpSlotOk(s, s.ops[id])
    requires Allotted(s, s.ops[id].slots) && TicketSlotOk(s, s.ops[id].slots, s.ops[id].ticket)
    ensures OpSlotOk(AfterTouch(s, id), TouchOf(s, id).op)
  {
    var op := s.ops[id];
    TouchStages(s, id, op.ticket);
    TouchedSlotOf(s, id, TouchOf(s, id).op);
  }

  /** An operation that writes, reads or completes on its slot keeps all slots right. */
  lemma TouchKeepsSlots(c: Config, s: State, id: nat)
    requires WfConfig(c) && TicketInv(c, s) && SlotInv(s) && OnSlot(s, id)
    ensures SlotInv(AfterTouch(s, id))
  {
    var s' := AfterTouch(s, id);
    var op := s.ops[id];
    forall i | 0 <= i < |s'.arrays| ensures Allotted(s', i) {
      assert Allotted(s, i);
      TouchSlotAt(s, id, i, s.arrays[i].offset);
    }
    forall i: nat, t: nat | Serves(s'.arrays, i, t) ensures TicketSlotOk(s', i, t) {
      TouchedShowsTurn(c, s, i, t);
      TouchTicket(s, id, i, t);
    }
    forall j | 0 <= j < |s'.ops| ensures OpSlotOk(s', s'.ops[j]) {
      if j != id { TouchOther(c, s, id, j); } else { TouchSelf(s, id); }
    }
  }

  // ---- publishing a new array ----------------------------------------------------------

  /** No operation on a ticket the new array will serve has touched a slot yet. */
  lemma NewTicketsUntouched(c: Config, s: State, id: nat, t: nat)
    requires WfConfig(c) && TicketInv(c, s) && id < |s.ops| && s.ops[id].pc.ExpRelease? && t >= s.ops[id].newOffset
    ensures PushStage(s, t).Before? && PopStage(s, t).Before?
  {
    if t < |s.pushHolder| {
      assert PushHeld(s, t);
      assert OpAt(c, s, s.pushHolder[t]);
    }
    if t < |s.popHolder| {
      assert PopHeld(s, t);
      assert OpAt(c, s, s.popHolder[t]);
    }
  }

  lemma ReleaseKeepsSlots(c: Config, s: State, id: nat)
    requires WfConfig(c) && TicketInv(c, s) && SlotInv(s) && id < |s.ops| && s.ops[id].pc.ExpRelease?
    ensures SlotInv(PerformRelease(s, id, Retry(s.ops[id])))
  {
    hide TicketInv, Idx, Turn;
    var op := s.ops[id];
    var op' := Retry(op);
    var s' := PerformRelease(s, id, op');
    ReleaseFacts(c, s, id);
    forall i | 0 <= i < |s'.arrays| ensures Allotted(s', i) {
      if i < |s.arrays| { assert Allotted(s, i); }
    }
    forall i: nat, t: nat | Serves(s'.arrays, i, t) ensures TicketSlotOk(s', i, t) {
      QuietTicket(s, s', id, op', t);
      if i < |s.arrays| {
        ServesPrefix(s.arrays, NewArray(op), i, t);
        assert TicketSlotOk(s, i, t);
        SlotSame(s, s', i, t);
      } else {
        NewTicketsUntouched(c, s, id, t);
      }
    }
    forall j | 0 <= j < |s'.ops| ensures OpSlotOk(s', s'.ops[j]) {
      if j != id { QuietOp(s, s', id, op', s.ops[j]); }
    }
  }

  lemma ServesPrefix(arrays: seq<Array>, a: Array, i: nat, t: nat)
    requires Serves(arrays + [a], i, t) && i < |arrays|
    ensures Serves(arrays, i, t)
  {
    assert forall j :: 0 <= j < |arrays| ==> (arrays + [a])[j] == arrays[j];
  }

  lemma ReleaseFacts(c: Config, s: State, id: nat)
    requires WfConfig(c) && TicketInv(c, s) && id < |s.ops| && s.ops[id].pc.ExpRelease?
    ensures var op := s.ops[id];
      && s.push == |s.pushHolder| && |s.heap| == |s.arrays| + 1 && s.heap[|s.arrays|] == FreshSlots(op.newCap) &&
            op.newCap > 0
  {
  }
}
