/** The promises of the queue, for every reachable state and every run. */
module QueueTheorems {
  import opened Options
  import opened TicketIndex
  import opened QueueMachine
  import opened QueueTickets
  import opened QueueTicketProof
  import opened QueueSlots
  import opened QueueSafety

  /** The elements in the order of the tickets under which they were pushed. */
  function PushOrder(s: State): (r: seq<Elem>) {
    seq(|s.pushHolder|, t requires 0 <= t < |s.pushHolder| => Pushed(s, t))
  }

  /** The elements obtained by the first n pops, in ticket order. */
  function PopOrder(s: State, n: nat): (r: seq<Option<Elem>>)
    requires n <= |s.popHolder|
    requires forall t :: 0 <= t < n ==> s.popHolder[t] < |s.ops|
  {
    seq(n, t requires 0 <= t < n => s.ops[s.popHolder[t]].elem)
  }

  // ---- a push and a pop with one ticket meet -------------------------------------------

  /** Operations with the same ticket, once they know their array, know the same array. */
  lemma SameTicketSameArray(c: Config, s: State, p: nat, q: nat)
    requires WfConfig(c) && Sized(c) && Reachable(c, s) && p < |s.ops| && q < |s.ops|
    requires Resolved(s.ops[p].pc) && Resolved(s.ops[q].pc) && s.ops[p].ticket == s.ops[q].ticket
    ensures var a, b := s.ops[p], s.ops[q];
            a.slots == b.slots && a.offset == b.offset && a.cap == b.cap && a.stride == b.stride
  {
    hide Reachable, Sized, SlotInv, DynamicOk, HoldersOk, ArraysOk;
    ReachableInv(c, s);
    assert OpAt(c, s, p) && OpAt(c, s, q);
  }

  /** A ticket is held by one push and one pop at most. */
  lemma TicketsAreUnique(c: Config, s: State, p: nat, q: nat)
    requires WfConfig(c) && Sized(c) && Reachable(c, s) && p < |s.ops| && q < |s.ops|
    requires Granted(s.ops[p]) && Granted(s.ops[q]) && IsPush(s.ops[p].kind) == IsPush(s.ops[q].kind)
    ensures s.ops[p].ticket == s.ops[q].ticket <==> p == q
  {
    hide Reachable, Sized, SlotInv, DynamicOk, HoldersOk, ArraysOk;
    ReachableInv(c, s);
    assert OpAt(c, s, p) && OpAt(c, s, q);
  }

  /** A completed pop holds the element of the completed push with its ticket. */
  lemma PopGetsPush(c: Config, s: State, q: nat)
    requires WfConfig(c) && Sized(c) && Reachable(c, s) && q < |s.ops|
    requires !IsPush(s.ops[q].kind) && s.ops[q].pc.Done?
    ensures var t := s.ops[q].ticket;
      && t < |s.pushHolder| && s.pushHolder[t] < |s.ops|
      && var p := s.ops[s.pushHolder[t]];
         IsPush(p.kind) && p.ticket == t && p.pc.Done? && s.ops[q].elem == Some(p.value)
  {
    ReachableInv(c, s);
    StageOfHolder(c, s, q);
    var op := s.ops[q];
    assert PushHeld(s, op.ticket);
    assert TicketSlotOk(s, op.slots, op.ticket);
  }

  /** First in, first out: once the first n pops are done they hold the first n elements pushed. */
  lemma Fifo(c: Config, s: State, n: nat)
    requires WfConfig(c) && Sized(c) && Reachable(c, s) && n <= |s.popHolder|
    requires forall t :: 0 <= t < n ==> PopStage(s, t).After?
    ensures n <= |s.pushHolder|
    ensures forall t :: 0 <= t < n ==> s.popHolder[t] < |s.ops|
    ensures |PopOrder(s, n)| == n && forall t :: 0 <= t < n ==> PopOrder(s, n)[t] == Some(PushOrder(s)[t])
  {
    forall t | 0 <= t < n
      ensures s.popHolder[t] < |s.ops|
      ensures t < |s.pushHolder| && s.ops[s.popHolder[t]].elem == Some(Pushed(s, t))
    {
      PoppedInOrder(c, s, t);
    }
    if n > 0 { PoppedInOrder(c, s, n - 1); }
  }

  lemma PoppedInOrder(c: Config, s: State, t: nat)
    requires WfConfig(c) && Sized(c) && Reachable(c, s) && t < |s.popHolder| && PopStage(s, t).After?
    ensures s.popHolder[t] < |s.ops| && t < |s.pushHolder|
    ensures s.ops[s.popHolder[t]].elem == Some(Pushed(s, t))
  {
    ReachableInv(c, s);
    assert PopHeld(s, t);
    PopGetsPush(c, s, s.popHolder[t]);
  }

  // ---- slots ---------------------------------------------------------------------------

  /** The slot of an operation, against the progress of the push and the pop of its ticket. */
  lemma OwnSlotAgrees(c: Config, s: State, id: nat)
    requires WfConfig(c) && Inv(c, s) && id < |s.ops| && Granted(s.ops[id]) && Resolved(s.ops[id].pc)
    ensures var op := s.ops[id];
      && SlotInBounds(s, op)
      && Agrees(SlotOf(s, op), Turn(op.ticket - op.offset, op.cap), PushStage(s, op.ticket), PopStage(s, op.ticket),
            Pushed(s, op.ticket))
      && (if IsPush(op.kind) then PushStage(s, op.ticket) else PopStage(s, op.ticket)) == StageOf(op.pc)
  {
    StageOfHolder(c, s, id);
    assert TicketSlotOk(s, s.ops[id].slots, s.ops[id].ticket);
  }

  /** A push finds its slot empty and a pop finds the element pushed with its ticket: nothing
      is overwritten before it is read, and nothing is read twice. */
  lemma AccessFindsWhatItNeeds(c: Config, s: State, id: nat)
    requires WfConfig(c) && Sized(c) && Reachable(c, s) && id < |s.ops| && s.ops[id].pc.Access?
    ensures SlotInBounds(s, s.ops[id])
    ensures SlotOf(s, s.ops[id]).contents == if IsPush(s.ops[id].kind) then None else Some(Pushed(s, s.ops[id].ticket))
    ensures !IsPush(s.ops[id].kind) ==> PushStage(s, s.ops[id].ticket).After?
  {
    hide Reachable, Sized, TicketInv;
    ReachableInv(c, s);
    OwnSlotAgrees(c, s, id);
  }

  /** A turn is completed only when it is the turn the slot is at. */
  lemma CompletesItsOwnTurn(c: Config, s: State, id: nat)
    requires WfConfig(c) && Sized(c) && Reachable(c, s) && id < |s.ops|
    requires s.ops[id].pc.Access? || s.ops[id].pc.Complete?
    ensures SlotInBounds(s, s.ops[id]) && SlotOf(s, s.ops[id]).turn == MyTurn(s.ops[id])
  {
    ReachableInv(c, s);
  }

  /** No operation ever leaves its arrays. */
  lemma AlwaysSafe(c: Config, s: State, id: nat)
    requires WfConfig(c) && Sized(c) && Reachable(c, s) && id < |s.ops|
    ensures Safe(s, s.ops[id])
  {
    ReachableInv(c, s);
    NeverUnsafe(c, s, id);
  }

  // ---- waiting -------------------------------------------------------------------------

  /** What waiting means: the sequencer has not reached the turn. */
  predicate Waits(s: State, op: Op) {
    op.pc.Wait? && SlotInBounds(s, op) && SlotOf(s, op).turn != MyTurn(op)
  }

  lemma TurnAtMostMine(c: Config, s: State, id: nat)
    requires WfConfig(c) && Inv(c, s) && id < |s.ops| && s.ops[id].pc.Wait?
    ensures SlotInBounds(s, s.ops[id]) && SlotOf(s, s.ops[id]).turn <= MyTurn(s.ops[id])
  {
    OwnSlotAgrees(c, s, id);
  }

  /** A ticket won by write or read never waits for its slot. */
  lemma ReadyTicketsNeverWait(c: Config, s: State, id: nat)
    requires WfConfig(c) && Sized(c) && Reachable(c, s) && id < |s.ops|
    requires s.ops[id].kind.Write? || s.ops[id].kind.Read?
    ensures !Waits(s, s.ops[id])
  {
    hide Reachable, Sized, TicketInv;
    ReachableInv(c, s);
    if s.ops[id].pc.Wait? { TurnAtMostMine(c, s, id); }
  }

  /** A slot that has not got to the push of ticket t waits for the pop one lap earlier. */
  lemma LapEarlier(s: State, i: nat, t: nat)
    requires ArraysAllotted(s) && SlotsOk(s) && Serves(s.arrays, i, t) && SlotAt(s, i, t).turn < 2 * LapAt(s, i, t)
    ensures t >= s.arrays[i].offset + s.arrays[i].cap && !PopStage(s, t - s.arrays[i].cap).After?
  {
    hide Idx, Turn, PopStage, PushStage, Pushed;
    var a := s.arrays[i];
    EarlierLap(t - a.offset, a.cap, a.stride);
    TurnIsLap(t - a.offset, a.cap);
    var u := t - a.cap;
    assert u - a.offset == t - a.offset - a.cap;
    assert Serves(s.arrays, i, u);
    assert TicketSlotOk(s, i, u);
  }

  lemma TurnIsLap(t: nat, cap: nat)
    requires cap > 0
    ensures Turn(t, cap) >= 1 <==> t / cap >= 1
  {
  }

  /** The ticket one lap earlier, which must be out of the slot first. */
  lemma PreviousLap(c: Config, s: State, id: nat)
    requires WfConfig(c) && Inv(c, s) && id < |s.ops| && s.ops[id].pc.Wait? && IsPush(s.ops[id].kind)
    requires Waits(s, s.ops[id])
    ensures var op := s.ops[id];
      && op.ticket >= op.offset + op.cap
      && !PopStage(s, op.ticket - op.cap).After?
  {
    hide Inv, Idx, Turn, TicketSlotOk;
    var op := s.ops[id];
    InvParts(c, s);
    TurnAtMostMine(c, s, id);
    StageOfHolder(c, s, id);
    LapEarlier(s, op.slots, op.ticket);
  }

  lemma InvParts(c: Config, s: State)
    requires WfConfig(c) && Inv(c, s)
    ensures TicketInv(c, s) && ArraysAllotted(s) && SlotsOk(s) && s.push == |s.pushHolder| && s.pop == |s.popHolder|
  {
    hide TicketSlotOk, ArraysOk, DynamicOk, LockOk, OpsOk;
  }

  lemma EarlierLap(t: nat, cap: nat, stride: nat)
    requires cap > 0
    ensures t / cap >= 1 ==>
              t >= cap && Idx(t - cap, cap, stride) == Idx(t, cap, stride) && Turn(t - cap, cap) == Turn(t, cap) - 1
  {
    if t / cap >= 1 { NextLap(t - cap, cap, stride); }
  }

  /** A ticket won by writeIfNotFull waits, if at all, for a pop whose ticket is already granted. */
  lemma PromisedPushWaitsForGrantedPop(c: Config, s: State, id: nat)
    requires WfConfig(c) && Sized(c) && Reachable(c, s) && id < |s.ops| && Waits(s, s.ops[id])
    requires s.ops[id].kind.WriteIfNotFull?
    ensures var op := s.ops[id];
      op.ticket >= op.offset + op.cap && op.ticket - op.cap < s.pop && !PopStage(s, op.ticket - op.cap).After?
  {
    hide Reachable, Sized, TicketInv;
    ReachableInv(c, s);
    PreviousLap(c, s, id);
    InvGivesView(c, s, id);
  }

  /** A ticket won by readIfNotEmpty waits, if at all, for a push whose ticket is already granted. */
  lemma PromisedPopWaitsForGrantedPush(c: Config, s: State, id: nat)
    requires WfConfig(c) && Sized(c) && Reachable(c, s) && id < |s.ops| && Waits(s, s.ops[id])
    requires s.ops[id].kind.ReadIfNotEmpty?
    ensures s.ops[id].ticket < s.push && !PushStage(s, s.ops[id].ticket).After?
  {
    hide Reachable, Sized, TicketInv;
    ReachableInv(c, s);
    PromisedPushExists(c, s, id);
    OwnSlotAgrees(c, s, id);
  }

  lemma PromisedPushExists(c: Config, s: State, id: nat)
    requires WfConfig(c) && TicketInv(c, s) && id < |s.ops| && s.ops[id].kind.ReadIfNotEmpty? && Granted(s.ops[id])
    ensures s.ops[id].ticket < s.push
  {
    InvGivesView(c, s, id);
  }

  /** Nobody waits for ever on the oldest ticket: a push whose earlier pops are all done can
      go ahead, and so can a pop whose push is done. */
  lemma OldestCanProceed(c: Config, s: State, id: nat)
    requires WfConfig(c) && Sized(c) && Reachable(c, s) && id < |s.ops|
    requires if IsPush(s.ops[id].kind) then forall u: nat :: u < s.ops[id].ticket ==> PopStage(s, u).After?
             else PushStage(s, s.ops[id].ticket).After?
    ensures !Waits(s, s.ops[id])
  {
    hide Reachable, Sized, TicketInv;
    ReachableInv(c, s);
    var op := s.ops[id];
    if !IsPush(op.kind) && op.pc.Wait? {
      OwnSlotAgrees(c, s, id);
    } else if Waits(s, op) {
      PreviousLap(c, s, id);
      assert false;
    }
  }

  // ---- whole runs ------------------------------------------------------------------------

  /** From s to s' counters have not gone down, the arrays published before are still there,
      in place, and so are their closed_ records. */
  ghost predicate Extends(s: State, s': State) {
    && s.push <= s'.push && s.pop <= s'.pop
    && s.arrays <= s'.arrays
    && |s'.closed| == |s.closed|
    && forall j :: 0 <= j < |s.arrays| - 1 && j < |s.closed| ==> s'.closed[j] == s.closed[j]
  }

  lemma PerformExtends(c: Config, s: State, id: nat, choice: bool)
    requires WfConfig(c) && Inv(c, s) && id < |s.ops| && Safe(s, s.ops[id])
    requires var e := EffectOf(c, s, s.ops[id], choice); !e.Blocked? && Possible(s, e)
    ensures Extends(s, Perform(s, id, EffectOf(c, s, s.ops[id], choice)))
  {
    var op := s.ops[id];
    var e := EffectOf(c, s, op, choice);
    if e.Fill? { FillsTheNextRecord(c, s, id, choice); }
    PerformFrame(s, id, e);
  }

  lemma PerformFrame(s: State, id: nat, e: Effect)
    requires id < |s.ops| && !e.Blocked? && Possible(s, e)
    requires e.Fill? ==> e.op.state.numClosed == |s.arrays| - 1
    ensures Extends(s, Perform(s, id, e))
  {
  }

  lemma FillsTheNextRecord(c: Config, s: State, id: nat, choice: bool)
    requires WfConfig(c) && Inv(c, s) && id < |s.ops| && Safe(s, s.ops[id])
    requires EffectOf(c, s, s.ops[id], choice).Fill?
    ensures EffectOf(c, s, s.ops[id], choice).op.state.numClosed == |s.arrays| - 1
  {
    hide SlotInv, OpsOk, HoldersOk, ArraysOk, DynamicOk;
  }

  lemma FollowsExtends(c: Config, s: State, s': State)
    requires WfConfig(c) && Sized(c) && Inv(c, s) && Follows(c, s, s')
    ensures Extends(s, s')
  {
    var e :| Apply(c, s, e) == Some(s');
    if e.Move? {
      StepKeepsInv(c, s, e.id, e.choice);
      PerformExtends(c, s, e.id, e.choice);
    }
  }

  /** Over a whole run nothing published is ever changed or taken back. */
  lemma RunExtends(c: Config, run: seq<State>, i: nat, j: nat)
    requires WfConfig(c) && Sized(c) && Run(c, run) && i <= j < |run|
    ensures Extends(run[i], run[j])
  {
    forall k: nat | 0 < k < |run| ensures Linked(run, k) { RunStepExtends(c, run, k); }
    ChainExtends(run, i, j);
  }

  ghost predicate Linked(run: seq<State>, k: nat)
    requires 0 < k < |run|
  {
    Extends(run[k - 1], run[k])
  }

  lemma {:induction false} ChainExtends(run: seq<State>, i: nat, j: nat)
    requires i <= j < |run| && forall k: nat :: 0 < k < |run| ==> Linked(run, k)
    ensures Extends(run[i], run[j])
    decreases j
  {
    if i < j {
      ChainExtends(run, i, j - 1);
      assert Linked(run, j);
      ExtendsIsTransitive(run[i], run[j - 1], run[j]);
    }
  }

  lemma RunStepExtends(c: Config, run: seq<State>, j: nat)
    requires WfConfig(c) && Sized(c) && Run(c, run) && 0 < j < |run|
    ensures Extends(run[j - 1], run[j])
  {
    hide Follows, Inv, Extends, Sized;
    InvOverRun(c, run, j - 1);
    FollowsExtends(c, run[j - 1], run[j]);
  }

  lemma ExtendsIsTransitive(s1: State, s2: State, s3: State)
    requires Extends(s1, s2) && Extends(s2, s3)
    ensures Extends(s1, s3)
  {
  }

  /** Expansions are safe: their ticket offsets and capacities go up strictly, the closed_
      table never overflows and holds exactly the arrays published before the current one,
      the seqlock word says where the current array starts and how many are closed, and a
      static queue keeps its single array. */
  lemma ExpansionSafety(c: Config, s: State)
    requires WfConfig(c) && Sized(c) && Reachable(c, s)
    ensures forall i, j :: 0 <= i < j < |s.arrays| ==>
              s.arrays[i].offset < s.arrays[j].offset && s.arrays[i].cap < s.arrays[j].cap
    ensures 0 < |s.arrays| <= c.maxClosed + 1 && |s.closed| == c.maxClosed <= 31 && s.arrays[0].cap == c.initCap
    ensures forall i :: 0 < i < |s.arrays| ==> Grown(c, s.arrays, i)
    ensures forall j :: 0 <= j < |s.arrays| - 1 ==> s.closed[j] == s.arrays[j]
    ensures s.dstate == Word(s.arrays[|s.arrays| - 1].offset, |s.arrays| - 1, s.locker.Some?)
    ensures s.locker.None? ==> Array(s.dstate.offset, s.dslots, s.dcap, s.dstride) == s.arrays[|s.arrays| - 1]
    ensures !c.dynamic ==> |s.arrays| == 1
  {
    hide Reachable, Sized, SlotInv, OpsOk, HoldersOk, GoodStride;
    ReachableInv(c, s);
    forall i | 0 < i < |s.arrays|
      ensures Grown(c, s.arrays, i)
    {
      assert CapacityLink(c, s.arrays, i);
    }
  }

  /** An array is as many times as large as the one before it as was asked for, or has the full capacity if that is
      less. */
  predicate Grown(c: Config, arrays: seq<Array>, i: nat)
    requires 0 < i < |arrays|
  {
    var before, cap := arrays[i - 1].cap, arrays[i].cap;
    cap <= c.capacity && cap <= c.mult * before && (cap == c.capacity || cap == c.mult * before)
  }

  /** A seqlock section that validates has read slots, capacity and stride of one array, the
      current one, however its loads were interleaved with expansions. */
  lemma ValidatedReadIsConsistent(c: Config, s: State, id: nat)
    requires WfConfig(c) && Sized(c) && Reachable(c, s) && id < |s.ops|
    requires s.ops[id].pc.SeqValidate? && s.dstate == s.ops[id].state
    ensures var op := s.ops[id];
            |s.arrays| > 0 && Array(op.state.offset, op.slots, op.cap, op.stride) == s.arrays[|s.arrays| - 1]
  {
    hide Reachable, Sized, SlotInv, OpOk;
    ReachableInv(c, s);
    InvGivesView(c, s, id);
    ValidateOp(c, ViewOf(s), id, s.ops[id], s.dstate);
  }

  /** A lagging ticket always finds the array that serves it: the search never runs off the end. */
  lemma LaggingTicketFindsItsArray(c: Config, s: State, id: nat)
    requires WfConfig(c) && Sized(c) && Reachable(c, s) && id < |s.ops| && s.ops[id].pc.Scan?
    ensures s.ops[id].pc.i < |s.closed|
    ensures s.ops[id].pc.i == 0 ==> s.closed[0].offset <= s.ops[id].ticket
  {
    ReachableInv(c, s);
    InvGivesView(c, s, id);
    ScanOp(c, ViewOf(s), id, s.ops[id]);
    assert s.closed[s.ops[id].pc.i] == s.arrays[s.ops[id].pc.i];
  }

  /** Inside the critical section the capacity read earlier is still the current one and the
      record about to be filled exists. */
  lemma ExpansionAssertionsHold(c: Config, s: State, id: nat)
    requires WfConfig(c) && Sized(c) && Reachable(c, s) && id < |s.ops| && InExp(s.ops[id].pc)
    ensures s.ops[id].pc.ExpFirst? ==> s.ops[id].cap == s.dcap
    ensures s.ops[id].state.numClosed < |s.closed| && 2 * s.ops[id].state.numClosed < 64
  {
    hide Reachable, Sized, SlotInv, OpsOk, HoldersOk;
    ReachableInv(c, s);
  }

  /** At most one expansion is under way, and only while the word is locked. */
  lemma OneExpansionAtATime(c: Config, s: State, p: nat, q: nat)
    requires WfConfig(c) && Sized(c) && Reachable(c, s) && p < |s.ops| && q < |s.ops|
    requires InExp(s.ops[p].pc) && InExp(s.ops[q].pc)
    ensures p == q && s.dstate.locked
  {
    hide Reachable, Sized, SlotInv, OpsOk, HoldersOk, ArraysOk;
    ReachableInv(c, s);
  }
}
