/** Deadlock freedom: where nothing can move, whoever is not done is a blocking call that waits for a
    ticket nobody has taken. */
module QueueProgress {
  import opened QueueFailures
  import opened QueueGrowth
  import opened QueueMachine
  import opened QueueTicketProof
  import opened QueueTickets
  import opened QueueTraces
  import opened TicketIndex
  import opened QueueSlots
  import opened QueueSafety
  import opened QueueTheorems

  predicate Finished(op: Op) {
    op.pc.Done? || op.pc.Failed?
  }

  /** A blocking write that goes round its loop: its slot is not ready, so it does not enqueue, and the pop it needs has
      its ticket, so it does not expand the queue either. */
  ghost predicate Spins(s: State, op: Op) {
    op.kind.BlockingWrite? && Granted(op) && exists i: nat :: SpinsOn(s, i, op)
  }

  ghost predicate SpinsOn(s: State, i: nat, op: Op) {
    && Serves(s.arrays, i, op.ticket) && Allotted(s, i)
    && SlotAt(s, i, op.ticket).turn != 2 * LapAt(s, i, op.ticket) && op.ticket < s.pop + s.arrays[i].cap
  }

  /** No operation gets on: it cannot take a step, or its steps lead round in a circle. */
  ghost predicate Stuck(c: Config, s: State)
    requires WfConfig(c)
  {
    forall id: nat :: id < |s.ops| ==> Step(c, s, id, true).None? || Spins(s, s.ops[id])
  }

  /** An operation that cannot move waits for its slot. */
  lemma StuckWaits(c: Config, s: State, id: nat)
    requires WfConfig(c) && Inv(c, s) && Stuck(c, s) && id < |s.ops| && !Finished(s.ops[id]) && !Spins(s, s.ops[id])
    ensures Waits(s, s.ops[id])
  {
    hide Spins;
    NeverUnsafe(c, s, id);
    assert Step(c, s, id, true).None?;
  }

  /** The pop one lap before a spinning push has its ticket, and is not done. */
  lemma SpinLap(s: State, i: nat, op: Op)
    requires ArraysAllotted(s) && SlotsOk(s) && SpinsOn(s, i, op) && !PushStage(s, op.ticket).After?
    ensures op.ticket >= s.arrays[i].cap && op.ticket - s.arrays[i].cap < s.pop
    ensures !PopStage(s, op.ticket - s.arrays[i].cap).After?
  {
    hide Idx, Turn;
    assert TicketSlotOk(s, i, op.ticket);
    LapEarlier(s, i, op.ticket);
  }

  /** A push that is stuck waits for a pop nobody has the ticket of. */
  lemma {:induction false} StuckPush(c: Config, s: State, t: nat)
    requires WfConfig(c) && Inv(c, s) && Stuck(c, s) && t < s.push && !PushStage(s, t).After?
    ensures t < |s.pushHolder| && s.pushHolder[t] < |s.ops|
    ensures var op := s.ops[s.pushHolder[t]];
            op.ticket == t && !Spins(s, op) && Waits(s, op) && op.ticket >= s.pop + op.cap
    decreases t
  {
    hide Stuck, Waits, Spins, Inv;
    var h := PushFacts(c, s, t);
    var op := s.ops[h];
    if Spins(s, op) {
      var u := SpinFacts(c, s, h);
      NobodyPops(c, s, t, u);
    } else {
      StuckWaits(c, s, h);
      WaitFacts(c, s, h);
      NobodyPops(c, s, t, t - op.cap);
    }
  }

  lemma PushFacts(c: Config, s: State, t: nat) returns (h: nat)
    requires WfConfig(c) && Inv(c, s) && t < s.push && !PushStage(s, t).After?
    ensures t < |s.pushHolder| && h == s.pushHolder[t] < |s.ops|
    ensures IsPush(s.ops[h].kind) && s.ops[h].ticket == t && !Finished(s.ops[h])
  {
    h := s.pushHolder[t];
    assert PushHeld(s, t) && OpAt(c, s, h);
  }

  lemma SpinFacts(c: Config, s: State, id: nat) returns (u: nat)
    requires WfConfig(c) && Inv(c, s) && id < |s.ops| && Spins(s, s.ops[id]) && !PushStage(s, s.ops[id].ticket).After?
    ensures u < s.ops[id].ticket && u < s.pop && !PopStage(s, u).After?
  {
    var i: nat :| SpinsOn(s, i, s.ops[id]);
    SpinLap(s, i, s.ops[id]);
    u := s.ops[id].ticket - s.arrays[i].cap;
  }

  lemma WaitFacts(c: Config, s: State, id: nat)
    requires WfConfig(c) && Inv(c, s) && id < |s.ops| && Waits(s, s.ops[id]) && IsPush(s.ops[id].kind)
    ensures var op := s.ops[id]; 0 < op.cap <= op.ticket && !PopStage(s, op.ticket - op.cap).After?
  {
    PreviousLap(c, s, id);
  }

  /** A pop that keeps a push from its slot has no ticket yet. */
  lemma {:induction false} NobodyPops(c: Config, s: State, t: nat, u: nat)
    requires WfConfig(c) && Inv(c, s) && Stuck(c, s) && u < t < s.push && !PopStage(s, u).After?
    ensures u >= s.pop
    decreases t, 0
  {
    hide Stuck, Inv, Waits, Spins;
    if u < s.pop {
      StuckPop(c, s, u);
      StuckPush(c, s, u);
    }
  }

  /** A pop that is stuck waits for a push that is not done. */
  lemma StuckPop(c: Config, s: State, t: nat)
    requires WfConfig(c) && Inv(c, s) && Stuck(c, s) && t < s.pop && !PopStage(s, t).After?
    ensures !PushStage(s, t).After?
  {
    hide Stuck;
    var h := s.popHolder[t];
    assert PopHeld(s, t) && OpAt(c, s, h);
    StuckWaits(c, s, h);
    OwnSlotAgrees(c, s, h);
  }

  /** Where nothing gets on, every operation is done, or it has failed, or it waits in a blocking call: a write whose
      slot is still taken by the element of a ticket no read has, or a read whose ticket no write has.  No write
      spins. */
  lemma StuckIsWaiting(c: Config, s: State, id: nat)
    requires WfConfig(c) && Sized(c) && Reachable(c, s) && Stuck(c, s) && id < |s.ops| && !Finished(s.ops[id])
    ensures var op := s.ops[id];
            Waits(s, op) && !Spins(s, op) && IsBlocking(op.kind) &&
            if IsPush(op.kind) then op.ticket >= s.pop + op.cap else op.ticket >= s.push
  {
    hide Reachable, Sized, Inv, Stuck, SpinsOn;
    ReachableInv(c, s);
    var op := s.ops[id];
    if Spins(s, op) {
      HolderOf(c, s, id);
      StuckPush(c, s, op.ticket);
    } else {
      StuckWaits(c, s, id);
      WaitingIsHeld(c, s, id);
      if IsPush(op.kind) {
        StuckPush(c, s, op.ticket);
      } else {
        StuckPop(c, s, op.ticket);
        if op.ticket < s.push {
          StuckPush(c, s, op.ticket);
        }
      }
      NotPromised(c, s, id);
    }
  }

  /** A push that has its ticket and is not done holds it. */
  lemma HolderOf(c: Config, s: State, id: nat)
    requires WfConfig(c) && Inv(c, s) && id < |s.ops| && Granted(s.ops[id]) && IsPush(s.ops[id].kind)
    ensures var t := s.ops[id].ticket;
            t < s.push == |s.pushHolder| && s.pushHolder[t] == id && (s.ops[id].pc.Done? || !PushStage(s, t).After?)
  {
    assert OpAt(c, s, id);
  }

  lemma WaitingIsHeld(c: Config, s: State, id: nat)
    requires WfConfig(c) && Inv(c, s) && id < |s.ops| && Waits(s, s.ops[id])
    ensures var op := s.ops[id];
            if IsPush(op.kind) then
              op.ticket < s.push == |s.pushHolder| && s.pushHolder[op.ticket] == id && !PushStage(s, op.ticket).After?
            else op.ticket < s.pop && !PopStage(s, op.ticket).After?
  {
    StageOfHolder(c, s, id);
  }

  lemma NotPromised(c: Config, s: State, id: nat)
    requires WfConfig(c) && Sized(c) && Reachable(c, s) && id < |s.ops| && Waits(s, s.ops[id])
    requires var op := s.ops[id]; if IsPush(op.kind) then op.ticket >= s.pop + op.cap else op.ticket >= s.push
    ensures IsBlocking(s.ops[id].kind)
  {
    match s.ops[id].kind
    case BlockingWrite =>
    case BlockingRead =>
    case WriteIfNotFull => PromisedPushWaitsForGrantedPop(c, s, id);
    case ReadIfNotEmpty => PromisedPopWaitsForGrantedPush(c, s, id);
    case Write => ReadyTicketsNeverWait(c, s, id);
    case Read => ReadyTicketsNeverWait(c, s, id);
  }

  /** In a run: where nothing gets on, whoever is not finished waits in a blocking call, a read for a push ticket
      nobody has, and a write for a pop ticket nobody has, where moreover the queue cannot grow for it: it has its
      full capacity, or the ticket belongs to a closed array, or the write was refused memory. */
  lemma NoDeadlock(c: Config, events: seq<Event>, run: seq<State>, id: nat) returns (m: nat)
    requires WfConfig(c) && Sized(c) && Trace(c, events, run) && Stuck(c, run[|events|])
    requires id < |run[|events|].ops| && !Finished(run[|events|].ops[id])
    ensures var s, op := run[|events|], run[|events|].ops[id];
            && Waits(s, op) && !Spins(s, op) && IsBlocking(op.kind)
            && if IsPush(op.kind)
               then op.ticket >= s.pop + op.cap &&
                    (op.cap == c.capacity || Lags(op) || (m < |events| && OutOfMemory(events, run, m, id)))
               else op.ticket >= s.push
  {
    hide Apply, Sized, Stuck, SpinsOn, Waits, Reachable;
    var j := |events|;
    TraceReaches(c, events, run, j);
    StuckIsWaiting(c, run[j], id);
    m := 0;
    if IsPush(run[j].ops[id].kind) {
      m := WaitsWhenItCannotExpand(c, events, run, j, id);
    }
  }
}
