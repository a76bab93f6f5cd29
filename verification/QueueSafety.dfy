/** What holds in every run of the queue, static or dynamic, under every interleaving of
    pushes, pops and expansions. */
module QueueSafety {
  import opened Options
  import opened QueueMachine
  import opened QueueTickets
  import opened QueueTicketProof
  import opened QueueSlots

  ghost predicate Inv(c: Config, s: State)
    requires WfConfig(c)
  {
    (TicketInv(c, s) && SlotInv(s)) == true
  }

  // ---- the slot invariant through every step ----------------------------------------------

  predicate QuietOk(s: State, op: Op, e: Effect) {
    (e.Blocked? || e.Touch? || e.Release? ||
     (OpSlotOk(s, e.op) && StageOf(e.op.pc).Before? && StageOf(op.pc).Before? && e.op.value == op.value)) == true
  }

  /** Where no step of an operation relies on its slot. */
  predicate OffSlot(op: Op) {
    && !op.pc.Access? && !op.pc.Complete? && !op.pc.Done?
    && (op.kind.Write? || op.kind.Read? ==> !op.pc.Grant? && !op.pc.Wait?)
  }

  lemma OffSlotOk(s: State, op: Op)
    requires OffSlot(op)
    ensures OpSlotOk(s, op) && StageOf(op.pc).Before?
  {
  }

  lemma QuietEarly(c: Config, s: State, op: Op, choice: bool)
    requires WfConfig(c) && Safe(s, op)
    requires op.pc.Start? || op.pc.LoadOther? || op.pc.SeqState? || op.pc.SeqSlots? || op.pc.SeqCap? || op.pc.SeqStride?
    ensures QuietOk(s, op, EffectOf(c, s, op, choice))
  {
    var e := EffectOf(c, s, op, choice);
    OffSlotOk(s, e.op);
  }

  lemma QuietResolve(c: Config, s: State, op: Op, choice: bool)
    requires WfConfig(c) && Safe(s, op)
    requires op.pc.SeqValidate? || op.pc.Scan? || op.pc.Compare? || op.pc.CheckPop? || op.pc.Recheck? || op.pc.TryLock?
    requires op.pc.Compare? ==> op.kind.WriteIfNotFull? || op.kind.ReadIfNotEmpty?
    ensures QuietOk(s, op, EffectOf(c, s, op, choice))
  {
    var e := EffectOf(c, s, op, choice);
    OffSlotOk(s, e.op);
  }

  lemma QuietExpansion(c: Config, s: State, op: Op, choice: bool)
    requires WfConfig(c) && Safe(s, op) && InExp(op.pc)
    ensures QuietOk(s, op, EffectOf(c, s, op, choice))
  {
    var e := EffectOf(c, s, op, choice);
    OffSlotOk(s, e.op);
  }

  /** Only these steps make an operation rely on its slot, and each has just looked at it. */
  lemma QuietSlot(c: Config, s: State, op: Op, choice: bool)
    requires WfConfig(c) && Safe(s, op) && OpSlotOk(s, op)
    requires op.pc.CheckSlot? || op.pc.Grant? || op.pc.Wait?
    ensures QuietOk(s, op, EffectOf(c, s, op, choice))
  {
    match op.pc
    case CheckSlot =>
    case Grant =>
    case Wait =>
    case _ => assert false;
  }

  lemma QuietAlways(c: Config, s: State, id: nat, choice: bool)
    requires WfConfig(c) && Inv(c, s) && id < |s.ops| && Safe(s, s.ops[id])
    requires !s.ops[id].pc.Access? && !s.ops[id].pc.Complete? && !s.ops[id].pc.ExpRelease?
    ensures QuietOk(s, s.ops[id], EffectOf(c, s, s.ops[id], choice))
  {
    hide Inv, EffectOf, QuietOk, OpSlotOk;
    var op := s.ops[id];
    QuietFacts(c, s, id);
    match op.pc
    case Start | LoadOther | SeqState | SeqSlots | SeqCap | SeqStride => QuietEarly(c, s, op, choice);
    case Scan(_) => QuietResolve(c, s, op, choice);
    case SeqValidate | Compare | CheckPop | Recheck | TryLock => QuietResolve(c, s, op, choice);
    case CheckSlot | Grant | Wait => QuietSlot(c, s, op, choice);
    case Done | Failed => QuietEnd(c, s, op, choice);
    case _ => QuietExpansion(c, s, op, choice);
  }

  lemma QuietFacts(c: Config, s: State, id: nat)
    requires WfConfig(c) && Inv(c, s) && id < |s.ops|
    ensures s.ops[id].pc.Compare? ==> s.ops[id].kind.WriteIfNotFull? || s.ops[id].kind.ReadIfNotEmpty?
    ensures OpSlotOk(s, s.ops[id])
  {
    InvGivesView(c, s, id);
  }

  lemma QuietEnd(c: Config, s: State, op: Op, choice: bool)
    requires WfConfig(c) && Safe(s, op) && (op.pc.Done? || op.pc.Failed?)
    ensures QuietOk(s, op, EffectOf(c, s, op, choice))
  {
  }

  /** Every effect but the publication of an array and the work on a slot is quiet. */
  lemma EffectIsQuiet(s: State, id: nat, e: Effect)
    requires id < |s.ops| && !e.Blocked? && !e.Touch? && !e.Release? && Possible(s, e)
    requires QuietOk(s, s.ops[id], e) && s.push == |s.pushHolder|
    ensures var s' := Perform(s, id, e); Quiet(s, s', id, e.op) && s'.arrays == s.arrays && s.heap <= s'.heap
  {
  }

  lemma QuietKeepsSlots(c: Config, s: State, id: nat, choice: bool)
    requires WfConfig(c) && Inv(c, s) && id < |s.ops| && Safe(s, s.ops[id])
    requires !s.ops[id].pc.Access? && !s.ops[id].pc.Complete? && !s.ops[id].pc.ExpRelease?
    requires var e := EffectOf(c, s, s.ops[id], choice); !e.Blocked? && !e.Touch? && !e.Release? && Possible(s, e)
    ensures SlotInv(Perform(s, id, EffectOf(c, s, s.ops[id], choice)))
  {
    var e := EffectOf(c, s, s.ops[id], choice);
    var s' := Perform(s, id, e);
    QuietAlways(c, s, id, choice);
    EffectIsQuiet(s, id, e);
    QuietOp(s, s', id, e.op, e.op);
    QuietStep(s, s', id, e.op);
  }

  lemma TouchIsAfterTouch(c: Config, s: State, id: nat, choice: bool)
    requires WfConfig(c) && id < |s.ops| && Safe(s, s.ops[id])
    requires s.ops[id].pc.Access? || s.ops[id].pc.Complete?
    ensures EffectOf(c, s, s.ops[id], choice) == TouchOf(s, id)
    ensures Possible(s, TouchOf(s, id)) && Perform(s, id, TouchOf(s, id)) == AfterTouch(s, id)
  {
  }

  ghost predicate SlotsKept(s: State, id: nat, e: Effect)
    requires id < |s.ops|
  {
    (e.Blocked? || (Possible(s, e) && SlotInv(Perform(s, id, e)))) == true
  }

  lemma TouchCase(c: Config, s: State, id: nat, choice: bool)
    requires WfConfig(c) && Inv(c, s) && id < |s.ops| && Safe(s, s.ops[id])
    requires s.ops[id].pc.Access? || s.ops[id].pc.Complete?
    ensures SlotsKept(s, id, EffectOf(c, s, s.ops[id], choice))
  {
    TouchIsAfterTouch(c, s, id, choice);
    IsOnSlot(c, s, id);
    TouchKeepsSlots(c, s, id);
  }

  lemma ReleaseCase(c: Config, s: State, id: nat, choice: bool)
    requires WfConfig(c) && Inv(c, s) && id < |s.ops| && Safe(s, s.ops[id]) && s.ops[id].pc.ExpRelease?
    ensures SlotsKept(s, id, EffectOf(c, s, s.ops[id], choice))
  {
    ReleaseKeepsSlots(c, s, id);
  }

  lemma QuietCase(c: Config, s: State, id: nat, choice: bool)
    requires WfConfig(c) && Inv(c, s) && id < |s.ops| && Safe(s, s.ops[id])
    requires !s.ops[id].pc.Access? && !s.ops[id].pc.Complete? && !s.ops[id].pc.ExpRelease?
    requires Kept(c, s, id, EffectOf(c, s, s.ops[id], choice))
    ensures SlotsKept(s, id, EffectOf(c, s, s.ops[id], choice))
  {
    var e := EffectOf(c, s, s.ops[id], choice);
    NotTouching(c, s, s.ops[id], choice);
    if !e.Blocked? {
      QuietKeepsSlots(c, s, id, choice);
    }
  }

  /** Every step of every operation keeps the whole invariant, and never leaves its arrays. */
  lemma StepKeepsInv(c: Config, s: State, id: nat, choice: bool)
    requires WfConfig(c) && Sized(c) && Inv(c, s) && id < |s.ops|
    ensures Safe(s, s.ops[id])
    ensures var e := EffectOf(c, s, s.ops[id], choice);
            !e.Blocked? ==> Possible(s, e) && Inv(c, Perform(s, id, e))
  {
    StepKeepsTickets(c, s, id, choice);
    var pc := s.ops[id].pc;
    if pc.Access? || pc.Complete? {
      TouchCase(c, s, id, choice);
    } else if pc.ExpRelease? {
      ReleaseCase(c, s, id, choice);
    } else {
      QuietCase(c, s, id, choice);
    }
  }

  lemma NotTouching(c: Config, s: State, op: Op, choice: bool)
    requires WfConfig(c) && Safe(s, op) && !op.pc.Access? && !op.pc.Complete? && !op.pc.ExpRelease?
    ensures var e := EffectOf(c, s, op, choice); !e.Touch? && !e.Release?
  {
  }

  lemma CallKeepsInv(c: Config, s: State, kind: Kind, value: Elem)
    requires WfConfig(c) && Inv(c, s)
    ensures Inv(c, s.(ops := s.ops + [NewOp(kind, value)]))
  {
    var s' := s.(ops := s.ops + [NewOp(kind, value)]);
    CallKeepsTickets(c, s, kind, value);
    forall t: nat ensures SameTicket(s, s', t) {
      if t < |s.pushHolder| { assert PushHeld(s, t); }
      if t < |s.popHolder| { assert PopHeld(s, t); }
    }
    SlotsSame(s, s');
    forall j | 0 <= j < |s'.ops| ensures OpSlotOk(s', s'.ops[j]) {
      if j < |s.ops| { assert SameTicket(s, s', s.ops[j].ticket); }
    }
  }

  lemma InitInv(c: Config)
    requires WfConfig(c) && Sized(c)
    ensures Inv(c, Init(c))
  {
    InitTickets(c);
    var s := Init(c);
    assert Allotted(s, 0);
  }

  lemma {:induction false} InvOverRun(c: Config, run: seq<State>, i: nat)
    requires WfConfig(c) && Sized(c) && Run(c, run) && i < |run|
    ensures Inv(c, run[i])
  {
    if i == 0 {
      InitInv(c);
    } else {
      InvOverRun(c, run, i - 1);
      FollowsKeepsInv(c, run[i - 1], run[i]);
    }
  }

  lemma FollowsKeepsInv(c: Config, s: State, s': State)
    requires WfConfig(c) && Sized(c) && Inv(c, s) && Follows(c, s, s')
    ensures Inv(c, s')
  {
    var e :| Apply(c, s, e) == Some(s');
    match e
    case Call(kind, value) => CallKeepsInv(c, s, kind, value);
    case Move(id, choice) => if id < |s.ops| { StepKeepsInv(c, s, id, choice); }
  }

  lemma ReachableInv(c: Config, s: State)
    requires WfConfig(c) && Sized(c) && Reachable(c, s)
    ensures Inv(c, s)
  {
    var run :| Run(c, run) && run[|run| - 1] == s;
    InvOverRun(c, run, |run| - 1);
  }
}
