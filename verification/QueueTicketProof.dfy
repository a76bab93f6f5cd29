/** Every step of the queue machine keeps the ticket invariant. */
module QueueTicketProof {
  import opened QueueMachine
  import opened QueueTickets
  import opened QueueExpansion

  lemma InitTickets(c: Config)
    requires WfConfig(c) && Sized(c)
    ensures TicketInv(c, Init(c))
  {
    StrideIsGood(c.initCap);
    var s := Init(c);
    assert MaxClosed(c.initCap, c.mult, c.capacity) > 0 || c.initCap >= c.capacity;
  }

  lemma InvGivesView(c: Config, s: State, id: nat)
    requires WfConfig(c) && TicketInv(c, s) && id < |s.ops|
    ensures s.locker.Some? ==> s.locker.value < |s.ops|
    ensures ViewOk(c, ViewOf(s)) && Synced(ViewOf(s)) && OpOk(c, ViewOf(s), id, s.ops[id])
  {
    hide OpOk, ArraysOk;
    assert OpAt(c, s, id);
  }

  /** What the seqlock word and the three words it protects hold while no expansion has overwritten them. */
  lemma InvGivesWords(c: Config, s: State)
    requires WfConfig(c) && TicketInv(c, s)
    ensures (s.locker.Some? ==> s.locker.value < |s.ops|) && |s.arrays| > 0
    ensures var v, n := ViewOf(s), |s.arrays| - 1;
            var a := s.arrays[n];
            && s.dstate == Word(a.offset, n, v.held)
            && (!(v.held && StoredSlots(v.lockPc)) ==> s.dslots == n && s.dcap == a.cap && s.dstride == a.stride)
            && |s.closed| == c.maxClosed && (forall j :: 0 <= j < n ==> s.closed[j] == s.arrays[j])
            && n <= c.maxClosed
  {
    hide OpsOk, HoldersOk;
  }

  lemma StartStep(c: Config, s: State, id: nat, op: Op)
    requires WfConfig(c) && TicketInv(c, s) && id < |s.ops| && s.ops[id] == op && op.pc.Start? && !IsBlocking(op.kind)
    ensures Kept(c, s, id, AtStart(c, op, Counter(s, op.kind)))
  {
    hide TicketInv, OpOk, Local, Taking, ViewOk, Synced;
    InvGivesView(c, s, id);
    StartOp(c, ViewOf(s), id, op);
    LocalStep(c, s, id, AtStart(c, op, Counter(s, op.kind)).op);
  }

  lemma StartBlockingStep(c: Config, s: State, id: nat, op: Op)
    requires WfConfig(c) && TicketInv(c, s) && id < |s.ops| && s.ops[id] == op && op.pc.Start? && IsBlocking(op.kind)
    ensures Kept(c, s, id, AtStart(c, op, Counter(s, op.kind)))
  {
    hide TicketInv, OpOk, Local, Taking, ViewOk, Synced;
    InvGivesView(c, s, id);
    StartBlockingOp(c, ViewOf(s), id, op);
    TakeStep(c, s, id, AtStart(c, op, Counter(s, op.kind)).op);
  }

  lemma LoadOtherStep(c: Config, s: State, id: nat, op: Op)
    requires WfConfig(c) && TicketInv(c, s) && id < |s.ops| && s.ops[id] == op && op.pc.LoadOther?
    ensures Kept(c, s, id, Only(AtLoadOther(c, op, OtherCounter(s, op.kind))))
  {
    hide TicketInv, OpOk, Local, Taking, ViewOk, Synced;
    InvGivesView(c, s, id);
    LoadOtherOp(c, ViewOf(s), id, op);
    LocalStep(c, s, id, AtLoadOther(c, op, OtherCounter(s, op.kind)));
  }

  lemma SeqStateStep(c: Config, s: State, id: nat, op: Op)
    requires WfConfig(c) && TicketInv(c, s) && id < |s.ops| && s.ops[id] == op && op.pc.SeqState?
    ensures Kept(c, s, id, Only(AtSeqState(op, s.dstate)))
  {
    hide TicketInv, OpOk, Local, Taking, ViewOk, Synced;
    InvGivesWords(c, s);
    InvGivesView(c, s, id);
    SeqStateOp(c, ViewOf(s), id, op, s.dstate);
    LocalStep(c, s, id, AtSeqState(op, s.dstate));
  }

  lemma SeqSlotsStep(c: Config, s: State, id: nat, op: Op)
    requires WfConfig(c) && TicketInv(c, s) && id < |s.ops| && s.ops[id] == op && op.pc.SeqSlots?
    ensures Kept(c, s, id, Only(op.(slots := s.dslots, pc := SeqCap)))
  {
    hide TicketInv, OpOk, Local, Taking, ViewOk, Synced;
    InvGivesWords(c, s);
    InvGivesView(c, s, id);
    SeqSlotsOp(c, ViewOf(s), id, op, s.dslots);
    LocalStep(c, s, id, op.(slots := s.dslots, pc := SeqCap));
  }

  lemma SeqCapStep(c: Config, s: State, id: nat, op: Op)
    requires WfConfig(c) && TicketInv(c, s) && id < |s.ops| && s.ops[id] == op && op.pc.SeqCap?
    ensures Kept(c, s, id, Only(op.(cap := s.dcap, pc := SeqStride)))
  {
    hide TicketInv, OpOk, Local, Taking, ViewOk, Synced;
    InvGivesWords(c, s);
    InvGivesView(c, s, id);
    SeqCapOp(c, ViewOf(s), id, op, s.dcap);
    LocalStep(c, s, id, op.(cap := s.dcap, pc := SeqStride));
  }

  lemma SeqStrideStep(c: Config, s: State, id: nat, op: Op)
    requires WfConfig(c) && TicketInv(c, s) && id < |s.ops| && s.ops[id] == op && op.pc.SeqStride?
    ensures Kept(c, s, id, Only(op.(stride := s.dstride, pc := SeqValidate)))
  {
    hide TicketInv, OpOk, Local, Taking, ViewOk, Synced;
    InvGivesWords(c, s);
    InvGivesView(c, s, id);
    SeqStrideOp(c, ViewOf(s), id, op, s.dstride);
    LocalStep(c, s, id, op.(stride := s.dstride, pc := SeqValidate));
  }

  lemma ValidateStep(c: Config, s: State, id: nat, op: Op)
    requires WfConfig(c) && TicketInv(c, s) && id < |s.ops| && s.ops[id] == op && op.pc.SeqValidate?
    ensures Kept(c, s, id, Only(AtValidate(op, s.dstate)))
  {
    hide TicketInv, OpOk, Local, Taking, ViewOk, Synced;
    InvGivesWords(c, s);
    InvGivesView(c, s, id);
    ValidateOp(c, ViewOf(s), id, op, s.dstate);
    LocalStep(c, s, id, AtValidate(op, s.dstate));
  }

  lemma ScanStep(c: Config, s: State, id: nat, op: Op)
    requires WfConfig(c) && TicketInv(c, s) && id < |s.ops| && s.ops[id] == op && op.pc.Scan?
    ensures op.pc.i < |s.closed|
    ensures Kept(c, s, id, Only(AtScan(op, s.closed[op.pc.i])))
  {
    hide TicketInv, OpOk, Local, Taking, ViewOk, Synced;
    InvGivesWords(c, s);
    InvGivesView(c, s, id);
    ScanOp(c, ViewOf(s), id, op);
    assert s.closed[op.pc.i] == s.arrays[op.pc.i];
    LocalStep(c, s, id, AtScan(op, s.closed[op.pc.i]));
  }

  lemma CompareStep(c: Config, s: State, id: nat, op: Op)
    requires WfConfig(c) && TicketInv(c, s) && id < |s.ops| && s.ops[id] == op && op.pc.Compare?
    ensures Kept(c, s, id, Only(AtCompare(c, op)))
  {
    hide TicketInv, OpOk, Local, Taking, ViewOk, Synced;
    InvGivesView(c, s, id);
    CompareOp(c, ViewOf(s), id, op);
    LocalStep(c, s, id, AtCompare(c, op));
  }

  lemma CheckSlotStep(c: Config, s: State, id: nat, op: Op, ready: bool)
    requires WfConfig(c) && TicketInv(c, s) && id < |s.ops| && s.ops[id] == op && op.pc.CheckSlot?
    ensures Kept(c, s, id, Only(AtCheckSlot(c, op, ready)))
  {
    hide TicketInv, OpOk, Local, Taking, ViewOk, Synced;
    InvGivesView(c, s, id);
    CheckSlotOp(c, ViewOf(s), id, op, ready);
    LocalStep(c, s, id, AtCheckSlot(c, op, ready));
  }

  lemma CheckPopStep(c: Config, s: State, id: nat, op: Op)
    requires WfConfig(c) && TicketInv(c, s) && id < |s.ops| && s.ops[id] == op && op.pc.CheckPop?
    ensures Kept(c, s, id, Only(AtCheckPop(op, s.pop)))
  {
    hide TicketInv, OpOk, Local, Taking, ViewOk, Synced;
    InvGivesView(c, s, id);
    CheckPopOp(c, ViewOf(s), id, op);
    LocalStep(c, s, id, AtCheckPop(op, s.pop));
  }

  lemma RecheckStep(c: Config, s: State, id: nat, op: Op)
    requires WfConfig(c) && TicketInv(c, s) && id < |s.ops| && s.ops[id] == op && op.pc.Recheck?
    ensures Kept(c, s, id, Only(AtRecheck(c, op, Counter(s, op.kind))))
  {
    hide TicketInv, OpOk, Local, Taking, ViewOk, Synced;
    InvGivesView(c, s, id);
    RecheckOp(c, ViewOf(s), id, op);
    LocalStep(c, s, id, AtRecheck(c, op, Counter(s, op.kind)));
  }

  lemma GrantStep(c: Config, s: State, id: nat, op: Op)
    requires WfConfig(c) && TicketInv(c, s) && id < |s.ops| && s.ops[id] == op && op.pc.Grant?
    ensures Kept(c, s, id, AtGrant(c, op, Counter(s, op.kind)))
  {
    hide TicketInv, OpOk, Local, Taking, ViewOk, Synced;
    InvGivesView(c, s, id);
    GrantOp(c, ViewOf(s), id, op);
    GrantEffect(c, s, id, AtGrant(c, op, Counter(s, op.kind)));
  }

  lemma GrantEffect(c: Config, s: State, id: nat, e: Effect)
    requires WfConfig(c) && TicketInv(c, s) && id < |s.ops| && (e.Take? || e.Only?)
    requires if e.Take? then Taking(c, ViewOf(s), id, s.ops[id], e.op) else Local(c, ViewOf(s), id, s.ops[id], e.op)
    ensures Kept(c, s, id, e)
  {
    hide TicketInv, OpOk, Local, Taking, ViewOk, Synced;
    if e.Take? {
      TakeStep(c, s, id, e.op);
    } else {
      LocalStep(c, s, id, e.op);
    }
  }

  lemma TryLockStep(c: Config, s: State, id: nat, op: Op, popFirst: bool)
    requires WfConfig(c) && TicketInv(c, s) && id < |s.ops| && s.ops[id] == op && op.pc.TryLock?
    ensures Kept(c, s, id, AtTryLock(c, op, s.dstate, popFirst))
  {
    hide TicketInv, OpOk, Local, Taking, ViewOk, Synced;
    var e := AtTryLock(c, op, s.dstate, popFirst);
    if e.Acquire? {
      AcquireStep(c, s, id, op, popFirst);
    } else {
      InvGivesView(c, s, id);
      TryLockOp(c, ViewOf(s), id, op);
      LocalStep(c, s, id, e.op);
    }
  }

  lemma WaitStep(c: Config, s: State, id: nat, op: Op)
    requires WfConfig(c) && TicketInv(c, s) && id < |s.ops| && s.ops[id] == op && op.pc.Wait?
    ensures Kept(c, s, id, Only(op.(pc := Access)))
  {
    hide TicketInv, OpOk, Local, Taking, ViewOk, Synced;
    InvGivesView(c, s, id);
    WaitOp(c, ViewOf(s), id, op);
    LocalStep(c, s, id, op.(pc := Access));
  }

  // ---- steps on a slot -----------------------------------------------------------

  /** An operation that reaches its slot finds it inside its array. */
  lemma SlotExists(c: Config, s: State, id: nat)
    requires WfConfig(c) && TicketInv(c, s) && id < |s.ops| && Resolved(s.ops[id].pc)
    ensures SlotInBounds(s, s.ops[id]) && s.ops[id].slots < |s.arrays|
  {
    assert OpAt(c, s, id);
  }

  lemma TouchStep(c: Config, s: State, id: nat, op: Op, op': Op, slot: Slot)
    requires WfConfig(c) && TicketInv(c, s) && id < |s.ops| && s.ops[id] == op
    requires
      || (op.pc.Access? && op' == op.(pc := Complete, elem := op'.elem))
      || (op.pc.Complete? && op' == op.(pc := Done))
    ensures SlotInBounds(s, op') && TicketInv(c, PerformTouch(s, id, op', slot))
  {
    hide TicketInv, OpOk, Local, ViewOk, Synced;
    SlotExists(c, s, id);
    InvGivesView(c, s, id);
    TouchedOp(c, ViewOf(s), id, op, op');
    LocalStep(c, s, id, op');
    HeapStep(c, Put(s, id, op'), op', slot);
  }

  lemma TouchedOp(c: Config, v: View, id: nat, op: Op, op': Op)
    requires OpOk(c, v, id, op)
    requires
      || (op.pc.Access? && op' == op.(pc := Complete, elem := op'.elem))
      || (op.pc.Complete? && op' == op.(pc := Done))
    ensures Local(c, v, id, op, op')
  {
  }

  lemma HeapStep(c: Config, s: State, op: Op, slot: Slot)
    requires WfConfig(c) && TicketInv(c, s) && SlotInBounds(s, op) && op.slots < |s.arrays|
    ensures TicketInv(c, s.(heap := s.heap[op.slots := s.heap[op.slots][SlotIndex(op) := slot]]))
  {
    hide OpOk, ArraysOk;
    var s' := s.(heap := s.heap[op.slots := s.heap[op.slots][SlotIndex(op) := slot]]);
    HoldersSame(s, s');
    assert ViewOf(s') == ViewOf(s);
    forall j | 0 <= j < |s'.ops| ensures OpAt(c, s', j) { assert OpAt(c, s, j); }
  }

  // ---- every step ------------------------------------------------------------------

  lemma NeverUnsafe(c: Config, s: State, id: nat)
    requires WfConfig(c) && TicketInv(c, s) && id < |s.ops|
    ensures Safe(s, s.ops[id])
  {
    var op := s.ops[id];
    if NeedsSlot(op.pc) { SlotExists(c, s, id); }
    if op.pc.Scan? { ScanStep(c, s, id, op); }
  }

  lemma ReadSteps(c: Config, s: State, id: nat, op: Op, choice: bool)
    requires WfConfig(c) && TicketInv(c, s) && id < |s.ops| && s.ops[id] == op && Safe(s, op)
    requires || op.pc.LoadOther? || op.pc.SeqState? || op.pc.SeqSlots? || op.pc.SeqCap? || op.pc.SeqStride?
             || op.pc.SeqValidate?
    ensures Kept(c, s, id, EffectOf(c, s, op, choice))
  {
    match op.pc
    case LoadOther => LoadOtherStep(c, s, id, op);
    case SeqState => SeqStateStep(c, s, id, op);
    case SeqSlots => SeqSlotsStep(c, s, id, op);
    case SeqCap => SeqCapStep(c, s, id, op);
    case SeqStride => SeqStrideStep(c, s, id, op);
    case SeqValidate => ValidateStep(c, s, id, op);
    case _ => assert false;
  }

  lemma TestSteps(c: Config, s: State, id: nat, op: Op, choice: bool)
    requires WfConfig(c) && TicketInv(c, s) && id < |s.ops| && s.ops[id] == op && Safe(s, op)
    requires op.pc.Scan? || op.pc.Compare? || op.pc.CheckSlot? || op.pc.CheckPop? || op.pc.Recheck?
    ensures Kept(c, s, id, EffectOf(c, s, op, choice))
  {
    match op.pc
    case Scan(_) => ScanStep(c, s, id, op);
    case Compare => CompareStep(c, s, id, op);
    case CheckSlot => CheckSlotStep(c, s, id, op, SlotOf(s, op).turn == MyTurn(op));
    case CheckPop => CheckPopStep(c, s, id, op);
    case Recheck => RecheckStep(c, s, id, op);
    case _ => assert false;
  }

  lemma TicketSteps(c: Config, s: State, id: nat, op: Op, choice: bool)
    requires WfConfig(c) && TicketInv(c, s) && id < |s.ops| && s.ops[id] == op && Safe(s, op)
    requires op.pc.Start? || op.pc.Grant? || op.pc.TryLock?
    ensures Kept(c, s, id, EffectOf(c, s, op, choice))
  {
    match op.pc
    case Start => if IsBlocking(op.kind) { StartBlockingStep(c, s, id, op); } else { StartStep(c, s, id, op); }
    case Grant => GrantStep(c, s, id, op);
    case TryLock => TryLockStep(c, s, id, op, choice);
    case _ => assert false;
  }

  lemma ExpansionSteps(c: Config, s: State, id: nat, op: Op, choice: bool)
    requires WfConfig(c) && Sized(c) && TicketInv(c, s) && id < |s.ops| && s.ops[id] == op && Safe(s, op)
    requires InExp(op.pc)
    ensures Kept(c, s, id, EffectOf(c, s, op, choice))
  {
    hide TicketInv, Kept, AtFill, AtExpSecond;
    match op.pc
    case ExpFirst(_) => ExpFirstStep(c, s, id, op);
    case ExpSecond(_) => ExpSecondStep(c, s, id, op);
    case ExpAlloc => if choice { AllocateStep(c, s, id, op); } else { NoMemoryStep(c, s, id, op); }
    case FillOffset => FillStep(c, s, id, op);
    case FillSlots => FillStep(c, s, id, op);
    case FillCap => FillStep(c, s, id, op);
    case FillStride => FillStep(c, s, id, op);
    case ExpSlots => StoreSlotsStep(c, s, id, op);
    case ExpCap => StoreCapStep(c, s, id, op);
    case ExpStride => StoreStrideStep(c, s, id, op);
    case ExpRelease => ReleaseStep(c, s, id, op);
    case ExpRestore => RestoreStep(c, s, id, op);
    case _ => assert false;
  }

  lemma SlotSteps(c: Config, s: State, id: nat, op: Op, choice: bool)
    requires WfConfig(c) && TicketInv(c, s) && id < |s.ops| && s.ops[id] == op && Safe(s, op)
    requires op.pc.Wait? || op.pc.Access? || op.pc.Complete?
    ensures Kept(c, s, id, EffectOf(c, s, op, choice))
  {
    hide TicketInv;
    var e := EffectOf(c, s, op, choice);
    match op.pc
    case Wait => WaitStep(c, s, id, op);
    case Access => TouchStep(c, s, id, op, e.op, e.slot);
    case Complete => TouchStep(c, s, id, op, e.op, e.slot);
    case _ => assert false;
  }

  /** Whatever operation moves, and however, the ticket invariant holds afterwards. */
  lemma StepKeepsTickets(c: Config, s: State, id: nat, choice: bool)
    requires WfConfig(c) && Sized(c) && TicketInv(c, s) && id < |s.ops|
    ensures Safe(s, s.ops[id])
    ensures Kept(c, s, id, EffectOf(c, s, s.ops[id], choice))
  {
    NeverUnsafe(c, s, id);
    var op := s.ops[id];
    match op.pc
    case Start | Grant | TryLock => TicketSteps(c, s, id, op, choice);
    case LoadOther | SeqState | SeqSlots | SeqCap | SeqStride | SeqValidate => ReadSteps(c, s, id, op, choice);
    case Scan(_) => TestSteps(c, s, id, op, choice);
    case Compare | CheckSlot | CheckPop | Recheck => TestSteps(c, s, id, op, choice);
    case Wait | Access | Complete => SlotSteps(c, s, id, op, choice);
    case Done | Failed =>
    case _ => ExpansionSteps(c, s, id, op, choice);
  }

  lemma NewOpIsOk(c: Config, v: View, id: nat, kind: Kind, value: Elem)
    ensures OpOk(c, v, id, NewOp(kind, value))
  {
  }

  lemma CallKeepsTickets(c: Config, s: State, kind: Kind, value: Elem)
    requires WfConfig(c) && TicketInv(c, s)
    ensures TicketInv(c, s.(ops := s.ops + [NewOp(kind, value)]))
  {
    hide ArraysOk, OpOk, DynamicOk, LockerOk, HoldersOk;
    var s' := s.(ops := s.ops + [NewOp(kind, value)]);
    assert ViewOf(s') == ViewOf(s);
    CallKeepsLock(c, s, s');
    CallKeepsHolders(s, s');
    NewOpIsOk(c, ViewOf(s), |s.ops|, kind, value);
    forall j | 0 <= j < |s'.ops| ensures OpAt(c, s', j) {
      if j < |s.ops| { assert OpAt(c, s, j); }
    }
  }

  /** One more operation at its start. */
  ghost predicate Called(s: State, s': State) {
    s' == s.(ops := s'.ops) && |s'.ops| == |s.ops| + 1 && s'.ops[..|s.ops|] == s.ops && s'.ops[|s.ops|].pc.Start?
  }

  lemma CallKeepsLock(c: Config, s: State, s': State)
    requires WfConfig(c) && ArraysOk(c, s.arrays) && LockOk(c, s) && DynamicOk(c, s) && Called(s, s')
    ensures LockOk(c, s') && DynamicOk(c, s')
  {
    hide ArraysOk, GoodStride;
    assert forall j :: 0 <= j < |s.ops| ==> s'.ops[j] == s.ops[j];
  }

  lemma CallKeepsHolders(s: State, s': State)
    requires HoldersOk(s) && Called(s, s')
    ensures HoldersOk(s')
  {
    assert forall j :: 0 <= j < |s.ops| ==> s'.ops[j] == s.ops[j];
    forall t | 0 <= t < |s'.pushHolder| ensures PushHeld(s', t) { assert PushHeld(s, t); }
    forall t | 0 <= t < |s'.popHolder| ensures PopHeld(s', t) { assert PopHeld(s, t); }
  }
}
