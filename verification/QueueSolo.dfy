/** Every operation comes to an end when it moves alone: from every state in which no other operation holds the
    seqlock, it finishes, or waits for its slot, or spins while a pop is in progress. */
module QueueSolo {
  import opened Options
  import opened QueueFailures
  import opened QueueMachine
  import opened QueueProgress
  import opened QueueSafety
  import opened QueueSlots
  import opened QueueTheorems
  import opened QueueTicketProof
  import opened QueueTickets

  /** The state after n moves of one operation, if it can make them. */
  function Solo(c: Config, s: State, id: nat, choice: bool, n: nat): (r: Option<State>)
    requires WfConfig(c)
    decreases n
  {
    if n == 0 then Some(s)
    else
      var next := Step(c, s, id, choice);
      if next.None? then None else Solo(c, next.value, id, choice, n - 1)
  }

  /** How far it is from a point to the end, if the operation does not go back. */
  function Left(pc: Pc): (n: nat) {
    match pc
    case Start => 66
    case LoadOther => 65
    case SeqState => 64
    case SeqSlots => 63
    case SeqCap => 62
    case SeqStride => 61
    case SeqValidate => 60
    case Scan(i) => if i < 32 then 25 + i else 59
    case Compare => 24
    case CheckSlot => 23
    case CheckPop => 22
    case Recheck => 21
    case TryLock => 20
    case ExpFirst(_) => 19
    case ExpSecond(_) => 18
    case ExpAlloc => 17
    case FillOffset => 16
    case FillSlots => 15
    case FillCap => 14
    case FillStride => 13
    case ExpSlots => 12
    case ExpCap => 11
    case ExpStride => 10
    case ExpRelease => 9
    case ExpRestore => 8
    case Grant => 4
    case Wait => 3
    case Access => 2
    case Complete => 1
    case Done => 0
    case Failed => 0
  }

  /** The operation is on its slot, or at its end. */
  predicate Late(pc: Pc) {
    pc.Wait? || pc.Access? || pc.Complete? || pc.Done? || pc.Failed?
  }

  /** What the operation has read is still so. */
  predicate Fresh(s: State, op: Op) {
    && (!IsBlocking(op.kind) && !op.pc.Start? ==> op.ticket == Counter(s, op.kind))
    && (HasState(op.pc) && !InExp(op.pc) ==> op.state == s.dstate)
    && (op.pc.CheckPop? ==> SlotInBounds(s, op) && SlotOf(s, op).turn != MyTurn(op))
  }

  /** The ticket the operation has or will take next. */
  function NextTicket(s: State, op: Op): (t: nat) {
    if op.pc.Start? then Counter(s, op.kind) else op.ticket
  }

  /** How often the operation may still go back: because it has read something old, and because it expands the queue. */
  function Phase(s: State, op: Op): (n: nat) {
    if Late(op.pc) then 0
    else if !Fresh(s, op) then 3
    else if NextTicket(s, op) < s.dstate.offset then 1
    else 2
  }

  function Rank(s: State, op: Op): (n: nat) {
    100 * Phase(s, op) + Left(op.pc)
  }

  /** Nobody else holds the seqlock. */
  predicate Unlocked(s: State, id: nat) {
    s.locker.None? || s.locker == Some(id)
  }

  predicate Ends(c: Config, s: State, id: nat, choice: bool)
    requires WfConfig(c) && id < |s.ops|
  {
    var next := Step(c, s, id, choice);
    && next.Some? && id < |next.value.ops| && Unlocked(next.value, id)
    && Rank(next.value, next.value.ops[id]) < Rank(s, s.ops[id])
  }

  /** What the invariant says of an operation that is alone. */
  ghost predicate AloneFacts(c: Config, s: State, id: nat)
    requires id < |s.ops|
  {
    var op := s.ops[id];
    (&& Safe(s, op) && Facts(c, s, op)
     && (!InExp(op.pc) ==> s.locker.None? && !s.dstate.locked)
     && (HasState(op.pc) ==> !op.state.locked)
     && (HasState(op.pc) && !c.dynamic ==> op.state == s.dstate)
     && (op.pc.TryLock? ==> op.state.offset <= op.ticket)
     && (op.pc.ExpRelease? ==> op.ticket < op.newOffset)
     && (InExp(op.pc) ==> s.dstate.offset <= op.ticket && s.locker == Some(id))
     && (!c.dynamic ==> s.dstate == Word(0, 0, false))
     && (op.pc.Scan? ==> op.pc.i < 31)
     && (op.pc.SeqValidate? ==> op.state.numClosed <= 31)
     && (IsBlocking(op.kind) ==> !op.pc.Failed?)) == true
  }

  lemma InvGivesAlone(c: Config, s: State, id: nat)
    requires WfConfig(c) && Inv(c, s) && id < |s.ops| && Unlocked(s, id)
    ensures AloneFacts(c, s, id)
  {
    hide Inv, Facts, Safe, TicketInv, OpOk;
    InvParts(c, s);
    NeverUnsafe(c, s, id);
    InvGivesFacts(c, s, id);
    AloneLock(c, s, id);
    AloneOp(c, s, id);
  }

  lemma AloneLock(c: Config, s: State, id: nat)
    requires WfConfig(c) && TicketInv(c, s) && id < |s.ops| && Unlocked(s, id)
    ensures var op := s.ops[id];
            && (!InExp(op.pc) ==> s.locker.None? && !s.dstate.locked)
            && (InExp(op.pc) ==> s.dstate.offset <= op.ticket && s.locker == Some(id))
            && (op.pc.ExpRelease? ==> op.ticket < op.newOffset)
            && (!c.dynamic ==> s.dstate == Word(0, 0, false))
            && |s.arrays| <= 32
  {
    hide OpsOk, HoldersOk, GoodStride, CapacityChain;
  }

  lemma AloneOp(c: Config, s: State, id: nat)
    requires WfConfig(c) && TicketInv(c, s) && id < |s.ops| && |s.arrays| <= 32
    ensures var op := s.ops[id];
            && (HasState(op.pc) ==> !op.state.locked && (!c.dynamic ==> op.state == Word(0, 0, false)))
            && (op.pc.TryLock? ==> op.state.offset <= op.ticket)
            && (op.pc.Scan? ==> op.pc.i < 31)
            && (op.pc.SeqValidate? ==> op.state.numClosed <= 31)
            && (IsBlocking(op.kind) ==> !op.pc.Failed?)
  {
    hide TicketInv, ArraysOk;
    InvGivesView(c, s, id);
    ArrayAt(c, s.arrays, 0);
  }

  // ---- steps that read, or write nothing the operation looks at again -------------------------------

  /** The effect leaves the counters and the seqlock word as they are, and slots unless that does not matter. */
  predicate Passive(e: Effect) {
    || e.Only?
    || ((e.Fill? || e.StoreSlots? || e.StoreCap? || e.StoreStride? || e.Allocate? || e.Touch?) && !e.op.pc.CheckPop?)
  }

  /** The step is passive and leaves the operation closer to the end. */
  predicate Nearer(c: Config, s: State, op: Op, choice: bool)
    requires WfConfig(c) && Safe(s, op)
  {
    var e := EffectOf(c, s, op, choice);
    Passive(e) && Rank(s, e.op) < Rank(s, op)
  }

  lemma PassiveEnds(c: Config, s: State, id: nat, choice: bool)
    requires WfConfig(c) && id < |s.ops| && Safe(s, s.ops[id]) && Unlocked(s, id) && Nearer(c, s, s.ops[id], choice)
    ensures Ends(c, s, id, choice)
  {
    hide EffectOf, Left, Safe, Perform, Rank;
    var e := EffectOf(c, s, s.ops[id], choice);
    EffectIsPossible(c, s, s.ops[id], choice);
    PassivePerform(s, id, e);
    SameRank(s, Perform(s, id, e), e.op);
  }

  lemma PassivePerform(s: State, id: nat, e: Effect)
    requires id < |s.ops| && Possible(s, e) && Passive(e)
    ensures var s' := Perform(s, id, e);
            && s'.push == s.push && s'.pop == s.pop && s'.dstate == s.dstate && s'.locker == s.locker
            && s'.ops == s.ops[id := e.op] && (e.op.pc.CheckPop? ==> s'.heap == s.heap)
  {
  }

  lemma SameRank(s: State, s': State, op: Op)
    requires s'.push == s.push && s'.pop == s.pop && s'.dstate == s.dstate && (op.pc.CheckPop? ==> s'.heap == s.heap)
    ensures Rank(s', op) == Rank(s, op)
  {
    hide Left, SlotIndex, MyTurn;
  }

  lemma StartNearer(c: Config, s: State, id: nat, choice: bool)
    requires WfConfig(c) && id < |s.ops| && AloneFacts(c, s, id)
    requires (s.ops[id].pc.Start? && !IsBlocking(s.ops[id].kind)) || s.ops[id].pc.LoadOther?
    ensures Nearer(c, s, s.ops[id], choice)
  {
    hide SlotOf, MyTurn, Serves, Facts, AtSeqState, AtValidate, AtScan, AtCompare, AtCheckSlot, AtCheckPop, AtRecheck;
    hide AtGrant, AtTryLock, AtExpSecond, AtFill, AtAccess;
  }

  lemma ReadNearer(c: Config, s: State, id: nat, choice: bool)
    requires WfConfig(c) && id < |s.ops| && AloneFacts(c, s, id)
    requires var pc := s.ops[id].pc; pc.SeqState? || pc.SeqSlots? || pc.SeqCap? || pc.SeqStride?
    ensures Nearer(c, s, s.ops[id], choice)
  {
    hide SlotOf, MyTurn, Serves, Facts, AtStart, AtLoadOther, AtValidate, AtScan, AtCompare, AtCheckSlot, AtCheckPop;
    hide AtRecheck, AtGrant, AtTryLock, AtExpSecond, AtFill, AtAccess;
  }

  lemma ResolveNearer(c: Config, s: State, id: nat, choice: bool)
    requires WfConfig(c) && id < |s.ops| && AloneFacts(c, s, id)
    requires s.ops[id].pc.SeqValidate? || s.ops[id].pc.Scan?
    ensures Nearer(c, s, s.ops[id], choice)
  {
    hide SlotOf, MyTurn, Serves, AtStart, AtLoadOther, AtSeqState, AtCompare, AtCheckSlot, AtCheckPop, AtRecheck;
    hide AtGrant, AtTryLock, AtExpSecond, AtFill, AtAccess;
  }

  lemma CompareNearer(c: Config, s: State, id: nat, choice: bool)
    requires WfConfig(c) && id < |s.ops| && AloneFacts(c, s, id) && s.ops[id].pc.Compare?
    ensures Nearer(c, s, s.ops[id], choice)
  {
    hide Serves, SlotOf, MyTurn, AtStart, AtLoadOther, AtSeqState, AtValidate, AtScan, AtCheckPop, AtGrant, AtTryLock;
    hide AtExpSecond, AtFill, AtAccess, AtCheckSlot, AtRecheck;
  }

  lemma CheckSlotNearer(c: Config, s: State, id: nat, choice: bool)
    requires WfConfig(c) && id < |s.ops| && AloneFacts(c, s, id) && s.ops[id].pc.CheckSlot?
    ensures Nearer(c, s, s.ops[id], choice)
  {
    hide Serves, SlotOf, MyTurn, AtStart, AtLoadOther, AtSeqState, AtValidate, AtScan, AtCheckPop, AtGrant, AtTryLock;
    hide AtExpSecond, AtFill, AtAccess, AtCompare, AtRecheck;
    var op := s.ops[id];
    SameSlot(s, op, CheckPop);
  }

  lemma SameSlot(s: State, op: Op, pc: Pc)
    requires SlotInBounds(s, op)
    ensures SlotInBounds(s, op.(pc := pc))
    ensures SlotOf(s, op.(pc := pc)) == SlotOf(s, op) && MyTurn(op.(pc := pc)) == MyTurn(op)
  {
  }

  lemma RecheckNearer(c: Config, s: State, id: nat, choice: bool)
    requires WfConfig(c) && id < |s.ops| && AloneFacts(c, s, id) && s.ops[id].pc.Recheck?
    ensures Nearer(c, s, s.ops[id], choice)
  {
    hide Serves, SlotOf, MyTurn, AtStart, AtLoadOther, AtSeqState, AtValidate, AtScan, AtCheckPop, AtGrant, AtTryLock;
    hide AtExpSecond, AtFill, AtAccess, AtCheckSlot, AtCompare;
  }

  lemma CheckPopNearer(c: Config, s: State, id: nat, choice: bool)
    requires WfConfig(c) && id < |s.ops| && AloneFacts(c, s, id) && s.ops[id].pc.CheckPop?
    requires Fresh(s, s.ops[id]) ==> s.pop + s.ops[id].cap <= s.ops[id].ticket
    ensures Nearer(c, s, s.ops[id], choice)
  {
    hide SlotOf, MyTurn, Serves, AtStart, AtLoadOther, AtSeqState, AtValidate, AtScan, AtCompare, AtCheckSlot;
    hide AtRecheck, AtGrant, AtTryLock, AtExpSecond, AtFill, AtAccess;
  }

  lemma ExpansionNearer(c: Config, s: State, id: nat, choice: bool)
    requires WfConfig(c) && id < |s.ops| && AloneFacts(c, s, id)
    requires var pc := s.ops[id].pc; pc.ExpFirst? || pc.ExpSecond? || (pc.ExpAlloc? && !choice)
    ensures Nearer(c, s, s.ops[id], choice)
  {
    hide SlotOf, MyTurn, Serves, AtStart, AtLoadOther, AtSeqState, AtValidate, AtScan, AtCompare, AtCheckSlot;
    hide AtRecheck, AtGrant, AtTryLock, AtCheckPop, AtFill, AtAccess;
  }

  // ---- steps that take a ticket, expand the queue or work on a slot ------------------------------------

  lemma TakeEnds(c: Config, s: State, id: nat, choice: bool)
    requires WfConfig(c) && id < |s.ops| && AloneFacts(c, s, id) && Unlocked(s, id)
    requires s.ops[id].pc.Start? && IsBlocking(s.ops[id].kind)
    ensures Ends(c, s, id, choice)
  {
    hide SlotOf, MyTurn, Serves, Facts, AtLoadOther, AtSeqState, AtValidate, AtScan, AtCompare, AtCheckSlot;
    hide AtCheckPop, AtRecheck, AtGrant, AtTryLock, AtExpSecond, AtFill, AtAccess;
  }

  lemma GrantNearer(c: Config, s: State, id: nat, choice: bool)
    requires WfConfig(c) && id < |s.ops| && AloneFacts(c, s, id)
    requires s.ops[id].pc.Grant? && Counter(s, s.ops[id].kind) != s.ops[id].ticket
    ensures Nearer(c, s, s.ops[id], choice)
  {
    hide SlotOf, MyTurn, Serves, AtStart, AtLoadOther, AtSeqState, AtValidate, AtScan, AtCompare, AtCheckSlot;
    hide AtCheckPop, AtRecheck, AtTryLock, AtExpSecond, AtFill, AtAccess;
  }

  lemma GrantEnds(c: Config, s: State, id: nat, choice: bool)
    requires WfConfig(c) && id < |s.ops| && AloneFacts(c, s, id) && Unlocked(s, id)
    requires s.ops[id].pc.Grant? && Counter(s, s.ops[id].kind) == s.ops[id].ticket
    ensures Ends(c, s, id, choice)
  {
    hide SlotOf, MyTurn, Serves, Facts, AtStart, AtLoadOther, AtSeqState, AtValidate, AtScan, AtCompare;
    hide AtCheckSlot, AtCheckPop, AtRecheck, AtTryLock, AtExpSecond, AtFill, AtAccess;
  }

  lemma LockNearer(c: Config, s: State, id: nat, choice: bool)
    requires WfConfig(c) && id < |s.ops| && AloneFacts(c, s, id)
    requires s.ops[id].pc.TryLock? && (s.ops[id].cap == c.capacity || s.dstate != s.ops[id].state)
    ensures Nearer(c, s, s.ops[id], choice)
  {
    hide SlotOf, MyTurn, Serves, Facts, AtStart, AtLoadOther, AtSeqState, AtValidate, AtScan, AtCompare;
    hide AtCheckSlot, AtCheckPop, AtRecheck, AtGrant, AtExpSecond, AtFill, AtAccess;
  }

  lemma LockEnds(c: Config, s: State, id: nat, choice: bool)
    requires WfConfig(c) && id < |s.ops| && AloneFacts(c, s, id) && Unlocked(s, id)
    requires s.ops[id].pc.TryLock? && s.ops[id].cap != c.capacity && s.dstate == s.ops[id].state
    ensures Ends(c, s, id, choice)
  {
    hide SlotOf, MyTurn, Serves, Facts, AtStart, AtLoadOther, AtSeqState, AtValidate, AtScan, AtCompare;
    hide AtCheckSlot, AtCheckPop, AtRecheck, AtGrant, AtExpSecond, AtFill, AtAccess;
  }

  lemma AllocateNearer(c: Config, s: State, id: nat, choice: bool)
    requires WfConfig(c) && id < |s.ops| && AloneFacts(c, s, id)
    requires s.ops[id].pc.ExpAlloc? && choice
    ensures Nearer(c, s, s.ops[id], choice)
  {
    hide SlotOf, MyTurn, Serves, Facts, AtStart, AtLoadOther, AtSeqState, AtValidate, AtScan, AtCompare;
    hide AtCheckSlot, AtCheckPop, AtRecheck, AtGrant, AtTryLock, AtExpSecond, AtFill, AtAccess;
  }

  lemma FillNearer(c: Config, s: State, id: nat, choice: bool)
    requires WfConfig(c) && id < |s.ops| && AloneFacts(c, s, id)
    requires InFill(s.ops[id].pc)
    ensures Nearer(c, s, s.ops[id], choice)
  {
    hide SlotOf, MyTurn, Serves, Facts, AtStart, AtLoadOther, AtSeqState, AtValidate, AtScan, AtCompare;
    hide AtCheckSlot, AtCheckPop, AtRecheck, AtGrant, AtTryLock, AtExpSecond, AtAccess;
  }

  lemma StoreNearer(c: Config, s: State, id: nat, choice: bool)
    requires WfConfig(c) && id < |s.ops| && AloneFacts(c, s, id)
    requires s.ops[id].pc.ExpSlots? || s.ops[id].pc.ExpCap? || s.ops[id].pc.ExpStride?
    ensures Nearer(c, s, s.ops[id], choice)
  {
    hide SlotOf, MyTurn, Serves, Facts, AtStart, AtLoadOther, AtSeqState, AtValidate, AtScan, AtCompare;
    hide AtCheckSlot, AtCheckPop, AtRecheck, AtGrant, AtTryLock, AtExpSecond, AtFill, AtAccess;
  }

  /** After an expansion the ticket lags behind the new array. */
  lemma ReleaseEnds(c: Config, s: State, id: nat, choice: bool)
    requires WfConfig(c) && id < |s.ops| && AloneFacts(c, s, id) && Unlocked(s, id)
    requires s.ops[id].pc.ExpRelease? || s.ops[id].pc.ExpRestore?
    ensures Ends(c, s, id, choice)
  {
    hide SlotOf, MyTurn, Serves, Facts, AtStart, AtLoadOther, AtSeqState, AtValidate, AtScan, AtCompare;
    hide AtCheckSlot, AtCheckPop, AtRecheck, AtGrant, AtTryLock, AtExpSecond, AtFill, AtAccess;
  }

  lemma SlotNearer(c: Config, s: State, id: nat, choice: bool)
    requires WfConfig(c) && id < |s.ops| && AloneFacts(c, s, id)
    requires s.ops[id].pc.Access? || s.ops[id].pc.Complete? || (s.ops[id].pc.Wait? && !Waits(s, s.ops[id]))
    ensures Nearer(c, s, s.ops[id], choice)
  {
    hide SlotOf, MyTurn, Serves, Facts, AtStart, AtLoadOther, AtSeqState, AtValidate, AtScan, AtCompare;
    hide AtCheckSlot, AtCheckPop, AtRecheck, AtGrant, AtTryLock, AtExpSecond, AtFill;
  }

  /** Every step of an operation alone brings it closer to its end. */
  lemma SoloEnds(c: Config, s: State, id: nat, choice: bool)
    requires WfConfig(c) && Inv(c, s) && id < |s.ops| && Unlocked(s, id)
    requires !Finished(s.ops[id]) && !Waits(s, s.ops[id]) && !Spins(s, s.ops[id])
    ensures Ends(c, s, id, choice)
  {
    hide Inv, Ends, Nearer, AloneFacts, Waits, Spins, Fresh, InFill;
    InvGivesAlone(c, s, id);
    AloneIsSafe(c, s, id);
    var op := s.ops[id];
    match op.pc
    case Start =>
      if IsBlocking(op.kind) {
        TakeEnds(c, s, id, choice);
      } else {
        StartNearer(c, s, id, choice);
        PassiveEnds(c, s, id, choice);
      }
    case LoadOther => StartNearer(c, s, id, choice); PassiveEnds(c, s, id, choice);
    case SeqState | SeqSlots | SeqCap | SeqStride => ReadNearer(c, s, id, choice); PassiveEnds(c, s, id, choice);
    case SeqValidate => ResolveNearer(c, s, id, choice); PassiveEnds(c, s, id, choice);
    case Scan(_) => ResolveNearer(c, s, id, choice); PassiveEnds(c, s, id, choice);
    case Compare => CompareNearer(c, s, id, choice); PassiveEnds(c, s, id, choice);
    case CheckSlot => CheckSlotNearer(c, s, id, choice); PassiveEnds(c, s, id, choice);
    case CheckPop =>
      if Fresh(s, op) && s.pop + op.cap > op.ticket {
        FreshSpins(c, s, id);
      }
      CheckPopNearer(c, s, id, choice);
      PassiveEnds(c, s, id, choice);
    case Recheck => RecheckNearer(c, s, id, choice); PassiveEnds(c, s, id, choice);
    case Grant =>
      if Counter(s, op.kind) == op.ticket {
        GrantEnds(c, s, id, choice);
      } else {
        GrantNearer(c, s, id, choice);
        PassiveEnds(c, s, id, choice);
      }
    case TryLock =>
      if op.cap != c.capacity && s.dstate == op.state {
        LockEnds(c, s, id, choice);
      } else {
        LockNearer(c, s, id, choice);
        PassiveEnds(c, s, id, choice);
      }
    case ExpFirst(_) => ExpansionNearer(c, s, id, choice); PassiveEnds(c, s, id, choice);
    case ExpSecond(_) => ExpansionNearer(c, s, id, choice); PassiveEnds(c, s, id, choice);
    case ExpAlloc =>
      if choice {
        AllocateNearer(c, s, id, choice);
      } else {
        ExpansionNearer(c, s, id, choice);
      }
      PassiveEnds(c, s, id, choice);
    case FillOffset | FillSlots | FillCap | FillStride =>
      IsInFill(op.pc);
      FillNearer(c, s, id, choice);
      PassiveEnds(c, s, id, choice);
    case ExpSlots | ExpCap | ExpStride => StoreNearer(c, s, id, choice); PassiveEnds(c, s, id, choice);
    case ExpRelease | ExpRestore => ReleaseEnds(c, s, id, choice);
    case Wait | Access | Complete => SlotNearer(c, s, id, choice); PassiveEnds(c, s, id, choice);
  }

  lemma AloneIsSafe(c: Config, s: State, id: nat)
    requires id < |s.ops| && AloneFacts(c, s, id)
    ensures Safe(s, s.ops[id])
  {
    hide Facts, Safe;
  }

  lemma IsInFill(pc: Pc)
    ensures pc.FillOffset? || pc.FillSlots? || pc.FillCap? || pc.FillStride? ==> InFill(pc)
  {
  }

  /** A blocking write that finds its slot taken and a pop in progress spins. */
  lemma FreshSpins(c: Config, s: State, id: nat)
    requires WfConfig(c) && Inv(c, s) && id < |s.ops| && s.ops[id].pc.CheckPop?
    requires Fresh(s, s.ops[id]) && s.pop + s.ops[id].cap > s.ops[id].ticket
    ensures Spins(s, s.ops[id])
  {
    hide Inv, TicketInv, Facts, SlotsOk, ArraysAllotted;
    var op := s.ops[id];
    InvParts(c, s);
    InvGivesFacts(c, s, id);
    IsBlockingWrite(c, s, op);
    StageOfHolder(c, s, id);
    assert SpinsOn(s, op.slots, op);
  }

  lemma IsBlockingWrite(c: Config, s: State, op: Op)
    requires Facts(c, s, op) && op.pc.CheckPop?
    ensures op.kind.BlockingWrite?
  {
  }

  // ---- to the end --------------------------------------------------------------------------------------

  lemma {:induction false} FinishesFrom(c: Config, s: State, id: nat, choice: bool) returns (n: nat, s': State)
    requires WfConfig(c) && Sized(c) && Inv(c, s) && id < |s.ops| && Unlocked(s, id)
    ensures n <= Rank(s, s.ops[id]) < 400 && Solo(c, s, id, choice, n) == Some(s') && id < |s'.ops|
    ensures Finished(s'.ops[id]) || Waits(s', s'.ops[id]) || Spins(s', s'.ops[id])
    decreases Rank(s, s.ops[id])
  {
    hide Inv, Sized, Waits, Spins, Rank, Step, Unlocked;
    RankIsBounded(s, s.ops[id]);
    if Finished(s.ops[id]) || Waits(s, s.ops[id]) || Spins(s, s.ops[id]) {
      n, s' := 0, s;
    } else {
      SoloEnds(c, s, id, choice);
      var next := Step(c, s, id, choice).value;
      StepInv(c, s, id, choice);
      n, s' := FinishesFrom(c, next, id, choice);
      n := n + 1;
    }
  }

  lemma RankIsBounded(s: State, op: Op)
    ensures Rank(s, op) < 400
  {
  }

  lemma StepInv(c: Config, s: State, id: nat, choice: bool)
    requires WfConfig(c) && Sized(c) && Inv(c, s) && Step(c, s, id, choice).Some?
    ensures Inv(c, Step(c, s, id, choice).value)
  {
    hide Inv, Sized, EffectOf, Perform, Safe;
    StepKeepsInv(c, s, id, choice);
  }

  /** From every reachable state in which no other operation holds the seqlock, an operation that moves alone is
      finished within 400 moves, or waits for its slot, or spins while a pop is in progress. */
  lemma FinishesAlone(c: Config, s: State, id: nat, choice: bool) returns (n: nat, s': State)
    requires WfConfig(c) && Sized(c) && Reachable(c, s) && id < |s.ops| && Unlocked(s, id)
    ensures n < 400 && Solo(c, s, id, choice, n) == Some(s') && id < |s'.ops|
    ensures Finished(s'.ops[id]) || Waits(s', s'.ops[id]) || Spins(s', s'.ops[id])
  {
    hide Reachable, Sized, Inv, Waits, Spins;
    ReachableInv(c, s);
    n, s' := FinishesFrom(c, s, id, choice);
  }
}
