/** The invariant of the queue machine that concerns tickets, the seqlock and the
    choice of a slots array, and the proof that every step keeps it. */
module QueueTickets {
  import opened Options
  import opened Arith
  import opened TicketIndex
  import opened QueueMachine

  // ---- program points --------------------------------------------------------

  predicate InExp(pc: Pc) {
    || pc.ExpFirst? || pc.ExpSecond? || pc.ExpAlloc?
    || InFill(pc) || InPublish(pc) || pc.ExpRestore?
  }

  /** The seqlock section of the operation has been validated. */
  predicate Validated(pc: Pc) {
    || pc.Scan? || pc.Compare? || pc.CheckSlot? || pc.CheckPop? || pc.Recheck? || pc.Grant? || pc.TryLock?
    || InExp(pc) || pc.Wait? || pc.Access? || pc.Complete? || pc.Done?
  }

  /** The operation knows the array that serves its ticket. */
  predicate Resolved(pc: Pc) {
    Validated(pc) && !pc.Scan?
  }

  predicate HasState(pc: Pc) {
    Validated(pc) || pc.SeqSlots? || pc.SeqCap? || pc.SeqStride? || pc.SeqValidate?
  }

  /** The ticket belongs to the operation, rather than having only been read. */
  predicate Granted(op: Op) {
    || (IsBlocking(op.kind) && !op.pc.Start?)
    || op.pc.Wait? || op.pc.Access? || op.pc.Complete? || op.pc.Done?
  }

  predicate SeenFirst(pc: Pc) {
    InExp(pc) && !pc.ExpFirst?
  }

  predicate HasOffset(pc: Pc) {
    SeenFirst(pc) && !pc.ExpSecond?
  }

  predicate HasNewArray(pc: Pc) {
    InFill(pc) || InPublish(pc)
  }

  predicate StoredSlots(pc: Pc) { pc.ExpCap? || pc.ExpStride? || pc.ExpRelease? }
  predicate StoredCap(pc: Pc) { pc.ExpStride? || pc.ExpRelease? }

  // ---- what one operation may rely on ----------------------------------------

  /** The part of the state that the invariant of a single operation talks about. */
  datatype View = View(
    push: nat, pop: nat, pushHolder: seq<nat>, popHolder: seq<nat>, arrays: seq<Array>,
    held: bool, lockPc: Pc, seen: nat, newOffset: nat)

  function ViewOf(s: State): (v: View)
    requires s.locker.Some? ==> s.locker.value < |s.ops|
  {
    if s.locker.Some? then
      var e := s.ops[s.locker.value];
      View(s.push, s.pop, s.pushHolder, s.popHolder, s.arrays, true, e.pc, e.seen, e.newOffset)
    else View(s.push, s.pop, s.pushHolder, s.popHolder, s.arrays, false, Start, 0, 0)
  }

  function Tickets(v: View, kind: Kind): (n: nat) {
    if IsPush(kind) then v.push else v.pop
  }

  function OtherTickets(v: View, kind: Kind): (n: nat) {
    if IsPush(kind) then v.pop else v.push
  }

  predicate Holds(v: View, id: nat, op: Op) {
    if IsPush(op.kind)
    then op.ticket < |v.pushHolder| && v.pushHolder[op.ticket] == id
    else op.ticket < |v.popHolder| && v.popHolder[op.ticket] == id
  }

  ghost predicate TicketOk(v: View, id: nat, op: Op) {
    && (!op.pc.Start? ==> op.ticket <= Tickets(v, op.kind))
    && (Granted(op) ==> op.ticket < Tickets(v, op.kind) && Holds(v, id, op))
    && op.other <= OtherTickets(v, op.kind)
    && (op.kind.WriteIfNotFull? && (op.pc.Grant? || Granted(op)) ==> op.ticket < op.other + op.cap)
    && (op.kind.ReadIfNotEmpty? && (op.pc.Grant? || Granted(op)) ==> op.ticket < op.other)
    && (IsBlocking(op.kind) ==> !op.pc.Failed? && !op.pc.Grant?)
  }

  /** The seqlock word was, at some time, the word published with some array. */
  ghost predicate StateOk(v: View, op: Op) {
    var n := op.state.numClosed;
    n < |v.arrays| && op.state == Word(v.arrays[n].offset, n, false)
  }

  /** No expansion has started to overwrite the words read with op.state. */
  ghost predicate Current(v: View, op: Op) {
    op.state.numClosed + 1 == |v.arrays| && !(v.held && StoredSlots(v.lockPc))
  }

  ghost predicate ReadOk(v: View, op: Op) {
    StateOk(v, op) && Current(v, op) ==>
      var a := v.arrays[|v.arrays| - 1];
      && (op.pc.SeqCap? || op.pc.SeqStride? || op.pc.SeqValidate? ==> op.slots == a.slots)
      && (op.pc.SeqStride? || op.pc.SeqValidate? ==> op.cap == a.cap)
      && (op.pc.SeqValidate? ==> op.stride == a.stride)
  }

  /** Every array published later, and the one being prepared, starts above the ticket. */
  ghost predicate Behind(v: View, op: Op) {
    && (forall j :: op.state.numClosed < j < |v.arrays| ==> v.arrays[j].offset > op.ticket)
    && (v.held && v.lockPc.ExpSecond? && IsPush(op.kind) != v.lockPc.popFirst ==> op.ticket <= v.seen)
    && (v.held && HasOffset(v.lockPc) ==> op.ticket < v.newOffset)
  }

  /** The operation uses the last array that starts at or below its ticket. */
  ghost predicate ServedBy(arrays: seq<Array>, op: Op) {
    && op.slots < |arrays|
    && arrays[op.slots] == Array(op.offset, op.slots, op.cap, op.stride)
    && op.offset <= op.ticket
    && forall j :: op.slots < j < |arrays| ==> arrays[j].offset > op.ticket
  }

  predicate NeedsCurrent(op: Op) {
    (op.kind.BlockingWrite? && op.pc.CheckSlot?) || op.pc.CheckPop? || op.pc.TryLock? || InExp(op.pc)
  }

  ghost predicate ResolveOk(c: Config, v: View, op: Op) {
    var n := op.state.numClosed;
    && (Validated(op.pc) && StateOk(v, op) ==>
          && Behind(v, op)
          && op.curCap == v.arrays[n].cap
          && (op.pc.Scan? ==> op.pc.i < n && forall j :: op.pc.i < j <= n ==> v.arrays[j].offset > op.ticket)
          && (Resolved(op.pc) ==> op.slots <= n && ServedBy(v.arrays, op))
          && (NeedsCurrent(op) ==> op.slots == n && c.dynamic && IsPush(op.kind))
          && (InExp(op.pc) ==> op.cap < c.capacity))
  }

  ghost predicate ViewOk(c: Config, v: View)
    requires WfConfig(c)
  {
    ArraysOk(c, v.arrays) && (!c.dynamic ==> !v.held && |v.arrays| == 1)
  }

  ghost predicate OpOk(c: Config, v: View, id: nat, op: Op) {
    (&& TicketOk(v, id, op)
    && (HasState(op.pc) ==> StateOk(v, op))
    && ReadOk(v, op)
    && ResolveOk(c, v, op)
    && (op.kind.BlockingRead? || op.kind.ReadIfNotEmpty? ==> !op.pc.CheckSlot? && !op.pc.Recheck?)
    && (op.kind.BlockingWrite? || op.kind.WriteIfNotFull? ==> !op.pc.Recheck?)
    && (op.kind.WriteIfNotFull? ==> !op.pc.CheckSlot?)
    && (op.pc.CheckPop? ==> op.kind.BlockingWrite?)
    && (op.pc.Compare? || op.pc.LoadOther? ==> op.kind.WriteIfNotFull? || op.kind.ReadIfNotEmpty?)
    && (c.dynamic && op.pc.Recheck? ==> op.kind.Write?)
    && (op.pc.SeqState? || op.pc.SeqSlots? || op.pc.SeqCap? || op.pc.SeqStride? || op.pc.SeqValidate? ==>
          c.dynamic)) == true
  }

  // ---- the arrays ------------------------------------------------------------

  /** The slot and the turn of a ticket determine the ticket. */
  ghost predicate GoodStride(cap: nat, stride: nat)
    requires cap > 0
  {
    forall t1: nat, t2: nat ::
      Idx(t1, cap, stride) == Idx(t2, cap, stride) && Turn(t1, cap) == Turn(t2, cap) ==> t1 == t2
  }

  ghost predicate ArraysOk(c: Config, arrays: seq<Array>)
    requires WfConfig(c)
  {
    && |arrays| > 0
    && arrays[0] == InitArray(c)
    && (forall i :: 0 <= i < |arrays| ==>
          arrays[i].slots == i && 0 < arrays[i].cap <= c.capacity && GoodStride(arrays[i].cap, arrays[i].stride))
    && (forall i, j :: 0 <= i < j < |arrays| ==> arrays[i].offset < arrays[j].offset)
    && (forall i, j :: 0 <= i < j < |arrays| ==> arrays[i].cap < arrays[j].cap)
    && |arrays| - 1 <= c.maxClosed
    && (arrays[|arrays| - 1].cap < c.capacity ==> |arrays| - 1 < c.maxClosed)
    && CapacityChain(c, arrays)
  }

  ghost predicate CapacityChain(c: Config, arrays: seq<Array>) {
    forall i :: 0 < i < |arrays| ==> CapacityLink(c, arrays, i)
  }

  ghost predicate CapacityLink(c: Config, arrays: seq<Array>, i: nat)
    requires 0 < i < |arrays|
  {
    arrays[i].cap == Min(c.mult * arrays[i - 1].cap, c.capacity)
  }

  predicate PushHeld(s: State, t: nat)
    requires t < |s.pushHolder|
  {
    var h := s.pushHolder[t];
    h < |s.ops| && IsPush(s.ops[h].kind) && Granted(s.ops[h]) && s.ops[h].ticket == t
  }

  predicate PopHeld(s: State, t: nat)
    requires t < |s.popHolder|
  {
    var h := s.popHolder[t];
    h < |s.ops| && !IsPush(s.ops[h].kind) && Granted(s.ops[h]) && s.ops[h].ticket == t
  }

  ghost predicate HoldersOk(s: State) {
    && s.push == |s.pushHolder| && s.pop == |s.popHolder|
    && (forall t :: 0 <= t < |s.pushHolder| ==> PushHeld(s, t))
    && (forall t :: 0 <= t < |s.popHolder| ==> PopHeld(s, t))
  }

  /** The seqlock word, the three words it protects and the closed arrays. */
  ghost predicate DynamicOk(c: Config, s: State)
    requires WfConfig(c) && ArraysOk(c, s.arrays)
    requires s.locker.Some? ==> s.locker.value < |s.ops|
  {
    var v := ViewOf(s);
    var n := |s.arrays| - 1;
    var a := s.arrays[n];
    (&& s.dstate == Word(a.offset, n, v.held)
    && |s.closed| == c.maxClosed
    && (forall j :: 0 <= j < n ==> s.closed[j] == s.arrays[j])
    && s.dslots == (if v.held && StoredSlots(v.lockPc) then n + 1 else n)
    && (!(v.held && StoredCap(v.lockPc)) ==> s.dcap == a.cap)
    && (!(v.held && v.lockPc.ExpRelease?) ==> s.dstride == a.stride)
    && |s.heap| == |s.arrays| + (if v.held && HasNewArray(v.lockPc) then 1 else 0)
    && (forall i :: 0 <= i <= n ==> |s.heap[i]| == s.arrays[i].cap)
    && (!c.dynamic ==> !v.held && n == 0)) == true
  }

  /** The operation that holds the seqlock. */
  ghost predicate LockOk(c: Config, s: State)
    requires WfConfig(c) && ArraysOk(c, s.arrays)
  {
    && (forall id :: 0 <= id < |s.ops| && InExp(s.ops[id].pc) ==> s.locker == Some(id))
    && (s.locker.Some? ==> s.locker.value < |s.ops| && LockerOk(c, s, s.ops[s.locker.value]))
  }

  ghost predicate LockerOk(c: Config, s: State, e: Op)
    requires WfConfig(c) && ArraysOk(c, s.arrays)
  {
    var n := |s.arrays| - 1;
    var a := s.arrays[n];
    (&& InExp(e.pc)
    && e.state == Word(a.offset, n, false)
    && a.cap == e.cap < c.capacity && n < |s.closed|
    && a.offset <= e.ticket && e.ticket <= s.push
    && (e.pc.ExpSecond? && !e.pc.popFirst ==> e.ticket <= e.seen)
    && (HasOffset(e.pc) ==> 
          && e.ticket < e.newOffset && e.newCap == Min(c.mult * e.cap, c.capacity)
          && e.cap < e.newCap && GoodStride(e.newCap, e.newStride))
    && (HasNewArray(e.pc) ==>
          && e.newSlots == n + 1 && |s.heap| == n + 2
          && s.heap[n + 1] == FreshSlots(e.newCap)
          && (!e.pc.FillOffset? ==> s.closed[n].offset == a.offset)
          && (!e.pc.FillOffset? && !e.pc.FillSlots? ==> s.closed[n].slots == n)
          && (e.pc.FillStride? || InPublish(e.pc) ==> s.closed[n].cap == a.cap)
          && (InPublish(e.pc) ==> s.closed[n].stride == a.stride)
          && (StoredCap(e.pc) ==> s.dcap == e.newCap)
          && (e.pc.ExpRelease? ==> s.dstride == e.newStride))) == true
  }

  ghost predicate OpAt(c: Config, s: State, id: nat)
    requires s.locker.Some? ==> s.locker.value < |s.ops|
    requires id < |s.ops|
  {
    OpOk(c, ViewOf(s), id, s.ops[id])
  }

  ghost predicate OpsOk(c: Config, s: State)
    requires s.locker.Some? ==> s.locker.value < |s.ops|
  {
    forall id :: 0 <= id < |s.ops| ==> OpAt(c, s, id)
  }

  ghost predicate TicketInv(c: Config, s: State)
    requires WfConfig(c)
  {
    // compared with true so that the verifier carries the invariant as one fact
    (ArraysOk(c, s.arrays) && HoldersOk(s) && LockOk(c, s) && DynamicOk(c, s) && OpsOk(c, s)) == true
  }

  /** The effect can be performed and leaves the invariant in place. */
  ghost predicate Kept(c: Config, s: State, id: nat, e: Effect)
    requires WfConfig(c) && id < |s.ops|
  {
    (e.Blocked? || (Possible(s, e) && TicketInv(c, Perform(s, id, e)))) == true
  }

  // ---- steps that change one operation only ----------------------------------

  /** The step only moves the operation, which neither enters nor is in the critical section. */
  ghost predicate Local(c: Config, v: View, id: nat, op: Op, op': Op) {
    (&& op'.kind == op.kind
     && !InExp(op.pc) && !InExp(op'.pc)
     && (Granted(op) ==> Granted(op') && op'.ticket == op.ticket)
     && OpOk(c, v, id, op')) == true
  }

  /** The step gives the operation the next ticket. */
  ghost predicate Taking(c: Config, v: View, id: nat, op: Op, op': Op) {
    (&& op'.kind == op.kind
     && !InExp(op.pc) && !InExp(op'.pc)
     && !Granted(op) && Granted(op') && op'.ticket == Tickets(v, op.kind)
     && OpOk(c, TakenView(v, id, op'.kind), id, op')) == true
  }

  lemma LocalStep(c: Config, s: State, id: nat, op': Op)
    requires WfConfig(c) && TicketInv(c, s) && id < |s.ops| && Local(c, ViewOf(s), id, s.ops[id], op')
    ensures TicketInv(c, Put(s, id, op'))
  {
    var s' := Put(s, id, op');
    assert ViewOf(s') == ViewOf(s);
    forall j | 0 <= j < |s'.ops| ensures OpAt(c, s', j) {
      assert OpAt(c, s, j);
    }
    HoldersKept(s, id, op');
  }

  lemma HoldersKept(s: State, id: nat, op': Op)
    requires HoldersOk(s) && id < |s.ops|
    requires op'.kind == s.ops[id].kind
    requires Granted(s.ops[id]) ==> Granted(op') && op'.ticket == s.ops[id].ticket
    ensures HoldersOk(Put(s, id, op'))
  {
    var s' := Put(s, id, op');
    forall t | 0 <= t < |s'.pushHolder| ensures PushHeld(s', t) {
      assert PushHeld(s, t);
    }
    forall t | 0 <= t < |s'.popHolder| ensures PopHeld(s', t) {
      assert PopHeld(s, t);
    }
  }

  /** Counters only grow; the lock may move on as long as what it saw stays enough. */
  ghost predicate Advances(v: View, v': View) {
    && v.push <= v'.push && v.pop <= v'.pop
    && v.pushHolder <= v'.pushHolder && v.popHolder <= v'.popHolder
    && v.arrays == v'.arrays
    && (v.held && StoredSlots(v.lockPc) ==> v'.held && StoredSlots(v'.lockPc))
    && (v'.held && v'.lockPc.ExpSecond? ==>
          || (v.held && v.lockPc == v'.lockPc && v'.seen == v.seen)
          || v'.seen >= FirstCounter(v, v'.lockPc.popFirst))
    && (v'.held && HasOffset(v'.lockPc) ==>
          v.held
          && if HasOffset(v.lockPc) then v'.newOffset == v.newOffset
             else v.lockPc.ExpSecond? && v'.newOffset > v.seen && v'.newOffset > FirstCounter(v, !v.lockPc.popFirst))
  }

  /** The counter an expansion loads first, or the other one. */
  function FirstCounter(v: View, popFirst: bool): (n: nat) {
    if popFirst then v.pop else v.push
  }

  lemma OpAdvances(c: Config, v: View, v': View, id: nat, op: Op)
    requires OpOk(c, v, id, op) && Advances(v, v')
    ensures OpOk(c, v', id, op)
  {
    assert StateOk(v, op) == StateOk(v', op);
  }

  // ---- an operation and what it sees ------------------------------------------

  function TakenView(v: View, id: nat, kind: Kind): (v': View) {
    if IsPush(kind) then v.(push := v.push + 1, pushHolder := v.pushHolder + [id])
    else v.(pop := v.pop + 1, popHolder := v.popHolder + [id])
  }

  ghost predicate Synced(v: View) {
    v.push == |v.pushHolder| && v.pop == |v.popHolder|
  }

  lemma StartOp(c: Config, v: View, id: nat, op: Op)
    requires WfConfig(c) && ViewOk(c, v) && OpOk(c, v, id, op) && op.pc.Start? && !IsBlocking(op.kind)
    ensures Local(c, v, id, op, AtStart(c, op, Tickets(v, op.kind)).op)
  {
    hide ArraysOk;
    ArrayAt(c, v.arrays, 0);
  }

  lemma StartBlockingOp(c: Config, v: View, id: nat, op: Op)
    requires WfConfig(c) && ViewOk(c, v) && Synced(v) && OpOk(c, v, id, op) && op.pc.Start? && IsBlocking(op.kind)
    ensures Taking(c, v, id, op, AtStart(c, op, Tickets(v, op.kind)).op)
  {
    hide ArraysOk;
    ArrayAt(c, v.arrays, 0);
  }

  lemma LoadOtherOp(c: Config, v: View, id: nat, op: Op)
    requires WfConfig(c) && ViewOk(c, v) && OpOk(c, v, id, op) && op.pc.LoadOther?
    ensures Local(c, v, id, op, AtLoadOther(c, op, OtherTickets(v, op.kind)))
  {
    hide ArraysOk;
    ArrayAt(c, v.arrays, 0);
  }

  lemma RetryOp(c: Config, v: View, id: nat, op: Op)
    requires OpOk(c, v, id, op) && c.dynamic && !op.pc.Start?
    requires !IsBlocking(op.kind) ==> !Granted(op)
    ensures OpOk(c, v, id, Retry(op))
  {
  }

  lemma SeqStateOp(c: Config, v: View, id: nat, op: Op, word: Word)
    requires OpOk(c, v, id, op) && op.pc.SeqState?
    requires !word.locked ==> StateOk(v, op.(state := word))
    ensures Local(c, v, id, op, AtSeqState(op, word))
  {
    if word.locked { RetryOp(c, v, id, op); }
  }

  lemma SeqSlotsOp(c: Config, v: View, id: nat, op: Op, slots: nat)
    requires WfConfig(c) && ViewOk(c, v) && OpOk(c, v, id, op) && op.pc.SeqSlots?
    requires !(v.held && StoredSlots(v.lockPc)) ==> slots == |v.arrays| - 1
    ensures Local(c, v, id, op, op.(slots := slots, pc := SeqCap))
  {
  }

  lemma SeqCapOp(c: Config, v: View, id: nat, op: Op, cap: nat)
    requires WfConfig(c) && ViewOk(c, v) && OpOk(c, v, id, op) && op.pc.SeqCap?
    requires !(v.held && StoredSlots(v.lockPc)) ==> cap == v.arrays[|v.arrays| - 1].cap
    ensures Local(c, v, id, op, op.(cap := cap, pc := SeqStride))
  {
  }

  lemma SeqStrideOp(c: Config, v: View, id: nat, op: Op, stride: nat)
    requires WfConfig(c) && ViewOk(c, v) && OpOk(c, v, id, op) && op.pc.SeqStride?
    requires !(v.held && StoredSlots(v.lockPc)) ==> stride == v.arrays[|v.arrays| - 1].stride
    ensures Local(c, v, id, op, op.(stride := stride, pc := SeqValidate))
  {
  }

  /** A section that validates has read three words that were published together. */
  lemma ValidateOp(c: Config, v: View, id: nat, op: Op, word: Word)
    requires WfConfig(c) && ViewOk(c, v) && OpOk(c, v, id, op) && op.pc.SeqValidate?
    requires word == Word(v.arrays[|v.arrays| - 1].offset, |v.arrays| - 1, v.held)
    ensures Local(c, v, id, op, AtValidate(op, word))
    ensures word == op.state ==>
              var a := v.arrays[|v.arrays| - 1];
              op.slots == a.slots && op.cap == a.cap && op.stride == a.stride
  {
    hide ArraysOk;
    ArrayAt(c, v.arrays, |v.arrays| - 1);
    ArrayAt(c, v.arrays, 0);
    if word != op.state { RetryOp(c, v, id, op); }
  }

  lemma ArrayAt(c: Config, arrays: seq<Array>, i: nat)
    requires WfConfig(c) && ArraysOk(c, arrays)
    ensures |arrays| > 0 && arrays[0] == InitArray(c) && (i < |arrays| ==> arrays[i].slots == i)
  {
  }

  lemma ScanOp(c: Config, v: View, id: nat, op: Op)
    requires WfConfig(c) && ViewOk(c, v) && OpOk(c, v, id, op) && op.pc.Scan?
    ensures op.pc.i < |v.arrays| - 1
    ensures Local(c, v, id, op, AtScan(op, v.arrays[op.pc.i]))
  {
    hide ArraysOk;
    ArrayAt(c, v.arrays, op.pc.i);
    if v.arrays[op.pc.i].offset <= op.ticket {
      ScanHits(c, v, id, op);
    } else {
      ScanMisses(c, v, id, op);
    }
  }

  lemma ScanHits(c: Config, v: View, id: nat, op: Op)
    requires OpOk(c, v, id, op) && op.pc.Scan? && op.pc.i < |v.arrays| && v.arrays[op.pc.i].slots == op.pc.i
    requires v.arrays[op.pc.i].offset <= op.ticket
    ensures Local(c, v, id, op, AtScan(op, v.arrays[op.pc.i]))
  {
  }

  lemma ScanMisses(c: Config, v: View, id: nat, op: Op)
    requires OpOk(c, v, id, op) && op.pc.Scan? && op.pc.i < |v.arrays|
    requires v.arrays[op.pc.i].offset > op.ticket && (op.pc.i == 0 ==> v.arrays[0].offset == 0)
    ensures Local(c, v, id, op, AtScan(op, v.arrays[op.pc.i]))
  {
  }

  lemma CompareOp(c: Config, v: View, id: nat, op: Op)
    requires WfConfig(c) && ViewOk(c, v) && OpOk(c, v, id, op) && op.pc.Compare?
    ensures Local(c, v, id, op, AtCompare(c, op))
  {
    hide GoodStride, CapacityChain;
  }

  lemma CheckSlotOp(c: Config, v: View, id: nat, op: Op, ready: bool)
    requires OpOk(c, v, id, op) && op.pc.CheckSlot?
    ensures Local(c, v, id, op, AtCheckSlot(c, op, ready))
  {
  }

  lemma CheckPopOp(c: Config, v: View, id: nat, op: Op)
    requires OpOk(c, v, id, op) && op.pc.CheckPop?
    ensures Local(c, v, id, op, AtCheckPop(op, v.pop))
  {
  }

  lemma RecheckOp(c: Config, v: View, id: nat, op: Op)
    requires WfConfig(c) && ViewOk(c, v) && OpOk(c, v, id, op) && op.pc.Recheck?
    ensures Local(c, v, id, op, AtRecheck(c, op, Tickets(v, op.kind)))
  {
    hide ArraysOk;
    ArrayAt(c, v.arrays, 0);
  }

  lemma GrantOp(c: Config, v: View, id: nat, op: Op)
    requires WfConfig(c) && ViewOk(c, v) && Synced(v) && OpOk(c, v, id, op) && op.pc.Grant?
    ensures var e := AtGrant(c, op, Tickets(v, op.kind));
            if e.Take? then Taking(c, v, id, op, e.op) else Local(c, v, id, op, e.op)
  {
    hide OpOk, Taking, Local, ViewOk;
    if Tickets(v, op.kind) == op.ticket {
      GrantTakes(c, v, id, op);
    } else if c.dynamic {
      GrantRetries(c, v, id, op);
    } else {
      GrantReloads(c, v, id, op);
    }
  }

  lemma GrantTakes(c: Config, v: View, id: nat, op: Op)
    requires Synced(v) && OpOk(c, v, id, op) && op.pc.Grant? && Tickets(v, op.kind) == op.ticket
    ensures Taking(c, v, id, op, op.(pc := Wait))
  {
    TakenAdvances(v, id, op.kind);
    OpAdvances(c, v, TakenView(v, id, op.kind), id, op);
  }

  lemma TakenAdvances(v: View, id: nat, kind: Kind)
    ensures Advances(v, TakenView(v, id, kind))
  {
  }

  lemma GrantRetries(c: Config, v: View, id: nat, op: Op)
    requires OpOk(c, v, id, op) && op.pc.Grant?
    ensures Local(c, v, id, op, op.(pc := Start))
  {
  }

  lemma GrantReloads(c: Config, v: View, id: nat, op: Op)
    requires WfConfig(c) && ViewOk(c, v) && OpOk(c, v, id, op) && op.pc.Grant? && !c.dynamic
    ensures Local(c, v, id, op, op.(ticket := Tickets(v, op.kind),
                                    pc := if op.kind.Write? || op.kind.Read? then CheckSlot else LoadOther))
  {
    hide ArraysOk;
    ArrayAt(c, v.arrays, 0);
  }

  lemma CannotExpandOp(c: Config, v: View, id: nat, op: Op)
    requires OpOk(c, v, id, op) && (op.pc.TryLock? || op.pc.ExpRestore?)
    ensures OpOk(c, v, id, CannotExpand(op))
  {
  }

  lemma TryLockOp(c: Config, v: View, id: nat, op: Op)
    requires OpOk(c, v, id, op) && op.pc.TryLock?
    ensures Local(c, v, id, op, CannotExpand(op))
    ensures Local(c, v, id, op, Retry(op))
  {
    CannotExpandOp(c, v, id, op);
    RetryOp(c, v, id, op);
  }

  lemma WaitOp(c: Config, v: View, id: nat, op: Op)
    requires OpOk(c, v, id, op) && op.pc.Wait?
    ensures Local(c, v, id, op, op.(pc := Access))
  {
  }

  // ---- steps that take a ticket ------------------------------------------------

  lemma TakeStep(c: Config, s: State, id: nat, op': Op)
    requires WfConfig(c) && TicketInv(c, s) && id < |s.ops| && Taking(c, ViewOf(s), id, s.ops[id], op')
    ensures TicketInv(c, PerformTake(s, id, op'))
  {
    var s' := PerformTake(s, id, op');
    TakeOps(c, s, id, op');
    TakeDynamic(c, s, id, op');
    HoldersGrow(s, id, op');
  }

  lemma TakeLock(c: Config, s: State, id: nat, op': Op)
    requires WfConfig(c) && ArraysOk(c, s.arrays) && LockOk(c, s)
    requires id < |s.ops| && !InExp(s.ops[id].pc) && !InExp(op'.pc)
    ensures LockOk(c, PerformTake(s, id, op'))
  {
  }

  lemma TakeDynamic(c: Config, s: State, id: nat, op': Op)
    requires WfConfig(c) && ArraysOk(c, s.arrays) && LockOk(c, s) && DynamicOk(c, s)
    requires id < |s.ops| && !InExp(s.ops[id].pc) && !InExp(op'.pc)
    ensures LockOk(c, PerformTake(s, id, op')) && DynamicOk(c, PerformTake(s, id, op'))
  {
    hide GoodStride, CapacityChain;
    TakeLock(c, s, id, op');
    assert ViewOf(PerformTake(s, id, op')) == TakenView(ViewOf(s), id, op'.kind);
  }

  lemma TakeOps(c: Config, s: State, id: nat, op': Op)
    requires WfConfig(c) && ArraysOk(c, s.arrays) && LockOk(c, s) && OpsOk(c, s)
    requires id < |s.ops| && Taking(c, ViewOf(s), id, s.ops[id], op')
    ensures OpsOk(c, PerformTake(s, id, op'))
  {
    hide OpOk, ArraysOk;
    var s' := PerformTake(s, id, op');
    var v, v' := ViewOf(s), TakenView(ViewOf(s), id, op'.kind);
    assert s.locker.Some? ==> s.locker.value != id;
    assert ViewOf(s') == v';
    forall j | 0 <= j < |s'.ops| ensures OpAt(c, s', j) {
      assert OpAt(c, s, j);
      if j != id { OpAdvances(c, v, v', j, s.ops[j]); }
    }
  }

  lemma HoldersGrow(s: State, id: nat, op': Op)
    requires HoldersOk(s) && id < |s.ops|
    requires op'.kind == s.ops[id].kind
    requires !Granted(s.ops[id]) && Granted(op') && op'.ticket == Counter(s, op'.kind)
    ensures HoldersOk(PerformTake(s, id, op'))
  {
    var s' := PerformTake(s, id, op');
    forall t | 0 <= t < |s'.pushHolder| ensures PushHeld(s', t) {
      if t < |s.pushHolder| { assert PushHeld(s, t); }
    }
    forall t | 0 <= t < |s'.popHolder| ensures PopHeld(s', t) {
      if t < |s.popHolder| { assert PopHeld(s, t); }
    }
  }
}
