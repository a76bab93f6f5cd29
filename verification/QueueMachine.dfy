/** The ticketed queue, static and dynamic, as a step machine.

    Every step of an operation touches at most one shared atomic (or one field of one
    closed-array record), so runs of the machine are all the interleavings of any number
    of concurrent pushes, pops and expansions.  A blocked `waitForTurn` is a step that is
    not enabled.  Three fields of the state are history: `arrays` lists the slot arrays in
    the order they were published, the two holder lists say which operation took which
    ticket, and `locker` is the operation inside the expansion critical section. */
module QueueMachine {
  import opened Arith
  import opened Options
  import opened TicketIndex

  type Elem = int

  // ---- the seqlock word ------------------------------------------------------

  /** What dstate_ packs into 64 bits: a ticket offset, the number of closed arrays and
      the lock bit.  `QueueConfig.Packed` relates this record to the packed integer. */
  datatype Word = Word(offset: nat, numClosed: nat, locked: bool)

  // ---- configuration ---------------------------------------------------------

  datatype Config = Config(dynamic: bool, capacity: nat, initCap: nat, initStride: nat, mult: nat, maxClosed: nat)

  /** The number of times a capacity that starts at c is multiplied before it covers `capacity`. */
  function MaxClosed(c: nat, mult: nat, capacity: nat): (n: nat)
    requires c > 0 && mult >= 2
    decreases capacity - c
  {
    if c >= capacity then 0
    else
      assert c * mult >= c * 2;
      1 + MaxClosed(c * mult, mult, capacity)
  }

  predicate WfConfig(c: Config) {
    && 0 < c.initCap <= c.capacity
    && c.mult >= 2
    && (!c.dynamic ==> c.initCap == c.capacity)
    && c.maxClosed <= 31
  }

  /** The first stride and the size of the closed_ table are the ones initQueue computes. */
  ghost predicate Sized(c: Config)
    requires WfConfig(c)
  {
    && c.maxClosed == MaxClosed(c.initCap, c.mult, c.capacity)
    && c.initStride == StrideOf(c.initCap)
  }

  // ---- shared memory ---------------------------------------------------------

  /** A slot array and the first ticket it serves; `slots` is its address. */
  datatype Array = Array(offset: nat, slots: nat, cap: nat, stride: nat)

  /** A single-element queue: the sequencer's counter and the storage. */
  datatype Slot = Slot(turn: nat, contents: Option<Elem>)

  datatype Kind =
    | BlockingWrite | Write | WriteIfNotFull
    | BlockingRead | Read | ReadIfNotEmpty

  predicate IsPush(k: Kind) {
    k.BlockingWrite? || k.Write? || k.WriteIfNotFull?
  }

  predicate IsBlocking(k: Kind) {
    k.BlockingWrite? || k.BlockingRead?
  }

  datatype Pc =
    | Start                 // take a ticket, or load the ticket counter
    | LoadOther             // load the opposite counter
    | SeqState | SeqSlots | SeqCap | SeqStride | SeqValidate   // trySeqlockReadSection
    | Scan(i: nat)          // maybeUpdateFromClosed, at closed_[i]
    | Compare               // is the queue full, or empty, as counted?
    | CheckSlot             // mayEnqueue or mayDequeue
    | CheckPop              // blockingWrite: is a pop in progress?
    | Recheck               // write: has the ticket changed?
    | Grant                 // compare-exchange on the ticket counter
    | TryLock               // tryExpand: compare-exchange on dstate_
    | ExpFirst(popFirst: bool) | ExpSecond(popFirst: bool)   // the two counters, in either order
    | ExpAlloc
    | FillOffset | FillSlots | FillCap | FillStride   // closed_[index]
    | ExpSlots | ExpCap | ExpStride | ExpRelease
    | ExpRestore            // allocation failed
    | Wait | Access | Complete   // enqueue or dequeue on the slot
    | Done | Failed

  datatype Op = Op(
    kind: Kind, value: Elem, pc: Pc,
    ticket: nat, other: nat,
    state: Word, offset: nat, slots: nat, cap: nat, stride: nat, curCap: nat,
    seen: nat, newOffset: nat, newSlots: nat, newCap: nat, newStride: nat,
    elem: Option<Elem>)

  datatype State = State(
    push: nat, pop: nat,
    dstate: Word, dslots: nat, dcap: nat, dstride: nat,
    closed: seq<Array>,
    heap: seq<seq<Slot>>,
    ops: seq<Op>,
    arrays: seq<Array>, pushHolder: seq<nat>, popHolder: seq<nat>, locker: Option<nat>)

  function FreshSlots(cap: nat): (a: seq<Slot>) {
    seq(cap, _ => Slot(0, None))
  }

  function InitArray(c: Config): (a: Array)
    requires WfConfig(c)
  {
    Array(0, 0, c.initCap, c.initStride)
  }

  /** The state built by the constructor, `initQueue` included. */
  function Init(c: Config): (s: State)
    requires WfConfig(c)
  {
    var a := InitArray(c);
    State(0, 0, Word(0, 0, false), a.slots, a.cap, a.stride,
          seq(c.maxClosed, _ => Array(0, 0, 0, 0)),
          [FreshSlots(a.cap)], [], [a], [], [], None)
  }

  function NewOp(kind: Kind, value: Elem): (op: Op) {
    Op(kind, value, Start, 0, 0, Word(0, 0, false), 0, 0, 0, 0, 0, 0, 0, 0, 0, 0, None)
  }

  // ---- where an operation goes next ------------------------------------------

  /** After the seqlock section failed, or after tryExpand returned true. */
  function Retry(op: Op): (op': Op) {
    op.(pc := if IsBlocking(op.kind) then SeqState else Start)
  }

  /** After the slots array has been resolved. */
  function AfterResolve(kind: Kind, fromClosed: bool): (pc: Pc) {
    match kind
    case BlockingWrite => if fromClosed then Wait else CheckSlot
    case BlockingRead => Wait
    case Write | Read => CheckSlot
    case WriteIfNotFull | ReadIfNotEmpty => Compare
  }

  /** After tryExpand returned false. */
  function CannotExpand(op: Op): (op': Op) {
    op.(pc := if op.kind.BlockingWrite? then Wait else Failed)
  }

  /** A static queue knows its only array from the start. */
  function Locate(c: Config, op: Op): (op': Op)
    requires WfConfig(c)
  {
    var a := InitArray(c);
    op.(state := Word(0, 0, false), offset := a.offset, slots := a.slots, cap := a.cap, stride := a.stride,
        curCap := a.cap)
  }

  // ---- the slot an operation works on ----------------------------------------

  predicate SlotInBounds(s: State, op: Op) {
    op.cap > 0 && op.offset <= op.ticket && op.slots < |s.heap| && |s.heap[op.slots]| == op.cap
  }

  function SlotIndex(op: Op): (i: nat)
    requires op.cap > 0 && op.offset <= op.ticket
    ensures i < op.cap
  {
    Idx(op.ticket - op.offset, op.cap, op.stride)
  }

  function SlotOf(s: State, op: Op): (slot: Slot)
    requires SlotInBounds(s, op)
  {
    s.heap[op.slots][SlotIndex(op)]
  }

  /** Even turns are pushes, odd turns are pops. */
  function MyTurn(op: Op): (turn: nat)
    requires op.cap > 0 && op.offset <= op.ticket
  {
    2 * Turn(op.ticket - op.offset, op.cap) + if IsPush(op.kind) then 0 else 1
  }

  // ---- one step of one operation ---------------------------------------------

  /** What a step does: the operation as it will be, and the shared word it writes. */
  datatype Effect =
    | Blocked
    | Only(op: Op)                      // reads at most
    | Take(op: Op)                      // the ticket counter goes up by one
    | Acquire(op: Op)                   // dstate_ becomes odd
    | Restore(op: Op)                   // dstate_ becomes even again, nothing published
    | Allocate(op: Op)                  // new Slot[newCapacity]
    | Fill(op: Op, record: Array)       // a field of closed_[index]
    | StoreSlots(op: Op) | StoreCap(op: Op) | StoreStride(op: Op)
    | Release(op: Op)                   // dstate_ gets the new offset and count
    | Touch(op: Op, slot: Slot)         // a slot's storage or sequencer

  /** The first access: take a ticket, or look at the counter, whose value is now. */
  function AtStart(c: Config, op: Op, now: nat): (e: Effect)
    requires WfConfig(c)
  {
    var op1 := op.(ticket := now);
    match op.kind
    case BlockingWrite | BlockingRead =>
      Take(if c.dynamic then op1.(pc := SeqState) else Locate(c, op1).(pc := Wait))
    case Write | Read =>
      Only(if c.dynamic then op1.(pc := SeqState) else Locate(c, op1).(pc := CheckSlot))
    case WriteIfNotFull | ReadIfNotEmpty =>
      Only(op1.(pc := LoadOther))
  }

  function AtLoadOther(c: Config, op: Op, other: nat): (op': Op)
    requires WfConfig(c)
  {
    var op1 := op.(other := other);
    if c.dynamic then op1.(pc := SeqState) else Locate(c, op1).(pc := Compare)
  }

  function AtSeqState(op: Op, word: Word): (op': Op) {
    if word.locked then Retry(op) else op.(state := word, pc := SeqSlots)
  }

  /** Validation and the first test of maybeUpdateFromClosed, which reads no shared memory. */
  function AtValidate(op: Op, word: Word): (op': Op) {
    if word != op.state then Retry(op)
    else
      var op1 := op.(curCap := op.cap);
      if op.ticket >= op.state.offset then op1.(offset := op.state.offset, pc := AfterResolve(op.kind, false))
      else op1.(pc := if op.state.numClosed == 0 then Failed else Scan(op.state.numClosed - 1))
  }

  function AtScan(op: Op, a: Array): (op': Op)
    requires op.pc.Scan?
  {
    if a.offset <= op.ticket then
      op.(offset := a.offset, slots := a.slots, cap := a.cap, stride := a.stride, pc := AfterResolve(op.kind, true))
    else
      // running off the end is the assert(false) of the source
      op.(pc := if op.pc.i == 0 then Failed else Scan(op.pc.i - 1))
  }

  function AtCompare(c: Config, op: Op): (op': Op) {
    op.(pc :=
      if IsPush(op.kind) then
        if op.ticket - op.other < op.cap then Grant
        else if c.dynamic && op.cap == op.curCap then TryLock
        else Failed
      else if op.ticket < op.other then Grant
      else Failed)
  }

  function AtCheckSlot(c: Config, op: Op, ready: bool): (op': Op) {
    op.(pc :=
      if op.kind.BlockingWrite? then (if ready then Wait else CheckPop)
      else if ready then Grant
      else if c.dynamic && op.kind.Read? then Failed
      else Recheck)
  }

  function AtCheckPop(op: Op, pop: nat): (op': Op) {
    if pop + op.cap > op.ticket then Retry(op) else op.(pc := TryLock)
  }

  /** The slot is not ready: give up if the ticket is still the next one. */
  function AtRecheck(c: Config, op: Op, now: nat): (op': Op) {
    if !c.dynamic then
      if op.ticket == now then op.(pc := Failed) else op.(ticket := now, pc := CheckSlot)
    else
      op.(pc :=
        if op.ticket != now then Start
        else if op.offset == op.state.offset then TryLock
        else Failed)
  }

  function AtGrant(c: Config, op: Op, now: nat): (e: Effect) {
    if now == op.ticket then Take(op.(pc := Wait))
    else if c.dynamic then Only(op.(pc := Start))
    else Only(op.(ticket := now, pc := if op.kind.Write? || op.kind.Read? then CheckSlot else LoadOther))
  }

  function AtTryLock(c: Config, op: Op, word: Word, popFirst: bool): (e: Effect) {
    if op.cap == c.capacity then Only(CannotExpand(op))
    else if word == op.state then Acquire(op.(pc := ExpFirst(popFirst)))
    else Only(Retry(op))
  }

  function AtExpSecond(c: Config, op: Op, other: nat): (op': Op) {
    var newCap := Min(c.mult * op.cap, c.capacity);
    op.(newOffset := 1 + Max(op.seen, other), newCap := newCap,
        newStride := if newCap > 0 then StrideOf(newCap) else 0, pc := ExpAlloc)
  }

  /** The four stores into closed_[index], whose record is now a. */
  function AtFill(s: State, op: Op, a: Array): (e: Effect) {
    match op.pc
    case FillOffset => Fill(op.(pc := FillSlots), a.(offset := op.state.offset))
    case FillSlots => Fill(op.(pc := FillCap), a.(slots := s.dslots))
    case FillCap => Fill(op.(pc := FillStride), a.(cap := op.cap))
    case _ => Fill(op.(pc := ExpSlots), a.(stride := s.dstride))
  }

  function AtAccess(op: Op, slot: Slot): (e: Effect) {
    if IsPush(op.kind)
    then Touch(op.(pc := Complete), slot.(contents := Some(op.value)))
    else Touch(op.(elem := slot.contents, pc := Complete), slot.(contents := None))
  }

  predicate NeedsSlot(pc: Pc) {
    pc.CheckSlot? || pc.Wait? || pc.Access? || pc.Complete?
  }

  predicate InFill(pc: Pc) {
    pc.FillOffset? || pc.FillSlots? || pc.FillCap? || pc.FillStride?
  }

  predicate InPublish(pc: Pc) {
    pc.ExpSlots? || pc.ExpCap? || pc.ExpStride? || pc.ExpRelease?
  }

  /** No step of the operation would read or write outside an array. */
  predicate Safe(s: State, op: Op) {
    && (NeedsSlot(op.pc) ==> SlotInBounds(s, op))
    && (op.pc.Scan? ==> op.pc.i < |s.closed|)
    && (InFill(op.pc) ==> op.state.numClosed < |s.closed|)
  }

  function Counter(s: State, kind: Kind): (t: nat) {
    if IsPush(kind) then s.push else s.pop
  }

  function OtherCounter(s: State, kind: Kind): (t: nat) {
    if IsPush(kind) then s.pop else s.push
  }

  function OneCounter(s: State, ofPops: bool): (t: nat) {
    if ofPops then s.pop else s.push
  }

  /** What the operation does next; `choice` is what is decided elsewhere: the order in which an expansion loads the
      counters, and whether there is memory for it. */
  function EffectOf(c: Config, s: State, op: Op, choice: bool): (e: Effect)
    requires WfConfig(c) && Safe(s, op)
  {
    match op.pc
    case Start => AtStart(c, op, Counter(s, op.kind))
    case LoadOther => Only(AtLoadOther(c, op, OtherCounter(s, op.kind)))
    case SeqState => Only(AtSeqState(op, s.dstate))
    case SeqSlots => Only(op.(slots := s.dslots, pc := SeqCap))
    case SeqCap => Only(op.(cap := s.dcap, pc := SeqStride))
    case SeqStride => Only(op.(stride := s.dstride, pc := SeqValidate))
    case SeqValidate => Only(AtValidate(op, s.dstate))
    case Scan(i) => Only(AtScan(op, s.closed[i]))
    case Compare => Only(AtCompare(c, op))
    case CheckSlot => Only(AtCheckSlot(c, op, SlotOf(s, op).turn == MyTurn(op)))
    case CheckPop => Only(AtCheckPop(op, s.pop))
    case Recheck => Only(AtRecheck(c, op, Counter(s, op.kind)))
    case Grant => AtGrant(c, op, Counter(s, op.kind))
    case TryLock => AtTryLock(c, op, s.dstate, choice)
    case ExpFirst(popFirst) => Only(op.(seen := OneCounter(s, popFirst), pc := ExpSecond(popFirst)))
    case ExpSecond(popFirst) => Only(AtExpSecond(c, op, OneCounter(s, !popFirst)))
    case ExpAlloc =>
      if choice then Allocate(op.(newSlots := |s.heap|, pc := FillOffset)) else Only(op.(pc := ExpRestore))
    case FillOffset | FillSlots | FillCap | FillStride => AtFill(s, op, s.closed[op.state.numClosed])
    case ExpSlots => StoreSlots(op.(pc := ExpCap))
    case ExpCap => StoreCap(op.(pc := ExpStride))
    case ExpStride => StoreStride(op.(pc := ExpRelease))
    case ExpRelease => Release(Retry(op))
    case ExpRestore => Restore(CannotExpand(op))
    case Wait => if SlotOf(s, op).turn == MyTurn(op) then Only(op.(pc := Access)) else Blocked
    case Access => AtAccess(op, SlotOf(s, op))
    case Complete => Touch(op.(pc := Done), SlotOf(s, op).(turn := MyTurn(op) + 1))
    case Done | Failed => Blocked
  }

  function Put(s: State, id: nat, op: Op): (s': State)
    requires id < |s.ops|
  {
    s.(ops := s.ops[id := op])
  }

  function PerformTake(s: State, id: nat, op: Op): (s': State)
    requires id < |s.ops|
  {
    if IsPush(op.kind)
    then Put(s.(push := s.push + 1, pushHolder := s.pushHolder + [id]), id, op)
    else Put(s.(pop := s.pop + 1, popHolder := s.popHolder + [id]), id, op)
  }

  function PerformRelease(s: State, id: nat, op: Op): (s': State)
    requires id < |s.ops|
  {
    Put(s.(dstate := Word(op.newOffset, op.state.numClosed + 1, false), locker := None,
           arrays := s.arrays + [Array(op.newOffset, op.newSlots, op.newCap, op.newStride)]), id, op)
  }

  function PerformTouch(s: State, id: nat, op: Op, slot: Slot): (s': State)
    requires id < |s.ops| && SlotInBounds(s, op)
  {
    Put(s.(heap := s.heap[op.slots := s.heap[op.slots][SlotIndex(op) := slot]]), id, op)
  }

  /** An effect on state s is possible: what it writes exists. */
  predicate Possible(s: State, e: Effect) {
    && (e.Fill? ==> e.op.state.numClosed < |s.closed|)
    && (e.Touch? ==> SlotInBounds(s, e.op))
  }

  function Perform(s: State, id: nat, e: Effect): (s': State)
    requires id < |s.ops| && !e.Blocked? && Possible(s, e)
  {
    match e
    case Only(op) => Put(s, id, op)
    case Take(op) => PerformTake(s, id, op)
    case Acquire(op) => Put(s.(dstate := op.state.(locked := true), locker := Some(id)), id, op)
    case Restore(op) => Put(s.(dstate := op.state, locker := None), id, op)
    case Allocate(op) => Put(s.(heap := s.heap + [FreshSlots(op.newCap)]), id, op)
    case Fill(op, record) => Put(s.(closed := s.closed[op.state.numClosed := record]), id, op)
    case StoreSlots(op) => Put(s.(dslots := op.newSlots), id, op)
    case StoreCap(op) => Put(s.(dcap := op.newCap), id, op)
    case StoreStride(op) => Put(s.(dstride := op.newStride), id, op)
    case Release(op) => PerformRelease(s, id, op)
    case Touch(op, slot) => PerformTouch(s, id, op, slot)
  }

  /** The state after operation `id` takes its next step, if it is enabled. */
  function Step(c: Config, s: State, id: nat, choice: bool): (r: Option<State>)
    requires WfConfig(c)
  {
    if id >= |s.ops| || !Safe(s, s.ops[id]) then None
    else
      var e := EffectOf(c, s, s.ops[id], choice);
      if e.Blocked? then None else Some(Perform(s, id, e))
  }

  /** What happens next: a call starts, or an operation under way takes a step. */
  datatype Event = Call(kind: Kind, value: Elem) | Move(id: nat, choice: bool)

  function Apply(c: Config, s: State, e: Event): (r: Option<State>)
    requires WfConfig(c)
  {
    match e
    case Call(kind, value) => Some(s.(ops := s.ops + [NewOp(kind, value)]))
    case Move(id, choice) => Step(c, s, id, choice)
  }

  /** A run: every state follows from the one before it. */
  ghost predicate Run(c: Config, run: seq<State>)
    requires WfConfig(c)
  {
    && |run| > 0
    && run[0] == Init(c)
    && forall i :: 0 <= i < |run| - 1 ==> Follows(c, run[i], run[i + 1])
  }

  ghost predicate Follows(c: Config, s: State, s': State)
    requires WfConfig(c)
  {
    exists e :: Apply(c, s, e) == Some(s')
  }

  /** A run with what happened in it: event i leads from state i to the next. */
  ghost predicate Trace(c: Config, events: seq<Event>, run: seq<State>)
    requires WfConfig(c)
  {
    && |run| == |events| + 1
    && run[0] == Init(c)
    && forall i :: 0 <= i < |events| ==> Apply(c, run[i], events[i]) == Some(run[i + 1])
  }

  ghost predicate Reachable(c: Config, s: State)
    requires WfConfig(c)
  {
    exists run :: Run(c, run) && run[|run| - 1] == s
  }
}
