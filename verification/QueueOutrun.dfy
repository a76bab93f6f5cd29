/** A run in which a read of a dynamic queue fails although an element is ready in every state of the call. */
module QueueOutrun {
  import opened Options
  import opened QueueConfig
  import opened QueueFailures
  import opened QueueMachine
  import opened QueueSafety
  import opened QueueSlots
  import opened QueueTheorems
  import opened QueueTicketProof
  import opened QueueTickets
  import opened TicketIndex

  function Last(run: seq<State>): (s: State)
    requires run != []
  {
    run[|run| - 1]
  }

  lemma Extend(c: Config, run: seq<State>, e: Event)
    requires WfConfig(c) && Run(c, run) && Apply(c, Last(run), e).Some?
    ensures Run(c, run + [Apply(c, Last(run), e).value])
  {
    hide Follows, Apply;
    var s' := Apply(c, Last(run), e).value;
    assert Follows(c, Last(run), s') by { FollowsBy(c, Last(run), s', e); }
    var longer := run + [s'];
    forall i | 0 <= i < |longer| - 1
      ensures Follows(c, longer[i], longer[i + 1])
    {
      assert longer[i] == run[i];
      if i + 1 < |run| {
        assert longer[i + 1] == run[i + 1];
      }
    }
  }

  lemma FollowsBy(c: Config, s: State, s': State, e: Event)
    requires WfConfig(c) && Apply(c, s, e) == Some(s')
    ensures Follows(c, s, s')
  {
  }

  // ---- one operation moves alone ----------------------------------------------------------------

  /** No expansion has begun. */
  predicate Calm(s: State) {
    s.locker.None? && |s.arrays| == 1
  }

  predicate Took(op: Op) {
    IsBlocking(op.kind) && !op.pc.Start?
  }

  /** From s0 to s only the operation id has moved, and it may have taken a ticket. */
  predicate Alone(s0: State, s: State, id: nat) {
    && Calm(s) && s.arrays == s0.arrays && |s.ops| == |s0.ops| && id < |s.ops|
    && (forall j :: 0 <= j < |s.ops| && j != id ==> s.ops[j] == s0.ops[j])
    && s0.ops[id].pc.Start? && (Left(s.ops[id].pc) > 0 || s.ops[id].pc.Done?)
    && s.ops[id].kind == s0.ops[id].kind && !IsPromised(s.ops[id].kind)
    && s.pushHolder == s0.pushHolder + (if IsPush(s.ops[id].kind) && Took(s.ops[id]) then [id] else [])
    && s.popHolder == s0.popHolder + (if !IsPush(s.ops[id].kind) && Took(s.ops[id]) then [id] else [])
    && (!s.ops[id].pc.Start? ==> s.ops[id].ticket == if IsPush(s.ops[id].kind) then |s0.pushHolder| else |s0.popHolder|)
  }

  predicate IsPromised(kind: Kind) {
    Counts(kind) || kind.Write?
  }

  /** The steps left to an operation that is not held up. */
  function Left(pc: Pc): (n: nat) {
    match pc
    case Start => 10
    case SeqState => 9
    case SeqSlots => 8
    case SeqCap => 7
    case SeqStride => 6
    case SeqValidate => 5
    case CheckSlot => 4
    case Wait => 3
    case Access => 2
    case Complete => 1
    case _ => 0
  }

  /** Its slot is at its turn when it gets there. */
  ghost predicate Free(s0: State, kind: Kind, cap: nat) {
    match kind
    case BlockingWrite => |s0.pushHolder| < cap
    case BlockingRead => PushStage(s0, |s0.popHolder|).After?
    case _ => true
  }

  lemma CalmFacts(c: Config, s: State, id: nat)
    requires WfConfig(c) && Inv(c, s) && Calm(s) && id < |s.ops|
    ensures s.dstate == Word(0, 0, false) && Safe(s, s.ops[id]) && s.push == |s.pushHolder| && s.pop == |s.popHolder|
    ensures HasState(s.ops[id].pc) ==> s.ops[id].state == Word(0, 0, false)
    ensures s.arrays[0] == InitArray(c) && (s.ops[id].kind.BlockingRead? ==> !s.ops[id].pc.CheckSlot?)
  {
    InvGivesView(c, s, id);
    NeverUnsafe(c, s, id);
  }

  /** The operation is held up at its slot only where it is not free. */
  lemma SlotIsFree(c: Config, s0: State, s: State, id: nat)
    requires WfConfig(c) && Inv(c, s) && Alone(s0, s, id) && IsBlocking(s.ops[id].kind)
    requires Free(s0, s.ops[id].kind, c.initCap) && (s.ops[id].pc.CheckSlot? || s.ops[id].pc.Wait?)
    ensures SlotInBounds(s, s.ops[id]) && SlotOf(s, s.ops[id]).turn == MyTurn(s.ops[id])
  {
    var op := s.ops[id];
    OwnSlotAgrees(c, s, id);
    StageOfHolder(c, s, id);
    CalmFacts(c, s, id);
    if IsPush(op.kind) {
      FirstLap(op.ticket, op.cap);
    } else {
      PushIsDone(s0, s, id);
    }
  }

  lemma FirstLap(t: nat, cap: nat)
    requires t < cap
    ensures Turn(t, cap) == 0
  {
  }

  lemma PushIsDone(s0: State, s: State, id: nat)
    requires Alone(s0, s, id) && s.ops[id].kind.BlockingRead? && PushStage(s0, |s0.popHolder|).After?
    requires !s.ops[id].pc.Done?
    ensures PushStage(s, |s0.popHolder|).After?
  {
    assert s.pushHolder == s0.pushHolder;
  }

  /** The operation is where it takes its steps alone: anywhere, or for a read before its slot. */
  predicate Travels(op: Op) {
    Left(op.pc) > 0 && (op.kind.Read? ==> Left(op.pc) > 4)
  }

  /** The next step is possible, and again alone; a read is not turned away. */
  predicate MovesOn(c: Config, s0: State, s: State, id: nat)
    requires WfConfig(c) && id < |s.ops|
  {
    var next := Step(c, s, id, true);
    && next.Some? && Alone(s0, next.value, id) && Left(next.value.ops[id].pc) < Left(s.ops[id].pc)
    && (s.ops[id].kind.Read? ==> Left(next.value.ops[id].pc) >= 4)
  }

  predicate Quiet(s: State, id: nat)
    requires id < |s.ops|
  {
    && Safe(s, s.ops[id]) && s.dstate == Word(0, 0, false) && s.push == |s.pushHolder| && s.pop == |s.popHolder|
    && (HasState(s.ops[id].pc) ==> s.ops[id].state == Word(0, 0, false))
  }

  lemma StartMove(c: Config, s0: State, s: State, id: nat)
    requires WfConfig(c) && c.dynamic && Alone(s0, s, id) && Quiet(s, id) && s.ops[id].pc.Start?
    ensures MovesOn(c, s0, s, id)
  {
    hide SlotOf, MyTurn, AtLoadOther, AtSeqState, AtValidate, AtScan, AtCompare, AtCheckSlot, AtCheckPop, AtRecheck;
    hide AtGrant, AtTryLock, AtExpSecond, AtFill, AtAccess;
  }

  lemma LoadMove(c: Config, s0: State, s: State, id: nat)
    requires WfConfig(c) && c.dynamic && Alone(s0, s, id) && Quiet(s, id) && 5 < Left(s.ops[id].pc) < 9
    ensures MovesOn(c, s0, s, id)
  {
    hide SlotOf, MyTurn, AtStart, AtLoadOther, AtSeqState, AtValidate, AtScan, AtCompare, AtCheckSlot, AtCheckPop;
    hide AtRecheck, AtGrant, AtTryLock, AtExpSecond, AtFill, AtAccess;
  }

  lemma SeqMove(c: Config, s0: State, s: State, id: nat)
    requires WfConfig(c) && c.dynamic && Alone(s0, s, id) && Quiet(s, id)
    requires s.ops[id].pc.SeqState? || s.ops[id].pc.SeqValidate?
    ensures MovesOn(c, s0, s, id)
  {
    hide SlotOf, MyTurn, AtStart, AtLoadOther, AtScan, AtCompare, AtCheckSlot, AtCheckPop, AtRecheck, AtGrant;
    hide AtTryLock, AtExpSecond, AtFill, AtAccess;
  }

  lemma TurnMove(c: Config, s0: State, s: State, id: nat)
    requires WfConfig(c) && c.dynamic && Alone(s0, s, id) && Quiet(s, id) && IsBlocking(s.ops[id].kind)
    requires s.ops[id].pc.Wait? || (s.ops[id].pc.CheckSlot? && s.ops[id].kind.BlockingWrite?)
    requires SlotOf(s, s.ops[id]).turn == MyTurn(s.ops[id])
    ensures MovesOn(c, s0, s, id)
  {
    hide SlotOf, MyTurn, AtStart, AtLoadOther, AtSeqState, AtValidate, AtScan, AtCompare, AtCheckPop, AtRecheck;
    hide AtGrant, AtTryLock, AtExpSecond, AtFill, AtAccess;
  }

  lemma SlotMove(c: Config, s0: State, s: State, id: nat)
    requires WfConfig(c) && c.dynamic && Alone(s0, s, id) && Quiet(s, id) && IsBlocking(s.ops[id].kind)
    requires s.ops[id].pc.Access? || s.ops[id].pc.Complete?
    ensures MovesOn(c, s0, s, id)
  {
    hide SlotOf, MyTurn, AtStart, AtLoadOther, AtSeqState, AtValidate, AtScan, AtCompare, AtCheckSlot, AtCheckPop;
    hide AtRecheck, AtGrant, AtTryLock, AtExpSecond, AtFill;
  }

  lemma AloneStep(c: Config, s0: State, s: State, id: nat)
    requires WfConfig(c) && c.dynamic && Inv(c, s) && Alone(s0, s, id) && Travels(s.ops[id])
    requires Free(s0, s.ops[id].kind, c.initCap)
    ensures MovesOn(c, s0, s, id)
  {
    hide Inv, MovesOn, Free, SlotOf, MyTurn, Safe;
    var op := s.ops[id];
    CalmFacts(c, s, id);
    if op.pc.Start? {
      StartMove(c, s0, s, id);
    } else if op.pc.SeqState? || op.pc.SeqValidate? {
      SeqMove(c, s0, s, id);
    } else if Left(op.pc) > 4 {
      LoadMove(c, s0, s, id);
    } else if op.pc.CheckSlot? || op.pc.Wait? {
      SlotIsFree(c, s0, s, id);
      TurnMove(c, s0, s, id);
    } else {
      SlotMove(c, s0, s, id);
    }
  }

  /** An operation that moves alone gets to its end; a read gets to its slot. */
  lemma {:induction false} RunAlone(c: Config, run: seq<State>, s0: State, id: nat) returns (run': seq<State>)
    requires WfConfig(c) && Sized(c) && c.dynamic && Run(c, run) && run != [] && Alone(s0, Last(run), id)
    requires Free(s0, s0.ops[id].kind, c.initCap) && (s0.ops[id].kind.Read? ==> Left(Last(run).ops[id].pc) >= 4)
    ensures Run(c, run') && run <= run' && Alone(s0, Last(run'), id)
    ensures if s0.ops[id].kind.Read? then Last(run').ops[id].pc.CheckSlot? else Last(run').ops[id].pc.Done?
    decreases Left(Last(run).ops[id].pc)
  {
    hide Run, Inv, Free, Step, Sized;
    var s := Last(run);
    if Travels(s.ops[id]) {
      InvOverRun(c, run, |run| - 1);
      AloneStep(c, s0, s, id);
      Extend(c, run, Move(id, true));
      run' := RunAlone(c, run + [Step(c, s, id, true).value], s0, id);
    } else {
      run' := run;
    }
  }

  /** From s0 to s one call was made, and went through; a read got to its slot. */
  predicate WentThrough(s0: State, s: State, kind: Kind) {
    var id := |s0.ops|;
    && Calm(s) && |s.ops| == id + 1 && s.ops[..id] == s0.ops && s.ops[id].kind == kind
    && (if kind.Read? then s.ops[id].pc.CheckSlot? else s.ops[id].pc.Done?)
    && s.ops[id].ticket == (if IsPush(kind) then |s0.pushHolder| else |s0.popHolder|)
    && s.pushHolder == s0.pushHolder + (if kind.BlockingWrite? then [id] else [])
    && s.popHolder == s0.popHolder + (if kind.BlockingRead? then [id] else [])
  }

  /** A call is made, and moves alone from where the queue is calm. */
  lemma CallAlone(c: Config, run: seq<State>, kind: Kind, value: Elem) returns (run': seq<State>)
    requires WfConfig(c) && Sized(c) && c.dynamic && Run(c, run) && run != [] && Calm(Last(run))
    requires !IsPromised(kind) && Free(Last(run), kind, c.initCap)
    ensures Run(c, run') && run < run' && |run'[|run|].ops| == |Last(run).ops| + 1
    ensures WentThrough(Last(run), Last(run'), kind)
  {
    hide Run, Sized, Inv, Step;
    var s0, id := Last(run), |Last(run).ops|;
    var s := s0.(ops := s0.ops + [NewOp(kind, value)]);
    Extend(c, run, Call(kind, value));
    var longer := run + [s];
    run' := RunAlone(c, longer, s, id);
    assert run'[|run|] == longer[|run|] == s;
    var last := Last(run');
    forall j | 0 <= j < id
      ensures last.ops[j] == s0.ops[j]
    {
      assert s.ops[j] == s0.ops[j];
    }
  }

  // ---- the run --------------------------------------------------------------------------------

  /** Two writes go through, a read gets to its slot, and another read overtakes it. */
  lemma Overtaken(c: Config) returns (run: seq<State>, from: nat)
    requires WfConfig(c) && Sized(c) && c.dynamic && c.initCap == 2
    ensures Run(c, run) && 0 < from < |run| && Calm(Last(run))
    ensures |run[from - 1].ops| == 2 && |run[from].ops| == 3
    ensures PushStage(run[from - 1], 0).After? && PushStage(run[from - 1], 1).After?
    ensures var s := Last(run);
            && |s.ops| == 4 && s.ops[2].kind.Read? && s.ops[2].pc.CheckSlot? && s.ops[2].ticket == 0
            && |s.popHolder| == 1 && PopStage(s, 0).After?
  {
    hide Sized, Step;
    run := [Init(c)];
    run := CallAlone(c, run, BlockingWrite, 1);
    var one := Last(run);
    run := CallAlone(c, run, BlockingWrite, 2);
    var two := Last(run);
    from := |run|;
    assert two.ops[0] == one.ops[0];
    var before := run;
    run := CallAlone(c, run, Read, 0);
    var three := Last(run);
    assert three.ops[0] == two.ops[0];
    var middle := run;
    run := CallAlone(c, run, BlockingRead, 0);
    var four := Last(run);
    assert four.ops[2] == three.ops[2];
    assert run[from - 1] == middle[from - 1] == before[from - 1] == two && run[from] == middle[from];
  }

  /** The read that was overtaken gives up in its next step. */
  lemma GivesUp(c: Config, run: seq<State>) returns (run': seq<State>)
    requires WfConfig(c) && Sized(c) && c.dynamic && Run(c, run) && run != []
    requires var s := Last(run);
             |s.ops| > 2 && s.ops[2].kind.Read? && s.ops[2].pc.CheckSlot? && PopStage(s, s.ops[2].ticket).After?
    ensures Run(c, run') && |run'| == |run| + 1 && run < run'
    ensures var s := Last(run'); |s.ops| > 2 && s.ops[2].kind.Read? && s.ops[2].pc.Failed? && s.pop == Last(run).pop
  {
    hide Sized, Inv;
    var s := Last(run);
    assert Reachable(c, s);
    DynamicReadGivesUp(c, s, 2, true);
    Extend(c, run, Move(2, true));
    run' := run + [Step(c, s, 2, true).value];
  }

  lemma TwoSlots() returns (c: Config)
    ensures WfConfig(c) && Sized(c) && c.dynamic && c.initCap == 2
    ensures DynamicQueue(2, 2, 2) == Some(c)
  {
    hide Sized;
    UsuallySufficient(2, 2, 2);
    ConstructorsAreSound(2, 2, 2);
    c := DynamicQueue(2, 2, 2).value;
  }

  /** A read of a dynamic queue that fails although in every state of its call an element is ready for the next
      read. */
  lemma ReadFailsThoughNotEmpty() returns (c: Config, run: seq<State>, from: nat)
    ensures WfConfig(c) && Sized(c) && Run(c, run) && 0 < from < |run|
    ensures |run[from - 1].ops| == 2 && |run[from].ops| == 3
    ensures |Last(run).ops| > 2 && Last(run).ops[2].kind.Read? && Last(run).ops[2].pc.Failed?
    ensures forall i :: from <= i < |run| ==> !PopMustWait(run[i], run[i].pop)
  {
    hide Run, Sized, Inv, Step, PushStage, PopStage, Calm;
    c := TwoSlots();
    run, from := Overtaken(c);
    var before := run;
    InvOverRun(c, before, |before| - 1);
    CalmFacts(c, Last(before), 0);
    run := GivesUp(c, before);
    assert run[from - 1] == before[from - 1] && run[from] == before[from];
    forall i | from <= i < |run|
      ensures !PopMustWait(run[i], run[i].pop)
    {
      RunExtends(c, run, i, |run| - 1);
      DoneOverRun(c, run, from - 1, i, 0);
      DoneOverRun(c, run, from - 1, i, 1);
    }
  }
}
