/** Runs with their events: what the calls asked for is what the operations carry and what the reads return. */
module QueueTraces {
  import opened Options
  import opened QueueFailures
  import opened QueueMachine
  import opened QueueSafety
  import opened QueueSlots
  import opened QueueTheorems
  import opened QueueTickets

  /** The calls among the events; the id-th of them starts operation id. */
  function CallsIn(events: seq<Event>): (calls: seq<Event>)
    ensures forall i :: 0 <= i < |calls| ==> calls[i].Call?
  {
    if events == [] then []
    else
      var e := events[|events| - 1];
      CallsIn(events[..|events| - 1]) + if e.Call? then [e] else []
  }

  lemma TraceIsRun(c: Config, events: seq<Event>, run: seq<State>)
    requires WfConfig(c) && Trace(c, events, run)
    ensures Run(c, run)
  {
    hide Apply;
    forall i | 0 <= i < |run| - 1
      ensures Follows(c, run[i], run[i + 1])
    {
      assert Apply(c, run[i], events[i]) == Some(run[i + 1]);
    }
  }

  /** Every run has events. */
  lemma {:induction false} RunHasTrace(c: Config, run: seq<State>) returns (events: seq<Event>)
    requires WfConfig(c) && Run(c, run)
    ensures Trace(c, events, run)
    decreases |run|
  {
    hide Apply;
    if |run| == 1 {
      events := [];
    } else {
      var n := |run| - 1;
      var before := RunHasTrace(c, run[..n]);
      assert Follows(c, run[n - 1], run[n]);
      var e :| Apply(c, run[n - 1], e) == Some(run[n]);
      events := before + [e];
      forall i | 0 <= i < |events|
        ensures Apply(c, run[i], events[i]) == Some(run[i + 1])
      {
        if i < n - 1 {
          assert Apply(c, run[..n][i], before[i]) == Some(run[..n][i + 1]);
        }
      }
    }
  }

  // ---- operations carry what was called ---------------------------------------------------------

  /** Operation id has the kind and the value of the id-th call. */
  ghost predicate Carries(s: State, calls: seq<Event>) {
    |s.ops| == |calls| &&
    forall id :: 0 <= id < |calls| ==> calls[id].Call? && calls[id] == Call(s.ops[id].kind, s.ops[id].value)
  }

  lemma PerformOps(s: State, id: nat, e: Effect)
    requires id < |s.ops| && !e.Blocked? && Possible(s, e)
    ensures Perform(s, id, e).ops == s.ops[id := e.op]
  {
  }

  lemma ApplyCarries(c: Config, s: State, e: Event, s': State, calls: seq<Event>)
    requires WfConfig(c) && Apply(c, s, e) == Some(s') && Carries(s, calls)
    ensures Carries(s', calls + if e.Call? then [e] else [])
  {
    hide EffectOf, Perform, Safe;
    if e.Move? {
      KindStays(c, s, s.ops[e.id], e.choice);
      EffectIsPossible(c, s, s.ops[e.id], e.choice);
      PerformOps(s, e.id, EffectOf(c, s, s.ops[e.id], e.choice));
      assert calls + [] == calls;
    }
  }

  /** In every state of a run the operations are the calls made so far, with their kinds and values. */
  lemma {:induction false} CallsAreCarried(c: Config, events: seq<Event>, run: seq<State>, j: nat)
    requires WfConfig(c) && Trace(c, events, run) && j < |run|
    ensures Carries(run[j], CallsIn(events[..j]))
    decreases j
  {
    hide Apply, Carries;
    if j == 0 {
      NothingCarried(c);
      assert events[..0] == [];
    } else {
      CallsAreCarried(c, events, run, j - 1);
      assert Apply(c, run[j - 1], events[j - 1]) == Some(run[j]);
      ApplyCarries(c, run[j - 1], events[j - 1], run[j], CallsIn(events[..j - 1]));
      var so := events[..j];
      assert so[..j - 1] == events[..j - 1] && so[j - 1] == events[j - 1];
    }
  }

  lemma NothingCarried(c: Config)
    requires WfConfig(c)
    ensures Carries(Init(c), [])
  {
  }

  // ---- first in, first out ------------------------------------------------------------------------

  /** A read that is done returns the value of the write call that has its ticket. */
  lemma PopGetsCall(c: Config, events: seq<Event>, run: seq<State>, j: nat, q: nat)
    requires WfConfig(c) && Sized(c) && Trace(c, events, run) && j < |run| && q < |run[j].ops|
    requires !IsPush(run[j].ops[q].kind) && run[j].ops[q].pc.Done?
    ensures var s, calls := run[j], CallsIn(events[..j]);
            && s.ops[q].ticket < |s.pushHolder| && |calls| == |s.ops|
            && var p := s.pushHolder[s.ops[q].ticket];
               p < |calls| && IsPush(calls[p].kind) && s.ops[q].elem == Some(calls[p].value) && s.ops[p].pc.Done?
               && s.ops[p].ticket == s.ops[q].ticket
  {
    hide Trace, Sized, Reachable;
    TraceReaches(c, events, run, j);
    PopGetsPush(c, run[j], q);
    CallsAreCarried(c, events, run, j);
  }

  lemma TraceReaches(c: Config, events: seq<Event>, run: seq<State>, j: nat)
    requires WfConfig(c) && Trace(c, events, run) && j < |run|
    ensures Reachable(c, run[j])
  {
    hide Apply, Follows;
    TraceIsRun(c, events, run);
    var prefix := run[..j + 1];
    forall i | 0 <= i < |prefix| - 1
      ensures Follows(c, prefix[i], prefix[i + 1])
    {
      assert Follows(c, run[i], run[i + 1]);
    }
    assert Run(c, prefix) && prefix[|prefix| - 1] == run[j];
  }

  /** The value of the write call with push ticket t. */
  function Written(s: State, calls: seq<Event>, t: nat): (v: Elem)
    requires t < |s.pushHolder| && s.pushHolder[t] < |calls| && calls[s.pushHolder[t]].Call?
  {
    calls[s.pushHolder[t]].value
  }

  /** First in, first out: once the first n reads, in ticket order, are done, they have returned the values of the
      first n write calls, in ticket order. */
  lemma FifoOfCalls(c: Config, events: seq<Event>, run: seq<State>, j: nat, n: nat, t: nat)
    requires WfConfig(c) && Sized(c) && Trace(c, events, run) && j < |run| && t < n <= |run[j].popHolder|
    requires forall u :: 0 <= u < n ==> PopStage(run[j], u).After?
    ensures var s, calls := run[j], CallsIn(events[..j]);
            && n <= |s.pushHolder| && s.popHolder[t] < |s.ops| && s.pushHolder[t] < |calls|
            && s.ops[s.popHolder[t]].elem == Some(Written(s, calls, t))
  {
    hide Apply, Sized, Reachable;
    TraceReaches(c, events, run, j);
    Fifo(c, run[j], n);
    PoppedInOrder(c, run[j], t);
    CallsAreCarried(c, events, run, j);
    PushedIsWritten(c, run[j], CallsIn(events[..j]), t);
  }

  lemma PushedIsWritten(c: Config, s: State, calls: seq<Event>, t: nat)
    requires WfConfig(c) && Sized(c) && Reachable(c, s) && Carries(s, calls) && t < |s.pushHolder|
    ensures s.pushHolder[t] < |calls| && calls[s.pushHolder[t]].Call? && Pushed(s, t) == Written(s, calls, t)
  {
    hide Reachable, Sized;
    ReachableInv(c, s);
    assert PushHeld(s, t);
  }

  // ---- tickets follow the clock -------------------------------------------------------------------

  lemma {:induction false} HoldersOverRun(c: Config, run: seq<State>, i: nat, j: nat)
    requires WfConfig(c) && Run(c, run) && i <= j < |run|
    ensures run[i].pushHolder <= run[j].pushHolder && run[i].popHolder <= run[j].popHolder
    ensures |run[i].ops| <= |run[j].ops|
    decreases j
  {
    hide Follows;
    if i < j {
      HoldersOverRun(c, run, i, j - 1);
      assert Follows(c, run[j - 1], run[j]);
      HoldersExtend(c, run[j - 1], run[j]);
    }
  }

  /** A call made after another has its ticket gets a later ticket: an element whose write is over before another
      write is called comes out first. */
  lemma TicketsFollowTime(c: Config, run: seq<State>, i: nat, j: nat, p: nat, q: nat)
    requires WfConfig(c) && Sized(c) && Run(c, run) && i <= j < |run|
    requires p < |run[i].ops| <= q < |run[j].ops| && Granted(run[i].ops[p]) && Granted(run[j].ops[q])
    requires IsPush(run[i].ops[p].kind) == IsPush(run[j].ops[q].kind)
    ensures run[i].ops[p].ticket < run[j].ops[q].ticket
  {
    hide Run, Sized;
    HoldersOverRun(c, run, i, j);
    InvOverRun(c, run, i);
    InvOverRun(c, run, j);
    HolderFacts(c, run[i], p);
    HolderFacts(c, run[j], q);
    var t := run[j].ops[q].ticket;
    if t < if IsPush(run[j].ops[q].kind) then |run[i].pushHolder| else |run[i].popHolder| {
      HoldersInRange(c, run[i], t);
    }
  }

  lemma HolderFacts(c: Config, s: State, id: nat)
    requires WfConfig(c) && Inv(c, s) && id < |s.ops| && Granted(s.ops[id])
    ensures var op := s.ops[id];
            if IsPush(op.kind) then op.ticket < |s.pushHolder| && s.pushHolder[op.ticket] == id
            else op.ticket < |s.popHolder| && s.popHolder[op.ticket] == id
  {
    assert OpAt(c, s, id);
  }

  lemma HoldersInRange(c: Config, s: State, t: nat)
    requires WfConfig(c) && Inv(c, s)
    ensures t < |s.pushHolder| ==> s.pushHolder[t] < |s.ops|
    ensures t < |s.popHolder| ==> s.popHolder[t] < |s.ops|
  {
    assert t < |s.pushHolder| ==> PushHeld(s, t);
    assert t < |s.popHolder| ==> PopHeld(s, t);
  }
}
