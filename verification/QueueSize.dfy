/** `size`, which reads the two ticket counters in turn until one of them has not changed. */
module QueueSize {
  import opened Options
  import opened QueueMachine
  import opened QueueTheorems

  /** The states of a run in which a call makes its loads. */
  ghost predicate LoadTimes(run: seq<State>, times: seq<nat>) {
    && |times| >= 2
    && (forall k :: 0 <= k < |times| ==> times[k] < |run|)
    && (forall j, k :: 0 <= j < k < |times| ==> times[j] <= times[k])
  }

  /** What the k-th load reads: the push counter and the pop counter alternate. */
  function Load(run: seq<State>, times: seq<nat>, k: nat): (n: nat)
    requires k < |times| && times[k] < |run|
  {
    if k % 2 == 0 then run[times[k]].push else run[times[k]].pop
  }

  /** The counter of the k-th load was another at its next load. */
  predicate Changed(run: seq<State>, times: seq<nat>, k: nat)
    requires k + 2 < |times| && times[k] < |run| && times[k + 2] < |run|
  {
    Load(run, times, k) != Load(run, times, k + 2)
  }

  /** Two equal reads of one counter around a read of the other give the two counters at one moment. */
  lemma Bracketed(c: Config, run: seq<State>, times: seq<nat>, k: nat)
    requires WfConfig(c) && Sized(c) && Run(c, run) && LoadTimes(run, times)
    requires k + 2 < |times| && !Changed(run, times, k)
    ensures var s := run[times[k + 1]];
            Load(run, times, k) == (if k % 2 == 0 then s.push else s.pop) &&
            Load(run, times, k + 1) == if k % 2 == 0 then s.pop else s.push
  {
    hide Run, Sized;
    RunExtends(c, run, times[k], times[k + 1]);
    RunExtends(c, run, times[k + 1], times[k + 2]);
  }

  /** A call of `size` that makes its loads at the given times: the value it returns, or nothing if it is
      reading still.  The value is the number of tickets pushed and not popped in one state between
      the first and the last load; as long as it reads, a counter has changed at every turn. */
  method Size(c: Config, run: seq<State>, times: seq<nat>) returns (size: Option<int>, ghost at: nat)
    requires WfConfig(c) && Sized(c) && Run(c, run) && LoadTimes(run, times)
    ensures size.Some? ==>
              times[0] <= at <= times[|times| - 1] && size.value == run[at].push - run[at].pop
    ensures size.None? <==> forall k :: 0 <= k < |times| - 2 ==> Changed(run, times, k)
  {
    hide Run, Sized;
    at := 0;
    var pushes: int := run[times[0]].push;
    var pops: int := run[times[1]].pop;
    var k := 2;
    while true
      invariant k % 2 == 0 && 2 <= k && k - 1 < |times|
      invariant pushes == Load(run, times, k - 2) && pops == Load(run, times, k - 1)
      invariant forall j :: 0 <= j < k - 2 ==> Changed(run, times, j)
      decreases |times| - k
    {
      if k == |times| {
        return None, at;
      }
      var nextPushes := run[times[k]].push;
      if pushes == nextPushes {
        Bracketed(c, run, times, k - 2);
        return Some(pushes - pops), times[k - 1];
      }
      pushes := nextPushes;
      if k + 1 == |times| {
        return None, at;
      }
      var nextPops := run[times[k + 1]].pop;
      if pops == nextPops {
        Bracketed(c, run, times, k - 1);
        return Some(pushes - pops), times[k];
      }
      pops := nextPops;
      k := k + 2;
    }
  }
}
