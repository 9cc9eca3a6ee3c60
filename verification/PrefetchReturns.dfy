/** When the reads and stops of a prefetching decoder return. */
module PrefetchReturns {
  import opened Results
  import opened DecoderPrefetch
  import opened PrefetchMachine

  // ---------- Runs without further calls ----------

  /** A stop that has not passed its join. */
  predicate OnItsWay(c: Call) {
    c.Stopping? || InJoin(c)
  }

  /** While the worker can be joined, at most one call is a stop that has not passed its join. */
  ghost predicate OneStop(s: State) {
    s.prefetch.joinable ==>
      forall j, k :: 0 <= j < k < |s.calls| ==> !OnItsWay(s.calls[j]) || !OnItsWay(s.calls[k])
  }

  /** A step starts no stop and makes no worker joinable. */
  lemma StepKeeps(s: State, t: State)
    requires Progressed(s, t)
    ensures |t.calls| == |s.calls|
    ensures forall k :: 0 <= k < |s.calls| ==> OnItsWay(t.calls[k]) ==> OnItsWay(s.calls[k])
    ensures t.prefetch.joinable ==> s.prefetch.joinable
  {
    hide JoinsAlone, FairLuck;
  }

  lemma OneStopStep(s: State, t: State)
    requires OneStop(s) && Progressed(s, t)
    ensures OneStop(t)
  {
    StepKeeps(s, t);
    hide Progressed, OnItsWay;
  }

  lemma {:induction false} OneStopKept(run: nat -> State, n: nat)
    requires Unhurried(run) && OneStop(run(0))
    ensures OneStop(run(n))
  {
    hide OneStop, Progressed, CanProgress;
    if n > 0 {
      OneStopKept(run, n - 1);
      if Progressed(run(n - 1), run(n - 1 + 1)) {
        OneStopStep(run(n - 1), run(n));
      }
    }
  }

  lemma OneStopAlone(s: State)
    requires OneStop(s)
    ensures JoinsAlone(s)
  {
  }

  // ---------- A run in which joins overlap ----------

  lemma SomeProgress(s: State)
    requires CanProgress(s)
    ensures exists t :: Progressed(s, t)
  {
    if s.worker == Waiting(false) {
      assert Progressed(s, Admitted(s));
    } else if s.worker == Decoding {
      assert Progressed(s, Thrown(s));
    } else {
      var k: nat :| k < |s.calls| && Ready(s, s.calls[k]);
      assert Progressed(s, Advanced(s, k));
    }
  }

  /** Some state after one more section, if any can run. */
  ghost function Later(s: State): State {
    if CanProgress(s) then
      SomeProgress(s);
      var t :| Progressed(s, t);
      t
    else s
  }

  ghost function After(s: State, n: nat): State {
    if n == 0 then s else Later(After(s, n - 1))
  }

  lemma AnyRun(s: State) returns (run: nat -> State)
    ensures run(0) == s && Unhurried(run)
  {
    run := (n: nat) => After(s, n);
    forall n: nat
      ensures Progressed(run(n), run(n + 1)) || (!CanProgress(run(n)) && run(n + 1) == run(n))
    {
      assert run(n + 1) == Later(run(n));
      hide Progressed, CanProgress;
    }
  }

  /** A run with one step before it. */
  lemma Preceded(s: State, later: nat -> State) returns (run: nat -> State)
    requires Progressed(s, later(0)) && Unhurried(later)
    ensures run(0) == s && Unhurried(run) && forall n: nat :: run(n + 1) == later(n)
  {
    hide Progressed, CanProgress;
    run := (n: nat) => if n == 0 then s else later(n - 1);
    forall n: nat
      ensures Progressed(run(n), run(n + 1)) || (!CanProgress(run(n)) && run(n + 1) == run(n))
    {
      if n > 0 {
        assert run(n) == later(n - 1) && run(n + 1) == later(n - 1 + 1);
      }
    }
  }

  /** A stop enters: it can join now, and other stops are where they were. */
  lemma StopEntered(s: State, j: nat)
    requires j < |s.calls| && s.calls[j].Stopping?
    ensures var t := Advanced(s, j);
            && Progressed(s, t) && |t.calls| == |s.calls| && t.calls[j] == Testing
            && t.prefetch.joinable == s.prefetch.joinable
            && forall k :: 0 <= k < |s.calls| && k != j && OnItsWay(s.calls[k]) ==> t.calls[k] == s.calls[k]
  {
    assert Ready(s, s.calls[j]);
  }

  /** From two stops that have not passed their joins there is a run that does not end. */
  lemma {:induction false} Overlapping(s: State, j: nat, k: nat) returns (run: nat -> State)
    requires j < |s.calls| && k < |s.calls| && j != k && OnItsWay(s.calls[j]) && OnItsWay(s.calls[k])
    requires s.prefetch.joinable
    ensures run(0) == s && Unhurried(run) && exists n: nat :: !JoinsAlone(run(n))
    decreases (if s.calls[j].Stopping? then 1 else 0) + (if s.calls[k].Stopping? then 1 else 0)
  {
    hide Progressed, CanProgress, JoinsAlone;
    if s.calls[j].Stopping? || s.calls[k].Stopping? {
      var first := if s.calls[j].Stopping? then j else k;
      StopEntered(s, first);
      hide Advanced;
      var later := Overlapping(Advanced(s, first), j, k);
      run := Preceded(s, later);
      var n: nat :| !JoinsAlone(later(n));
      assert run(n + 1) == later(n);
    } else {
      run := AnyRun(s);
      BothIn(s, j, k);
      assert !JoinsAlone(run(0));
    }
  }

  lemma BothIn(s: State, j: nat, k: nat)
    requires j < |s.calls| && k < |s.calls| && j != k && InJoin(s.calls[j]) && InJoin(s.calls[k])
    requires s.prefetch.joinable
    ensures !JoinsAlone(s)
  {
    if j < k {
      assert InJoin(s.calls[j]) && InJoin(s.calls[k]);
    } else {
      assert InJoin(s.calls[k]) && InJoin(s.calls[j]);
    }
  }

  /** Whatever the scheduler and the backend do from a state on, every call returns. */
  ghost predicate AlwaysEnds(s: State) {
    forall run: nat -> State :: run(0) == s && Unhurried(run) ==> exists m: nat :: Over(run(m))
  }

  /**
   * From any reachable state, whatever the scheduler and the backend do, every read and every stop that
   * has started returns: exactly if, while the worker can be joined, at most one of them is a stop on its
   * way there.
   */
  lemma EveryReadReturns(capacity: nat, events: seq<Event>)
    requires 0 < capacity
    ensures var s := Final(Initial(capacity), events); AlwaysEnds(s) <==> OneStop(s)
  {
    var s := Final(Initial(capacity), events);
    InvFinal(capacity, events);
    hide Final, Initial, Inv, JoinsAlone, Over, Unhurried;
    if OneStop(s) {
      forall run: nat -> State | run(0) == s && Unhurried(run)
        ensures exists m: nat :: Over(run(m))
      {
        forall n: nat
          ensures JoinsAlone(run(n))
        {
          OneStopKept(run, n);
          OneStopAlone(run(n));
        }
        OverIffAlone(run);
      }
    } else {
      var j, k :| 0 <= j < k < |s.calls| && OnItsWay(s.calls[j]) && OnItsWay(s.calls[k]);
      var run := Overlapping(s, j, k);
      OverIffAlone(run);
    }
  }

  // ---------- Runs in which calls keep starting ----------

  /** How many moves of one call a run contains. */
  function CallMoves(s: State, events: seq<Event>, k: nat): nat {
    if events == [] then 0
    else
      var earlier, e := events[..|events| - 1], events[|events| - 1];
      CallMoves(s, earlier, k) + if e == Advance(k) && Enabled(Final(s, earlier), e) then 1 else 0
  }

  /** No read has to wait any more. */
  predicate Closed(p: Prefetch) {
    p.stopRequested || p.workerFinished
  }

  lemma ClosedStep(s: State, e: Event, k: nat)
    requires Inv(s) && Closed(s.prefetch) && k < |s.calls|
    ensures var t := Next(s, e);
            && Closed(t.prefetch) && k < |t.calls|
            && CallRank(t.calls[k]) + (if e == Advance(k) && Enabled(s, e) then 1 else 0) <= CallRank(s.calls[k])
  {
    hide Stream, Stops, Bounds, JoinsAlone;
    if Enabled(s, e) {
      match e
      case Advance(call) => ClosedAdvance(s, call, k);
      case _ =>
    }
  }

  lemma ClosedAdvance(s: State, call: nat, k: nat)
    requires Closed(s.prefetch) && k < |s.calls| && call < |s.calls|
    requires !Done(s.calls[call]) && !Asleep(s.calls[call])
    ensures var t := Advanced(s, call);
            && Closed(t.prefetch) && k < |t.calls|
            && CallRank(t.calls[k]) + (if k == call then 1 else 0) <= CallRank(s.calls[k])
  {
  }

  /**
   * Once a stop was requested or the worker has its final result, no read sleeps, and every read and
   * every stop, however many others start, returns after at most four of its own moves; only a join has
   * to wait, for the worker.
   */
  lemma {:induction false} CallEnds(s: State, events: seq<Event>, k: nat)
    requires Inv(s) && Closed(s.prefetch) && k < |s.calls|
    ensures var t := Final(s, events);
            && Inv(t) && Closed(t.prefetch) && k < |t.calls|
            && CallMoves(s, events, k) + CallRank(t.calls[k]) <= CallRank(s.calls[k]) <= 4
            && (Done(t.calls[k]) || Ready(t, t.calls[k])
                || (t.calls[k].Joining? && (!t.worker.Exited? || !JoinsAlone(t))))
            && (CallMoves(s, events, k) == CallRank(s.calls[k]) ==> Done(t.calls[k]))
  {
    hide Next, Enabled, JoinsAlone, Inv;
    if events != [] {
      var earlier, e := events[..|events| - 1], events[|events| - 1];
      CallEnds(s, earlier, k);
      InvNext(Final(s, earlier), e);
      ClosedStep(Final(s, earlier), e, k);
    }
    NoneAsleep(Final(s, events), k);
  }

  lemma NoneAsleep(s: State, k: nat)
    requires Inv(s) && Closed(s.prefetch) && k < |s.calls|
    ensures !Asleep(s.calls[k])
  {
  }

  /** How many moves of the worker a run contains. */
  function WorkerMoves(s: State, events: seq<Event>): nat {
    if events == [] then 0
    else
      var earlier, e := events[..|events| - 1], events[|events| - 1];
      WorkerMoves(s, earlier)
        + if (e.Admitting? || e.Answering? || e.Throwing?) && Enabled(Final(s, earlier), e) then 1 else 0
  }

  lemma WorkerStep(s: State, e: Event)
    requires Inv(s) && s.prefetch.stopRequested
    ensures var t := Next(s, e);
            && t.prefetch.stopRequested
            && WorkerRank(t.worker)
               + (if (e.Admitting? || e.Answering? || e.Throwing?) && Enabled(s, e) then 1 else 0)
               <= WorkerRank(s.worker)
  {
    hide Stream, Stops, JoinsAlone, FairLuck;
  }

  /** After a stop the worker exits after at most two of its own moves, whatever else starts. */
  lemma {:induction false} WorkerExits(s: State, events: seq<Event>)
    requires Inv(s) && s.prefetch.stopRequested
    ensures var t := Final(s, events);
            && Inv(t) && t.prefetch.stopRequested
            && WorkerMoves(s, events) + WorkerRank(t.worker) <= WorkerRank(s.worker) <= 2
            && (t.worker.Exited? || WorkerReady(t))
            && (WorkerMoves(s, events) == WorkerRank(s.worker) ==> t.worker.Exited?)
  {
    hide Next, Enabled, Inv;
    if events != [] {
      var earlier, e := events[..|events| - 1], events[|events| - 1];
      WorkerExits(s, earlier);
      InvNext(Final(s, earlier), e);
      WorkerStep(Final(s, earlier), e);
    }
    NeverStuck(Final(s, events));
  }

  lemma NeverStuck(s: State)
    requires Inv(s) && s.prefetch.stopRequested
    ensures s.worker.Exited? || WorkerReady(s)
  {
  }

  // ---------- What callers are told ----------

  /** A read that is awake: refused after a stop, else the oldest frame, else the final result, else asleep. */
  lemma ReadTells(s: State, k: nat)
    requires k < |s.calls| && s.calls[k] == Reading(false)
    ensures var p, t := s.prefetch, Next(s, Advance(k));
            && |t.calls| == |s.calls|
            && (p.stopRequested ==> t.prefetch == p && t.calls[k] == Refused)
            && (!p.stopRequested && p.queue != [] ==>
                  && t.prefetch == p.(queue := p.queue[1..], completed := p.completed + 1)
                  && t.calls[k] == Got(Frame(p.queue[0])) && t.delivered == s.delivered + [Frame(p.queue[0])])
            && (!p.stopRequested && p.queue == [] && p.workerFinished ==>
                  && t.prefetch == p && t.calls[k] == Got(Ended(p.workerResult))
                  && t.delivered == s.delivered + [Ended(p.workerResult)])
            && (!p.stopRequested && p.queue == [] && !p.workerFinished ==>
                  t.prefetch == p && t.calls[k] == Reading(true) && t.delivered == s.delivered)
  {
  }

  /** The longest the queue has been in a run. */
  function Longest(s: State, events: seq<Event>): nat {
    if events == [] then |s.prefetch.queue|
    else
      var earlier, now := Longest(s, events[..|events| - 1]), |Final(s, events).prefetch.queue|;
      if earlier < now then now else earlier
  }

  lemma PeakStep(s: State, e: Event)
    ensures var p, q := s.prefetch, Next(s, e).prefetch;
            q.peak == (if p.peak < |q.queue| && |p.queue| < |q.queue| then |q.queue| else p.peak)
            && (|q.queue| <= |p.queue| || |q.queue| == |p.queue| + 1)
  {
    hide JoinsAlone, FairLuck, Rouse, RouseWorker;
  }

  /** Over every run the reported peak is the longest the queue has been. */
  lemma {:induction false} PeakIsLongest(capacity: nat, events: seq<Event>)
    ensures var s := Final(Initial(capacity), events);
            s.prefetch.peak == Longest(Initial(capacity), events) && |s.prefetch.queue| <= s.prefetch.peak
  {
    hide Next;
    if events != [] {
      PeakIsLongest(capacity, events[..|events| - 1]);
      PeakStep(Final(Initial(capacity), events[..|events| - 1]), events[|events| - 1]);
    }
  }
}
