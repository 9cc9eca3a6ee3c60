/** When the calls of an encoder session return. */
module EncoderReturns {
  import opened Results
  import opened EncoderSections
  import opened EncoderMachine
  import opened EncoderInvariant
  import opened EncoderProgress

  // ---------- Runs without further calls ----------

  /** A close that has not passed its join. */
  predicate Closing(c: Call) {
    c.CloseEnter? || InJoin(c)
  }

  /** While the worker can be joined, at most one call is a close that has not passed its join. */
  ghost predicate OneCloser(s: State) {
    s.session.joinable ==>
      forall j, k :: 0 <= j < k < |s.calls| ==> !Closing(s.calls[j]) || !Closing(s.calls[k])
  }

  lemma RousedClosing(c: Call, wakes: set<Condition>)
    ensures Closing(Roused(c, wakes)) == Closing(c) && InJoin(Roused(c, wakes)) == InJoin(c)
  {
  }

  /** No section turns another call into a close. */
  lemma ResumedClosing(i: Session, c: Call, barrier: nat, copied: Code)
    ensures Closing(Resume(c, SectionOf(i, c), barrier, copied)) ==> Closing(c)
  {
  }

  lemma JoinableKept(i: Session, c: Call)
    ensures SectionOf(i, c).session.joinable ==> i.joinable
  {
    if c.CloseJoin? {
    } else {
      SectionKeepsWorker(i, c);
      hide SectionOf;
    }
  }

  lemma OneCloserAdvanced(s: State, call: nat, copied: Code)
    requires OneCloser(s) && call < |s.calls|
    ensures OneCloser(Advanced(s, call, copied))
  {
    var c, t := s.calls[call], Advanced(s, call, copied);
    var o := SectionOf(s.session, c);
    JoinableKept(s.session, c);
    ResumedClosing(s.session, c, |s.history|, copied);
    hide SectionOf, Resume, Closing, Roused;
    forall k | 0 <= k < |s.calls|
      ensures Closing(t.calls[k]) ==> Closing(s.calls[k])
    {
      RousedClosing(if k == call then Resume(c, o, |s.history|, copied) else s.calls[k], o.wakes);
    }
  }

  lemma OneCloserWorked(s: State, answer: Answer)
    requires OneCloser(s)
    ensures OneCloser(Worked(s, answer))
  {
    var t := Worked(s, answer);
    WorkerKeepsJoinable(s.session);
    match (s.worker, answer) {
      case (Busy(item), Answered(code)) => CommitKeepsJoinable(s.session, item, code);
      case _ =>
    }
    hide Commit, Take, Crash, BackendClosed, Closing, Roused;
    forall k | 0 <= k < |s.calls|
      ensures Closing(t.calls[k]) == Closing(s.calls[k])
    {
      ClosingWorked(s, answer, k);
    }
  }

  lemma ClosingWorked(s: State, answer: Answer, k: nat)
    requires k < |s.calls|
    ensures |Worked(s, answer).calls| == |s.calls| && Closing(Worked(s, answer).calls[k]) == Closing(s.calls[k])
  {
    hide Commit, Take, Crash, BackendClosed;
  }

  lemma {:induction false} OneCloserKept(run: nat -> State, n: nat)
    requires Unhurried(run) && OneCloser(run(0))
    ensures OneCloser(run(n))
  {
    hide OneCloser, Progressed, CanProgress;
    if n > 0 {
      OneCloserKept(run, n - 1);
      if Progressed(run(n - 1), run(n - 1 + 1)) {
        OneCloserStep(run(n - 1), run(n));
      }
    }
  }

  lemma OneCloserStep(s: State, t: State)
    requires OneCloser(s) && Progressed(s, t)
    ensures OneCloser(t)
  {
    hide OneCloser;
    if call: nat, copied :| call < |s.calls| && Ready(s, s.calls[call]) && t == Advanced(s, call, copied) {
      OneCloserAdvanced(s, call, copied);
    } else {
      var answer :| WorkerReady(s) && t == Worked(s, answer);
      OneCloserWorked(s, answer);
    }
  }

  lemma OneCloserAlone(s: State)
    requires OneCloser(s)
    ensures JoinsAlone(s)
  {
  }

  // ---------- A run in which joins overlap ----------

  lemma SomeProgress(s: State)
    requires CanProgress(s)
    ensures exists t :: Progressed(s, t)
  {
    if WorkerReady(s) {
      assert Progressed(s, Worked(s, Threw));
    } else {
      var k: nat :| k < |s.calls| && Ready(s, s.calls[k]);
      assert Progressed(s, Advanced(s, k, OK));
    }
  }

  /** Some state after one more section, if any can run. */
  ghost function Later(s: State): State {
    if CanProgress(s) then
      SomeProgress(s);
      var t :| Progressed(s, t);
      t
    else s
  }

  ghost function After(s: State, n: nat): State {
    if n == 0 then s else Later(After(s, n - 1))
  }

  lemma AnyRun(s: State) returns (run: nat -> State)
    ensures run(0) == s && Unhurried(run)
  {
    run := (n: nat) => After(s, n);
    forall n: nat
      ensures Progressed(run(n), run(n + 1)) || (!CanProgress(run(n)) && run(n + 1) == run(n))
    {
      assert run(n + 1) == Later(run(n));
      hide Progressed, CanProgress;
    }
  }

  /** A run with one step before it. */
  lemma Preceded(s: State, later: nat -> State) returns (run: nat -> State)
    requires Progressed(s, later(0)) && Unhurried(later)
    ensures run(0) == s && Unhurried(run) && forall n: nat :: run(n + 1) == later(n)
  {
    hide Progressed, CanProgress;
    run := (n: nat) => if n == 0 then s else later(n - 1);
    forall n: nat
      ensures Progressed(run(n), run(n + 1)) || (!CanProgress(run(n)) && run(n + 1) == run(n))
    {
      if n > 0 {
        assert run(n) == later(n - 1) && run(n + 1) == later(n - 1 + 1);
      }
    }
  }

  /** A close enters: it can join now, and other closes are where they were. */
  lemma CloserEntered(s: State, j: nat)
    requires j < |s.calls| && s.calls[j].CloseEnter?
    ensures var t := Advanced(s, j, OK);
            && Progressed(s, t) && |t.calls| == |s.calls| && t.calls[j] == CloseTest
            && t.session.joinable == s.session.joinable
            && forall k :: 0 <= k < |s.calls| && k != j && Closing(s.calls[k]) ==> t.calls[k] == s.calls[k]
  {
    assert Ready(s, s.calls[j]);
  }

  /** From two closes that have not passed their joins there is a run that never settles. */
  lemma {:induction false} Overlapping(s: State, j: nat, k: nat) returns (run: nat -> State)
    requires j < |s.calls| && k < |s.calls| && j != k && Closing(s.calls[j]) && Closing(s.calls[k])
    requires s.session.joinable
    ensures run(0) == s && Unhurried(run) && exists n: nat :: !JoinsAlone(run(n))
    decreases (if s.calls[j].CloseEnter? then 1 else 0) + (if s.calls[k].CloseEnter? then 1 else 0)
  {
    hide Progressed, CanProgress, JoinsAlone;
    if s.calls[j].CloseEnter? || s.calls[k].CloseEnter? {
      var first := if s.calls[j].CloseEnter? then j else k;
      CloserEntered(s, first);
      hide Advanced;
      var later := Overlapping(Advanced(s, first, OK), j, k);
      run := Preceded(s, later);
      var n: nat :| !JoinsAlone(later(n));
      assert run(n + 1) == later(n);
    } else {
      run := AnyRun(s);
      BothIn(s, j, k);
      assert !JoinsAlone(run(0));
    }
  }

  lemma BothIn(s: State, j: nat, k: nat)
    requires j < |s.calls| && k < |s.calls| && j != k && InJoin(s.calls[j]) && InJoin(s.calls[k])
    requires s.session.joinable
    ensures !JoinsAlone(s)
  {
    if j < k {
      assert InJoin(s.calls[j]) && InJoin(s.calls[k]);
    } else {
      assert InJoin(s.calls[k]) && InJoin(s.calls[j]);
    }
  }

  /** Whatever the scheduler and the backend do from a state on, the run settles. */
  ghost predicate AlwaysSettles(s: State) {
    forall run: nat -> State :: run(0) == s && Unhurried(run) ==> exists m: nat :: Settled(run(m))
  }

  /**
   * From any reachable state, whatever the scheduler and the backend do, the calls that have started all
   * return, every submission gets its result, and after a close, cancel or failure the worker exits:
   * exactly if, while the worker can be joined, at most one of these calls is a close on its way there.
   */
  lemma EveryCallReturns(capacity: nat, cpuAllowed: bool, events: seq<Event>)
    requires 0 < capacity
    ensures var s := Final(Initial(capacity, cpuAllowed), events); AlwaysSettles(s) <==> OneCloser(s)
  {
    var s := Final(Initial(capacity, cpuAllowed), events);
    InvInitial(capacity, cpuAllowed);
    InvFinal(Initial(capacity, cpuAllowed), events);
    hide Final, Initial, Inv, JoinsAlone, Settled, Unhurried;
    if OneCloser(s) {
      forall run: nat -> State | run(0) == s && Unhurried(run)
        ensures exists m: nat :: Settled(run(m))
      {
        forall n: nat
          ensures JoinsAlone(run(n))
        {
          OneCloserKept(run, n);
          OneCloserAlone(run(n));
        }
        SettlesIffAlone(run);
      }
    } else {
      var j, k :| 0 <= j < k < |s.calls| && Closing(s.calls[j]) && Closing(s.calls[k]);
      var run := Overlapping(s, j, k);
      SettlesIffAlone(run);
    }
  }

  // ---------- Runs in which calls keep starting ----------

  /** How many moves of one call a run contains. */
  function CallMoves(s: State, events: seq<Event>, k: nat): nat {
    if events == [] then 0
    else
      var earlier, e := events[..|events| - 1], events[|events| - 1];
      CallMoves(s, earlier, k) + if e.Advance? && e.call == k && Enabled(Final(s, earlier), e) then 1 else 0
  }

  /** Once nothing is accepted, a call whose wait is over uses up rank with every section. */
  lemma RefusedDescends(i: Session, c: Call, barrier: nat, copied: Code)
    requires !i.accepting && !Done(c) && (c.FlushWait? ==> FlushSettled(i, c.token))
    ensures CallRank(Resume(c, SectionOf(i, c), barrier, copied)) < CallRank(c)
  {
  }

  /** After the worker has exited every wait is over. */
  lemma WaitsOver(s: State, k: nat)
    requires Inv(s) && s.worker.Exited? && k < |s.calls|
    ensures !s.session.accepting && !Asleep(s.calls[k])
    ensures s.calls[k].FlushWait? ==> FlushSettled(s.session, s.calls[k].token)
  {
    assert CallParked(s.session, s.calls[k]);
    if s.calls[k].FlushWait? && !FlushSettled(s.session, s.calls[k].token) {
      FlushKeepsWorker(s, s.calls[k]);
    }
  }

  lemma ExitedStep(s: State, e: Event, k: nat)
    requires Inv(s) && s.worker.Exited? && k < |s.calls|
    ensures var t := Next(s, e);
            && t.worker.Exited? && k < |t.calls|
            && CallRank(t.calls[k]) + (if e.Advance? && e.call == k && Enabled(s, e) then 1 else 0)
               <= CallRank(s.calls[k])
  {
    WaitsOver(s, k);
    if Enabled(s, e) && e.Advance? {
      var c := s.calls[e.call];
      if e.call == k {
        RefusedDescends(s.session, c, |s.history|, e.copied);
      }
      hide Inv, SectionOf, Resume, CallRank, JoinsAlone;
      var o := SectionOf(s.session, c);
      SameRank(if e.call == k then Resume(c, o, |s.history|, e.copied) else s.calls[k], o.wakes);
    }
  }

  /**
   * After the worker has exited every call, however many others start, is never asleep, can move unless
   * it is one of two closes that join at once, and has returned after a number of its own moves that is
   * known from where it is.
   */
  lemma {:induction false} CallExits(s: State, events: seq<Event>, k: nat)
    requires Inv(s) && s.worker.Exited? && k < |s.calls|
    ensures var t := Final(s, events);
            && Inv(t) && t.worker.Exited? && k < |t.calls|
            && CallMoves(s, events, k) + CallRank(t.calls[k]) <= CallRank(s.calls[k]) <= 6
            && (Done(t.calls[k]) || Ready(t, t.calls[k]) || (t.calls[k].CloseJoin? && !JoinsAlone(t)))
            && (CallMoves(s, events, k) == CallRank(s.calls[k]) ==> Done(t.calls[k]))
  {
    hide Inv, Next, Enabled, JoinsAlone;
    if events != [] {
      var earlier, e := events[..|events| - 1], events[|events| - 1];
      CallExits(s, earlier, k);
      InvNext(Final(s, earlier), e);
      ExitedStep(Final(s, earlier), e, k);
    }
    WaitsOver(Final(s, events), k);
  }
}
