/** The encoder state machine cannot get stuck, and every call of it returns. */
module EncoderProgress {
  import opened Results
  import opened EncoderSections
  import opened EncoderMachine
  import opened EncoderInvariant

  // ---------- Nothing deadlocks ----------

  predicate AllReturned(s: State) {
    forall k :: 0 <= k < |s.calls| ==> Done(s.calls[k])
  }

  /** Some thread can run its next section now, without waiting for a spurious wakeup or a new call. */
  ghost predicate CanProgress(s: State) {
    WorkerReady(s) || exists k :: 0 <= k < |s.calls| && Ready(s, s.calls[k])
  }

  lemma {:induction false} HeldIn(calls: seq<Call>, f: nat)
    requires f in Held(calls)
    ensures exists k :: 0 <= k < |calls| && HeldBy(calls[k]) == Some(f)
  {
    var n := |calls| - 1;
    if f in HeldFrame(calls[n]) {
      assert HeldBy(calls[n]) == Some(f);
    } else {
      HeldIn(calls[..n], f);
      var k :| 0 <= k < n && HeldBy(calls[..n][k]) == Some(f);
      assert HeldBy(calls[k]) == Some(f);
    }
  }

  /** With an empty queue, an idle worker and no free frame, some call holds a frame and can go on. */
  lemma HolderReady(s: State)
    requires Flags(s.session, s.worker) && Pooled(s) && Parked(s)
    requires !s.session.failed && s.session.queue == [] && s.session.free == [] && s.worker.Idle?
    ensures exists k :: 0 <= k < |s.calls| && Ready(s, s.calls[k])
  {
    FrameZeroHeld(s);
    HeldIn(s.calls, 0);
    var k :| 0 <= k < |s.calls| && HeldBy(s.calls[k]) == Some(0);
    assert CallParked(s.session, s.calls[k]);
    assert Ready(s, s.calls[k]);
  }

  lemma FrameZeroHeld(s: State)
    requires 0 < s.session.capacity && Pooled(s)
    requires !s.session.failed && s.session.queue == [] && s.session.free == [] && s.worker.Idle?
    ensures 0 in Held(s.calls)
  {
    assert FirstFrames(s.session.capacity)[0] == 0;
    assert 0 in Placed(s);
    assert Available(s.session) == multiset{} && WorkerFrame(s.worker) == multiset{};
  }

  /** A flush whose barrier is still outstanding has the worker awake. */
  lemma FlushKeepsWorker(s: State, c: Call)
    requires Inv(s) && c in s.calls && c.FlushWait? && !FlushSettled(s.session, c.token)
    ensures WorkerReady(s)
  {
    var k :| 0 <= k < |s.calls| && s.calls[k] == c;
    assert Traced(s, s.calls[k]);
    assert Flush(c.token) in s.handled + Rest(s);
    assert Flush(c.token) in Middle(s) + s.session.queue;
  }

  /** In every state with a call that has not returned, some thread can move, unless joins overlap. */
  lemma NoDeadlock(s: State)
    requires Inv(s) && JoinsAlone(s) && !AllReturned(s)
    ensures CanProgress(s)
  {
    var k :| 0 <= k < |s.calls| && !Done(s.calls[k]);
    var c := s.calls[k];
    assert CallParked(s.session, c) && Traced(s, c);
    if Ready(s, c) {
    } else if c.FlushWait? {
      FlushKeepsWorker(s, c);
    } else if c.CloseJoin? {
      assert WorkerReady(s);
    } else {
      SpaceWaiterHelped(s, c);
    }
  }

  /** A call asleep for a queue place or a frame has the worker or a frame holder ahead of it. */
  lemma SpaceWaiterHelped(s: State, c: Call)
    requires Flags(s.session, s.worker) && Pooled(s) && Parked(s)
    requires Asleep(c) && !c.FlushWait? && CallParked(s.session, c)
    ensures CanProgress(s)
  {
    if !WorkerReady(s) {
      HolderReady(s);
    }
  }

  // ---------- Every step is progress ----------

  /** How many sections a call may still run, counting two for each queue entry it may add. */
  function CallRank(c: Call): nat {
    match c
    case OwnedCheck(_, _) => 6
    case OwnedReserve(_, _) => 5
    case OwnedCopy(_, _) => 4
    case OwnedPush(_, _, _) => 3
    case OwnedGiveBack(_, _) => 1
    case BorrowedCheck(_, _) => 4
    case BorrowedPush(_) => 3
    case FlushSpace(_) => 4
    case FlushWait(_, _, _) => 1
    case CancelEnter => 1
    case CloseEnter => 4
    case CloseTest => 3
    case CloseJoin => 2
    case CloseLast => 1
    case _ => 0
  }

  function WorkerRank(w: Worker): nat {
    match w
    case Idle(_) => 2
    case Busy(_) => 3
    case Closing(_) => 1
    case Exited(_) => 0
  }

  function Ranks(calls: seq<Call>): nat {
    if calls == [] then 0 else Ranks(calls[..|calls| - 1]) + CallRank(calls[|calls| - 1])
  }

  /** An upper bound on the sections that can still run, not counting fruitless wakeups. */
  function Ahead(s: State): nat {
    Ranks(s.calls) + WorkerRank(s.worker) + 2 * |s.session.queue|
  }

  function AwakeRank(c: Call): nat {
    if Waits(c) && !c.asleep then 1 else 0
  }

  function Awakes(calls: seq<Call>): nat {
    if calls == [] then 0 else Awakes(calls[..|calls| - 1]) + AwakeRank(calls[|calls| - 1])
  }

  /** The waits that will be tested again before their thread can go back to sleep. */
  function Wakeful(s: State): nat {
    Awakes(s.calls) + if s.worker == Idle(false) then 1 else 0
  }

  predicate Descends(s: State, t: State) {
    Ahead(t) < Ahead(s) || (Ahead(t) == Ahead(s) && Wakeful(t) < Wakeful(s))
  }

  lemma {:induction false} RanksUpdate(calls: seq<Call>, k: nat, c: Call)
    requires k < |calls|
    ensures Ranks(calls[k := c]) == Ranks(calls) - CallRank(calls[k]) + CallRank(c)
    ensures Awakes(calls[k := c]) == Awakes(calls) - AwakeRank(calls[k]) + AwakeRank(c)
  {
    var n := |calls| - 1;
    if k < n {
      RanksUpdate(calls[..n], k, c);
      assert calls[k := c][..n] == calls[..n][k := c];
    } else {
      assert calls[k := c][..n] == calls[..n];
    }
  }

  lemma {:induction false} RanksRoused(calls: seq<Call>, wakes: set<Condition>)
    ensures Ranks(Rouse(calls, wakes)) == Ranks(calls)
    ensures wakes == {} ==> Rouse(calls, wakes) == calls
  {
    if calls != [] {
      var n := |calls| - 1;
      RanksRoused(calls[..n], wakes);
      SameRank(calls[n], wakes);
      assert Rouse(calls, wakes)[..n] == Rouse(calls[..n], wakes);
    }
  }

  lemma SameRank(c: Call, wakes: set<Condition>)
    ensures CallRank(Roused(c, wakes)) == CallRank(c)
  {
  }

  /** A section either finds its wait not over and changes nothing, or uses up rank. */
  lemma SectionDescends(i: Session, w: Worker, c: Call, barrier: nat, copied: Code)
    requires Flags(i, w) && !Done(c) && !Asleep(c)
    ensures var o := SectionOf(i, c);
            var d := Resume(c, o, barrier, copied);
            if o.verdict.Sleep? then
              Waits(c) && d == c.(asleep := true) && o.session == i && o.wakes == {} && CallRank(d) == CallRank(c)
            else
              CallRank(d) + 2 * |o.session.queue| < CallRank(c) + 2 * |i.queue|
  {
  }

  lemma AdvanceDescends(s: State, call: nat, copied: Code)
    requires Inv(s) && call < |s.calls| && Ready(s, s.calls[call])
    ensures Descends(s, Advanced(s, call, copied))
  {
    hide Flags, SectionOf, Resume, CallRank, Ranks, Awakes, Ledger, Numbered, Tokens, Statuses, Pooled, Parked, Traces;
    var c := s.calls[call];
    var o := SectionOf(s.session, c);
    var d := Resume(c, o, |s.history|, copied);
    SectionDescends(s.session, s.worker, c, |s.history|, copied);
    RanksUpdate(s.calls, call, d);
    RanksRoused(s.calls[call := d], o.wakes);
  }

  lemma WorkDescends(s: State, answer: Answer)
    requires WorkerReady(s)
    ensures Descends(s, Worked(s, answer))
  {
    match (s.worker, answer)
    case (Idle(_), _) => TakenDescends(s);
    case (Busy(item), Answered(code)) => CommittedDescends(s, item, code);
    case (Busy(item), Threw) => CrashedDescends(s, ActiveOf(item), [item]);
    case (Closing(_), Answered(code)) => ShutDescends(s, code);
    case (Closing(active), Threw) => CrashedDescends(s, active, s.stuck);
  }

  lemma CrashedDescends(s: State, active: Option<nat>, stuck: seq<Item>)
    requires s.worker.Busy? || s.worker.Closing?
    ensures Descends(s, Crashed(s, active, stuck))
  {
    RanksRoused(s.calls, Crash(s.session, active).wakes);
  }

  lemma ShutDescends(s: State, code: Code)
    requires s.worker.Closing?
    ensures Descends(s, Shut(s, code))
  {
    RanksRoused(s.calls, BackendClosed(s.session, code).wakes);
  }

  lemma TakenDescends(s: State)
    requires s.worker == Idle(false)
    ensures Descends(s, Taken(s))
  {
    hide Ranks, Rouse;
    RanksRoused(s.calls, Take(s.session).wakes);
  }

  lemma CommittedDescends(s: State, item: Item, code: Code)
    requires s.worker == Busy(item)
    ensures Descends(s, Committed(s, item, code))
  {
    RanksRoused(s.calls, Commit(s.session, item, code).wakes);
  }

  ghost predicate Progressed(s: State, t: State) {
    || (exists call: nat, copied :: call < |s.calls| && Ready(s, s.calls[call]) && t == Advanced(s, call, copied))
    || (exists answer :: WorkerReady(s) && t == Worked(s, answer))
  }

  lemma ProgressDescends(s: State, t: State)
    requires Inv(s) && Progressed(s, t)
    ensures Inv(t) && Descends(s, t)
  {
    if call: nat, copied :| call < |s.calls| && Ready(s, s.calls[call]) && t == Advanced(s, call, copied) {
      InvAdvanced(s, call, copied);
      AdvanceDescends(s, call, copied);
    } else {
      var answer :| WorkerReady(s) && t == Worked(s, answer);
      InvWorked(s, answer);
      WorkDescends(s, answer);
    }
  }

  // ---------- Every call returns ----------

  /** Everything the session was asked for has been answered. */
  ghost predicate Settled(s: State) {
    && AllReturned(s)
    && !CanProgress(s)
    && (s.session.closeRequested || s.session.failed ==> s.worker.Exited?)
    && (forall id :: 0 <= id < |s.session.submissions| ==> s.session.submissions[id].Some?)
  }

  /** A run in which no further call starts and threads move as long as any thread can. */
  ghost predicate Unhurried(run: nat -> State) {
    forall n: nat :: Progressed(run(n), run(n + 1)) || (!CanProgress(run(n)) && run(n + 1) == run(n))
  }

  lemma QuietIsSettled(s: State)
    requires Inv(s) && JoinsAlone(s) && !CanProgress(s)
    ensures Settled(s)
  {
    if !AllReturned(s) {
      NoDeadlock(s);
    }
    assert Open(s) == [];
    NothingOpen(s);
  }

  lemma NothingOpen(s: State)
    requires Ledger(s) && Numbered(s) && Statuses(s) && Open(s) == []
    ensures forall id :: 0 <= id < |s.session.submissions| ==> s.session.submissions[id].Some?
  {
    forall id | 0 <= id < |s.session.submissions|
      ensures s.session.submissions[id].Some?
    {
      assert Borrowed(id) in s.handled + Rest(s);
      hide Ledger, Numbered, Rest, Frames;
    }
  }

  lemma {:induction false} SettlesFrom(run: nat -> State, n: nat)
    requires Unhurried(run) && Inv(run(n))
    requires forall m: nat :: JoinsAlone(run(m))
    ensures exists m: nat :: n <= m && Settled(run(m))
    decreases Ahead(run(n)), Wakeful(run(n))
  {
    hide Inv, Settled, CanProgress, Progressed, JoinsAlone, Ahead, Wakeful, AllReturned;
    if CanProgress(run(n)) {
      ProgressDescends(run(n), run(n + 1));
      SettlesFrom(run, n + 1);
    } else {
      QuietIsSettled(run(n));
    }
  }

  /** Joins that overlap go on overlapping. */
  lemma OverlapStays(s: State, t: State)
    requires Progressed(s, t) && !JoinsAlone(s)
    ensures !JoinsAlone(t)
  {
    var j, k :| 0 <= j < k < |s.calls| && InJoin(s.calls[j]) && InJoin(s.calls[k]);
    if call: nat, copied :| call < |s.calls| && Ready(s, s.calls[call]) && t == Advanced(s, call, copied) {
      JoinerStays(s, call, copied, j);
      JoinerStays(s, call, copied, k);
    } else {
      var answer :| WorkerReady(s) && t == Worked(s, answer);
      JoinersUnworked(s, answer, j);
      JoinersUnworked(s, answer, k);
    }
    assert InJoin(t.calls[j]) && InJoin(t.calls[k]);
  }

  lemma JoinerStays(s: State, call: nat, copied: Code, k: nat)
    requires call < |s.calls| && k < |s.calls| && Ready(s, s.calls[call]) && !JoinsAlone(s) && InJoin(s.calls[k])
    ensures var t := Advanced(s, call, copied);
            |t.calls| == |s.calls| && InJoin(t.calls[k]) && t.session.joinable
  {
    var c := s.calls[call];
    SectionKeepsWorker(s.session, c);
    if call == k {
      assert c == CloseTest;
    }
    hide JoinsAlone;
  }

  lemma SectionKeepsWorker(i: Session, c: Call)
    requires !c.CloseJoin?
    ensures SectionOf(i, c).session.joinable == i.joinable
  {
    hide CompleteAll, FramesOf;
    match c
    case OwnedReserve(block, _) =>
    case OwnedPush(block, frame, _) =>
    case CancelEnter =>
    case _ =>
  }

  lemma JoinersUnworked(s: State, answer: Answer, k: nat)
    requires k < |s.calls| && InJoin(s.calls[k])
    ensures var t := Worked(s, answer);
            |t.calls| == |s.calls| && InJoin(t.calls[k]) && t.session.joinable == s.session.joinable
  {
    hide CompleteAll, CompleteItem, Complete, FramesOf, Commit, Take, Crash, BackendClosed;
    WorkerKeepsJoinable(s.session);
    match (s.worker, answer)
    case (Busy(item), Answered(code)) => CommitKeepsJoinable(s.session, item, code);
    case _ =>
  }

  lemma CommitKeepsJoinable(i: Session, item: Item, code: Code)
    ensures Commit(i, item, code).session.joinable == i.joinable
  {
    hide CompleteAll, CompleteItem;
    if code != OK {
    } else if item.Flush? {
    } else {
    }
  }

  lemma WorkerKeepsJoinable(i: Session)
    ensures Take(i).session.joinable == i.joinable
    ensures forall active :: Crash(i, active).session.joinable == i.joinable
    ensures forall code :: BackendClosed(i, code).session.joinable == i.joinable
  {
    hide CompleteAll, Complete;
  }

  lemma {:induction false} OverlapKept(run: nat -> State, n: nat, m: nat)
    requires Unhurried(run) && n <= m && !JoinsAlone(run(n))
    ensures !JoinsAlone(run(m))
  {
    hide Inv, Settled, CanProgress, Progressed, JoinsAlone, Ahead, Wakeful, AllReturned;
    if n < m {
      OverlapKept(run, n, m - 1);
      if Progressed(run(m - 1), run(m - 1 + 1)) {
        OverlapStays(run(m - 1), run(m));
      }
    }
  }

  /** Once settled, a run stands still. */
  lemma {:induction false} SettledStays(run: nat -> State, n: nat, m: nat)
    requires Unhurried(run) && Settled(run(n)) && n <= m
    ensures run(m) == run(n)
  {
    hide Settled, CanProgress, Progressed;
    if n < m {
      SettledStays(run, n, m - 1);
      SettledIdle(run(m - 1), run(m - 1 + 1));
    }
  }

  lemma SettledIdle(s: State, t: State)
    requires Settled(s)
    ensures !Progressed(s, t)
  {
  }

  lemma SettledAlone(run: nat -> State, n: nat, m: nat)
    requires Unhurried(run) && Settled(run(m))
    ensures JoinsAlone(run(n))
  {
    if n <= m {
      if !JoinsAlone(run(n)) {
        OverlapKept(run, n, m);
      }
    } else {
      SettledStays(run, m, n);
    }
  }

  /** A run settles exactly when no two closes ever join the worker at once. */
  lemma SettlesIffAlone(run: nat -> State)
    requires Inv(run(0)) && Unhurried(run)
    ensures (exists m: nat :: Settled(run(m))) <==> (forall n: nat :: JoinsAlone(run(n)))
  {
    if m: nat :| Settled(run(m)) {
      forall n: nat
        ensures JoinsAlone(run(n))
      {
        SettledAlone(run, n, m);
      }
    }
    if forall n: nat :: JoinsAlone(run(n)) {
      SettlesFrom(run, 0);
    }
  }

  /** One more event at the end of a run. */
  lemma FinalAppend(s: State, events: seq<Event>, e: Event)
    ensures Final(s, events + [e]) == Next(Final(s, events), e)
  {
    hide Next;
    assert (events + [e])[..|events|] == events;
  }

  /** A session that nothing but closes has reached. */
  ghost predicate Closers(s: State, calls: seq<Call>) {
    s.session.joinable && s.calls == calls && forall j :: 0 <= j < |calls| ==> calls[j] in {CloseEnter, CloseTest}
  }

  lemma CloserStarts(start: State, events: seq<Event>, calls: seq<Call>)
    requires Closers(Final(start, events), calls)
    ensures Closers(Final(start, events + [Start(CloseEnter)]), calls + [CloseEnter])
  {
    FinalAppend(start, events, Start(CloseEnter));
    hide Final;
  }

  lemma CloserEnters(start: State, events: seq<Event>, calls: seq<Call>, k: nat)
    requires Closers(Final(start, events), calls) && k < |calls| && calls[k] == CloseEnter
    ensures Closers(Final(start, events + [Advance(k, OK)]), calls[k := CloseTest])
  {
    FinalAppend(start, events, Advance(k, OK));
    hide Final, CompleteAll, FramesOf;
  }

  /** Two closes that start together do reach their joins together. */
  lemma TwoClosersOverlap(capacity: nat, cpuAllowed: bool)
    requires 0 < capacity
    ensures exists events :: !JoinsAlone(Final(Initial(capacity, cpuAllowed), events))
  {
    var s := Initial(capacity, cpuAllowed);
    var one := [] + [Start(CloseEnter)];
    var two := one + [Start(CloseEnter)];
    var three := two + [Advance(0, OK)];
    var four := three + [Advance(1, OK)];
    assert Closers(Final(s, []), []);
    hide Next, Initial, Final, Closers;
    CloserStarts(s, [], []);
    CloserStarts(s, one, [] + [CloseEnter]);
    var entered := [] + [CloseEnter] + [CloseEnter];
    CloserEnters(s, two, entered, 0);
    CloserEnters(s, three, entered[0 := CloseTest], 1);
    BothJoining(Final(s, four), entered[0 := CloseTest][1 := CloseTest]);
  }

  lemma BothJoining(s: State, calls: seq<Call>)
    requires Closers(s, calls) && 2 <= |calls| && calls[0] == CloseTest && calls[1] == CloseTest
    ensures !JoinsAlone(s)
  {
    assert InJoin(s.calls[0]) && InJoin(s.calls[1]);
  }

  // ---------- The worker exits while calls keep starting ----------

  /** How many moves of the worker a run contains. */
  function WorkerMoves(s: State, events: seq<Event>): nat {
    if events == [] then 0
    else
      var earlier, e := events[..|events| - 1], events[|events| - 1];
      WorkerMoves(s, earlier) + if e.Work? && Enabled(Final(s, earlier), e) then 1 else 0
  }

  /** What is left for the worker to do once nothing more is accepted. */
  function WorkLeft(s: State): nat {
    WorkerRank(s.worker) + 2 * |s.session.queue|
  }

  lemma WorkLeftAdvanced(s: State, call: nat, copied: Code)
    requires Flags(s.session, s.worker) && s.session.closeRequested && call < |s.calls|
    ensures var t := Advanced(s, call, copied);
            t.session.closeRequested && WorkLeft(t) <= WorkLeft(s)
  {
    AdvanceIsCallStep(s, call, copied);
    hide SectionOf, Resume, CompleteAll;
  }

  lemma WorkLeftWorked(s: State, answer: Answer)
    requires Inv(s) && s.session.closeRequested && WorkerReady(s)
    ensures var t := Worked(s, answer);
            t.session.closeRequested && WorkLeft(t) < WorkLeft(s)
  {
    hide Ledger, Numbered, Tokens, Statuses, Pooled, Parked, Traces, CompleteAll, CompleteItem, Complete, Rouse;
    match (s.worker, answer)
    case (Busy(item), Answered(code)) => WorkLeftCommitted(s.session, item, code);
    case _ =>
  }

  lemma WorkLeftCommitted(i: Session, item: Item, code: Code)
    ensures var j := Commit(i, item, code).session;
            j.closeRequested == i.closeRequested && |j.queue| <= |i.queue|
  {
    hide CompleteAll, CompleteItem;
    if code != OK {
    } else if item.Flush? {
    } else {
    }
  }

  lemma WorkLeftStep(s: State, e: Event)
    requires Inv(s) && s.session.closeRequested
    ensures var t := Next(s, e);
            && t.session.closeRequested
            && WorkLeft(t) + (if e.Work? && Enabled(s, e) then 1 else 0) <= WorkLeft(s)
  {
    hide Flags, Ledger, Numbered, Tokens, Statuses, Pooled, Parked, Traces, Advanced, Worked, JoinsAlone;
    if Enabled(s, e) {
      match e
      case Advance(call, copied) => WorkLeftAdvanced(s, call, copied);
      case Work(answer) => WorkLeftWorked(s, answer);
      case _ =>
    }
  }

  /** A worker that has not exited and has been asked to close is never asleep, and can always move. */
  lemma ClosingWorkerReady(s: State)
    requires Inv(s) && s.session.closeRequested
    ensures s.worker.Exited? || WorkerReady(s)
  {
  }

  /**
   * After a close or a cancel the worker exits within a fixed number of its own moves, whatever other
   * calls do meanwhile and however many of them start.
   */
  lemma {:induction false} WorkerExits(s: State, events: seq<Event>)
    requires Inv(s) && s.session.closeRequested
    ensures var t := Final(s, events);
            && Inv(t) && t.session.closeRequested
            && WorkerMoves(s, events) + WorkLeft(t) <= WorkLeft(s)
            && (t.worker.Exited? || WorkerReady(t))
            && (WorkerMoves(s, events) == WorkLeft(s) ==> t.worker.Exited?)
  {
    hide Inv, Next, WorkLeft, WorkerReady, Enabled;
    if events != [] {
      var earlier, e := events[..|events| - 1], events[|events| - 1];
      WorkerExits(s, earlier);
      InvNext(Final(s, earlier), e);
      WorkLeftStep(Final(s, earlier), e);
    }
    ClosingWorkerReady(Final(s, events));
    NothingLeft(Final(s, events));
  }

  lemma NothingLeft(s: State)
    ensures WorkLeft(s) == 0 ==> s.worker.Exited?
  {
  }
}
