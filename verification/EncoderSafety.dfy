/** What every run of an asynchronous encoder session guarantees to the calls that are part of it. */
module EncoderSafety {
  import opened Results
  import opened EncoderSections
  import opened EncoderMachine
  import opened EncoderInvariant

  // ---------- The backend's view of a run ----------

  /** The backend write or flush that one event ends, with what it came back with. */
  function BackendCall(s: State, e: Event): seq<(Item, Answer)> {
    if e.Work? && s.worker.Busy? then [(s.worker.item, e.answer)] else []
  }

  /** Every backend write and flush of a run, in order. */
  function BackendLog(s: State, events: seq<Event>): seq<(Item, Answer)> {
    if events == [] then []
    else
      var earlier := events[..|events| - 1];
      BackendLog(s, earlier) + BackendCall(Final(s, earlier), events[|events| - 1])
  }

  function Asked(log: seq<(Item, Answer)>): seq<Item> {
    if log == [] then [] else Asked(log[..|log| - 1]) + [log[|log| - 1].0]
  }

  function Succeeded(log: seq<(Item, Answer)>): seq<Item> {
    if log == [] then []
    else
      var (item, answer) := log[|log| - 1];
      Succeeded(log[..|log| - 1]) + if answer == Answered(OK) then [item] else []
  }

  lemma ReachedInv(capacity: nat, cpuAllowed: bool, events: seq<Event>)
    requires 0 < capacity
    ensures Inv(Final(Initial(capacity, cpuAllowed), events))
  {
    InvInitial(capacity, cpuAllowed);
    InvFinal(Initial(capacity, cpuAllowed), events);
  }

  /**
   * The backend sees accepted entries only, each at most once and in the order of acceptance; those
   * it handled are a prefix of them, and at most one more was tried, after which nothing is.
   */
  lemma {:induction false} BackendOrder(capacity: nat, cpuAllowed: bool, events: seq<Event>)
    requires 0 < capacity
    ensures var s := Final(Initial(capacity, cpuAllowed), events);
            var log := BackendLog(Initial(capacity, cpuAllowed), events);
            && Succeeded(log) == s.handled
            && Asked(log) == s.handled + s.stuck
            && Asked(log) <= s.history
  {
    var s0 := Initial(capacity, cpuAllowed);
    ReachedInv(capacity, cpuAllowed, events);
    if events != [] {
      var earlier, e := events[..|events| - 1], events[|events| - 1];
      BackendOrder(capacity, cpuAllowed, earlier);
      ReachedInv(capacity, cpuAllowed, earlier);
      BackendStep(Final(s0, earlier), e, BackendLog(s0, earlier));
    }
    AskedPrefix(Final(s0, events));
  }

  lemma AskedPrefix(s: State)
    requires Ledger(s) && Flags(s.session, s.worker)
    ensures s.handled + s.stuck <= s.history
  {
    hide Frames;
    if s.stuck == [] {
      FrontOf(s.handled, [], Rest(s), []);
    } else {
      assert Middle(s) == s.stuck;
      FrontOf(s.handled, s.stuck, s.session.queue, s.lost);
    }
  }

  lemma FrontOf(a: seq<Item>, b: seq<Item>, c: seq<Item>, d: seq<Item>)
    ensures a + b <= a + (b + c + d) && (b == d == [] ==> a + (b + c + d) == a + c && a + b == a)
  {
  }

  lemma LogGrows(log: seq<(Item, Answer)>, item: Item, answer: Answer)
    ensures Asked(log + [(item, answer)]) == Asked(log) + [item]
    ensures Succeeded(log + [(item, answer)]) == Succeeded(log) + if answer == Answered(OK) then [item] else []
  {
    assert (log + [(item, answer)])[..|log|] == log;
  }

  lemma BackendStep(s: State, e: Event, log: seq<(Item, Answer)>)
    requires Flags(s.session, s.worker) && Ledger(s)
    requires Succeeded(log) == s.handled && Asked(log) == s.handled + s.stuck
    ensures var t, grown := Next(s, e), log + BackendCall(s, e);
            Succeeded(grown) == t.handled && Asked(grown) == t.handled + t.stuck
  {
    hide Next, Flags, Ledger, Succeeded, Asked;
    if e.Work? && s.worker.Busy? {
      NoneStuck(s);
      BackendAnswered(s, s.worker.item, e.answer);
      LogGrows(log, s.worker.item, e.answer);
      assert s.handled + [] == s.handled;
    } else {
      assert log + [] == log;
      RecordKept(s, e);
    }
  }

  lemma NoneStuck(s: State)
    requires Flags(s.session, s.worker) && Ledger(s) && s.worker.Busy?
    ensures s.stuck == []
  {
  }

  /** The record of the run after the backend answered for an entry. */
  lemma BackendAnswered(s: State, item: Item, answer: Answer)
    requires s.worker == Busy(item) && s.stuck == []
    ensures var t := Next(s, Work(answer));
            if answer == Answered(OK) then t.handled == s.handled + [item] && t.stuck == []
            else t.handled == s.handled && t.stuck == [item]
  {
  }

  lemma RecordKept(s: State, e: Event)
    requires e.Work? ==> !s.worker.Busy?
    ensures Next(s, e).handled == s.handled && Next(s, e).stuck == s.stuck
  {
  }

  // ---------- Flush barriers ----------

  lemma HistoryStep(s: State, e: Event)
    requires Inv(s)
    ensures s.history <= Next(s, e).history
  {
    if Enabled(s, e) {
      match e
      case Advance(call, copied) => AdvanceIsCallStep(s, call, copied);
      case Work(answer) => HistoryWorked(s, answer);
      case _ =>
    }
  }

  lemma HistoryWorked(s: State, answer: Answer)
    ensures Worked(s, answer).history == s.history
  {
  }

  /** What a flush that had not queued its barrier when `past` was the history can have become. */
  predicate FlushAfter(c: Call, past: nat) {
    || c.FlushSpace?
    || (c.FlushWait? && past <= c.barrier)
    || (c.FlushReturned? && past <= c.barrier)
    || c.Returned?
  }

  lemma FlushStays(s: State, e: Event, k: nat, past: nat)
    requires k < |s.calls| && past <= |s.history| && FlushAfter(s.calls[k], past)
    ensures k < |Next(s, e).calls| && FlushAfter(Next(s, e).calls[k], past)
  {
    if Enabled(s, e) {
      match e
      case Advance(call, copied) => FlushAdvanced(s, call, copied, k, past);
      case Work(answer) => FlushUnworked(s, answer, k, past);
      case _ =>
    }
  }

  lemma FlushAdvanced(s: State, call: nat, copied: Code, k: nat, past: nat)
    requires k < |s.calls| && past <= |s.history| && FlushAfter(s.calls[k], past)
    requires call < |s.calls| && !Done(s.calls[call])
    ensures |Advanced(s, call, copied).calls| == |s.calls| && FlushAfter(Advanced(s, call, copied).calls[k], past)
  {
    hide SectionOf, Resume, FlushAfter, Roused;
    var o := SectionOf(s.session, s.calls[call]);
    if call == k {
      FlushResumes(s, s.calls[k], copied, past);
      FlushRoused(Resume(s.calls[k], o, |s.history|, copied), o.wakes, past);
    } else {
      FlushRoused(s.calls[k], o.wakes, past);
    }
  }

  lemma FlushRoused(c: Call, wakes: set<Condition>, past: nat)
    requires FlushAfter(c, past)
    ensures FlushAfter(Roused(c, wakes), past)
  {
  }

  lemma FlushUnworked(s: State, answer: Answer, k: nat, past: nat)
    requires k < |s.calls| && FlushAfter(s.calls[k], past)
    ensures |Worked(s, answer).calls| == |s.calls| && FlushAfter(Worked(s, answer).calls[k], past)
  {
  }

  lemma FlushResumes(s: State, c: Call, copied: Code, past: nat)
    requires past <= |s.history| && FlushAfter(c, past) && !Done(c)
    ensures FlushAfter(Resume(c, SectionOf(s.session, c), |s.history|, copied), past)
  {
  }

  lemma {:induction false} FlushFollowed(s: State, events: seq<Event>, k: nat, past: nat)
    requires Inv(s) && k < |s.calls| && past <= |s.history| && FlushAfter(s.calls[k], past)
    ensures var t := Final(s, events);
            s.history <= t.history && k < |t.calls| && FlushAfter(t.calls[k], past)
  {
    if events != [] {
      var earlier, e := events[..|events| - 1], events[|events| - 1];
      FlushFollowed(s, earlier, k, past);
      InvFinal(s, earlier);
      HistoryStep(Final(s, earlier), e);
      FlushStays(Final(s, earlier), e, k, past);
    }
  }

  lemma {:induction false} FinalConcat(s: State, a: seq<Event>, b: seq<Event>)
    ensures Final(s, a + b) == Final(Final(s, a), b)
  {
    if b == [] {
      assert a + b == a;
    } else {
      FinalConcat(s, a, b[..|b| - 1]);
      assert (a + b)[..|a + b| - 1] == a + b[..|b| - 1];
    }
  }

  /**
   * When a flush returns `OK`, everything accepted before its barrier was queued had been written or
   * flushed successfully, in order, and a successful backend flush came after all of it.
   */
  lemma FlushBarrier(capacity: nat, cpuAllowed: bool, before: seq<Event>, after: seq<Event>, k: nat)
    requires 0 < capacity
    requires var s := Final(Initial(capacity, cpuAllowed), before);
             && k < |s.calls| && s.calls[k].FlushSpace?
             && k < |Final(s, after).calls|
             && Final(s, after).calls[k].FlushReturned? && Final(s, after).calls[k].code == OK
    ensures var s := Final(Initial(capacity, cpuAllowed), before);
            var token := Final(s, after).calls[k].token;
            var done := Succeeded(BackendLog(Initial(capacity, cpuAllowed), before + after));
            && s.history <= done
            && exists j :: |s.history| <= j < |done| && done[j] == Flush(token)
  {
    var s0 := Initial(capacity, cpuAllowed);
    var s := Final(s0, before);
    var t := Final(s, after);
    FinalConcat(s0, before, after);
    ReachedInv(capacity, cpuAllowed, before);
    ReachedInv(capacity, cpuAllowed, before + after);
    BackendOrder(capacity, cpuAllowed, before + after);
    FlushFollowed(s, after, k, |s.history|);
    BarrierHandled(s, t, t.calls[k]);
  }

  lemma BarrierHandled(s: State, t: State, c: Call)
    requires Ledger(t) && Traced(t, c) && s.history <= t.history
    requires c.FlushReturned? && c.code == OK && |s.history| <= c.barrier
    ensures s.history <= t.handled
    ensures |s.history| <= c.barrier < |t.handled| && t.handled[c.barrier] == Flush(c.token)
  {
    assert t.handled == t.history[..|t.handled|];
  }

  // ---------- Submissions ----------

  /**
   * An accepted submission is pending exactly while its entry is queued or with the backend, it has
   * completed `OK` exactly when its backend write succeeded, and none is pending once the worker is gone.
   */
  lemma SubmissionResult(capacity: nat, cpuAllowed: bool, events: seq<Event>, id: nat)
    requires 0 < capacity
    requires id < |Final(Initial(capacity, cpuAllowed), events).session.submissions|
    ensures var s := Final(Initial(capacity, cpuAllowed), events);
            var status := s.session.submissions[id];
            && (status == None <==> Borrowed(id) in Open(s))
            && (status == Some(OK) <==>
                Borrowed(id) in Succeeded(BackendLog(Initial(capacity, cpuAllowed), events)))
            && (s.worker.Exited? ==> status.Some?)
  {
    hide Final, BackendLog, Succeeded, Asked;
    var s := Final(Initial(capacity, cpuAllowed), events);
    ReachedInv(capacity, cpuAllowed, events);
    BackendOrder(capacity, cpuAllowed, events);
    StatusTells(s, id);
  }

  lemma StatusTells(s: State, id: nat)
    requires Flags(s.session, s.worker) && Ledger(s) && Numbered(s) && Statuses(s)
    requires id < |s.session.submissions|
    ensures var status := s.session.submissions[id];
            && (status == None <==> Borrowed(id) in Open(s))
            && (status == Some(OK) <==> Borrowed(id) in s.handled)
            && (s.worker.Exited? ==> status.Some?)
  {
    assert Borrowed(id) in s.handled + Rest(s);
    assert s.worker.Exited? ==> Open(s) == [];
  }

  lemma ResultKeptStep(s: State, e: Event)
    requires Inv(s)
    ensures Extends(s.session.submissions, Next(s, e).session.submissions)
  {
    if Enabled(s, e) {
      match e
      case Advance(call, copied) => ResultKeptCall(s, Advanced(s, call, copied), call, copied);
      case Work(Answered(code)) => AnswerKeeps(s, code);
      case Work(Threw) => CrashKeeps(s);
      case _ =>
    }
  }

  /** A step numbers at most one submission. */
  lemma OneSubmissionMore(s: State, e: Event)
    requires Inv(s)
    ensures |Next(s, e).session.submissions| <= |s.session.submissions| + 1
  {
    hide Inv, Advanced, Worked, JoinsAlone;
    if Enabled(s, e) {
      match e
      case Advance(call, copied) => CallNumbers(s, call, copied);
      case Work(answer) => WorkNumbers(s, answer);
      case _ =>
    }
  }

  lemma CallNumbers(s: State, call: nat, copied: Code)
    requires Inv(s) && call < |s.calls|
    ensures |Advanced(s, call, copied).session.submissions| <= |s.session.submissions| + 1
  {
    AdvanceIsCallStep(s, call, copied);
    hide SectionOf, Resume, CompleteAll;
    CompleteAllLength(s.session.submissions, s.session.queue, CANCELLED);
  }

  lemma WorkNumbers(s: State, answer: Answer)
    requires WorkerReady(s)
    ensures |Worked(s, answer).session.submissions| == |s.session.submissions|
  {
    hide Commit, CompleteAll, Complete;
    match (s.worker, answer)
    case (Busy(item), Answered(code)) => CommitNumbers(s.session, item, code);
    case (Busy(item), Threw) => CrashNumbers(s.session, ActiveOf(item));
    case (Closing(active), Threw) => CrashNumbers(s.session, active);
    case _ =>
  }

  lemma CrashNumbers(i: Session, active: Option<nat>)
    ensures |Crash(i, active).session.submissions| == |i.submissions|
  {
    var first := if active.Some? then Complete(i.submissions, active.value, INTERNAL) else i.submissions;
    CompleteAllLength(first, i.queue, INTERNAL);
    hide CompleteAll;
  }

  /** Later submission states: more submissions, and every result that was there. */
  predicate Extends(before: seq<Option<Code>>, after: seq<Option<Code>>) {
    |before| <= |after| && forall id :: 0 <= id < |before| && before[id].Some? ==> after[id] == before[id]
  }

  lemma ResultKeptCall(s: State, t: State, call: nat, copied: Code)
    requires Inv(s) && call < |s.calls| && t == Advanced(s, call, copied)
    ensures Extends(s.session.submissions, t.session.submissions)
  {
    AdvanceIsCallStep(s, call, copied);
    CompleteAllStatus(s.session.submissions, s.session.queue, CANCELLED);
  }

  lemma CommitKeeps(i: Session, item: Item, code: Code)
    ensures Extends(i.submissions, Commit(i, item, code).session.submissions)
  {
    var first := CompleteItem(i.submissions, item, code);
    assert Extends(i.submissions, first);
    CompleteAllStatus(first, i.queue, code);
    hide Commit, CompleteItem, Complete, CompleteAll;
    CommitKept(i, item, code);
  }

  lemma AnswerKeeps(s: State, code: Code)
    requires WorkerReady(s)
    ensures Extends(s.session.submissions, Worked(s, Answered(code)).session.submissions)
  {
    hide Commit;
    if s.worker.Busy? {
      CommitKeeps(s.session, s.worker.item, code);
    }
  }

  lemma CrashKeeps(s: State)
    requires WorkerReady(s)
    ensures Extends(s.session.submissions, Worked(s, Threw).session.submissions)
  {
    var i := s.session;
    var active := match s.worker
                  case Busy(item) => ActiveOf(item)
                  case Closing(submission) => submission
                  case _ => None;
    var first := if active.Some? then Complete(i.submissions, active.value, INTERNAL) else i.submissions;
    CompleteAllStatus(first, i.queue, INTERNAL);
  }

  /** The first result of a submission is its result for the rest of every run. */
  lemma {:induction false} FirstResultKept(s: State, events: seq<Event>, id: nat)
    requires Inv(s) && id < |s.session.submissions| && s.session.submissions[id].Some?
    ensures var t := Final(s, events);
            id < |t.session.submissions| && t.session.submissions[id] == s.session.submissions[id]
  {
    if events != [] {
      var earlier := events[..|events| - 1];
      FirstResultKept(s, earlier, id);
      InvFinal(s, earlier);
      ResultKeptStep(Final(s, earlier), events[|events| - 1]);
    }
  }

  // ---------- Conservation ----------

  /** How many calls hold a pooled frame. */
  function Holders(calls: seq<Call>): nat {
    if calls == [] then 0
    else Holders(calls[..|calls| - 1]) + if HeldBy(calls[|calls| - 1]).Some? then 1 else 0
  }

  lemma {:induction false} HoldersCount(calls: seq<Call>)
    ensures |Held(calls)| == Holders(calls)
  {
    if calls != [] {
      HoldersCount(calls[..|calls| - 1]);
    }
  }

  lemma {:induction false} FramesConcat(a: seq<Item>, b: seq<Item>)
    ensures Frames(a + b) == Frames(a) + Frames(b)
  {
    if b == [] {
      assert a + b == a;
    } else {
      FramesConcat(a, b[..|b| - 1]);
      assert (a + b)[..|a + b| - 1] == a + b[..|b| - 1];
    }
  }

  lemma SubBagSize(a: multiset<nat>, b: multiset<nat>)
    requires a <= b
    ensures |a| <= |b|
  {
    assert b == a + (b - a);
  }

  /** The frames that are free, queued, held by calls or with the worker. */
  function FrameTotal(s: State): nat {
    |s.session.free| + |FramesOf(s.session.queue)| + Holders(s.calls) + |WorkerFrame(s.worker)|
  }

  /** No pooled frame is lost before a failure, none is ever invented, and the frame counters add up. */
  lemma Conservation(capacity: nat, cpuAllowed: bool, events: seq<Event>)
    requires 0 < capacity
    ensures var s := Final(Initial(capacity, cpuAllowed), events);
            && FrameTotal(s) <= s.session.capacity
            && (!s.session.failed ==> FrameTotal(s) == s.session.capacity)
            && s.session.accepted
               == s.session.completed + Frames(s.session.queue) + Frames(Middle(s)) + Frames(s.lost)
            && |s.session.queue| <= s.session.capacity
            && s.session.peak <= s.session.capacity
  {
    var s := Final(Initial(capacity, cpuAllowed), events);
    ReachedInv(capacity, cpuAllowed, events);
    TotalIsPlaced(s);
    SubBagSize(Placed(s), multiset(FirstFrames(s.session.capacity)));
    FramesConcat(s.handled, Rest(s));
    FramesConcat(Middle(s) + s.session.queue, s.lost);
    FramesConcat(Middle(s), s.session.queue);
  }

  lemma TotalIsPlaced(s: State)
    ensures |Placed(s)| == FrameTotal(s)
  {
    HoldersCount(s.calls);
  }

  lemma HeldLast(calls: seq<Call>, f: nat)
    requires calls != []
    ensures var n := |calls| - 1;
            && Held(calls)[f] >= Held(calls[..n])[f]
            && (HeldBy(calls[n]) == Some(f) ==> Held(calls)[f] == Held(calls[..n])[f] + 1)
  {
  }

  lemma {:induction false} HeldTwice(calls: seq<Call>, j: nat, k: nat, f: nat)
    requires j < k < |calls| && HeldBy(calls[j]) == Some(f) && HeldBy(calls[k]) == Some(f)
    ensures Held(calls)[f] >= 2
  {
    hide Held, HeldBy;
    var n := |calls| - 1;
    HeldLast(calls, f);
    if k < n {
      HeldTwice(calls[..n], j, k, f);
    } else {
      HeldOnce(calls[..n], j, f);
    }
  }

  lemma {:induction false} HeldOnce(calls: seq<Call>, j: nat, f: nat)
    requires j < |calls| && HeldBy(calls[j]) == Some(f)
    ensures Held(calls)[f] >= 1
  {
    hide Held, HeldBy;
    var n := |calls| - 1;
    HeldLast(calls, f);
    if j < n {
      HeldOnce(calls[..n], j, f);
    }
  }

  lemma {:induction false} FirstFramesDistinct(count: nat, f: nat)
    ensures multiset(FirstFrames(count))[f] <= 1
  {
    if 0 < count {
      FirstFramesDistinct(count - 1, f);
      assert FirstFrames(count) == FirstFrames(count - 1) + [count - 1];
      assert count - 1 !in FirstFrames(count - 1);
    }
  }

  /** A frame that one call is filling is not free, queued, encoded, or filled by another call. */
  lemma FrameExclusive(capacity: nat, cpuAllowed: bool, events: seq<Event>, k: nat)
    requires 0 < capacity
    requires var s := Final(Initial(capacity, cpuAllowed), events);
             k < |s.calls| && HeldBy(s.calls[k]).Some?
    ensures var s := Final(Initial(capacity, cpuAllowed), events);
            var f := HeldBy(s.calls[k]).value;
            && f !in s.session.free && f !in FramesOf(s.session.queue)
            && s.worker != Busy(Owned(f))
            && forall j :: 0 <= j < |s.calls| && j != k ==> HeldBy(s.calls[j]) != Some(f)
  {
    var s := Final(Initial(capacity, cpuAllowed), events);
    var f := HeldBy(s.calls[k]).value;
    ReachedInv(capacity, cpuAllowed, events);
    FirstFramesDistinct(s.session.capacity, f);
    PlacedOnce(s, k, f);
  }

  lemma PlacedOnce(s: State, k: nat, f: nat)
    requires Placed(s)[f] <= 1 && k < |s.calls| && HeldBy(s.calls[k]) == Some(f)
    ensures f !in s.session.free && f !in FramesOf(s.session.queue)
    ensures s.worker != Busy(Owned(f))
    ensures forall j :: 0 <= j < |s.calls| && j != k ==> HeldBy(s.calls[j]) != Some(f)
  {
    HeldOnce(s.calls, k, f);
    forall j | 0 <= j < |s.calls| && j != k
      ensures HeldBy(s.calls[j]) != Some(f)
    {
      if HeldBy(s.calls[j]) == Some(f) {
        if j < k {
          HeldTwice(s.calls, j, k, f);
        } else {
          HeldTwice(s.calls, k, j, f);
        }
      }
    }
  }

  /** After every run, whoever sleeps waits for a condition that does not hold. */
  lemma NoLostWakeup(capacity: nat, cpuAllowed: bool, events: seq<Event>, k: nat)
    requires 0 < capacity && k < |Final(Initial(capacity, cpuAllowed), events).calls|
    ensures var s := Final(Initial(capacity, cpuAllowed), events);
            && (Asleep(s.calls[k]) ==> !WaitOver(s.session, s.calls[k]))
            && (s.worker == Idle(true) ==> s.session.queue == [] && !s.session.closeRequested)
  {
    var s := Final(Initial(capacity, cpuAllowed), events);
    ReachedInv(capacity, cpuAllowed, events);
    assert CallParked(s.session, s.calls[k]);
  }

  /** An orderly close loses nothing: once the worker is gone, all that was accepted has been handled. */
  lemma OrderlyClose(capacity: nat, cpuAllowed: bool, events: seq<Event>)
    requires 0 < capacity
    requires var s := Final(Initial(capacity, cpuAllowed), events);
             s.worker.Exited? && !s.session.failed && !s.session.canceled
    ensures var s := Final(Initial(capacity, cpuAllowed), events);
            Succeeded(BackendLog(Initial(capacity, cpuAllowed), events)) == s.history
  {
    ReachedInv(capacity, cpuAllowed, events);
    BackendOrder(capacity, cpuAllowed, events);
    assert Rest(Final(Initial(capacity, cpuAllowed), events)) == [];
  }

  // ---------- What a submission returns ----------

  /** An owned submission returns OK exactly when its frame was accepted, and otherwise frees it. */
  lemma OwnedAccepted(s: State, call: nat, copied: Code)
    requires Flags(s.session, s.worker) && call < |s.calls|
    requires s.calls[call].OwnedPush? && Ready(s, s.calls[call])
    ensures var c, t := s.calls[call], Advanced(s, call, copied);
            && (t.calls[call] == Returned(OK) <==> t.history == s.history + [Owned(c.frame)])
            && (t.calls[call].Returned? && t.calls[call].code != OK ==>
                  t.history == s.history && t.session.free == s.session.free + [c.frame])
  {
    var i, c := s.session, s.calls[call];
    var j := Push(i, c.block, c.frame).session;
    assert j.queue == i.queue || j.queue == i.queue + [Owned(c.frame)];
    assert Added(i.queue, j.queue) == if j.queue == i.queue then [] else [Owned(c.frame)];
  }

  /** A blocking submission is never counted as rejected, and one that does not block never sleeps. */
  lemma PatienceKept(s: State, call: nat, copied: Code)
    requires Flags(s.session, s.worker) && call < |s.calls| && Ready(s, s.calls[call])
    requires s.calls[call].OwnedReserve? || s.calls[call].OwnedPush?
    ensures var c, t := s.calls[call], Advanced(s, call, copied);
            && (c.block ==> t.session.rejected == s.session.rejected)
            && (!c.block ==> !Asleep(t.calls[call]))
            && (t.session.rejected != s.session.rejected ==>
                  t.session.rejected == s.session.rejected + 1 && t.calls[call] == Returned(WOULD_BLOCK))
  {
    var c := s.calls[call];
    var o := SectionOf(s.session, c);
    var d := Resume(c, o, |s.history|, copied);
    assert Advanced(s, call, copied).calls[call] == Roused(d, o.wakes);
  }

  // ---------- Refusal and closing ----------

  lemma RefusalStep(s: State, e: Event)
    requires Inv(s) && !s.session.accepting
    ensures !Next(s, e).session.accepting && Next(s, e).history == s.history
  {
    hide Ledger, Numbered, Tokens, Statuses, Pooled, Parked, Traces, Advanced, Worked, JoinsAlone;
    if Enabled(s, e) {
      match e
      case Advance(call, copied) => RefusalAdvanced(s, call, copied);
      case Work(answer) => RefusalWorked(s, answer);
      case _ =>
    }
  }

  lemma RefusalAdvanced(s: State, call: nat, copied: Code)
    requires Flags(s.session, s.worker) && !s.session.accepting && call < |s.calls|
    ensures var t := Advanced(s, call, copied); !t.session.accepting && t.history == s.history
  {
    hide SectionOf, Resume, CompleteAll;
    AdvanceIsCallStep(s, call, copied);
    StillRefusing(s.session, s.calls[call]);
  }

  lemma RefusalWorked(s: State, answer: Answer)
    requires !s.session.accepting
    ensures !Worked(s, answer).session.accepting && Worked(s, answer).history == s.history
  {
    WorkerSectionsRefuse(s.session);
    hide Take, Commit, Crash, BackendClosed, Rouse;
  }

  lemma WorkerSectionsRefuse(i: Session)
    requires !i.accepting
    ensures !Take(i).session.accepting
    ensures forall item, code :: !Commit(i, item, code).session.accepting
    ensures forall code :: !BackendClosed(i, code).session.accepting
    ensures forall active :: !Crash(i, active).session.accepting
  {
    hide CompleteAll, CompleteItem, Complete, Commit;
    forall item, code
      ensures !Commit(i, item, code).session.accepting
    {
      CommitRefuses(i, item, code);
    }
  }

  lemma CommitRefuses(i: Session, item: Item, code: Code)
    requires !i.accepting
    ensures !Commit(i, item, code).session.accepting
  {
    hide CompleteAll, CompleteItem;
    if code != OK {
    } else if item.Flush? {
    } else {
    }
  }

  lemma StillRefusing(i: Session, c: Call)
    requires !i.accepting
    ensures !SectionOf(i, c).session.accepting
  {
    hide CompleteAll, FramesOf, CanReserve, FlushSettled;
  }

  /** Once a call would be refused, every later one is, and nothing is accepted any more. */
  lemma {:induction false} RefusedForGood(s: State, events: seq<Event>)
    requires Inv(s) && Check(s.session) != Proceed
    ensures var t := Final(s, events);
            Inv(t) && Check(t.session) != Proceed && !t.session.accepting && t.history == s.history
  {
    if events != [] {
      var earlier := events[..|events| - 1];
      RefusedForGood(s, earlier);
      InvNext(Final(s, earlier), events[|events| - 1]);
      RefusalStep(Final(s, earlier), events[|events| - 1]);
    }
  }

  /**
   * A close that is about to return has the worker gone and no submission pending; it returns OK only
   * if everything accepted was handled, in order, or the session was cancelled.
   */
  lemma CloseTells(capacity: nat, cpuAllowed: bool, events: seq<Event>, k: nat)
    requires 0 < capacity
    requires var s := Final(Initial(capacity, cpuAllowed), events); k < |s.calls| && s.calls[k].CloseLast?
    ensures var s := Final(Initial(capacity, cpuAllowed), events);
            var next := Advanced(s, k, OK).calls[k];
            && s.worker.Exited? && next.Returned?
            && (forall id :: 0 <= id < |s.session.submissions| ==> s.session.submissions[id].Some?)
            && (next.code == OK && !s.session.canceled ==>
                  Succeeded(BackendLog(Initial(capacity, cpuAllowed), events)) == s.history)
  {
    hide Final, BackendLog, Succeeded, Statuses, Pooled, Parked, Tokens;
    var s := Final(Initial(capacity, cpuAllowed), events);
    ReachedInv(capacity, cpuAllowed, events);
    ClosingCall(s, k);
    forall id | 0 <= id < |s.session.submissions|
      ensures s.session.submissions[id].Some?
    {
      StatusTells(s, id);
    }
    if !s.session.failed && !s.session.canceled {
      OrderlyClose(capacity, cpuAllowed, events);
    }
  }

  lemma ClosingCall(s: State, k: nat)
    requires Flags(s.session, s.worker) && Traces(s) && k < |s.calls| && s.calls[k].CloseLast?
    ensures s.worker.Exited?
    ensures Advanced(s, k, OK).calls[k] == Returned(CloseResult(s.session))
    ensures s.session.failed ==> CloseResult(s.session) != OK
  {
    assert Traced(s, s.calls[k]);
  }
}
