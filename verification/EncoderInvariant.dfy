/** What every step of the encoder state machine keeps, and so what holds in every reachable state. */
module EncoderInvariant {
  import opened Results
  import opened EncoderSections
  import opened EncoderMachine

  // ---------- The invariant ----------

  /** How the flags, the worker's place and the queue fit together. */
  ghost predicate Flags(i: Session, w: Worker) {
    && 0 < i.capacity
    && |i.queue| <= i.capacity
    && i.peak <= i.capacity
    && (i.canceled ==> i.closeRequested && i.queue == [])
    && (i.closeRequested || i.failed || i.closed <==> !i.accepting)
    && (i.closed <==> w.Exited?)
    && (i.failed ==> i.terminal != OK && (w.Closing? || w.Exited?))
    && (w.Closing? || w == Exited(false) ==> i.queue == [])
    && (w.Closing? ==> i.failed || i.closeRequested)
    && (w == Exited(true) ==> i.failed)
    && (!i.joinable ==> w.Exited?)
  }

  /** The entry the worker is on, or the one it failed on. */
  function Middle(s: State): seq<Item> {
    if s.worker.Busy? then [s.worker.item] else s.stuck
  }

  /** Accepted entries the backend has not handled. */
  function Rest(s: State): seq<Item> {
    Middle(s) + s.session.queue + s.lost
  }

  function Frames(items: seq<Item>): nat {
    if items == [] then 0
    else Frames(items[..|items| - 1]) + if items[|items| - 1].Flush? then 0 else 1
  }

  /** Nothing accepted is forgotten, repeated or reordered, and the counters count it. */
  ghost predicate Ledger(s: State) {
    && s.history == s.handled + Rest(s)
    && (s.stuck != [] ==> s.session.failed && |s.stuck| == 1)
    && (s.lost != [] ==> s.session.queue == [] && (s.session.canceled || s.session.failed))
    && s.session.accepted == Frames(s.history)
    && s.session.completed == Frames(s.handled)
  }

  /** Submission numbers and flush tokens are given out in order. */
  ghost predicate Numbered(s: State) {
    && Ascending(s.history)
    && (forall x :: x in s.history ==> Issued(s.session, x))
    && (forall id :: 0 <= id < |s.session.submissions| ==> Borrowed(id) in s.history)
  }

  ghost predicate Below(x: Item, y: Item) {
    && (x.Borrowed? && y.Borrowed? ==> x.submission < y.submission)
    && (x.Flush? && y.Flush? ==> x.token < y.token)
  }

  ghost predicate Ascending(items: seq<Item>) {
    forall j, k :: 0 <= j < k < |items| ==> Below(items[j], items[k])
  }

  ghost predicate Issued(i: Session, x: Item) {
    && (x.Borrowed? ==> x.submission < |i.submissions|)
    && (x.Flush? ==> 1 <= x.token <= i.nextToken)
  }

  /** The completed token separates the barriers the backend has flushed from the others. */
  ghost predicate Tokens(s: State) {
    && s.session.completedToken <= s.session.nextToken
    && (forall x :: x in s.handled && x.Flush? ==> x.token <= s.session.completedToken)
    && (forall x :: x in Rest(s) && x.Flush? ==> s.session.completedToken < x.token)
  }

  /** Entries whose submission is still open. */
  function Open(s: State): seq<Item> {
    if s.worker == Exited(true) then [] else (if s.worker.Busy? then [s.worker.item] else []) + s.session.queue
  }

  ghost predicate StatusIs(submissions: seq<Option<Code>>, x: Item, status: Option<Code>) {
    x.Borrowed? && x.submission < |submissions| ==> submissions[x.submission] == status
  }

  ghost predicate StatusFailed(submissions: seq<Option<Code>>, x: Item) {
    x.Borrowed? && x.submission < |submissions| ==>
      submissions[x.submission].Some? && submissions[x.submission].value != OK
  }

  /** A submission is open exactly while its entry is, and completed `OK` exactly when it was handled. */
  ghost predicate Statuses(s: State) {
    && (forall x :: x in s.handled ==> StatusIs(s.session.submissions, x, Some(OK)))
    && (forall x :: x in Open(s) ==> StatusIs(s.session.submissions, x, None))
    && (forall x :: x in Rest(s) && x !in Open(s) ==> StatusFailed(s.session.submissions, x))
  }

  function HeldBy(c: Call): Option<nat> {
    if c.OwnedCopy? || c.OwnedGiveBack? || c.OwnedPush? then Some(c.frame) else None
  }

  function HeldFrame(c: Call): multiset<nat> {
    Bag(HeldBy(c))
  }

  function Held(calls: seq<Call>): multiset<nat> {
    if calls == [] then multiset{} else Held(calls[..|calls| - 1]) + HeldFrame(calls[|calls| - 1])
  }

  function WorkerFrame(w: Worker): multiset<nat> {
    if w.Busy? && w.item.Owned? then multiset{w.item.frame} else multiset{}
  }

  /** Every pooled frame with its multiplicity over all the places it can be. */
  ghost function Placed(s: State): multiset<nat> {
    Available(s.session) + Held(s.calls) + WorkerFrame(s.worker)
  }

  /** Each pooled frame is in exactly one place, and after a failure in at most one. */
  ghost predicate Pooled(s: State) {
    && Placed(s) <= multiset(FirstFrames(s.session.capacity))
    && (!s.session.failed ==> Placed(s) == multiset(FirstFrames(s.session.capacity)))
  }

  /** No wakeup was lost: whoever is asleep waits for something that has not happened. */
  ghost predicate Parked(s: State) {
    && (forall k :: 0 <= k < |s.calls| ==> CallParked(s.session, s.calls[k]))
    && (s.worker == Idle(true) ==> !CanTake(s.session))
  }

  ghost predicate CallParked(i: Session, c: Call) {
    Asleep(c) ==> !WaitOver(i, c)
  }

  /** What a call's locals say about the record of the run. */
  ghost predicate Traced(s: State, c: Call) {
    match c
    case FlushWait(token, barrier, _) => barrier < |s.history| && s.history[barrier] == Flush(token)
    case FlushReturned(token, barrier, code) =>
      && barrier < |s.history| && s.history[barrier] == Flush(token)
      && (code == OK ==> barrier < |s.handled|)
    case BorrowedReturned(id) => Borrowed(id) in s.history
    case CloseTest => s.session.closeRequested
    case CloseJoin => s.session.closeRequested
    case CloseLast => s.session.closeRequested && !s.session.joinable
    case _ => true
  }

  ghost predicate Traces(s: State) {
    forall k :: 0 <= k < |s.calls| ==> Traced(s, s.calls[k])
  }

  ghost predicate Inv(s: State) {
    && Flags(s.session, s.worker)
    && Ledger(s)
    && Numbered(s)
    && Tokens(s)
    && Statuses(s)
    && Pooled(s)
    && Parked(s)
    && Traces(s)
  }

  // ---------- Flags and sleepers ----------

  lemma FlagsAdvanced(i: Session, w: Worker, c: Call)
    requires Flags(i, w) && (c.CloseJoin? ==> w.Exited?)
    ensures Flags(SectionOf(i, c).session, RouseWorker(w, SectionOf(i, c).wakes))
  {
  }

  lemma FlagsWorked(s: State, answer: Answer)
    requires Flags(s.session, s.worker) && WorkerReady(s)
    ensures Flags(Worked(s, answer).session, Worked(s, answer).worker)
  {
  }

  lemma ParkedAdvanced(s: State, call: nat, copied: Code)
    requires Flags(s.session, s.worker) && Parked(s) && call < |s.calls| && Ready(s, s.calls[call])
    ensures Parked(Advanced(s, call, copied))
  {
    var c, t := s.calls[call], Advanced(s, call, copied);
    var o := SectionOf(s.session, c);
    SelfParked(s.session, c, |s.history|, copied);
    WorkerParked(s.session, s.worker, c);
    hide SectionOf, Resume, CallParked, CanTake, JoinsAlone;
    forall k | 0 <= k < |t.calls|
      ensures CallParked(t.session, t.calls[k])
    {
      if k != call {
        assert t.calls[k] == Roused(s.calls[k], o.wakes);
        OthersParked(s.session, c, s.calls[k]);
      }
    }
  }

  /** A call that goes to sleep waits for something that does not hold. */
  lemma SelfParked(i: Session, c: Call, barrier: nat, copied: Code)
    requires !Done(c) && !Asleep(c)
    ensures var o := SectionOf(i, c);
            CallParked(o.session, Roused(Resume(c, o, barrier, copied), o.wakes))
  {
  }

  lemma WorkerParked(i: Session, w: Worker, c: Call)
    requires w == Idle(true) ==> !CanTake(i)
    ensures var o := SectionOf(i, c);
            RouseWorker(w, o.wakes) == Idle(true) ==> !CanTake(o.session)
  {
  }

  /** A section of one call notifies whatever it makes true for another. */
  lemma OthersParked(i: Session, c: Call, other: Call)
    requires CallParked(i, other)
    ensures CallParked(SectionOf(i, c).session, Roused(other, SectionOf(i, c).wakes))
  {
  }

  lemma ParkedWorked(s: State, answer: Answer)
    requires Flags(s.session, s.worker) && Parked(s) && WorkerReady(s)
    ensures Parked(Worked(s, answer))
  {
  }

  // ---------- What a section of a call does to the record ----------

  /** The section leaves the queue and the numbers alone. */
  ghost predicate Untouched(i: Session, j: Session) {
    && j.queue == i.queue && j.submissions == i.submissions
    && j.nextToken == i.nextToken && j.accepted == i.accepted
    && j.canceled == i.canceled
  }

  /** The section accepts one entry and gives it the next number. */
  ghost predicate Appended(i: Session, j: Session, x: Item) {
    && i.accepting && !j.canceled && !i.failed
    && j.queue == i.queue + [x]
    && j.accepted == i.accepted + (if x.Flush? then 0 else 1)
    && j.submissions == i.submissions + (if x.Borrowed? then [None] else [])
    && j.nextToken == i.nextToken + (if x.Flush? then 1 else 0)
    && (x.Borrowed? ==> x.submission == |i.submissions|)
    && (x.Flush? ==> x.token == j.nextToken)
  }

  /** The section cancels everything that is queued. */
  ghost predicate Emptied(i: Session, j: Session) {
    && !i.failed && !i.closed
    && j.queue == [] && j.canceled
    && j.submissions == CompleteAll(i.submissions, i.queue, CANCELLED)
    && j.nextToken == i.nextToken && j.accepted == i.accepted
  }

  ghost predicate WorkKept(i: Session, j: Session) {
    && j.completed == i.completed && j.completedToken == i.completedToken && j.failed == i.failed
    && (i.closeRequested ==> j.closeRequested) && (!i.joinable ==> !j.joinable)
  }

  ghost predicate Kinds(i: Session, j: Session) {
    && WorkKept(i, j)
    && (Untouched(i, j) || Emptied(i, j) || exists x :: Appended(i, j, x))
  }

  lemma SectionKinds(i: Session, w: Worker, c: Call)
    requires Flags(i, w)
    ensures Kinds(i, SectionOf(i, c).session)
  {
    var j := SectionOf(i, c).session;
    match c
    case OwnedPush(_, frame, _) => assert j == i || Untouched(i, j) || Appended(i, j, Owned(frame));
    case BorrowedPush(_) => assert j == i || Appended(i, j, Borrowed(|i.submissions|));
    case FlushSpace(_) => assert j == i || Appended(i, j, Flush(i.nextToken + 1));
    case _ =>
  }

  /** How a step of a call relates two states, leaving out where the calls are. */
  ghost predicate CallStep(s: State, t: State) {
    var i, j := s.session, t.session;
    && WorkKept(i, j)
    && t.handled == s.handled && t.stuck == s.stuck
    && (t.worker.Busy? || s.worker.Busy? ==> t.worker == s.worker)
    && (t.worker == Exited(true) <==> s.worker == Exited(true))
    && (|| (Untouched(i, j) && t.history == s.history && t.lost == s.lost)
        || (Emptied(i, j) && t.history == s.history && t.lost == i.queue + s.lost)
        || exists x :: AppendStep(s, t, x))
  }

  ghost predicate AppendStep(s: State, t: State, x: Item) {
    Appended(s.session, t.session, x) && t.history == s.history + [x] && t.lost == s.lost
  }

  lemma AdvanceIsCallStep(s: State, call: nat, copied: Code)
    requires Flags(s.session, s.worker) && call < |s.calls|
    ensures CallStep(s, Advanced(s, call, copied))
  {
    var c, t := s.calls[call], Advanced(s, call, copied);
    var i, j := s.session, SectionOf(s.session, c).session;
    SectionKinds(i, s.worker, c);
    AppendedRecord(i, j);
    if x :| Appended(i, j, x) {
      assert AppendStep(s, t, x);
    }
  }

  lemma AppendedRecord(i: Session, j: Session)
    ensures forall x :: Appended(i, j, x) ==> Added(i.queue, j.queue) == [x] && Dropped(i.queue, j.queue) == []
  {
  }

  // ---------- The record ----------

  lemma {:induction false} FramesAppend(items: seq<Item>, x: Item)
    ensures Frames(items + [x]) == Frames(items) + if x.Flush? then 0 else 1
  {
    assert (items + [x])[..|items|] == items;
  }

  lemma LedgerCallStep(s: State, t: State)
    requires Flags(s.session, s.worker) && Ledger(s) && CallStep(s, t)
    ensures Ledger(t)
  {
    assert Middle(t) == Middle(s);
    if x :| AppendStep(s, t, x) {
      FramesAppend(s.history, x);
      assert s.lost == [];
      RestAppend(s.handled, Middle(s), s.session.queue, x);
    } else {
      RestShift(Middle(s), s.session.queue, s.lost);
    }
  }

  lemma RestAppend(handled: seq<Item>, middle: seq<Item>, queue: seq<Item>, x: Item)
    ensures handled + (middle + queue + []) + [x] == handled + (middle + (queue + [x]) + [])
  {
  }

  lemma RestShift(middle: seq<Item>, queue: seq<Item>, lost: seq<Item>)
    ensures middle + [] + (queue + lost) == middle + queue + lost
  {
  }

  lemma LedgerTaken(s: State)
    requires Flags(s.session, s.worker) && Ledger(s) && s.worker.Idle?
    ensures Ledger(Taken(s))
  {
    assert Rest(Taken(s)) == Rest(s);
  }

  lemma LedgerCommitted(s: State, item: Item, code: Code)
    requires Flags(s.session, s.worker) && Ledger(s) && s.worker == Busy(item)
    ensures Ledger(Committed(s, item, code))
  {
    hide CompleteAll, CompleteItem, FramesOf, Rouse;
    FramesAppend(s.handled, item);
    RestHandled(s.handled, item, s.session.queue, s.lost);
    RestShift([item], s.session.queue, s.lost);
  }

  lemma RestHandled(handled: seq<Item>, item: Item, queue: seq<Item>, lost: seq<Item>)
    ensures handled + ([item] + queue + lost) == handled + [item] + ([] + queue + lost)
  {
  }

  lemma LedgerCrashed(s: State, active: Option<nat>)
    requires Flags(s.session, s.worker) && Ledger(s) && (s.worker.Busy? || s.worker.Closing?)
    ensures Ledger(Crashed(s, active, Middle(s)))
  {
    assert Rest(Crashed(s, active, Middle(s))) == Rest(s);
  }

  lemma LedgerShut(s: State, code: Code)
    requires Flags(s.session, s.worker) && Ledger(s) && s.worker.Closing?
    ensures Ledger(Shut(s, code))
  {
    assert Rest(Shut(s, code)) == Rest(s);
  }

  // ---------- Numbers ----------

  lemma {:induction false} CompleteAllLength(submissions: seq<Option<Code>>, queue: seq<Item>, code: Code)
    ensures |CompleteAll(submissions, queue, code)| == |submissions|
  {
    if queue != [] {
      CompleteAllLength(submissions, queue[..|queue| - 1], code);
    }
  }

  lemma NumberedCallStep(s: State, t: State)
    requires Numbered(s) && CallStep(s, t)
    ensures Numbered(t)
  {
    CompleteAllLength(s.session.submissions, s.session.queue, CANCELLED);
    if x :| AppendStep(s, t, x) {
      assert forall id :: Borrowed(id) in s.history ==> Borrowed(id) in t.history;
      forall j, k | 0 <= j < k < |t.history|
        ensures Below(t.history[j], t.history[k])
      {
        assert t.history[j] in s.history;
        if k < |s.history| {
          assert Below(s.history[j], s.history[k]);
        }
      }
    }
  }

  /** A step of the worker records nothing new and numbers nothing new. */
  lemma NumberedWorked(s: State, t: State)
    requires Numbered(s) && t.history == s.history
    requires |t.session.submissions| == |s.session.submissions| && t.session.nextToken == s.session.nextToken
    ensures Numbered(t)
  {
    assert forall x :: x in s.history ==> Issued(s.session, x) ==> Issued(t.session, x);
  }

  // ---------- Tokens ----------

  lemma TokensCallStep(s: State, t: State)
    requires Tokens(s) && CallStep(s, t)
    ensures Tokens(t)
  {
    forall y | y in Rest(t) && y.Flush?
      ensures t.session.completedToken < y.token
    {
      assert y in Rest(s) || (t.session.queue != [] && y == t.session.queue[|t.session.queue| - 1]);
    }
  }

  lemma TokensCommitted(s: State, item: Item, code: Code)
    requires Flags(s.session, s.worker) && Ledger(s) && Numbered(s) && Tokens(s) && s.worker == Busy(item)
    ensures Tokens(Committed(s, item, code))
  {
    if code == OK {
      TokensHandled(s, item);
    } else {
      CommitNumbers(s.session, item, code);
      RestShift([item], s.session.queue, s.lost);
      assert Rest(Committed(s, item, code)) == Rest(s);
      hide Rest;
      TokensWorked(s, Committed(s, item, code));
    }
  }

  lemma TokensHandled(s: State, item: Item)
    requires Flags(s.session, s.worker) && Ledger(s) && Numbered(s) && Tokens(s) && s.worker == Busy(item)
    ensures Tokens(Committed(s, item, OK))
  {
    var t := Committed(s, item, OK);
    HandledParts(s, item);
    hide Committed, Rest, Frames, Flags;
    assert item in s.history && item in Rest(s);
    forall y | y in s.handled
      ensures Below(y, item)
    {
      BelowAcross(s.handled, Rest(s), y, item);
    }
    forall y | y in Rest(t)
      ensures Below(item, y) && y in Rest(s)
    {
      BelowAcross(s.handled + [item], Rest(t), item, y);
    }
  }

  lemma HandledParts(s: State, item: Item)
    requires Flags(s.session, s.worker) && Ledger(s) && s.worker == Busy(item)
    ensures var t := Committed(s, item, OK);
            && t.handled == s.handled + [item] && Rest(s) == [item] + Rest(t)
            && s.history == (s.handled + [item]) + Rest(t)
            && t.session.nextToken == s.session.nextToken
            && t.session.completedToken == if item.Flush? then item.token else s.session.completedToken
  {
    RestHandled(s.handled, item, s.session.queue, s.lost);
    assert s.stuck == [];
  }

  lemma BelowAcross(a: seq<Item>, b: seq<Item>, x: Item, y: Item)
    requires Ascending(a + b) && x in a && y in b
    ensures Below(x, y)
  {
    var j :| 0 <= j < |a| && a[j] == x;
    var k :| 0 <= k < |b| && b[k] == y;
    assert Below((a + b)[j], (a + b)[|a| + k]);
  }

  /** A worker step that leaves the handled entries, the rest and the completed token alone. */
  lemma TokensWorked(s: State, t: State)
    requires Tokens(s) && t.handled == s.handled && Rest(t) == Rest(s)
    requires t.session.completedToken == s.session.completedToken
    requires t.session.nextToken == s.session.nextToken
    ensures Tokens(t)
  {
  }

  // ---------- Submissions ----------

  /** Completion never changes a status that is already there. */
  ghost predicate KeepsResults(before: seq<Option<Code>>, after: seq<Option<Code>>) {
    && |after| == |before|
    && forall id :: 0 <= id < |before| ==> before[id].Some? ==> after[id] == before[id]
  }

  lemma {:induction false} CompleteAllStatus(submissions: seq<Option<Code>>, queue: seq<Item>, code: Code)
    ensures |CompleteAll(submissions, queue, code)| == |submissions|
    ensures forall id :: 0 <= id < |submissions| ==>
              CompleteAll(submissions, queue, code)[id]
              == if submissions[id] == None && Borrowed(id) in queue then Some(code) else submissions[id]
  {
    if queue != [] {
      CompleteAllStatus(submissions, queue[..|queue| - 1], code);
      assert queue == queue[..|queue| - 1] + [queue[|queue| - 1]];
    }
  }

  lemma StatusesCallStep(s: State, t: State)
    requires Flags(s.session, s.worker) && Ledger(s) && Numbered(s) && Statuses(s) && CallStep(s, t)
    ensures Statuses(t)
  {
    if x :| AppendStep(s, t, x) {
      StatusesAppend(s, t, x);
    } else if Emptied(s.session, t.session) {
      StatusesEmptied(s, t);
    } else {
      StatusesUntouched(s, t);
    }
  }

  lemma StatusesUntouched(s: State, t: State)
    requires Statuses(s) && CallStep(s, t) && Untouched(s.session, t.session)
    requires t.history == s.history && t.lost == s.lost
    ensures Statuses(t)
  {
    assert Open(t) == Open(s);
    assert Rest(t) == Rest(s);
  }

  lemma StatusesAppend(s: State, t: State, x: Item)
    requires Flags(s.session, s.worker) && Ledger(s) && Numbered(s) && Statuses(s)
    requires CallStep(s, t) && AppendStep(s, t, x)
    ensures Statuses(t)
  {
    hide Ascending, Frames, Untouched, Emptied;
    assert Open(t) == Open(s) + [x];
    forall y | y in Rest(t)
      ensures y in Rest(s) || y == x
    {
    }
    assert forall y :: y in s.handled || y in Rest(s) ==> y in s.history;
    assert forall y :: y in Open(s) ==> y in Rest(s);
  }

  lemma StatusesEmptied(s: State, t: State)
    requires Flags(s.session, s.worker) && Ledger(s) && Numbered(s) && Statuses(s)
    requires CallStep(s, t) && Emptied(s.session, t.session)
    ensures Statuses(t)
  {
    CompleteAllStatus(s.session.submissions, s.session.queue, CANCELLED);
    if s.worker.Busy? {
      NotQueued(s);
    }
    forall y | y in Rest(t)
      ensures y in Middle(s) || y in s.session.queue || y in s.lost
    {
    }
    assert forall y :: y in Middle(s) || y in s.session.queue || y in s.lost ==> y in Rest(s);
  }

  /** The submission the worker is on is not among the entries behind it. */
  lemma NotQueued(s: State)
    requires Ledger(s) && Numbered(s) && s.worker.Busy?
    ensures s.worker.item.Borrowed? ==> s.worker.item !in s.session.queue + s.lost
  {
    var item, behind := s.worker.item, s.session.queue + s.lost;
    if item.Borrowed? && item in behind {
      assert s.history == (s.handled + [item]) + behind;
      BelowAcross(s.handled + [item], behind, item, item);
    }
  }

  lemma StatusesTaken(s: State)
    requires Flags(s.session, s.worker) && Ledger(s) && Statuses(s) && s.worker.Idle?
    ensures Statuses(Taken(s))
  {
    assert Open(Taken(s)) == Open(s);
    assert Rest(Taken(s)) == Rest(s);
  }

  lemma StatusesCommitted(s: State, item: Item, code: Code)
    requires Flags(s.session, s.worker) && Ledger(s) && Numbered(s) && Statuses(s) && s.worker == Busy(item)
    ensures Statuses(Committed(s, item, code))
  {
    if code == OK {
      StatusesHandled(s, item);
    } else {
      StatusesFailed(s, item, code);
    }
  }

  /** What changes when an entry has been handled. */
  lemma HandledStatuses(s: State, item: Item)
    requires Flags(s.session, s.worker) && Ledger(s) && s.worker == Busy(item)
    ensures var t := Committed(s, item, OK);
            && t.handled == s.handled + [item] && Open(s) == [item] + s.session.queue && Open(t) == s.session.queue
            && Rest(s) == [item] + s.session.queue + s.lost && Rest(t) == s.session.queue + s.lost
            && (item.Flush? ==> t.session.submissions == s.session.submissions)
            && (!item.Flush? ==> t.session.submissions == CompleteItem(s.session.submissions, item, OK))
  {
    hide Recycled, CompleteItem, Frames;
    RecycledParts(s.session, item);
    CommitKept(s.session, item, OK);
    assert s.stuck == [];
    assert [] + s.session.queue + s.lost == s.session.queue + s.lost;
  }

  lemma StatusesHandled(s: State, item: Item)
    requires Flags(s.session, s.worker) && Ledger(s) && Numbered(s) && Statuses(s) && s.worker == Busy(item)
    ensures Statuses(Committed(s, item, OK))
  {
    var before, t := s.session.submissions, Committed(s, item, OK);
    hide Committed, Frames, Flags, Ascending, Issued, Complete, CompleteItem;
    HandledStatuses(s, item);
    NotQueued(s);
    assert item in Open(s) && item in s.history by {
      assert item in Rest(s);
    }
    hide Open, Rest, Middle, Ledger, Numbered;
    SettledByOne(before, t.session.submissions, item);
    forall y | y in Open(t)
      ensures StatusIs(t.session.submissions, y, None)
    {
      assert y in Open(s) && StatusIs(before, y, None);
    }
    forall y | y in Rest(t) && y !in Open(t)
      ensures StatusFailed(t.session.submissions, y)
    {
      assert y in s.session.queue + s.lost;
      assert y.Borrowed? ==> y in Rest(s) && y !in Open(s) && StatusFailed(before, y);
    }
  }

  /** Completing one open submission. */
  lemma SettledByOne(before: seq<Option<Code>>, after: seq<Option<Code>>, item: Item)
    requires StatusIs(before, item, None)
    requires after == before || !item.Flush?
    requires !item.Flush? ==> after == CompleteItem(before, item, OK)
    ensures KeepsResults(before, after) && StatusIs(after, item, Some(OK))
    ensures forall y: Item :: StatusIs(before, y, None) && !(y.Borrowed? && y == item) ==> StatusIs(after, y, None)
  {
  }

  lemma StatusesFailed(s: State, item: Item, code: Code)
    requires Flags(s.session, s.worker) && Statuses(s) && s.worker == Busy(item) && code != OK
    ensures Statuses(Committed(s, item, code))
  {
    var i, t := s.session, Committed(s, item, code);
    CompleteAllStatus(CompleteItem(i.submissions, item, code), i.queue, code);
    assert KeepsResults(i.submissions, t.session.submissions);
    RestShift([item], i.queue, s.lost);
    assert Rest(t) == Rest(s);
    assert Open(s) == [item] + i.queue && Open(t) == [];
  }

  lemma StatusesCrashed(s: State, active: Option<nat>)
    requires Flags(s.session, s.worker) && Statuses(s)
    requires s.worker.Closing? || (s.worker.Busy? && active == ActiveOf(s.worker.item))
    ensures Statuses(Crashed(s, active, Middle(s)))
  {
    var i, t := s.session, Crashed(s, active, Middle(s));
    var first := if active.Some? then Complete(i.submissions, active.value, INTERNAL) else i.submissions;
    CompleteAllStatus(first, i.queue, INTERNAL);
    assert KeepsResults(i.submissions, t.session.submissions);
    assert Rest(t) == Rest(s);
    forall y | y in Open(s)
      ensures StatusFailed(t.session.submissions, y)
    {
    }
  }

  lemma StatusesShut(s: State, code: Code)
    requires Statuses(s) && s.worker.Closing?
    ensures Statuses(Shut(s, code))
  {
    assert Open(Shut(s, code)) == Open(s);
    assert Rest(Shut(s, code)) == Rest(s);
  }

  // ---------- Pooled frames ----------

  lemma {:induction false} FramesOfConcat(a: seq<Item>, b: seq<Item>)
    ensures FramesOf(a + b) == FramesOf(a) + FramesOf(b)
  {
    if b == [] {
      assert a + b == a;
    } else {
      FramesOfConcat(a, b[..|b| - 1]);
      assert (a + b)[..|a + b| - 1] == a + b[..|b| - 1];
    }
  }

  lemma {:induction false} HeldUpdate(calls: seq<Call>, k: nat, c: Call)
    requires k < |calls|
    ensures Held(calls[k := c]) + HeldFrame(calls[k]) == Held(calls) + HeldFrame(c)
  {
    hide HeldFrame;
    var n := |calls| - 1;
    var updated := calls[k := c];
    HeldSplit(calls);
    HeldSplit(updated);
    hide Held;
    if k < n {
      HeldUpdate(calls[..n], k, c);
      assert updated[..n] == calls[..n][k := c];
      Swap(Held(updated[..n]), HeldFrame(calls[k]), Held(calls[..n]), HeldFrame(c), HeldFrame(calls[n]));
    } else {
      assert updated[..n] == calls[..n];
      Exchange(Held(calls[..n]), HeldFrame(calls[k]), HeldFrame(c));
    }
  }

  lemma HeldSplit(calls: seq<Call>)
    requires calls != []
    ensures Held(calls) == Held(calls[..|calls| - 1]) + HeldFrame(calls[|calls| - 1])
  {
  }

  lemma Exchange(a: multiset<nat>, b: multiset<nat>, c: multiset<nat>)
    ensures (a + c) + b == (a + b) + c
  {
    forall f
      ensures ((a + c) + b)[f] == ((a + b) + c)[f]
    {
    }
  }

  lemma Swap(a: multiset<nat>, b: multiset<nat>, c: multiset<nat>, d: multiset<nat>, e: multiset<nat>)
    requires a + b == c + d
    ensures (a + e) + b == (c + e) + d
  {
    forall f
      ensures ((a + e) + b)[f] == ((c + e) + d)[f]
    {
      assert (a + b)[f] == (c + d)[f];
    }
  }

  lemma {:induction false} HeldRoused(calls: seq<Call>, wakes: set<Condition>)
    ensures Held(Rouse(calls, wakes)) == Held(calls)
  {
    if calls != [] {
      var n := |calls| - 1;
      HeldRoused(calls[..n], wakes);
      SameFrame(calls[n], wakes);
      assert Rouse(calls, wakes)[..n] == Rouse(calls[..n], wakes);
    }
  }

  lemma SameFrame(c: Call, wakes: set<Condition>)
    ensures HeldFrame(Roused(c, wakes)) == HeldFrame(c)
  {
  }

  ghost predicate FrameMove(i: Session, j: Session, before: Option<nat>, after: Option<nat>) {
    || (j.free == i.free && j.queue == i.queue && after == before)
    || (before == None && i.free != [] && after == Some(i.free[0]) && j.free == i.free[1..] && j.queue == i.queue)
    || (before.Some? && after == None && j.free == i.free + [before.value] && j.queue == i.queue)
    || (before.Some? && after == None && j.free == i.free && j.queue == i.queue + [Owned(before.value)])
    || (before == None && after == None && j.free == i.free && QueuedUnpooled(i.queue, j.queue))
    || (before == None && after == None && j.free == i.free + FramesOf(i.queue) && j.queue == [])
  }

  ghost predicate QueuedUnpooled(before: seq<Item>, after: seq<Item>) {
    |after| == |before| + 1 && !after[|before|].Owned? && after == before + [after[|before|]]
  }

  lemma SectionFrames(i: Session, c: Call, barrier: nat, copied: Code)
    requires !Done(c)
    ensures FrameMove(i, SectionOf(i, c).session, HeldBy(c), HeldBy(Resume(c, SectionOf(i, c), barrier, copied)))
  {
    match c
    case OwnedReserve(_, _) => ReserveFrames(i, c, barrier, copied);
    case OwnedPush(_, _, _) => PushFrames(i, c, barrier, copied);
    case BorrowedPush(_) => UnpooledFrames(i, c, barrier, copied);
    case FlushSpace(_) => UnpooledFrames(i, c, barrier, copied);
    case _ => OtherFrames(i, c, barrier, copied);
  }

  lemma ReserveKinds(i: Session, block: bool)
    ensures var o := Reserve(i, block);
            && o.session.queue == i.queue
            && (if o.verdict.Reserved? then
                  i.free != [] && o.verdict.frame == i.free[0] && o.session.free == i.free[1..]
                else o.session.free == i.free && (o.verdict.Sleep? || o.verdict.Return?))
  {
  }

  lemma ReserveFrames(i: Session, c: Call, barrier: nat, copied: Code)
    requires c.OwnedReserve?
    ensures FrameMove(i, SectionOf(i, c).session, HeldBy(c), HeldBy(Resume(c, SectionOf(i, c), barrier, copied)))
  {
    ReserveKinds(i, c.block);
    hide Reserve;
  }

  lemma PushFrames(i: Session, c: Call, barrier: nat, copied: Code)
    requires c.OwnedPush?
    ensures FrameMove(i, SectionOf(i, c).session, HeldBy(c), HeldBy(Resume(c, SectionOf(i, c), barrier, copied)))
  {
  }

  lemma UnpooledFrames(i: Session, c: Call, barrier: nat, copied: Code)
    requires c.BorrowedPush? || c.FlushSpace?
    ensures FrameMove(i, SectionOf(i, c).session, HeldBy(c), HeldBy(Resume(c, SectionOf(i, c), barrier, copied)))
  {
    var o := SectionOf(i, c);
    assert o.session == i || QueuedUnpooled(i.queue, o.session.queue);
  }

  lemma OtherFrames(i: Session, c: Call, barrier: nat, copied: Code)
    requires !Done(c) && !c.OwnedReserve? && !c.OwnedPush? && !c.BorrowedPush? && !c.FlushSpace?
    ensures FrameMove(i, SectionOf(i, c).session, HeldBy(c), HeldBy(Resume(c, SectionOf(i, c), barrier, copied)))
  {
  }

  /** The frame of a call, if it holds one. */
  function Bag(frame: Option<nat>): multiset<nat> {
    if frame.Some? then multiset{frame.value} else multiset{}
  }

  lemma NoFrames()
    ensures FramesOf([]) == []
  {
  }

  lemma MoveBalance(i: Session, j: Session, before: Option<nat>, after: Option<nat>)
    requires FrameMove(i, j, before, after)
    ensures Available(j) + Bag(after) == Available(i) + Bag(before)
  {
    hide FramesOf;
    NoFrames();
    if j.queue == i.queue {
      FreeBalance(i.free, j.free, before, after, multiset(FramesOf(i.queue)));
    } else if j.queue == [] {
      assert multiset(i.free + FramesOf(i.queue)) == multiset(i.free) + multiset(FramesOf(i.queue));
    } else {
      var x := j.queue[|i.queue|];
      FramesOfAppend(i.queue, x);
      assert multiset(FramesOf(j.queue)) == multiset(FramesOf(i.queue)) + Bag(if x.Owned? then Some(x.frame) else None);
    }
  }

  lemma FreeBalance(free: seq<nat>, left: seq<nat>, before: Option<nat>, after: Option<nat>, queued: multiset<nat>)
    requires || (left == free && after == before)
             || (before == None && free != [] && after == Some(free[0]) && left == free[1..])
             || (before.Some? && after == None && left == free + [before.value])
             || (before == None && after == None && left == free + [])
    ensures (multiset(left) + queued) + Bag(after) == (multiset(free) + queued) + Bag(before)
  {
    if left == free && after == before {
    } else if before == None && after.Some? {
      assert free == [free[0]] + free[1..];
      assert multiset(free) == multiset{free[0]} + multiset(free[1..]);
    } else if before.Some? {
      assert multiset(left) == multiset(free) + multiset{before.value};
    }
  }

  /** The pooled frames that are free or queued. */
  ghost function Available(i: Session): multiset<nat> {
    multiset(i.free) + multiset(FramesOf(i.queue))
  }

  lemma PooledAdvanced(s: State, call: nat, copied: Code)
    requires Flags(s.session, s.worker) && Pooled(s) && call < |s.calls| && Ready(s, s.calls[call])
    ensures Pooled(Advanced(s, call, copied))
  {
    hide Flags, SectionOf, Resume, Held, HeldBy, Available, FrameMove, Rouse, Pooled, JoinsAlone;
    var c, t := s.calls[call], Advanced(s, call, copied);
    var o := SectionOf(s.session, c);
    var d := Resume(c, o, |s.history|, copied);
    SameCapacity(s.session, s.worker, c);
    SectionFrames(s.session, c, |s.history|, copied);
    MoveBalance(s.session, t.session, HeldBy(c), HeldBy(d));
    HeldUpdate(s.calls, call, d);
    HeldRoused(s.calls[call := d], o.wakes);
    assert WorkerFrame(t.worker) == WorkerFrame(s.worker);
    Rebalance(Available(s.session), Available(t.session),
              HeldFrame(c), HeldFrame(d), Held(s.calls), Held(t.calls), WorkerFrame(s.worker));
    PooledKept(s, t);
  }

  lemma PooledKept(s: State, t: State)
    requires Pooled(s) && Placed(t) == Placed(s)
    requires t.session.capacity == s.session.capacity && t.session.failed == s.session.failed
    ensures Pooled(t)
  {
    hide Placed;
  }

  lemma Rebalance(a: multiset<nat>, b: multiset<nat>, f: multiset<nat>, g: multiset<nat>,
                  h: multiset<nat>, k: multiset<nat>, w: multiset<nat>)
    requires b + g == a + f && k + f == h + g
    ensures b + k + w == a + h + w
  {
    forall x
      ensures (b + k)[x] == (a + h)[x]
    {
      assert (b + g)[x] == (a + f)[x] && (k + f)[x] == (h + g)[x];
    }
  }

  lemma SameCapacity(i: Session, w: Worker, c: Call)
    requires Flags(i, w)
    ensures SectionOf(i, c).session.capacity == i.capacity
    ensures SectionOf(i, c).session.failed == i.failed
  {
    hide CompleteAll, FramesOf, FlushSettled, CanPush, CanReserve;
  }

  lemma PooledTaken(s: State)
    requires Pooled(s) && s.worker.Idle?
    ensures Pooled(Taken(s))
  {
    var q, t := s.session.queue, Taken(s);
    TakenParts(s);
    HeldRoused(s.calls, Take(s.session).wakes);
    hide Taken, Take, FramesOf, Held, Rouse, WorkerFrame;
    if q != [] {
      FramesOfFront(q);
      TakeBalance(multiset(s.session.free), multiset(FramesOf(q[1..])), multiset(FramesOf(q)),
                  WorkerFrame(t.worker), Held(s.calls));
    }
    assert Placed(t) == Placed(s);
  }

  lemma TakenParts(s: State)
    requires s.worker.Idle?
    ensures var q, t := s.session.queue, Taken(s);
            && t.session.free == s.session.free && t.session.queue == (if q == [] then q else q[1..])
            && t.session.capacity == s.session.capacity && t.session.failed == s.session.failed
            && t.calls == Rouse(s.calls, Take(s.session).wakes)
            && (if q == [] then WorkerFrame(t.worker) == multiset{} else t.worker == Busy(q[0]))
            && WorkerFrame(s.worker) == multiset{}
  {
  }

  lemma TakeBalance(free: multiset<nat>, left: multiset<nat>, queued: multiset<nat>, taken: multiset<nat>,
                    held: multiset<nat>)
    requires queued == taken + left
    ensures free + left + held + taken == free + queued + held + multiset{}
  {
    forall f
      ensures (free + left + held + taken)[f] == (free + queued + held)[f]
    {
      assert queued[f] == taken[f] + left[f];
    }
  }

  lemma FramesOfFront(queue: seq<Item>)
    requires queue != []
    ensures multiset(FramesOf(queue)) == WorkerFrame(Busy(queue[0])) + multiset(FramesOf(queue[1..]))
  {
    assert queue == [] + [queue[0]] + queue[1..];
    FramesOfAppend([], queue[0]);
    FramesOfConcat([queue[0]], queue[1..]);
  }

  /** The frames of a session after an entry was committed. */
  lemma CommittedFrames(i: Session, item: Item, code: Code)
    ensures var j := Commit(i, item, code).session;
            && j.capacity == i.capacity && multiset(j.free) == multiset(i.free) + WorkerFrame(Busy(item))
            && (code == OK ==> j.queue == i.queue && j.failed == i.failed)
            && (code != OK ==> j.queue == [] && j.failed)
  {
    RecycledParts(i, item);
    hide Recycled, CompleteAll, CompleteItem, WorkerFrame;
    if code != OK {
    } else if item.Flush? {
    } else {
    }
  }

  /** Taking a frame back changes the pool and nothing else. */
  lemma RecycledParts(i: Session, item: Item)
    ensures var j := Recycled(i, item);
            j == i.(free := j.free) && multiset(j.free) == multiset(i.free) + WorkerFrame(Busy(item))
  {
  }

  lemma PooledCommitted(s: State, item: Item, code: Code)
    requires Pooled(s) && s.worker == Busy(item)
    ensures Pooled(Committed(s, item, code))
  {
    hide FramesOf, Held, Commit, Rouse;
    HeldRoused(s.calls, Commit(s.session, item, code).wakes);
    CommittedFrames(s.session, item, code);
    NoFrames();
    var t := Committed(s, item, code);
    assert WorkerFrame(t.worker) == multiset{};
    if code == OK {
      assert Placed(t) == Placed(s);
    } else {
      assert Available(t.session) == multiset(t.session.free) + multiset{};
      assert Placed(t) <= Placed(s);
    }
  }

  lemma PooledCrashed(s: State, active: Option<nat>, stuck: seq<Item>)
    requires Pooled(s)
    ensures Pooled(Crashed(s, active, stuck))
  {
    HeldRoused(s.calls, Crash(s.session, active).wakes);
  }

  lemma PooledShut(s: State, code: Code)
    requires Pooled(s) && s.worker.Closing?
    ensures Pooled(Shut(s, code))
  {
    HeldRoused(s.calls, BackendClosed(s.session, code).wakes);
  }

  // ---------- What calls remember ----------

  lemma TracesAdvanced(s: State, call: nat, copied: Code)
    requires Inv(s) && call < |s.calls| && Ready(s, s.calls[call])
    ensures Traces(Advanced(s, call, copied))
  {
    hide SectionOf, Resume, Traced, Numbered, Statuses, Pooled, Parked, JoinsAlone;
    var c, t := s.calls[call], Advanced(s, call, copied);
    var o := SectionOf(s.session, c);
    AdvanceIsCallStep(s, call, copied);
    TracedResume(s, t, c, copied);
    forall k | 0 <= k < |t.calls|
      ensures Traced(t, t.calls[k])
    {
      if k == call {
        TracedRoused(t, Resume(c, o, |s.history|, copied), o.wakes);
      } else {
        TracedStays(s, t, s.calls[k]);
        TracedRoused(t, s.calls[k], o.wakes);
      }
    }
  }

  lemma TracedRoused(s: State, c: Call, wakes: set<Condition>)
    requires Traced(s, c)
    ensures Traced(s, Roused(c, wakes))
  {
  }

  lemma TracedStays(s: State, t: State, c: Call)
    requires Traced(s, c) && CallStep(s, t)
    ensures Traced(t, c)
  {
  }

  lemma TracedResume(s: State, t: State, c: Call, copied: Code)
    requires Flags(s.session, s.worker) && Ledger(s) && Tokens(s)
    requires Traced(s, c) && CallStep(s, t) && t.session == SectionOf(s.session, c).session
    ensures Traced(t, Resume(c, SectionOf(s.session, c), |s.history|, copied))
  {
    match c
    case FlushWait(token, barrier, _) => TracedFlushEnd(s, t, c, copied);
    case FlushSpace(_) => TracedFlushBegin(s, t, c, copied);
    case BorrowedPush(_) => TracedBorrowed(s, t, c, copied);
    case _ => TracedOther(s, t, c, copied);
  }

  lemma TracedFlushEnd(s: State, t: State, c: Call, copied: Code)
    requires Flags(s.session, s.worker) && Ledger(s) && Tokens(s)
    requires Traced(s, c) && CallStep(s, t) && c.FlushWait?
    ensures Traced(t, Resume(c, FlushEnd(s.session, c.token), |s.history|, copied))
  {
    hide FlushEnd, Ledger, Tokens;
    if c.token <= s.session.completedToken {
      FlushOk(s, c.token, c.barrier);
    }
    TracedStays(s, t, c);
    FlushEndKinds(s.session, c.token);
    hide CallStep;
    assert t.handled == s.handled by {
      HandledKept(s, t);
    }
  }

  lemma HandledKept(s: State, t: State)
    requires CallStep(s, t)
    ensures t.handled == s.handled
  {
  }

  lemma FlushEndKinds(i: Session, token: nat)
    ensures var o := FlushEnd(i, token);
            && (o.verdict == Sleep(StateChanged) || o.verdict.Return?)
            && (o.verdict == Return(OK) && (i.failed ==> i.terminal != OK) ==> token <= i.completedToken)
  {
  }

  lemma TracedFlushBegin(s: State, t: State, c: Call, copied: Code)
    requires CallStep(s, t) && c.FlushSpace? && t.session == FlushBegin(s.session).session
    ensures Traced(t, Resume(c, FlushBegin(s.session), |s.history|, copied))
  {
    AppendedLast(s, t);
  }

  lemma TracedBorrowed(s: State, t: State, c: Call, copied: Code)
    requires CallStep(s, t) && c.BorrowedPush? && t.session == PushBorrowed(s.session).session
    ensures Traced(t, Resume(c, PushBorrowed(s.session), |s.history|, copied))
  {
    AppendedLast(s, t);
  }

  lemma TracedOther(s: State, t: State, c: Call, copied: Code)
    requires !c.FlushWait? && !c.FlushSpace? && !c.BorrowedPush? && Traced(s, c) && CallStep(s, t)
    requires t.session == SectionOf(s.session, c).session
    ensures Traced(t, Resume(c, SectionOf(s.session, c), |s.history|, copied))
  {
  }

  lemma AppendedLast(s: State, t: State)
    requires CallStep(s, t)
    ensures |s.session.queue| < |t.session.queue| ==>
              |t.history| == |s.history| + 1
              && t.history[|s.history|] == t.session.queue[|s.session.queue|]
  {
  }

  /** A barrier that is settled without failure or cancellation has been handled. */
  lemma FlushOk(s: State, token: nat, barrier: nat)
    requires Ledger(s) && Tokens(s)
    requires barrier < |s.history| && s.history[barrier] == Flush(token)
    requires token <= s.session.completedToken
    ensures barrier < |s.handled|
  {
  }

  lemma TracesWorked(s: State, t: State, wakes: set<Condition>)
    requires Traces(s) && t.history == s.history && s.handled <= t.handled
    requires t.calls == Rouse(s.calls, wakes)
    requires t.session.closeRequested == s.session.closeRequested && t.session.joinable == s.session.joinable
    ensures Traces(t)
  {
    forall k | 0 <= k < |t.calls|
      ensures Traced(t, t.calls[k])
    {
      assert Traced(s, s.calls[k]);
    }
  }

  // ---------- Every step, every run ----------

  lemma InvAdvanced(s: State, call: nat, copied: Code)
    requires Inv(s) && call < |s.calls| && Ready(s, s.calls[call])
    ensures Inv(Advanced(s, call, copied))
  {
    var t := Advanced(s, call, copied);
    FlagsAdvanced(s.session, s.worker, s.calls[call]);
    AdvanceIsCallStep(s, call, copied);
    LedgerCallStep(s, t);
    NumberedCallStep(s, t);
    TokensCallStep(s, t);
    StatusesCallStep(s, t);
    PooledAdvanced(s, call, copied);
    ParkedAdvanced(s, call, copied);
    TracesAdvanced(s, call, copied);
  }

  lemma InvTaken(s: State)
    requires Inv(s) && s.worker == Idle(false)
    ensures Inv(Taken(s))
  {
    hide Flags, Ledger, Numbered, Tokens, Statuses, Pooled, Parked, Traces;
    var t := Taken(s);
    FlagsWorked(s, Threw);
    LedgerTaken(s);
    NumberedWorked(s, t);
    assert Rest(t) == Rest(s);
    TokensWorked(s, t);
    StatusesTaken(s);
    PooledTaken(s);
    ParkedWorked(s, Threw);
    TracesWorked(s, t, Take(s.session).wakes);
  }

  lemma InvCommitted(s: State, item: Item, code: Code)
    requires Inv(s) && s.worker == Busy(item)
    ensures Inv(Committed(s, item, code))
  {
    var t := Committed(s, item, code);
    FlagsWorked(s, Answered(code));
    LedgerCommitted(s, item, code);
    NumberedCommitted(s, item, code);
    TokensCommitted(s, item, code);
    StatusesCommitted(s, item, code);
    PooledCommitted(s, item, code);
    ParkedWorked(s, Answered(code));
    TracesWorked(s, t, Commit(s.session, item, code).wakes);
  }

  lemma CommitNumbers(i: Session, item: Item, code: Code)
    ensures var j := Commit(i, item, code).session;
            |j.submissions| == |i.submissions| && j.nextToken == i.nextToken
  {
    hide CompleteAll, CompleteItem, FramesOf;
    CompletedLength(i.submissions, item, code);
    CompleteAllLength(CompleteItem(i.submissions, item, code), i.queue, code);
    CommitKept(i, item, code);
  }

  lemma CompletedLength(submissions: seq<Option<Code>>, item: Item, code: Code)
    ensures |CompleteItem(submissions, item, code)| == |submissions|
  {
  }

  lemma CommitKept(i: Session, item: Item, code: Code)
    ensures var j := Commit(i, item, code).session;
            && j.nextToken == i.nextToken
            && (code != OK ==> j.submissions == CompleteAll(CompleteItem(i.submissions, item, code), i.queue, code))
            && (code == OK && item.Flush? ==> j.submissions == i.submissions)
            && (code == OK && !item.Flush? ==> j.submissions == CompleteItem(i.submissions, item, code))
  {
    hide Recycled, Failing, Booked, CompleteAll, CompleteItem;
    RecycledParts(i, item);
    if code != OK {
      FailingParts(Recycled(i, item), item, code);
    } else {
      BookedParts(Recycled(i, item), item);
    }
  }

  lemma FailingParts(i: Session, item: Item, code: Code)
    ensures var j := Failing(i, item, code);
            && j.nextToken == i.nextToken
            && j.submissions == CompleteAll(CompleteItem(i.submissions, item, code), i.queue, code)
  {
    hide CompleteAll, CompleteItem;
  }

  lemma BookedParts(i: Session, item: Item)
    ensures var j := Booked(i, item);
            && j.nextToken == i.nextToken
            && (item.Flush? ==> j.submissions == i.submissions)
            && (!item.Flush? ==> j.submissions == CompleteItem(i.submissions, item, OK))
  {
    hide CompleteAll, CompleteItem;
    if item.Flush? {
      assert Booked(i, item).submissions == i.submissions;
    } else {
      assert Booked(i, item).submissions == CompleteItem(i.submissions, item, OK);
    }
  }

  lemma NumberedCommitted(s: State, item: Item, code: Code)
    requires Numbered(s)
    ensures Numbered(Committed(s, item, code))
  {
    hide Numbered, Commit;
    CommitNumbers(s.session, item, code);
    NumberedWorked(s, Committed(s, item, code));
  }

  lemma InvCrashed(s: State, active: Option<nat>)
    requires Inv(s)
    requires s.worker == Closing(active) || (s.worker.Busy? && active == ActiveOf(s.worker.item))
    ensures Inv(Crashed(s, active, Middle(s)))
  {
    hide Flags, CompleteAll, Ledger, Numbered, Tokens, Statuses, Pooled, Parked, Traces;
    var i, t := s.session, Crashed(s, active, Middle(s));
    FlagsWorked(s, Threw);
    LedgerCrashed(s, active);
    CompleteAllLength(if active.Some? then Complete(i.submissions, active.value, INTERNAL) else i.submissions,
                      i.queue, INTERNAL);
    NumberedWorked(s, t);
    assert Rest(t) == Rest(s);
    TokensWorked(s, t);
    StatusesCrashed(s, active);
    PooledCrashed(s, active, Middle(s));
    ParkedWorked(s, Threw);
    TracesWorked(s, t, Crash(i, active).wakes);
  }

  lemma InvShut(s: State, code: Code)
    requires Inv(s) && s.worker.Closing?
    ensures Inv(Shut(s, code))
  {
    var t := Shut(s, code);
    FlagsWorked(s, Answered(code));
    LedgerShut(s, code);
    NumberedWorked(s, t);
    assert Rest(t) == Rest(s);
    TokensWorked(s, t);
    StatusesShut(s, code);
    PooledShut(s, code);
    ParkedWorked(s, Answered(code));
    TracesWorked(s, t, BackendClosed(s.session, code).wakes);
  }

  lemma InvWorked(s: State, answer: Answer)
    requires Inv(s) && WorkerReady(s)
    ensures Inv(Worked(s, answer))
  {
    match (s.worker, answer)
    case (Idle(_), _) => InvTaken(s);
    case (Busy(item), Answered(code)) => InvCommitted(s, item, code);
    case (Busy(item), Threw) => InvCrashed(s, ActiveOf(item));
    case (Closing(_), Answered(code)) => InvShut(s, code);
    case (Closing(active), Threw) => InvCrashed(s, active);
  }

  /** Changing only where calls sleep, or adding a call that has done nothing, keeps the invariant. */
  lemma InvCalls(s: State, t: State)
    requires Inv(s) && t == s.(calls := t.calls)
    requires Held(t.calls) == Held(s.calls)
    requires forall k :: 0 <= k < |t.calls| ==> CallParked(t.session, t.calls[k]) && Traced(t, t.calls[k])
    ensures Inv(t)
  {
    hide Ascending, CallParked, Traced, Held, StatusIs, StatusFailed, Issued, Frames, FramesOf, CanTake, Flags;
    assert Rest(t) == Rest(s) && Open(t) == Open(s) && Placed(t) == Placed(s);
  }

  lemma InvStarted(s: State, entry: Call)
    requires Inv(s) && IsEntry(entry)
    ensures Inv(s.(calls := s.calls + [entry]))
  {
    hide Flags, Ledger, Numbered, Tokens, Statuses, Pooled, CallParked, Traced, Held;
    var t := s.(calls := s.calls + [entry]);
    HeldAppend(s.calls, entry);
    EntryFresh(s, entry);
    forall k | 0 <= k < |t.calls|
      ensures CallParked(t.session, t.calls[k]) && Traced(t, t.calls[k])
    {
      assert k < |s.calls| ==> CallParked(s.session, s.calls[k]) && Traced(s, s.calls[k]);
      TracedSame(s, t, t.calls[k]);
    }
    InvCalls(s, t);
  }

  lemma TracedSame(s: State, t: State, c: Call)
    requires t == s.(calls := t.calls)
    ensures Traced(t, c) == Traced(s, c)
  {
  }

  lemma HeldAppend(calls: seq<Call>, c: Call)
    ensures Held(calls + [c]) == Held(calls) + HeldFrame(c)
  {
    assert (calls + [c])[..|calls|] == calls;
  }

  lemma EntryFresh(s: State, entry: Call)
    requires IsEntry(entry)
    ensures HeldFrame(entry) == multiset{} && CallParked(s.session, entry) && Traced(s, entry)
  {
  }

  lemma InvNudged(s: State, sleeper: nat)
    requires Inv(s) && sleeper < |s.calls| && Asleep(s.calls[sleeper])
    ensures Inv(s.(calls := s.calls[sleeper := s.calls[sleeper].(asleep := false)]))
  {
    var c := s.calls[sleeper];
    var awake := c.(asleep := false);
    var t := s.(calls := s.calls[sleeper := awake]);
    HeldUpdate(s.calls, sleeper, awake);
    SameHeld(s, c, awake);
    assert Traced(s, c);
    Cancelling(Held(t.calls), Held(s.calls), HeldFrame(c));
    NudgedCalls(s, t, sleeper, awake);
    InvCalls(s, t);
  }

  lemma NudgedCalls(s: State, t: State, sleeper: nat, awake: Call)
    requires Parked(s) && Traces(s) && sleeper < |s.calls|
    requires t == s.(calls := s.calls[sleeper := awake]) && CallParked(s.session, awake) && Traced(s, awake)
    ensures forall k :: 0 <= k < |t.calls| ==> CallParked(t.session, t.calls[k]) && Traced(t, t.calls[k])
  {
    forall k | 0 <= k < |t.calls|
      ensures CallParked(t.session, t.calls[k]) && Traced(t, t.calls[k])
    {
      assert CallParked(s.session, s.calls[k]) && Traced(s, s.calls[k]);
    }
  }

  lemma SameHeld(s: State, c: Call, awake: Call)
    requires Asleep(c) && awake == c.(asleep := false)
    ensures HeldFrame(awake) == HeldFrame(c) && CallParked(s.session, awake)
    ensures Traced(s, c) ==> Traced(s, awake)
  {
  }

  lemma Cancelling(a: multiset<nat>, b: multiset<nat>, c: multiset<nat>)
    requires a + c == b + c
    ensures a == b
  {
    forall f
      ensures a[f] == b[f]
    {
      assert (a + c)[f] == (b + c)[f];
    }
  }

  lemma InvNudgedWorker(s: State)
    requires Inv(s) && s.worker == Idle(true)
    ensures Inv(s.(worker := Idle(false)))
  {
    var t := s.(worker := Idle(false));
    assert Rest(t) == Rest(s) && Open(t) == Open(s);
  }

  lemma InvNext(s: State, e: Event)
    requires Inv(s)
    ensures Inv(Next(s, e))
  {
    hide Inv;
    if Enabled(s, e) {
      match e
      case Start(entry) => InvStarted(s, entry);
      case Advance(call, copied) => InvAdvanced(s, call, copied);
      case Work(answer) => InvWorked(s, answer);
      case Nudge(sleeper) => InvNudged(s, sleeper);
      case NudgeWorker => InvNudgedWorker(s);
    }
  }

  lemma InvInitial(capacity: nat, cpuAllowed: bool)
    requires 0 < capacity
    ensures Inv(Initial(capacity, cpuAllowed))
  {
    var s := Initial(capacity, cpuAllowed);
    assert Rest(s) == [] && Open(s) == [];
    assert Placed(s) == multiset(FirstFrames(capacity));
  }

  /** The invariant holds after every run of every asynchronous session. */
  lemma {:induction false} InvFinal(s: State, events: seq<Event>)
    requires Inv(s)
    ensures Inv(Final(s, events))
  {
    if events != [] {
      InvFinal(s, events[..|events| - 1]);
      InvNext(Final(s, events[..|events| - 1]), events[|events| - 1]);
    }
  }
}
