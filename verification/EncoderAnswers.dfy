/** What callers of the encoder session are told, in every state it can be in. */
module EncoderAnswers {
  import opened Results
  import opened EncoderSections
  import opened EncoderMachine
  import opened EncoderInvariant

  /** A number of turns of one call, with nothing in between. */
  function Alone(s: State, k: nat, copied: Code, turns: nat): State {
    if turns == 0 then s else Next(Alone(s, k, copied, turns - 1), Advance(k, copied))
  }

  /** A session that takes more work. */
  predicate Takes(i: Session) {
    !i.failed && i.accepting
  }

  /** What a session that takes no more work answers. */
  function Refusal(i: Session): Code {
    if i.failed then i.terminal else if i.canceled then CANCELLED else INVALID_STATE
  }

  predicate Room(i: Session) {
    |i.queue| < i.capacity
  }

  /** Nothing but where calls and the worker are has changed. */
  predicate Unchanged(s: State, t: State) {
    t.session == s.session && t.history == s.history && t.lost == s.lost && |t.calls| == |s.calls|
  }

  /** A new session takes work at once: it has all its places and as many frames, each once. */
  lemma FreshTakes(capacity: nat, cpuAllowed: bool)
    requires 0 < capacity
    ensures var i := Initial(capacity, cpuAllowed).session;
            && Takes(i) && Room(i) && i.capacity == capacity && i.cpuAllowed == cpuAllowed && |i.free| == capacity
            && (forall j, k :: 0 <= j < k < |i.free| ==> i.free[j] != i.free[k])
            && i.accepted == i.completed == i.rejected == i.peak == 0
  {
  }

  // ---------- Owned submissions ----------

  lemma CheckTells(s: State, k: nat, copied: Code)
    requires k < |s.calls| && s.calls[k].OwnedCheck?
    ensures var t := Next(s, Advance(k, copied));
            && Unchanged(s, t)
            && (!Takes(s.session) ==> t.calls[k] == Returned(Refusal(s.session)))
            && (Takes(s.session) && !s.calls[k].sized ==> t.calls[k] == Returned(INVALID_ARGUMENT))
            && (Takes(s.session) && s.calls[k].sized ==> t.calls[k] == OwnedReserve(s.calls[k].block, false))
  {
  }

  lemma ReserveTells(s: State, k: nat, copied: Code)
    requires k < |s.calls| && s.calls[k].OwnedReserve? && !s.calls[k].asleep && Takes(s.session)
    ensures var i, t, block := s.session, Next(s, Advance(k, copied)), s.calls[k].block;
            var fits := Room(i) && i.free != [];
            && |t.calls| == |s.calls| && t.history == s.history && t.lost == s.lost
            && (fits ==> t.session == i.(free := i.free[1..]) && t.calls[k] == OwnedCopy(block, i.free[0]))
            && (!fits && block ==> t.session == i && t.calls[k] == OwnedReserve(true, true))
            && (!fits && !block ==>
                  t.session == i.(rejected := i.rejected + 1) && t.calls[k] == Returned(WOULD_BLOCK))
  {
  }

  lemma CopyTells(s: State, k: nat, copied: Code)
    requires k < |s.calls| && s.calls[k].OwnedCopy?
    ensures var t, block, frame := Next(s, Advance(k, copied)), s.calls[k].block, s.calls[k].frame;
            && Unchanged(s, t)
            && t.calls[k] == (if copied == OK then OwnedPush(block, frame, false) else OwnedGiveBack(frame, copied))
  {
  }

  lemma GiveBackTells(s: State, k: nat, copied: Code)
    requires k < |s.calls| && s.calls[k].OwnedGiveBack?
    ensures var i, t := s.session, Next(s, Advance(k, copied));
            && |t.calls| == |s.calls| && t.history == s.history && t.lost == s.lost
            && t.session == i.(free := i.free + [s.calls[k].frame]) && t.calls[k] == Returned(s.calls[k].code)
  {
  }

  lemma PushTells(s: State, k: nat, copied: Code)
    requires k < |s.calls| && s.calls[k].OwnedPush? && !s.calls[k].asleep
    ensures var i, t, block, frame := s.session, Next(s, Advance(k, copied)), s.calls[k].block, s.calls[k].frame;
            && |t.calls| == |s.calls|
            && (!Takes(i) ==> t.session == i.(free := i.free + [frame]) && t.calls[k] == Returned(Refusal(i)))
            && (Takes(i) && !Room(i) && block ==> t.session == i && t.calls[k] == OwnedPush(true, frame, true))
            && (Takes(i) && !Room(i) && !block ==>
                  && t.session == i.(free := i.free + [frame], rejected := i.rejected + 1)
                  && t.calls[k] == Returned(WOULD_BLOCK))
            && (Takes(i) && Room(i) ==> AcceptedAs(s, t, Owned(frame)) && t.calls[k] == Returned(OK))
            && (!Takes(i) || !Room(i) ==> t.history == s.history && t.lost == s.lost)
  {
    var i := s.session;
    hide CompleteAll, FramesOf;
    if Takes(i) && Room(i) {
      assert Added(i.queue, i.queue + [Owned(s.calls[k].frame)]) == [Owned(s.calls[k].frame)];
    }
  }

  /** One frame was accepted: it is the last of the queue and of the record, and it is counted. */
  predicate AcceptedAs(s: State, t: State, x: Item) {
    var i, j := s.session, t.session;
    && j.queue == i.queue + [x] && t.history == s.history + [x] && t.lost == s.lost
    && j.accepted == i.accepted + 1 && j.rejected == i.rejected && j.completed == i.completed
    && j.peak == (if i.peak < |j.queue| then |j.queue| else i.peak)
    && j.free == i.free && j.nextToken == i.nextToken && Takes(j)
  }

  /**
   * An owned submission run alone in any state: the answer for every state of the session, and what
   * becomes of the frame. It is accepted exactly if the session takes work, the dimensions match, there
   * are a place and a frame, and the copy succeeds.
   */
  lemma OwnedAlone(s: State, k: nat, copied: Code)
    requires k < |s.calls| && s.calls[k].OwnedCheck?
    ensures var i, r, block := s.session, Alone(s, k, copied, 4), s.calls[k].block;
            var fits, opens := Room(i) && i.free != [], Takes(i) && s.calls[k].sized;
            && |r.calls| == |s.calls|
            && (!Takes(i) ==> Unchanged(s, r) && r.calls[k] == Returned(Refusal(i)))
            && (Takes(i) && !s.calls[k].sized ==> Unchanged(s, r) && r.calls[k] == Returned(INVALID_ARGUMENT))
            && (opens && !fits && !block ==>
                  && r.session == i.(rejected := i.rejected + 1) && r.history == s.history
                  && r.calls[k] == Returned(WOULD_BLOCK))
            && (opens && !fits && block ==> Unchanged(s, r) && r.calls[k] == OwnedReserve(true, true))
            && (opens && fits && copied != OK ==>
                  && r.session == i.(free := i.free[1..] + [i.free[0]]) && r.history == s.history
                  && r.calls[k] == Returned(copied))
            && (opens && fits && copied == OK ==>
                  && AcceptedAs(s.(session := i.(free := i.free[1..])), r, Owned(i.free[0]))
                  && r.calls[k] == Returned(OK))
  {
    var s1 := Next(s, Advance(k, copied));
    CheckTells(s, k, copied);
    AloneFirst(s, k, copied, 3);
    if s1.calls[k].Returned? {
      RestsAlone(s1, k, copied, 0, 3);
    } else {
      ReserveAlone(s1, k, copied);
    }
    hide Next, Alone;
  }

  /** The turns after the first. */
  lemma {:induction false} AloneFirst(s: State, k: nat, copied: Code, turns: nat)
    ensures Alone(s, k, copied, turns + 1) == Alone(Next(s, Advance(k, copied)), k, copied, turns)
  {
    hide Next;
    if turns == 0 {
      assert Alone(s, k, copied, 1) == Next(Alone(s, k, copied, 0), Advance(k, copied));
    } else {
      AloneFirst(s, k, copied, turns - 1);
    }
  }

  lemma ReserveAlone(s: State, k: nat, copied: Code)
    requires k < |s.calls| && s.calls[k].OwnedReserve? && !s.calls[k].asleep && Takes(s.session)
    ensures var i, r, block := s.session, Alone(s, k, copied, 3), s.calls[k].block;
            var fits := Room(i) && i.free != [];
            && |r.calls| == |s.calls|
            && (!fits && !block ==>
                  && r.session == i.(rejected := i.rejected + 1) && r.history == s.history
                  && r.calls[k] == Returned(WOULD_BLOCK))
            && (!fits && block ==> Unchanged(s, r) && r.calls[k] == OwnedReserve(true, true))
            && (fits && copied != OK ==>
                  && r.session == i.(free := i.free[1..] + [i.free[0]]) && r.history == s.history
                  && r.calls[k] == Returned(copied))
            && (fits && copied == OK ==>
                  && AcceptedAs(s.(session := i.(free := i.free[1..])), r, Owned(i.free[0]))
                  && r.calls[k] == Returned(OK))
  {
    var s1 := Next(s, Advance(k, copied));
    ReserveTells(s, k, copied);
    AloneFirst(s, k, copied, 2);
    if Room(s.session) && s.session.free != [] {
      CopyAlone(s1, k, copied);
    } else {
      RestsAlone(s1, k, copied, 0, 2);
    }
    hide Next, Alone;
  }

  lemma CopyAlone(s: State, k: nat, copied: Code)
    requires k < |s.calls| && s.calls[k].OwnedCopy? && Takes(s.session) && Room(s.session)
    ensures var i, r, frame := s.session, Alone(s, k, copied, 2), s.calls[k].frame;
            && |r.calls| == |s.calls|
            && (copied != OK ==>
                  && r.session == i.(free := i.free + [frame]) && r.history == s.history
                  && r.calls[k] == Returned(copied))
            && (copied == OK ==> AcceptedAs(s, r, Owned(frame)) && r.calls[k] == Returned(OK))
  {
    var s1 := Next(s, Advance(k, copied));
    CopyTells(s, k, copied);
    AloneFirst(s, k, copied, 1);
    AloneFirst(s1, k, copied, 0);
    if copied == OK {
      PushTells(s1, k, copied);
    } else {
      GiveBackTells(s1, k, copied);
    }
    hide Next;
  }

  /** A call that has returned or sleeps takes no more turns. */
  lemma {:induction false} RestsAlone(s: State, k: nat, copied: Code, n: nat, m: nat)
    requires n <= m && k < |Alone(s, k, copied, n).calls|
    requires Done(Alone(s, k, copied, n).calls[k]) || Asleep(Alone(s, k, copied, n).calls[k])
    ensures Alone(s, k, copied, m) == Alone(s, k, copied, n)
  {
    if n < m {
      RestsAlone(s, k, copied, n, m - 1);
      hide Alone;
      assert Next(Alone(s, k, copied, n), Advance(k, copied)) == Alone(s, k, copied, n);
    }
  }

  // ---------- Borrowed submissions ----------

  lemma LayoutTells(s: State, k: nat, copied: Code)
    requires k < |s.calls| && s.calls[k].BorrowedCheck?
    ensures var c, t := s.calls[k], Next(s, Advance(k, copied));
            && Unchanged(s, t)
            && t.calls[k] == (if !c.sized then Returned(INVALID_ARGUMENT)
                              else if c.valid != OK then Returned(c.valid)
                              else BorrowedPush(false))
  {
  }

  lemma BorrowTells(s: State, k: nat, copied: Code)
    requires k < |s.calls| && s.calls[k] == BorrowedPush(false) && 0 < s.session.capacity
    ensures var i, t := s.session, Next(s, Advance(k, copied));
            && |t.calls| == |s.calls|
            && (!i.cpuAllowed ==> Unchanged(s, t) && t.calls[k] == Returned(NOT_SUPPORTED))
            && (i.cpuAllowed && !Takes(i) ==> Unchanged(s, t) && t.calls[k] == Returned(Refusal(i)))
            && (i.cpuAllowed && Takes(i) && !Room(i) ==> Unchanged(s, t) && t.calls[k] == BorrowedPush(true))
            && (i.cpuAllowed && Takes(i) && Room(i) ==>
                  && AcceptedAs(s, t, Borrowed(|i.submissions|)) && t.session.submissions == i.submissions + [None]
                  && t.calls[k] == BorrowedReturned(|i.submissions|))
  {
    var i := s.session;
    if i.cpuAllowed && Takes(i) && Room(i) {
      BorrowAccepted(s, k, copied);
    } else {
      BorrowRefused(s, k, copied);
    }
    hide Next, AcceptedAs;
  }

  lemma BorrowAccepted(s: State, k: nat, copied: Code)
    requires k < |s.calls| && s.calls[k] == BorrowedPush(false) && 0 < s.session.capacity
    requires s.session.cpuAllowed && Takes(s.session) && Room(s.session)
    ensures var i, t := s.session, Next(s, Advance(k, copied));
            && |t.calls| == |s.calls| && t.calls[k] == BorrowedReturned(|i.submissions|)
            && AcceptedAs(s, t, Borrowed(|i.submissions|)) && t.session.submissions == i.submissions + [None]
  {
    var queue, x := s.session.queue, Borrowed(|s.session.submissions|);
    assert Added(queue, queue + [x]) == [x];
    hide Rouse, Added;
  }

  lemma BorrowRefused(s: State, k: nat, copied: Code)
    requires k < |s.calls| && s.calls[k] == BorrowedPush(false) && 0 < s.session.capacity
    requires !s.session.cpuAllowed || !Takes(s.session) || !Room(s.session)
    ensures var i, t := s.session, Next(s, Advance(k, copied));
            && Unchanged(s, t)
            && (!i.cpuAllowed ==> t.calls[k] == Returned(NOT_SUPPORTED))
            && (i.cpuAllowed && !Takes(i) ==> t.calls[k] == Returned(Refusal(i)))
            && (i.cpuAllowed && Takes(i) ==> t.calls[k] == BorrowedPush(true))
  {
    assert PushBorrowed(s.session).session == s.session && PushBorrowed(s.session).wakes == {};
  }

  /**
   * A borrowed submission run alone: it is accepted exactly if dimensions and layout are right, CPU frames
   * are allowed, the session takes work and there is a place.
   */
  lemma BorrowedAlone(s: State, k: nat, copied: Code)
    requires k < |s.calls| && s.calls[k].BorrowedCheck? && 0 < s.session.capacity
    ensures var i, c, r := s.session, s.calls[k], Alone(s, k, copied, 2);
            var good := c.sized && c.valid == OK;
            && |r.calls| == |s.calls|
            && (!c.sized ==> Unchanged(s, r) && r.calls[k] == Returned(INVALID_ARGUMENT))
            && (c.sized && c.valid != OK ==> Unchanged(s, r) && r.calls[k] == Returned(c.valid))
            && (good && !i.cpuAllowed ==> Unchanged(s, r) && r.calls[k] == Returned(NOT_SUPPORTED))
            && (good && i.cpuAllowed && !Takes(i) ==> Unchanged(s, r) && r.calls[k] == Returned(Refusal(i)))
            && (good && i.cpuAllowed && Takes(i) && !Room(i) ==> Unchanged(s, r) && r.calls[k] == BorrowedPush(true))
            && (good && i.cpuAllowed && Takes(i) && Room(i) ==>
                  && AcceptedAs(s, r, Borrowed(|i.submissions|)) && r.session.submissions == i.submissions + [None]
                  && r.calls[k] == BorrowedReturned(|i.submissions|))
  {
    var s1 := Alone(s, k, copied, 1);
    assert s1 == Next(Alone(s, k, copied, 0), Advance(k, copied));
    LayoutTells(s, k, copied);
    hide Next;
    if s1.calls[k].Returned? {
      RestsAlone(s, k, copied, 1, 2);
    } else {
      BorrowTells(s1, k, copied);
    }
  }

  // ---------- Control ----------

  /** A flush begins exactly if the session takes work and there is a place, with the next token. */
  lemma FlushTells(s: State, k: nat, copied: Code)
    requires Flags(s.session, s.worker) && s.session.completedToken <= s.session.nextToken
    requires k < |s.calls| && s.calls[k] == FlushSpace(false)
    ensures var i, t := s.session, Next(s, Advance(k, copied));
            var token := i.nextToken + 1;
            && |t.calls| == |s.calls|
            && (!Takes(i) ==> Unchanged(s, t) && t.calls[k] == Returned(Refusal(i)))
            && (Takes(i) && !Room(i) ==> Unchanged(s, t) && t.calls[k] == FlushSpace(true))
            && (Takes(i) && Room(i) ==>
                  && t.session == i.(nextToken := token, queue := i.queue + [Flush(token)])
                  && t.history == s.history + [Flush(token)]
                  && t.calls[k] == FlushWait(token, |s.history|, true))
  {
    var i := s.session;
    assert !i.canceled || !i.accepting;
    hide Flags, CompleteAll, FramesOf, Rouse;
    if Takes(i) && Room(i) {
      assert Added(i.queue, i.queue + [Flush(i.nextToken + 1)]) == [Flush(i.nextToken + 1)];
    } else if !Takes(i) {
    } else {
    }
  }

  /** A flush that wakes up returns as soon as its barrier is flushed, or nothing more is. */
  lemma FlushEndTells(s: State, k: nat, copied: Code)
    requires k < |s.calls| && s.calls[k].FlushWait? && !s.calls[k].asleep
    ensures var i, c, t := s.session, s.calls[k], Next(s, Advance(k, copied));
            && Unchanged(s, t)
            && (i.failed ==> t.calls[k] == FlushReturned(c.token, c.barrier, i.terminal))
            && (!i.failed && i.canceled ==> t.calls[k] == FlushReturned(c.token, c.barrier, CANCELLED))
            && (!i.failed && !i.canceled && c.token <= i.completedToken ==>
                  t.calls[k] == FlushReturned(c.token, c.barrier, OK))
            && (!i.failed && !i.canceled && i.completedToken < c.token ==> t.calls[k] == c.(asleep := true))
  {
  }

  /** A cancellation that comes too late changes nothing. */
  lemma LateCancelTells(s: State, k: nat, copied: Code)
    requires k < |s.calls| && s.calls[k].CancelEnter?
    requires s.session.closed || s.session.canceled || s.session.failed
    ensures var i, t := s.session, Next(s, Advance(k, copied));
            && Unchanged(s, t)
            && t.calls[k] == Returned(if i.closed || i.canceled then OK else i.terminal)
  {
    hide CompleteAll, FramesOf;
  }

  /** Any other gives up every queued entry, and no frame is lost. */
  lemma CancelTells(s: State, k: nat, copied: Code)
    requires 0 < s.session.capacity && k < |s.calls| && s.calls[k].CancelEnter?
    requires !s.session.closed && !s.session.canceled && !s.session.failed
    ensures var i, t := s.session, Next(s, Advance(k, copied));
            var j := t.session;
            && |t.calls| == |s.calls| && t.history == s.history && t.calls[k] == Returned(OK)
            && j.canceled && !j.accepting && j.closeRequested && !j.failed
            && j.queue == [] && t.lost == i.queue + s.lost && multiset(j.free) == Available(i)
            && |j.submissions| == |i.submissions|
            && forall id :: 0 <= id < |i.submissions| ==>
                 j.submissions[id] == if i.submissions[id] == None && Borrowed(id) in i.queue then Some(CANCELLED)
                                      else i.submissions[id]
  {
    var i := s.session;
    CompleteAllStatus(i.submissions, i.queue, CANCELLED);
    assert multiset(i.free + FramesOf(i.queue)) == Available(i);
    hide CompleteAll, FramesOf;
    assert Dropped(i.queue, []) == i.queue;
    CancelParts(s, k, copied);
    hide Next, Available;
  }

  lemma CancelParts(s: State, k: nat, copied: Code)
    requires 0 < s.session.capacity && k < |s.calls| && s.calls[k].CancelEnter?
    requires !s.session.closed && !s.session.canceled && !s.session.failed
    ensures var i, t := s.session, Next(s, Advance(k, copied));
            var j := t.session;
            && |t.calls| == |s.calls| && t.history == s.history && t.calls[k] == Returned(OK)
            && j.canceled && !j.accepting && j.closeRequested && !j.failed && j.queue == []
            && t.lost == Dropped(i.queue, []) + s.lost && j.free == i.free + FramesOf(i.queue)
            && j.submissions == CompleteAll(i.submissions, i.queue, CANCELLED)
  {
    hide CompleteAll, FramesOf, Dropped;
  }

  /** The first close ends acceptance and lets the worker run out; every close then goes to its join. */
  lemma CloseTells(s: State, k: nat, copied: Code)
    requires k < |s.calls| && s.calls[k].CloseEnter?
    ensures var i, t := s.session, Next(s, Advance(k, copied));
            && |t.calls| == |s.calls| && t.history == s.history && t.lost == s.lost && t.calls[k] == CloseTest
            && t.session == (if i.closeRequested then i else i.(accepting := false, closeRequested := true))
  {
  }

  /** After the worker has exited a close that joins alone returns the terminal failure, or OK. */
  lemma CloseAlone(s: State, k: nat, copied: Code)
    requires k < |s.calls| && s.calls[k].CloseTest? && s.worker.Exited? && JoinsAlone(s)
    ensures var i, r := s.session, Alone(s, k, copied, 3);
            && |r.calls| == |s.calls| && r.history == s.history && r.session == i.(joinable := false)
            && r.calls[k] == Returned(if i.failed then i.terminal else OK)
  {
    var s1 := Next(s, Advance(k, copied));
    TestTells(s, k, copied);
    AloneFirst(s, k, copied, 2);
    hide JoinsAlone;
    if s.session.joinable {
      var s2 := Next(s1, Advance(k, copied));
      JoinTells(s1, k, copied);
      AloneFirst(s1, k, copied, 1);
      LastTells(s2, k, copied);
      AloneFirst(s2, k, copied, 0);
    } else {
      var s2 := Next(s1, Advance(k, copied));
      LastTells(s1, k, copied);
      AloneFirst(s1, k, copied, 1);
      RestsAlone(s2, k, copied, 0, 1);
    }
    hide Next, Alone;
  }

  lemma TestTells(s: State, k: nat, copied: Code)
    requires k < |s.calls| && s.calls[k].CloseTest?
    ensures var t := Next(s, Advance(k, copied));
            && Unchanged(s, t) && t.worker == s.worker && (JoinsAlone(s) ==> JoinsAlone(t))
            && t.calls[k] == (if s.session.joinable then CloseJoin else CloseLast)
  {
    var t := Next(s, Advance(k, copied));
    forall j | 0 <= j < |s.calls|
      ensures InJoin(t.calls[j]) ==> InJoin(s.calls[j])
    {
    }
  }

  lemma JoinTells(s: State, k: nat, copied: Code)
    requires k < |s.calls| && s.calls[k].CloseJoin? && s.worker.Exited? && JoinsAlone(s)
    ensures var t := Next(s, Advance(k, copied));
            && |t.calls| == |s.calls| && t.history == s.history && t.session == s.session.(joinable := false)
            && t.calls[k] == CloseLast
  {
  }

  lemma LastTells(s: State, k: nat, copied: Code)
    requires k < |s.calls| && s.calls[k].CloseLast?
    ensures var i, t := s.session, Next(s, Advance(k, copied));
            && Unchanged(s, t) && t.calls[k] == Returned(if i.failed then i.terminal else OK)
  {
  }

  // ---------- The worker ----------

  /** The worker at its wait. */
  lemma TakeTells(s: State, answer: Answer)
    requires s.worker == Idle(false)
    ensures var i, t := s.session, Next(s, Work(answer));
            && t.history == s.history && t.handled == s.handled && t.lost == s.lost
            && (i.queue != [] ==> t.session == i.(queue := i.queue[1..]) && t.worker == Busy(i.queue[0]))
            && (i.queue == [] ==> t.session == i)
            && (i.queue == [] && i.closeRequested ==> t.worker == Closing(None))
            && (i.queue == [] && !i.closeRequested ==> t.worker == Idle(true))
  {
  }

  /** The backend took an entry: its frame is free again, or its submission is OK, or its barrier flushed. */
  lemma SuccessTells(s: State)
    requires s.worker.Busy?
    ensures var i, x, t := s.session, s.worker.item, Next(s, Work(Answered(OK)));
            var j := t.session;
            && t.worker == Idle(false) && t.handled == s.handled + [x] && t.history == s.history && t.lost == s.lost
            && (x.Owned? ==> j == i.(free := i.free + [x.frame], completed := i.completed + 1))
            && (x.Flush? ==> j == i.(completedToken := x.token))
            && (x.Borrowed? ==> j == i.(submissions := j.submissions, completed := i.completed + 1))
            && (x.Borrowed? && x.submission < |i.submissions| && i.submissions[x.submission] == None ==>
                  j.submissions == i.submissions[x.submission := Some(OK)])
  {
    BookedTells(s.session, s.worker.item);
    hide Commit;
  }

  lemma BookedTells(i: Session, x: Item)
    ensures var j := Commit(i, x, OK).session;
            && (x.Owned? ==> j == i.(free := i.free + [x.frame], completed := i.completed + 1))
            && (x.Flush? ==> j == i.(completedToken := x.token))
            && (x.Borrowed? ==> j == i.(submissions := j.submissions, completed := i.completed + 1))
            && (x.Borrowed? && x.submission < |i.submissions| && i.submissions[x.submission] == None ==>
                  j.submissions == i.submissions[x.submission := Some(OK)])
  {
    hide CompleteAll;
    match x {
      case Owned(_) =>
      case Borrowed(_) =>
      case Flush(_) =>
    }
  }

  /** It refused one: that entry and all behind it fail with its code, and nothing more is taken. */
  lemma FailureTells(s: State, code: Code)
    requires Numbered(s) && Ledger(s) && Flags(s.session, s.worker) && s.worker.Busy? && code != OK
    ensures var i, x, t := s.session, s.worker.item, Next(s, Work(Answered(code)));
            var j := t.session;
            && t.worker.Closing? && t.handled == s.handled && t.stuck == [x] && t.history == s.history
            && j.failed && j.terminal == code && !j.accepting && j.queue == [] && t.lost == i.queue + s.lost
            && multiset(j.free) == multiset(i.free) + WorkerFrame(s.worker) && j.completed == i.completed
            && |j.submissions| == |i.submissions|
            && forall id :: 0 <= id < |i.submissions| ==>
                 j.submissions[id] == if i.submissions[id] == None && Borrowed(id) in [x] + i.queue then Some(code)
                                      else i.submissions[id]
  {
    var i, x := s.session, s.worker.item;
    var first := CompleteItem(i.submissions, x, code);
    CompleteAllStatus(first, i.queue, code);
    CommittedFrames(i, x, code);
    FailureParts(s, code);
    hide Commit, Committed, Next, CompleteAll, Numbered, Ledger, Flags;
    forall id | 0 <= id < |i.submissions|
      ensures CompleteAll(first, i.queue, code)[id]
           == if i.submissions[id] == None && Borrowed(id) in [x] + i.queue then Some(code) else i.submissions[id]
    {
      assert Borrowed(id) in [x] + i.queue <==> Borrowed(id) == x || Borrowed(id) in i.queue;
    }
  }

  lemma FailureParts(s: State, code: Code)
    requires s.worker.Busy? && code != OK
    ensures var i, x, t := s.session, s.worker.item, Next(s, Work(Answered(code)));
            && t.session == Commit(i, x, code).session
            && t.session.submissions == CompleteAll(CompleteItem(i.submissions, x, code), i.queue, code)
            && t.session.terminal == code && t.session.failed && !t.session.accepting
            && t.session.queue == [] && t.session.completed == i.completed
            && t.worker.Closing? && t.handled == s.handled && t.stuck == [x] && t.history == s.history
            && t.lost == i.queue + s.lost
  {
    hide CompleteAll, CompleteItem;
  }

  /** Closing the backend: an error of its own counts only if nothing failed before. */
  lemma ShutTells(s: State, code: Code)
    requires s.worker.Closing?
    ensures var i, t := s.session, Next(s, Work(Answered(code)));
            && t.worker == Exited(false) && t.handled == s.handled && t.history == s.history && t.lost == s.lost
            && t.session == i.(closed := true, accepting := false, failed := i.failed || code != OK,
                               terminal := if i.failed || code == OK then i.terminal else code)
  {
  }

  // ---------- What fails a session ----------

  /** The backend's answers in a run, in order: to entries, and to the close. */
  function Answers(s: State, events: seq<Event>): seq<Answer> {
    if events == [] then []
    else
      var earlier, e := events[..|events| - 1], events[|events| - 1];
      var t := Final(s, earlier);
      Answers(s, earlier) + if e.Work? && (t.worker.Busy? || t.worker.Closing?) then [e.answer] else []
  }

  /** The first answer that is not OK. */
  function FirstBad(answers: seq<Answer>): Option<Answer> {
    if answers == [] then None
    else
      var earlier, last := FirstBad(answers[..|answers| - 1]), answers[|answers| - 1];
      if earlier.Some? then earlier else if last == Answered(OK) then None else Some(last)
  }

  /** What the session reports after those answers: a throw ends it as an internal error. */
  function Reported(answers: seq<Answer>): Option<Code> {
    match FirstBad(answers)
    case None => None
    case Some(bad) =>
      Some(if answers != [] && answers[|answers| - 1].Threw? then INTERNAL
           else match bad case Answered(code) => code case Threw => INTERNAL)
  }

  ghost predicate Reports(s: State, answers: seq<Answer>) {
    && s.session.failed == FirstBad(answers).Some?
    && (s.session.failed ==> Reported(answers) == Some(s.session.terminal))
    && (answers != [] && answers[|answers| - 1].Threw? ==> s.worker.Exited?)
  }

  lemma AnswersAppend(answers: seq<Answer>, answer: Answer)
    ensures var more := answers + [answer];
            && FirstBad(more) == (if FirstBad(answers).Some? then FirstBad(answers)
                                  else if answer == Answered(OK) then None else Some(answer))
            && more[|more| - 1] == answer
  {
    assert (answers + [answer])[..|answers|] == answers;
  }

  /** Calls neither fail a session nor change what it reports. */
  lemma CallsReport(i: Session, c: Call)
    ensures SectionOf(i, c).session.failed == i.failed && SectionOf(i, c).session.terminal == i.terminal
  {
    match c
    case OwnedPush(block, frame, _) => PushReports(i, block, frame);
    case BorrowedPush(_) => BorrowReports(i);
    case _ => OtherReports(i, c);
  }

  lemma PushReports(i: Session, block: bool, frame: nat)
    ensures Push(i, block, frame).session.failed == i.failed && Push(i, block, frame).session.terminal == i.terminal
  {
    if Takes(i) && Room(i) {
    } else if !CanPush(i) {
    } else {
    }
  }

  lemma BorrowReports(i: Session)
    ensures PushBorrowed(i).session.failed == i.failed && PushBorrowed(i).session.terminal == i.terminal
  {
    if i.capacity == 0 || !i.cpuAllowed || !CanPush(i) {
    } else if Takes(i) {
    } else {
    }
  }

  lemma OtherReports(i: Session, c: Call)
    requires !c.OwnedPush? && !c.BorrowedPush?
    ensures SectionOf(i, c).session.failed == i.failed && SectionOf(i, c).session.terminal == i.terminal
  {
    hide CompleteAll, FramesOf, CanReserve, CanPush, FlushSettled;
    match c {
      case OwnedReserve(_, _) =>
      case CancelEnter =>
      case FlushSpace(_) =>
      case _ =>
    }
  }

  lemma ReportsWork(s: State, answer: Answer, answers: seq<Answer>)
    requires Flags(s.session, s.worker) && Reports(s, answers) && (s.worker.Busy? || s.worker.Closing?)
    ensures Reports(Next(s, Work(answer)), answers + [answer])
  {
    AnswersAppend(answers, answer);
    match (s.worker, answer) {
      case (Busy(item), Answered(code)) =>
        if code == OK {
          SuccessTells(s);
          assert Next(s, Work(answer)).session.failed == s.session.failed;
        } else {
          FailureParts(s, code);
        }
      case (Closing(_), Answered(code)) => ShutTells(s, code);
      case (_, Threw) => ThrowTells(s);
    }
    hide Next, FirstBad;
  }

  /**
   * A throw fails the session as an internal error, whatever it had reported before, and the worker exits:
   * the entry it was on and everything queued fails, and the queue stays.
   */
  lemma ThrowTells(s: State)
    requires s.worker.Busy? || s.worker.Closing?
    ensures var i, t := s.session, Next(s, Work(Threw));
            var j := t.session;
            && j.failed && j.terminal == INTERNAL && j.closed && !j.accepting
            && t.worker == Exited(true) && t.handled == s.handled && t.history == s.history
            && j.queue == i.queue && j.free == i.free && j.completed == i.completed && t.lost == s.lost
            && |j.submissions| == |i.submissions|
            && (forall id :: 0 <= id < |i.submissions| && i.submissions[id].Some? ==>
                  j.submissions[id] == i.submissions[id])
            && (forall id :: 0 <= id < |i.submissions| && i.submissions[id] == None && Borrowed(id) in i.queue ==>
                  j.submissions[id] == Some(INTERNAL))
            && (forall id :: 0 <= id < |i.submissions| && i.submissions[id] == None ==>
                  s.worker == Busy(Borrowed(id)) ==> j.submissions[id] == Some(INTERNAL))
  {
    var i := s.session;
    var active := match s.worker
                  case Busy(item) => ActiveOf(item)
                  case Closing(submission) => submission
                  case _ => None;
    CompleteAllStatus(if active.Some? then Complete(i.submissions, active.value, INTERNAL) else i.submissions,
                      i.queue, INTERNAL);
    hide CompleteAll;
  }

  lemma ReportsOther(s: State, e: Event, answers: seq<Answer>)
    requires Reports(s, answers) && !(e.Work? && (s.worker.Busy? || s.worker.Closing?))
    ensures Reports(Next(s, e), answers)
  {
    if Enabled(s, e) {
      match e
      case Advance(call, copied) =>
        CallsReport(s.session, s.calls[call]);
        hide SectionOf, Resume, JoinsAlone;
      case Work(answer) => TakeTells(s, answer);
      case _ =>
    }
  }

  /**
   * Over every run the session has failed exactly if the backend once answered other than OK, and every
   * refusal reports its first such answer, or an internal error if it threw.
   */
  lemma {:induction false} FailedByBackend(capacity: nat, cpuAllowed: bool, events: seq<Event>)
    requires 0 < capacity
    ensures var s, answers := Final(Initial(capacity, cpuAllowed), events),
                              Answers(Initial(capacity, cpuAllowed), events);
            Inv(s) && Reports(s, answers)
  {
    hide Inv, Next, Reports;
    var s0 := Initial(capacity, cpuAllowed);
    InvInitial(capacity, cpuAllowed);
    if events == [] {
      NothingReported(capacity, cpuAllowed);
    } else {
      var earlier, e := events[..|events| - 1], events[|events| - 1];
      var s, answers := Final(s0, earlier), Answers(s0, earlier);
      FailedByBackend(capacity, cpuAllowed, earlier);
      InvNext(s, e);
      FlagsHold(s);
      assert answers + [] == answers;
      if e.Work? && (s.worker.Busy? || s.worker.Closing?) {
        ReportsWork(s, e.answer, answers);
      } else {
        ReportsOther(s, e, answers);
      }
    }
  }

  lemma FlagsHold(s: State)
    requires Inv(s)
    ensures Flags(s.session, s.worker)
  {
  }

  lemma NothingReported(capacity: nat, cpuAllowed: bool)
    ensures Reports(Initial(capacity, cpuAllowed), [])
  {
  }

  // ---------- The high-water mark ----------

  /** The longest the queue has been just after a frame was accepted. */
  function HighWater(s: State, events: seq<Event>): nat {
    if events == [] then 0
    else
      var earlier := events[..|events| - 1];
      var before, after := Final(s, earlier), Final(s, events);
      var grown := if after.session.accepted > before.session.accepted then |after.session.queue| else 0;
      if HighWater(s, earlier) < grown then grown else HighWater(s, earlier)
  }

  lemma PeakStep(s: State, e: Event)
    ensures var i, j := s.session, Next(s, e).session;
            && (j.accepted > i.accepted ==> j.peak == if i.peak < |j.queue| then |j.queue| else i.peak)
            && (j.accepted <= i.accepted ==> j.peak == i.peak)
  {
    hide Worked, JoinsAlone;
    if Enabled(s, e) {
      match e
      case Advance(call, copied) => PeakSection(s.session, s.calls[call]);
      case Work(answer) => PeakWork(s, answer);
      case _ =>
    }
    hide SectionOf, Resume;
  }

  lemma PeakSection(i: Session, c: Call)
    ensures var j := SectionOf(i, c).session;
            && (j.accepted > i.accepted ==> j.peak == if i.peak < |j.queue| then |j.queue| else i.peak)
            && (j.accepted <= i.accepted ==> j.peak == i.peak)
  {
    match c
    case OwnedPush(block, frame, _) => PushPeak(i, block, frame);
    case BorrowedPush(_) => BorrowPeak(i);
    case _ => OtherPeak(i, c);
  }

  lemma PushPeak(i: Session, block: bool, frame: nat)
    ensures var j := Push(i, block, frame).session;
            && (j.accepted > i.accepted ==> j.peak == if i.peak < |j.queue| then |j.queue| else i.peak)
            && (j.accepted <= i.accepted ==> j.peak == i.peak)
  {
    if Takes(i) && Room(i) {
    } else if !CanPush(i) {
    } else {
    }
  }

  lemma BorrowPeak(i: Session)
    ensures var j := PushBorrowed(i).session;
            && (j.accepted > i.accepted ==> j.peak == if i.peak < |j.queue| then |j.queue| else i.peak)
            && (j.accepted <= i.accepted ==> j.peak == i.peak)
  {
    if i.capacity == 0 || !i.cpuAllowed || !CanPush(i) {
    } else if Takes(i) {
    } else {
    }
  }

  lemma OtherPeak(i: Session, c: Call)
    requires !c.OwnedPush? && !c.BorrowedPush?
    ensures SectionOf(i, c).session.accepted == i.accepted && SectionOf(i, c).session.peak == i.peak
  {
    hide CompleteAll, FramesOf, CanReserve, CanPush, FlushSettled;
    match c {
      case OwnedReserve(_, _) =>
      case CancelEnter =>
      case FlushSpace(_) =>
      case _ =>
    }
  }

  lemma PeakWork(s: State, answer: Answer)
    requires WorkerReady(s)
    ensures var j := Worked(s, answer).session; j.accepted == s.session.accepted && j.peak == s.session.peak
  {
    hide CompleteAll, CompleteItem, Complete;
    match (s.worker, answer)
    case (Busy(item), Answered(code)) => PeakCommit(s.session, item, code);
    case _ =>
  }

  lemma PeakCommit(i: Session, item: Item, code: Code)
    ensures var j := Commit(i, item, code).session; j.accepted == i.accepted && j.peak == i.peak
  {
    hide CompleteAll, CompleteItem;
    if code != OK {
    } else if item.Flush? {
    } else {
    }
  }

  /** Over every run the reported peak is the longest the queue was when a frame had been accepted. */
  lemma {:induction false} PeakIsHighWater(capacity: nat, cpuAllowed: bool, events: seq<Event>)
    ensures Final(Initial(capacity, cpuAllowed), events).session.peak
         == HighWater(Initial(capacity, cpuAllowed), events)
  {
    hide Next;
    if events != [] {
      var earlier := events[..|events| - 1];
      PeakIsHighWater(capacity, cpuAllowed, earlier);
      PeakStep(Final(Initial(capacity, cpuAllowed), earlier), events[|events| - 1]);
    }
  }
}
