/** What a call of the encoder session does, from how it started to how it returned. */
module EncoderCalls {
  import opened Results
  import opened EncoderSections
  import opened EncoderMachine
  import opened EncoderInvariant

  // ---------- How calls started ----------

  /** The calls of a run as they started, in the order of their numbers. */
  function Entries(s: State, events: seq<Event>): seq<Call> {
    if events == [] then s.calls
    else
      var earlier, e := events[..|events| - 1], events[|events| - 1];
      Entries(s, earlier) + if e.Start? && IsEntry(e.entry) then [e.entry] else []
  }

  /** Where a call can be that started as `entry`. */
  predicate From(entry: Call, c: Call) {
    match entry
    case OwnedCheck(block, sized) =>
      || c == entry
      || (sized && OnOwnedWay(c, block))
      || (c.Returned? && (c.code == OK ==> sized))
    case BorrowedCheck(sized, valid) =>
      || c == entry
      || (sized && valid == OK && (c.BorrowedPush? || c.BorrowedReturned?))
      || (c.Returned? && c.code != OK)
    case FlushSpace(_) => c.FlushSpace? || c.FlushWait? || c.FlushReturned? || (c.Returned? && c.code != OK)
    case CancelEnter => c.CancelEnter? || c.Returned?
    case CloseEnter => c.CloseEnter? || InJoin(c) || c.CloseLast? || c.Returned?
    case _ => false
  }

  /** An owned submission past the test of its dimensions; a frame is given back only with an error. */
  predicate OnOwnedWay(c: Call, block: bool) {
    || ((c.OwnedReserve? || c.OwnedCopy? || c.OwnedPush?) && c.block == block)
    || (c.OwnedGiveBack? && c.code != OK)
  }

  lemma FromRoused(entry: Call, c: Call, wakes: set<Condition>)
    requires From(entry, c)
    ensures From(entry, Roused(c, wakes))
  {
  }

  lemma FromResumed(i: Session, w: Worker, entry: Call, c: Call, barrier: nat, copied: Code)
    requires Flags(i, w) && From(entry, c) && !Done(c)
    ensures From(entry, Resume(c, SectionOf(i, c), barrier, copied))
  {
    hide CompleteAll, FramesOf;
  }

  ghost predicate AllFrom(entries: seq<Call>, calls: seq<Call>) {
    |entries| == |calls| && forall k :: 0 <= k < |calls| ==> From(entries[k], calls[k])
  }

  lemma FromAdvanced(s: State, call: nat, copied: Code, entries: seq<Call>)
    requires Flags(s.session, s.worker) && AllFrom(entries, s.calls)
    requires call < |s.calls| && Ready(s, s.calls[call])
    ensures AllFrom(entries, Advanced(s, call, copied).calls)
  {
    var c, t := s.calls[call], Advanced(s, call, copied);
    var o := SectionOf(s.session, c);
    FromResumed(s.session, s.worker, entries[call], c, |s.history|, copied);
    hide SectionOf, Resume, From, Flags, JoinsAlone, Roused;
    forall k | 0 <= k < |t.calls|
      ensures From(entries[k], t.calls[k])
    {
      FromRoused(entries[k], if k == call then Resume(c, o, |s.history|, copied) else s.calls[k], o.wakes);
    }
  }

  lemma FromWorked(s: State, answer: Answer, entries: seq<Call>)
    requires AllFrom(entries, s.calls)
    ensures AllFrom(entries, Worked(s, answer).calls)
  {
    var t := Worked(s, answer);
    hide From, Roused, Take, Commit, Crash, BackendClosed;
    assert t.calls == s.calls || exists wakes :: t.calls == Rouse(s.calls, wakes);
    if wakes :| t.calls == Rouse(s.calls, wakes) {
      forall k | 0 <= k < |t.calls|
        ensures From(entries[k], t.calls[k])
      {
        FromRoused(entries[k], s.calls[k], wakes);
      }
    }
  }

  lemma FromStep(s: State, e: Event, entries: seq<Call>)
    requires Inv(s) && AllFrom(entries, s.calls)
    ensures AllFrom(entries + (if e.Start? && IsEntry(e.entry) then [e.entry] else []), Next(s, e).calls)
  {
    FlagsOf(s);
    hide Inv, Flags, Advanced, Worked, AllFrom, JoinsAlone;
    assert entries + [] == entries;
    if Enabled(s, e) {
      match e
      case Start(entry) => FromStarted(entries, s.calls, entry);
      case Advance(call, copied) => FromAdvanced(s, call, copied, entries);
      case Work(answer) => FromWorked(s, answer, entries);
      case Nudge(sleeper) => FromNudged(entries, s.calls, sleeper);
      case NudgeWorker =>
    }
  }

  lemma FromStarted(entries: seq<Call>, calls: seq<Call>, entry: Call)
    requires AllFrom(entries, calls) && IsEntry(entry)
    ensures AllFrom(entries + [entry], calls + [entry])
  {
  }

  lemma FlagsOf(s: State)
    requires Inv(s)
    ensures Flags(s.session, s.worker)
  {
  }

  lemma FromNudged(entries: seq<Call>, calls: seq<Call>, k: nat)
    requires AllFrom(entries, calls) && k < |calls| && Asleep(calls[k])
    ensures AllFrom(entries, calls[k := calls[k].(asleep := false)])
  {
    assert From(entries[k], calls[k]);
  }

  /** In every run each call is somewhere on the way that its start allows. */
  lemma {:induction false} StartDecides(capacity: nat, cpuAllowed: bool, events: seq<Event>)
    requires 0 < capacity
    ensures var s := Final(Initial(capacity, cpuAllowed), events);
            Inv(s) && AllFrom(Entries(Initial(capacity, cpuAllowed), events), s.calls)
  {
    hide Inv, AllFrom, Next;
    var s0 := Initial(capacity, cpuAllowed);
    InvInitial(capacity, cpuAllowed);
    if events == [] {
      assert AllFrom([], s0.calls) by { NoneYet(); }
    } else {
      var earlier, e := events[..|events| - 1], events[|events| - 1];
      StartDecides(capacity, cpuAllowed, earlier);
      InvNext(Final(s0, earlier), e);
      FromStep(Final(s0, earlier), e, Entries(s0, earlier));
    }
  }

  lemma NoneYet()
    ensures AllFrom([], [])
  {
  }

  /**
   * Over every run a frame of the wrong dimensions, or of a layout that is not valid, is never queued and
   * never takes a pooled frame: its call is where it started, or has returned an error.
   */
  lemma WrongFramesRefused(capacity: nat, cpuAllowed: bool, events: seq<Event>, k: nat)
    requires 0 < capacity && k < |Entries(Initial(capacity, cpuAllowed), events)|
    ensures var s, entry := Final(Initial(capacity, cpuAllowed), events),
                            Entries(Initial(capacity, cpuAllowed), events)[k];
            && k < |s.calls|
            && ((entry.OwnedCheck? && !entry.sized) || (entry.BorrowedCheck? && (!entry.sized || entry.valid != OK)) ==>
                  HeldBy(s.calls[k]) == None
                  && (s.calls[k] == entry || (s.calls[k].Returned? && s.calls[k].code != OK)))
  {
    StartDecides(capacity, cpuAllowed, events);
    hide Final, Entries, Inv;
  }

  // ---------- What calls have put into the record ----------

  /** An entry of the record by the kind of call that makes it. */
  datatype Kind = ByOwned | ByBorrowed | ByFlush

  function KindOf(x: Item): Kind {
    match x
    case Owned(_) => ByOwned
    case Borrowed(_) => ByBorrowed
    case Flush(_) => ByFlush
  }

  function Of(items: seq<Item>, kind: Kind): nat {
    if items == [] then 0
    else Of(items[..|items| - 1], kind) + if KindOf(items[|items| - 1]) == kind then 1 else 0
  }

  /** A call that has made its entry: an owned one has returned OK, a flush need not have returned. */
  predicate Made(entry: Call, c: Call, kind: Kind) {
    match kind
    case ByOwned => entry.OwnedCheck? && c == Returned(OK)
    case ByBorrowed => c.BorrowedReturned?
    case ByFlush => c.FlushWait? || c.FlushReturned?
  }

  function Makers(entries: seq<Call>, calls: seq<Call>, kind: Kind): nat
    requires |entries| == |calls|
  {
    var n := |calls| - 1;
    if calls == [] then 0
    else Makers(entries[..n], calls[..n], kind) + if Made(entries[n], calls[n], kind) then 1 else 0
  }

  lemma OfAppend(items: seq<Item>, x: Item, kind: Kind)
    ensures Of(items + [x], kind) == Of(items, kind) + if KindOf(x) == kind then 1 else 0
  {
    assert (items + [x])[..|items|] == items;
  }

  lemma {:induction false} MakersUpdate(entries: seq<Call>, calls: seq<Call>, k: nat, c: Call, kind: Kind)
    requires |entries| == |calls| && k < |calls|
    ensures Makers(entries, calls[k := c], kind) + (if Made(entries[k], calls[k], kind) then 1 else 0)
         == Makers(entries, calls, kind) + if Made(entries[k], c, kind) then 1 else 0
  {
    hide Made;
    var n := |calls| - 1;
    if k < n {
      MakersUpdate(entries[..n], calls[..n], k, c, kind);
      assert calls[k := c][..n] == calls[..n][k := c];
    } else {
      assert calls[k := c][..n] == calls[..n];
    }
  }

  lemma {:induction false} MakersRoused(entries: seq<Call>, calls: seq<Call>, wakes: set<Condition>, kind: Kind)
    requires |entries| == |calls|
    ensures Makers(entries, Rouse(calls, wakes), kind) == Makers(entries, calls, kind)
  {
    if calls != [] {
      var n := |calls| - 1;
      MakersRoused(entries[..n], calls[..n], wakes, kind);
      assert Rouse(calls, wakes)[..n] == Rouse(calls[..n], wakes);
    }
  }

  /** A section appends an entry exactly when its call has made one by it, and of that kind. */
  lemma SectionMakes(i: Session, w: Worker, entry: Call, c: Call, barrier: nat, copied: Code, kind: Kind)
    requires Flags(i, w) && From(entry, c) && !Done(c)
    ensures var o := SectionOf(i, c);
            (if Made(entry, Resume(c, o, barrier, copied), kind) then 1 else 0)
            == (if Made(entry, c, kind) then 1 else 0) + Of(Added(i.queue, o.session.queue), kind)
  {
    hide CompleteAll, FramesOf;
    match c
    case OwnedPush(block, frame, _) => PushMakes(i, w, entry, c, barrier, copied, kind);
    case BorrowedPush(_) => BorrowMakes(i, entry, c, barrier, copied, kind);
    case FlushSpace(_) => FlushMakes(i, entry, c, barrier, copied, kind);
    case _ => OtherMakes(i, w, entry, c, barrier, copied, kind);
  }

  lemma AddedOne(queue: seq<Item>, x: Item, kind: Kind)
    ensures Of(Added(queue, queue + [x]), kind) == if KindOf(x) == kind then 1 else 0
    ensures Of(Added(queue, queue), kind) == 0
  {
    assert Added(queue, queue + [x]) == [] + [x];
    OfAppend([], x, kind);
  }

  lemma PushMakes(i: Session, w: Worker, entry: Call, c: Call, barrier: nat, copied: Code, kind: Kind)
    requires Flags(i, w) && From(entry, c) && c.OwnedPush?
    ensures var o := SectionOf(i, c);
            (if Made(entry, Resume(c, o, barrier, copied), kind) then 1 else 0)
            == (if Made(entry, c, kind) then 1 else 0) + Of(Added(i.queue, o.session.queue), kind)
  {
    AddedOne(i.queue, Owned(c.frame), kind);
    hide Of, Added;
  }

  lemma BorrowMakes(i: Session, entry: Call, c: Call, barrier: nat, copied: Code, kind: Kind)
    requires From(entry, c) && c.BorrowedPush?
    ensures var o := SectionOf(i, c);
            (if Made(entry, Resume(c, o, barrier, copied), kind) then 1 else 0)
            == (if Made(entry, c, kind) then 1 else 0) + Of(Added(i.queue, o.session.queue), kind)
  {
    AddedOne(i.queue, Borrowed(|i.submissions|), kind);
    hide Of, Added;
  }

  lemma FlushMakes(i: Session, entry: Call, c: Call, barrier: nat, copied: Code, kind: Kind)
    requires From(entry, c) && c.FlushSpace?
    ensures var o := SectionOf(i, c);
            (if Made(entry, Resume(c, o, barrier, copied), kind) then 1 else 0)
            == (if Made(entry, c, kind) then 1 else 0) + Of(Added(i.queue, o.session.queue), kind)
  {
    AddedOne(i.queue, Flush(i.nextToken + 1), kind);
    hide Of, Added;
  }

  lemma OtherMakes(i: Session, w: Worker, entry: Call, c: Call, barrier: nat, copied: Code, kind: Kind)
    requires Flags(i, w) && From(entry, c) && !Done(c) && !c.OwnedPush? && !c.BorrowedPush? && !c.FlushSpace?
    ensures var o := SectionOf(i, c);
            (if Made(entry, Resume(c, o, barrier, copied), kind) then 1 else 0)
            == (if Made(entry, c, kind) then 1 else 0) + Of(Added(i.queue, o.session.queue), kind)
  {
    NothingAdded(i, c);
    hide CompleteAll, FramesOf, Added;
  }

  lemma NothingAdded(i: Session, c: Call)
    requires !c.OwnedPush? && !c.BorrowedPush? && !c.FlushSpace?
    ensures Added(i.queue, SectionOf(i, c).session.queue) == []
  {
    hide CompleteAll, FramesOf;
  }

  lemma {:induction false} OfConcat(a: seq<Item>, b: seq<Item>, kind: Kind)
    ensures Of(a + b, kind) == Of(a, kind) + Of(b, kind)
  {
    if b == [] {
      assert a + b == a;
    } else {
      OfConcat(a, b[..|b| - 1], kind);
      assert (a + b)[..|a + b| - 1] == a + b[..|b| - 1];
    }
  }

  lemma MakersAdvanced(s: State, call: nat, copied: Code, entries: seq<Call>, kind: Kind)
    requires Flags(s.session, s.worker) && AllFrom(entries, s.calls) && call < |s.calls| && Ready(s, s.calls[call])
    ensures var t := Advanced(s, call, copied);
            && |t.calls| == |entries|
            && Makers(entries, t.calls, kind) - Makers(entries, s.calls, kind)
               == Of(t.history, kind) - Of(s.history, kind)
  {
    var c := s.calls[call];
    var o := SectionOf(s.session, c);
    var d := Resume(c, o, |s.history|, copied);
    SectionMakes(s.session, s.worker, entries[call], c, |s.history|, copied, kind);
    MakersUpdate(entries, s.calls, call, d, kind);
    MakersRoused(entries, s.calls[call := d], o.wakes, kind);
    OfConcat(s.history, Added(s.session.queue, o.session.queue), kind);
    hide SectionOf, Resume, Added, Makers, Made, Of, Flags, From, JoinsAlone, Rouse;
  }

  lemma MakersWorked(s: State, answer: Answer, entries: seq<Call>, kind: Kind)
    requires |entries| == |s.calls|
    ensures var t := Worked(s, answer);
            |t.calls| == |entries| && Makers(entries, t.calls, kind) == Makers(entries, s.calls, kind)
            && t.history == s.history
  {
    var t := Worked(s, answer);
    hide Take, Commit, Crash, BackendClosed, Makers;
    assert t.calls == s.calls || exists wakes :: t.calls == Rouse(s.calls, wakes);
    if wakes :| t.calls == Rouse(s.calls, wakes) {
      MakersRoused(entries, s.calls, wakes, kind);
    }
  }

  lemma MakersStarted(entries: seq<Call>, calls: seq<Call>, entry: Call, kind: Kind)
    requires |entries| == |calls| && IsEntry(entry)
    ensures Makers(entries + [entry], calls + [entry], kind) == Makers(entries, calls, kind)
  {
    assert (entries + [entry])[..|entries|] == entries && (calls + [entry])[..|calls|] == calls;
  }

  lemma MakersStep(s: State, e: Event, entries: seq<Call>, kind: Kind)
    requires Inv(s) && AllFrom(entries, s.calls) && Makers(entries, s.calls, kind) == Of(s.history, kind)
    ensures var t, more := Next(s, e), entries + (if e.Start? && IsEntry(e.entry) then [e.entry] else []);
            |more| == |t.calls| && Makers(more, t.calls, kind) == Of(t.history, kind)
  {
    hide Inv, Advanced, Worked, From, JoinsAlone, Makers, Of;
    if e.Start? && IsEntry(e.entry) {
      MakersStarted(entries, s.calls, e.entry, kind);
    } else {
      assert entries + [] == entries;
      MakersOther(s, e, entries, kind);
      hide Next;
    }
  }

  lemma MakersOther(s: State, e: Event, entries: seq<Call>, kind: Kind)
    requires Inv(s) && AllFrom(entries, s.calls) && Makers(entries, s.calls, kind) == Of(s.history, kind)
    requires e.Start? ==> !IsEntry(e.entry)
    ensures var t := Next(s, e); |entries| == |t.calls| && Makers(entries, t.calls, kind) == Of(t.history, kind)
  {
    FlagsOf(s);
    assert |entries| == |s.calls|;
    hide Inv, Flags, Advanced, Worked, AllFrom, JoinsAlone, Makers, Of;
    if Enabled(s, e) {
      match e
      case Advance(call, copied) => MakersAdvanced(s, call, copied, entries, kind);
      case Work(answer) => MakersWorked(s, answer, entries, kind);
      case Nudge(sleeper) => NudgeMakes(entries, s.calls, sleeper, kind);
      case NudgeWorker =>
    }
  }

  lemma NudgeMakes(entries: seq<Call>, calls: seq<Call>, k: nat, kind: Kind)
    requires |entries| == |calls| && k < |calls| && Asleep(calls[k])
    ensures Makers(entries, calls[k := calls[k].(asleep := false)], kind) == Makers(entries, calls, kind)
  {
    MakersUpdate(entries, calls, k, calls[k].(asleep := false), kind);
  }

  /**
   * Over every run the record of accepted entries holds as many owned frames as owned submissions have
   * returned OK, as many borrowed ones as borrowed submissions have returned one, and as many barriers as
   * flushes have begun.
   */
  lemma {:induction false} RecordIsCalls(capacity: nat, cpuAllowed: bool, events: seq<Event>, kind: Kind)
    requires 0 < capacity
    ensures var s, entries := Final(Initial(capacity, cpuAllowed), events),
                              Entries(Initial(capacity, cpuAllowed), events);
            |entries| == |s.calls| && Makers(entries, s.calls, kind) == Of(s.history, kind)
  {
    var s0 := Initial(capacity, cpuAllowed);
    if events != [] {
      hide Inv, Next, Makers, Of, From, Initial;
      var earlier, e := events[..|events| - 1], events[|events| - 1];
      RecordIsCalls(capacity, cpuAllowed, earlier, kind);
      StartDecides(capacity, cpuAllowed, earlier);
      MakersStep(Final(s0, earlier), e, Entries(s0, earlier), kind);
    }
  }
}
