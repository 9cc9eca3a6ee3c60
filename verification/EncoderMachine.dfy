/**
 * The encoder session as a state machine: any number of concurrent calls and one worker, each
 * advancing by one critical section at a time, in any order.
 */
module EncoderMachine {
  import opened Results
  import opened EncoderSections

  /**
   * Where one call is. `asleep` says that the thread is parked on the condition of that wait, `sized` that
   * the frame has the session's dimensions, and `valid` is the verdict on the layout of a borrowed frame.
   */
  datatype Call =
    | OwnedCheck(block: bool, sized: bool)
    | OwnedReserve(block: bool, asleep: bool)
    | OwnedCopy(block: bool, frame: nat)
    | OwnedGiveBack(frame: nat, code: Code)
    | OwnedPush(block: bool, frame: nat, asleep: bool)
    | BorrowedCheck(sized: bool, valid: Code)
    | BorrowedPush(asleep: bool)
    | FlushSpace(asleep: bool)
    | FlushWait(token: nat, barrier: nat, asleep: bool)
    | CancelEnter
    | CloseEnter
    | CloseTest
    | CloseJoin
    | CloseLast
    | Returned(code: Code)
    | BorrowedReturned(submission: nat)
    | FlushReturned(token: nat, barrier: nat, code: Code)

  /** Where the worker is. `active` is the submission its handlers would still complete. */
  datatype Worker =
    | Idle(asleep: bool)
    | Busy(item: Item)
    | Closing(active: Option<nat>)
    | Exited(crashed: bool)

  /**
   * The session, its threads, and the record of the run: every accepted entry in order, those the
   * backend has handled successfully, the one it failed on, and those that were discarded.
   */
  datatype State = State(
    session: Session,
    calls: seq<Call>,
    worker: Worker,
    history: seq<Item>,
    handled: seq<Item>,
    stuck: seq<Item>,
    lost: seq<Item>)

  datatype Event =
    | Start(entry: Call)
    | Advance(call: nat, copied: Code)
    | Work(answer: Answer)
    | Nudge(sleeper: nat)
    | NudgeWorker

  // ---------- Calls ----------

  predicate IsEntry(c: Call) {
    c.OwnedCheck? || c.BorrowedCheck? || c == FlushSpace(false) || c == CancelEnter || c == CloseEnter
  }

  predicate Waits(c: Call) {
    c.OwnedReserve? || c.OwnedPush? || c.BorrowedPush? || c.FlushSpace? || c.FlushWait?
  }

  predicate Asleep(c: Call) {
    Waits(c) && c.asleep
  }

  predicate Done(c: Call) {
    c.Returned? || c.BorrowedReturned? || c.FlushReturned?
  }

  function WaitCondition(c: Call): Condition
    requires Waits(c)
  {
    if c.FlushWait? then StateChanged else HasSpace
  }

  /** Whether the wait predicate of a waiting call holds. */
  predicate WaitOver(s: Session, c: Call)
    requires Waits(c)
  {
    match c
    case OwnedReserve(_, _) => CanReserve(s)
    case FlushWait(token, _, _) => FlushSettled(s, token)
    case _ => CanPush(s)
  }

  /** A close between its two locked regions. */
  predicate InJoin(c: Call) {
    c.CloseTest? || c.CloseJoin?
  }

  /**
   * No two closes are in the unlocked part of a close while the worker can be joined. Where they are,
   * their joins have no meaning in the source, and here none of them returns.
   */
  predicate JoinsAlone(s: State) {
    s.session.joinable ==>
      forall j, k :: 0 <= j < k < |s.calls| ==> !InJoin(s.calls[j]) || !InJoin(s.calls[k])
  }

  /** A call that can run its next section now. */
  predicate Ready(s: State, c: Call) {
    !Done(c) && !Asleep(c) && (c.CloseJoin? ==> s.worker.Exited? && JoinsAlone(s))
  }

  predicate WorkerReady(s: State) {
    !s.worker.Exited? && !(s.worker.Idle? && s.worker.asleep)
  }

  function Roused(c: Call, wakes: set<Condition>): Call {
    if Asleep(c) && WaitCondition(c) in wakes then c.(asleep := false) else c
  }

  /** Every call after some conditions were notified. */
  function Rouse(calls: seq<Call>, wakes: set<Condition>): (r: seq<Call>)
    ensures |r| == |calls|
    ensures forall i :: 0 <= i < |calls| ==> r[i] == Roused(calls[i], wakes)
  {
    seq(|calls|, i requires 0 <= i < |calls| => Roused(calls[i], wakes))
  }

  function RouseWorker(w: Worker, wakes: set<Condition>): Worker {
    if w.Idle? && HasItems in wakes then Idle(false) else w
  }

  /** The section a ready call runs next. */
  function SectionOf(s: Session, c: Call): Outcome {
    match c
    case OwnedCheck(_, _) => Outcome(s, Check(s), {})
    case OwnedReserve(block, _) => Reserve(s, block)
    case OwnedGiveBack(frame, code) => GiveBack(s, frame, code)
    case OwnedPush(block, frame, _) => Push(s, block, frame)
    case BorrowedPush(_) => PushBorrowed(s)
    case FlushSpace(_) => FlushBegin(s)
    case FlushWait(token, _, _) => FlushEnd(s, token)
    case CancelEnter => Cancel(s)
    case CloseEnter => RequestClose(s)
    case CloseTest => TestJoin(s)
    case CloseJoin => Join(s)
    case CloseLast => Outcome(s, Return(CloseResult(s)), {})
    case _ => Outcome(s, Proceed, {})
  }

  /** Where a call is after its section; a new barrier waits at once, while it still holds the lock. */
  function Resume(c: Call, o: Outcome, barrier: nat, copied: Code): Call {
    match o.verdict
    case Sleep(_) => if Waits(c) then c.(asleep := true) else c
    case Return(code) =>
      if c.FlushWait? then FlushReturned(c.token, c.barrier, code) else Returned(code)
    case Reserved(frame) => if c.OwnedReserve? then OwnedCopy(c.block, frame) else c
    case Submitted(id) => BorrowedReturned(id)
    case Issued(token) => FlushWait(token, barrier, !FlushSettled(o.session, token))
    case _ =>
      match c {
        case OwnedCheck(block, sized) => if sized then OwnedReserve(block, false) else Returned(INVALID_ARGUMENT)
        case BorrowedCheck(sized, valid) =>
          if !sized then Returned(INVALID_ARGUMENT) else if valid != OK then Returned(valid) else BorrowedPush(false)
        case OwnedCopy(block, frame) =>
          if copied == OK then OwnedPush(block, frame, false) else OwnedGiveBack(frame, copied)
        case CloseEnter => CloseTest
        case CloseTest => if o.verdict == Finish then CloseLast else CloseJoin
        case CloseJoin => CloseLast
        case _ => c
      }
  }

  // ---------- Steps ----------

  function Initial(capacity: nat, cpuAllowed: bool): State {
    State(Fresh(capacity, cpuAllowed), [], Idle(false), [], [], [], [])
  }

  predicate Enabled(s: State, e: Event) {
    match e
    case Start(entry) => IsEntry(entry)
    case Advance(call, _) => call < |s.calls| && Ready(s, s.calls[call])
    case Work(_) => WorkerReady(s)
    case Nudge(sleeper) => sleeper < |s.calls| && Asleep(s.calls[sleeper])
    case NudgeWorker => s.worker.Idle? && s.worker.asleep
  }

  /** The entries a section appended to the queue. */
  function Added(before: seq<Item>, after: seq<Item>): seq<Item> {
    if |before| < |after| then after[|before|..] else []
  }

  /** The entries a section of a call threw away: all that were queued, or none. */
  function Dropped(before: seq<Item>, after: seq<Item>): seq<Item> {
    if |after| < |before| then before else []
  }

  function Advanced(s: State, call: nat, copied: Code): State
    requires call < |s.calls|
  {
    var c := s.calls[call];
    var o := SectionOf(s.session, c);
    s.(session := o.session,
       calls := Rouse(s.calls[call := Resume(c, o, |s.history|, copied)], o.wakes),
       worker := RouseWorker(s.worker, o.wakes),
       history := s.history + Added(s.session.queue, o.session.queue),
       lost := Dropped(s.session.queue, o.session.queue) + s.lost)
  }

  function ActiveOf(item: Item): Option<nat> {
    if item.Borrowed? then Some(item.submission) else None
  }

  /** The worker at its wait: sleep, leave the loop, or start on the next entry. */
  function Taken(s: State): State {
    var o := Take(s.session);
    s.(session := o.session,
       calls := Rouse(s.calls, o.wakes),
       worker := match o.verdict
                 case Took(item) => Busy(item)
                 case Finish => Closing(None)
                 case _ => Idle(true))
  }

  /** The worker after the backend answered for an entry. */
  function Committed(s: State, item: Item, code: Code): State {
    var o := Commit(s.session, item, code);
    var t := s.(session := o.session, calls := Rouse(s.calls, o.wakes));
    if code == OK then t.(handled := s.handled + [item], worker := Idle(false))
    else t.(stuck := [item], lost := s.session.queue + s.lost, worker := Closing(ActiveOf(item)))
  }

  function Crashed(s: State, active: Option<nat>, stuck: seq<Item>): State {
    var o := Crash(s.session, active);
    s.(session := o.session, calls := Rouse(s.calls, o.wakes), worker := Exited(true), stuck := stuck)
  }

  function Shut(s: State, code: Code): State {
    var o := BackendClosed(s.session, code);
    s.(session := o.session, calls := Rouse(s.calls, o.wakes), worker := Exited(false))
  }

  function Worked(s: State, answer: Answer): State {
    match (s.worker, answer)
    case (Idle(_), _) => Taken(s)
    case (Busy(item), Answered(code)) => Committed(s, item, code)
    case (Busy(item), Threw) => Crashed(s, ActiveOf(item), [item])
    case (Closing(_), Answered(code)) => Shut(s, code)
    case (Closing(active), Threw) => Crashed(s, active, s.stuck)
    case (Exited(_), _) => s
  }

  /** One event; an event that is not enabled changes nothing, so every sequence of events is a run. */
  function Next(s: State, e: Event): State {
    if !Enabled(s, e) then s
    else
      match e
      case Start(entry) => s.(calls := s.calls + [entry])
      case Advance(call, copied) => Advanced(s, call, copied)
      case Work(answer) => Worked(s, answer)
      case Nudge(sleeper) => s.(calls := s.calls[sleeper := s.calls[sleeper].(asleep := false)])
      case NudgeWorker => s.(worker := Idle(false))
  }

  /** The state after a run. */
  function Final(s: State, events: seq<Event>): State {
    if events == [] then s else Next(Final(s, events[..|events| - 1]), events[|events| - 1])
  }
}
