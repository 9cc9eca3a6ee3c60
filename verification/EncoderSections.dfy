/**
 * The critical sections of the asynchronous encoder session as functions on its shared fields.
 *
 * Every function below is one region the source runs under the session mutex: from taking the
 * lock, or from waking up inside a wait, to releasing it or going back to sleep.
 */
module EncoderSections {
  import opened Results

  /** A queue entry: a pooled frame copy, a borrowed frame with its submission, or a flush barrier. */
  datatype Item = Owned(frame: nat) | Borrowed(submission: nat) | Flush(token: nat)

  /** The three condition variables of a session. */
  datatype Condition = HasItems | HasSpace | StateChanged

  /**
   * The fields guarded by the session mutex, with the submissions it has handed out, and whether the
   * worker thread can still be joined, which no mutex guards.
   */
  datatype Session = Session(
    capacity: nat,
    cpuAllowed: bool,
    queue: seq<Item>,
    free: seq<nat>,
    accepting: bool,
    closeRequested: bool,
    closed: bool,
    failed: bool,
    canceled: bool,
    terminal: Code,
    nextToken: nat,
    completedToken: nat,
    accepted: nat,
    completed: nat,
    rejected: nat,
    peak: nat,
    submissions: seq<Option<Code>>,
    joinable: bool)

  /** How a section ends for the thread that ran it. */
  datatype Verdict =
    | Proceed
    | Sleep(on: Condition)
    | Return(code: Code)
    | Reserved(frame: nat)
    | Submitted(submission: nat)
    | Issued(token: nat)
    | Took(item: Item)
    | Finish

  /** The new fields, the verdict, and the conditions notified before the lock is released. */
  datatype Outcome = Outcome(session: Session, verdict: Verdict, wakes: set<Condition>)

  // ---------- Creation ----------

  function FirstFrames(count: nat): seq<nat> {
    seq(count, i => i)
  }

  /** A session as its factory leaves it: idle, accepting, with one pooled frame per queue place. */
  function Fresh(capacity: nat, cpuAllowed: bool): Session {
    Session(capacity, cpuAllowed, [], FirstFrames(capacity), true, false, false, false, false, OK,
            0, 0, 0, 0, 0, 0, [], capacity != 0)
  }

  // ---------- Shared pieces ----------

  /** The code a call reports once the session no longer accepts work. */
  function Stopped(s: Session): Code {
    if s.canceled then CANCELLED else INVALID_STATE
  }

  /** The wait predicate of a producer that needs a queue place. */
  predicate CanPush(s: Session) {
    |s.queue| < s.capacity || !s.accepting || s.failed
  }

  /** The wait predicate of a producer that needs a queue place and a pooled frame. */
  predicate CanReserve(s: Session) {
    (|s.queue| < s.capacity && s.free != []) || !s.accepting || s.failed
  }

  /** The wait predicate of the worker. */
  predicate CanTake(s: Session) {
    s.closeRequested || s.queue != []
  }

  /** The wait predicate of a flush that has queued its barrier. */
  predicate FlushSettled(s: Session, token: nat) {
    s.completedToken >= token || s.failed || s.canceled
  }

  function Max(a: nat, b: nat): nat {
    if a < b then b else a
  }

  /** Appends an accepted frame and wakes the worker. */
  function Accept(s: Session, item: Item): Session {
    s.(queue := s.queue + [item], accepted := s.accepted + 1, peak := Max(s.peak, |s.queue| + 1))
  }

  /** Completes one submission; only the first completion has an effect. */
  function Complete(submissions: seq<Option<Code>>, id: nat, code: Code): seq<Option<Code>> {
    if id < |submissions| && submissions[id] == None then submissions[id := Some(code)] else submissions
  }

  function CompleteItem(submissions: seq<Option<Code>>, item: Item, code: Code): seq<Option<Code>> {
    if item.Borrowed? then Complete(submissions, item.submission, code) else submissions
  }

  /** Completes the submission of every borrowed entry of a queue, front to back. */
  function CompleteAll(submissions: seq<Option<Code>>, queue: seq<Item>, code: Code): seq<Option<Code>> {
    if queue == [] then submissions
    else CompleteItem(CompleteAll(submissions, queue[..|queue| - 1], code), queue[|queue| - 1], code)
  }

  /** The pooled frames a queue holds, front to back. */
  function FramesOf(queue: seq<Item>): seq<nat> {
    if queue == [] then []
    else
      var last := queue[|queue| - 1];
      FramesOf(queue[..|queue| - 1]) + if last.Owned? then [last.frame] else []
  }

  lemma FramesOfAppend(queue: seq<Item>, item: Item)
    ensures FramesOf(queue + [item]) == FramesOf(queue) + if item.Owned? then [item.frame] else []
  {
    assert (queue + [item])[..|queue|] == queue;
  }

  // ---------- Producers ----------

  /** The first region of an owned submission: is the session still open? */
  function Check(s: Session): Verdict {
    if s.failed then Return(s.terminal)
    else if !s.accepting then Return(Stopped(s))
    else Proceed
  }

  /** The second region: take a pooled frame, waiting for one and for a queue place if asked to. */
  function Reserve(s: Session, block: bool): Outcome {
    if !block && (|s.queue| >= s.capacity || s.free == []) then
      Outcome(s.(rejected := s.rejected + 1), Return(WOULD_BLOCK), {})
    else if block && !CanReserve(s) then Outcome(s, Sleep(HasSpace), {})
    else if s.failed then Outcome(s, Return(s.terminal), {})
    else if !s.accepting then Outcome(s, Return(Stopped(s)), {})
    else Outcome(s.(free := s.free[1..]), Reserved(s.free[0]), {})
  }

  /** The region a failed copy runs: hand the pooled frame back. */
  function GiveBack(s: Session, frame: nat, code: Code): Outcome {
    Outcome(s.(free := s.free + [frame]), Return(code), {HasSpace})
  }

  /** The third region: queue the copied frame, or hand it back. */
  function Push(s: Session, block: bool, frame: nat): Outcome {
    if block && !CanPush(s) then Outcome(s, Sleep(HasSpace), {})
    else if s.failed then Outcome(s.(free := s.free + [frame]), Return(s.terminal), {})
    else if !s.accepting then Outcome(s.(free := s.free + [frame]), Return(Stopped(s)), {})
    else if |s.queue| >= s.capacity then
      Outcome(s.(free := s.free + [frame], rejected := s.rejected + 1), Return(WOULD_BLOCK), {HasSpace})
    else Outcome(Accept(s, Owned(frame)), Return(OK), {HasItems})
  }

  /** The only region of a borrowed submission: wait for a queue place and queue the caller's frame. */
  function PushBorrowed(s: Session): Outcome {
    if s.capacity == 0 then Outcome(s, Return(NOT_SUPPORTED), {})
    else if !s.cpuAllowed then Outcome(s, Return(NOT_SUPPORTED), {})
    else if !CanPush(s) then Outcome(s, Sleep(HasSpace), {})
    else if s.failed then Outcome(s, Return(s.terminal), {})
    else if !s.accepting then Outcome(s, Return(Stopped(s)), {})
    else
      var id := |s.submissions|;
      Outcome(Accept(s, Borrowed(id)).(submissions := s.submissions + [None]), Submitted(id), {HasItems})
  }

  // ---------- Control ----------

  /** The first region of a flush: wait for a queue place and queue a barrier with a new token. */
  function FlushBegin(s: Session): Outcome {
    if !CanPush(s) then Outcome(s, Sleep(HasSpace), {})
    else if s.failed then Outcome(s, Return(s.terminal), {})
    else if !s.accepting then Outcome(s, Return(Stopped(s)), {})
    else
      var token := s.nextToken + 1;
      Outcome(s.(nextToken := token, queue := s.queue + [Flush(token)]), Issued(token), {HasItems})
  }

  /** The region a flush runs whenever it wakes up after its barrier was queued. */
  function FlushEnd(s: Session, token: nat): Outcome {
    if !FlushSettled(s, token) then Outcome(s, Sleep(StateChanged), {})
    else if s.failed then Outcome(s, Return(s.terminal), {})
    else if s.canceled then Outcome(s, Return(CANCELLED), {})
    else Outcome(s, Return(OK), {})
  }

  /** Cancellation: complete and recycle everything that is still queued, and wake every waiter. */
  function Cancel(s: Session): Outcome {
    if s.closed || s.canceled then Outcome(s, Return(OK), {})
    else if s.failed then Outcome(s, Return(s.terminal), {})
    else
      Outcome(s.(canceled := true, accepting := false,
                 closeRequested := s.closeRequested || s.capacity != 0,
                 submissions := CompleteAll(s.submissions, s.queue, CANCELLED),
                 free := s.free + FramesOf(s.queue),
                 queue := []),
              Return(OK), {HasItems, HasSpace, StateChanged})
  }

  /** The first region of a close. */
  function RequestClose(s: Session): Outcome {
    if s.closeRequested then Outcome(s, Proceed, {})
    else Outcome(s.(accepting := false, closeRequested := true), Proceed, {HasItems, HasSpace})
  }

  /** The unlocked test of a close: whether there is a worker left to join. */
  function TestJoin(s: Session): Outcome {
    Outcome(s, if s.joinable then Proceed else Finish, {})
  }

  /** The end of a join, once the worker has exited. */
  function Join(s: Session): Outcome {
    Outcome(s.(joinable := false), Proceed, {})
  }

  /** The last region of a close. */
  function CloseResult(s: Session): Code {
    if s.failed then s.terminal else OK
  }

  // ---------- Worker ----------

  /** The worker's first region: wait for an entry and take it, or leave the loop. */
  function Take(s: Session): Outcome {
    if !CanTake(s) then Outcome(s, Sleep(HasItems), {})
    else if s.queue == [] then Outcome(s, Finish, {})
    else Outcome(s.(queue := s.queue[1..]), Took(s.queue[0]), {HasSpace})
  }

  /** The session with the frame of a committed entry back in its pool. */
  function Recycled(s: Session, item: Item): Session {
    if item.Owned? then s.(free := s.free + [item.frame]) else s
  }

  /** The session after the backend refused an entry: everything that is queued fails with it. */
  function Failing(s: Session, item: Item, code: Code): Session {
    s.(submissions := CompleteAll(CompleteItem(s.submissions, item, code), s.queue, code), queue := [],
       failed := true, accepting := false, terminal := code)
  }

  /** The session after the backend accepted an entry. */
  function Booked(s: Session, item: Item): Session {
    if item.Flush? then s.(completedToken := item.token)
    else s.(submissions := CompleteItem(s.submissions, item, OK), completed := s.completed + 1)
  }

  /** The worker's second region: book the backend's answer to one entry. */
  function Commit(s: Session, item: Item, code: Code): Outcome {
    if code != OK then Outcome(Failing(Recycled(s, item), item, code), Finish, {StateChanged, HasSpace})
    else
      Outcome(Booked(Recycled(s, item), item), Proceed,
              if item.Flush? then {StateChanged} else if item.Owned? then {HasSpace} else {})
  }

  /** The worker's last region, after it has closed the backend. */
  function BackendClosed(s: Session, code: Code): Outcome {
    var failing := !s.failed && code != OK;
    Outcome(s.(failed := s.failed || failing, terminal := if failing then code else s.terminal,
               closed := true, accepting := false),
            Finish, {StateChanged, HasSpace})
  }

  /** The region the worker's handlers run when a backend call threw. */
  function Crash(s: Session, active: Option<nat>): Outcome {
    var first := if active.Some? then Complete(s.submissions, active.value, INTERNAL) else s.submissions;
    Outcome(s.(submissions := CompleteAll(first, s.queue, INTERNAL), failed := true, closed := true,
               accepting := false, terminal := INTERNAL),
            Finish, {StateChanged, HasSpace})
  }
}
