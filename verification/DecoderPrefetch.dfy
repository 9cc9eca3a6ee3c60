/** The bounded prefetch queue of a decoder: its shared state and the sections that update it. */
module DecoderPrefetch {
  import opened Results

  /** What the backend's next frame read came back with. */
  datatype Outcome = Frame(pixels: nat) | Ended(code: Code)

  datatype Condition = NotEmpty | NotFull

  /** Notifications: one waiter of a condition, or all of its waiters. */
  datatype Wake = WakeNone | WakeOne(on: Condition) | WakeAll(conditions: set<Condition>)

  datatype Prefetch = Prefetch(
    capacity: nat,
    queue: seq<nat>,
    stopRequested: bool,
    workerFinished: bool,
    workerResult: Code,
    accepted: nat,
    completed: nat,
    peak: nat,
    joinable: bool)

  datatype Verdict = Sleep | Exit | Proceed | Deliver(outcome: Outcome) | Refuse

  datatype Step = Step(prefetch: Prefetch, verdict: Verdict, wake: Wake)

  function Fresh(capacity: nat): Prefetch {
    Prefetch(capacity, [], false, false, OK, 0, 0, 0, capacity != 0)
  }

  /** The worker before a backend read: wait for room, leave if stopping. */
  function Admit(s: Prefetch): Step {
    if !(s.stopRequested || |s.queue| < s.capacity) then Step(s, Sleep, WakeNone)
    else if s.stopRequested then Step(s, Exit, WakeNone)
    else Step(s, Proceed, WakeNone)
  }

  /** The worker after a backend read that returned. */
  function Store(s: Prefetch, outcome: Outcome): Step {
    if s.stopRequested then Step(s, Exit, WakeNone)
    else
      match outcome
      case Frame(pixels) =>
        var depth := |s.queue| + 1;
        Step(s.(queue := s.queue + [pixels], accepted := s.accepted + 1,
                peak := if s.peak < depth then depth else s.peak),
             Proceed, WakeOne(NotEmpty))
      case Ended(code) =>
        Step(s.(workerResult := code, workerFinished := true), Exit, WakeAll({NotEmpty}))
  }

  /** The worker's handlers after a backend read that threw. */
  function Fail(s: Prefetch): Step {
    Step(s.(workerResult := INTERNAL, workerFinished := true), Exit, WakeAll({NotEmpty}))
  }

  predicate ReadReady(s: Prefetch) {
    s.stopRequested || s.queue != [] || s.workerFinished
  }

  /** A consumer's read. */
  function Read(s: Prefetch): Step {
    if !ReadReady(s) then Step(s, Sleep, WakeNone)
    else if s.stopRequested then Step(s, Refuse, WakeNone)
    else if s.queue != [] then
      Step(s.(queue := s.queue[1..], completed := s.completed + 1), Deliver(Frame(s.queue[0])), WakeOne(NotFull))
    else Step(s, Deliver(Ended(s.workerResult)), WakeNone)
  }

  function Stop(s: Prefetch): Step {
    Step(s.(stopRequested := true), Proceed, WakeAll({NotEmpty, NotFull}))
  }

  /** The unlocked test of a stop: whether there is a worker left to join. */
  function TestJoin(s: Prefetch): Step {
    Step(s, if s.joinable then Proceed else Exit, WakeNone)
  }

  /** The end of a join, once the worker has exited. */
  function Join(s: Prefetch): Prefetch {
    s.(joinable := false)
  }

  /** After the join of the worker. */
  function Discard(s: Prefetch): Prefetch {
    s.(queue := [])
  }

  /** The prefetch fields of a decoder handle, updated in place. */
  class Decoder {
    const capacity: nat
    var queue: seq<nat>
    var stopRequested: bool
    var workerFinished: bool
    var workerResult: Code
    var acceptedFrames: nat
    var completedFrames: nat
    var peakQueueDepth: nat
    var joinable: bool

    function View(): Prefetch
      reads this
    {
      Prefetch(capacity, queue, stopRequested, workerFinished, workerResult, acceptedFrames, completedFrames,
               peakQueueDepth, joinable)
    }

    constructor (capacity: nat)
      ensures View() == Fresh(capacity)
    {
      this.capacity := capacity;
      queue, stopRequested, workerFinished, workerResult := [], false, false, OK;
      acceptedFrames, completedFrames, peakQueueDepth, joinable := 0, 0, 0, capacity != 0;
    }

    method AwaitRoom() returns (verdict: Verdict)
      ensures Step(View(), verdict, WakeNone) == Admit(View())
    {
      var ready := stopRequested || |queue| < capacity;
      if !ready {
        return Sleep;
      }
      if stopRequested {
        return Exit;
      }
      return Proceed;
    }

    method StoreResult(outcome: Outcome) returns (verdict: Verdict, ghost wake: Wake)
      modifies this
      ensures Step(View(), verdict, wake) == Store(old(View()), outcome)
    {
      wake := WakeNone;
      if stopRequested {
        return Exit, wake;
      }
      if outcome.Frame? {
        queue := queue + [outcome.pixels];
        acceptedFrames := acceptedFrames + 1;
        peakQueueDepth := if peakQueueDepth < |queue| then |queue| else peakQueueDepth;
        wake := WakeOne(NotEmpty);
        return Proceed, wake;
      }
      workerResult := outcome.code;
      workerFinished := true;
      wake := WakeAll({NotEmpty});
      return Exit, wake;
    }

    method HandleThrow() returns (ghost wake: Wake)
      modifies this
      ensures Step(View(), Exit, wake) == Fail(old(View()))
    {
      workerResult := INTERNAL;
      workerFinished := true;
      wake := WakeAll({NotEmpty});
    }

    method ReadPrefetched() returns (verdict: Verdict, ghost wake: Wake)
      modifies this
      ensures Step(View(), verdict, wake) == Read(old(View()))
    {
      wake := WakeNone;
      var ready := stopRequested || queue != [] || workerFinished;
      if !ready {
        return Sleep, wake;
      }
      if stopRequested {
        return Refuse, wake;
      }
      if queue != [] {
        var frame := queue[0];
        queue := queue[1..];
        completedFrames := completedFrames + 1;
        wake := WakeOne(NotFull);
        return Deliver(Frame(frame)), wake;
      }
      return Deliver(Ended(workerResult)), wake;
    }

    method RequestStop() returns (ghost wake: Wake)
      modifies this
      ensures Step(View(), Proceed, wake) == Stop(old(View()))
    {
      stopRequested := true;
      wake := WakeAll({NotEmpty, NotFull});
    }

    method TestWorker() returns (verdict: Verdict)
      ensures Step(View(), verdict, WakeNone) == TestJoin(View())
    {
      if joinable {
        return Proceed;
      }
      return Exit;
    }

    method JoinWorker()
      modifies this`joinable
      ensures View() == Join(old(View()))
    {
      joinable := false;
    }

    method DiscardQueue()
      modifies this
      ensures View() == Discard(old(View()))
    {
      queue := [];
    }
  }
}
