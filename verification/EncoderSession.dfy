/** The shared state of an asynchronous encoder session, updated in place by its critical sections. */
module EncoderSession {
  import opened Results
  import opened EncoderSections

  lemma {:induction false} CompleteAllAppend(submissions: seq<Option<Code>>, queue: seq<Item>, item: Item, code: Code)
    ensures CompleteAll(submissions, queue + [item], code)
         == CompleteItem(CompleteAll(submissions, queue, code), item, code)
  {
    assert (queue + [item])[..|queue|] == queue;
  }

  class Impl {
    const capacity: nat
    const cpuAllowed: bool
    var queue: seq<Item>
    var free: seq<nat>
    var accepting: bool
    var closeRequested: bool
    var closed: bool
    var failed: bool
    var canceled: bool
    var terminal: Code
    var nextToken: nat
    var completedToken: nat
    var accepted: nat
    var completed: nat
    var rejected: nat
    var peak: nat
    var submissions: seq<Option<Code>>
    var joinable: bool

    /** The fields as one value, on which the sections are specified. */
    function View(): Session
      reads this
    {
      Session(capacity, cpuAllowed, queue, free, accepting, closeRequested, closed, failed, canceled, terminal,
              nextToken, completedToken, accepted, completed, rejected, peak, submissions, joinable)
    }

    constructor (capacity: nat, cpuAllowed: bool)
      ensures View() == Fresh(capacity, cpuAllowed)
    {
      this.capacity, this.cpuAllowed := capacity, cpuAllowed;
      queue, free, submissions := [], [], [];
      accepting, closeRequested, closed, failed, canceled := true, false, false, false, false;
      terminal, joinable := OK, capacity != 0;
      nextToken, completedToken, accepted, completed, rejected, peak := 0, 0, 0, 0, 0, 0;
      new;
      for index := 0 to capacity
        invariant free == FirstFrames(index)
        invariant View() == Fresh(capacity, cpuAllowed).(free := free)
      {
        free := free + [index];
      }
    }

    method StoppedResult() returns (code: Code)
      ensures code == Stopped(View())
    {
      if canceled {
        return CANCELLED;
      }
      return INVALID_STATE;
    }

    method CheckOpen() returns (verdict: Verdict)
      ensures verdict == Check(View())
    {
      if failed {
        return Return(terminal);
      }
      if !accepting {
        var code := StoppedResult();
        return Return(code);
      }
      return Proceed;
    }

    method ReserveFrame(block: bool) returns (verdict: Verdict, ghost wakes: set<Condition>)
      modifies this
      ensures Outcome(View(), verdict, wakes) == Reserve(old(View()), block)
    {
      wakes := {};
      if !block && (|queue| >= capacity || free == []) {
        rejected := rejected + 1;
        return Return(WOULD_BLOCK), wakes;
      }
      if block {
        var ready := (|queue| < capacity && free != []) || !accepting || failed;
        if !ready {
          return Sleep(HasSpace), wakes;
        }
      }
      if failed {
        return Return(terminal), wakes;
      }
      if !accepting {
        var code := StoppedResult();
        return Return(code), wakes;
      }
      // The source tests for a full queue or an empty pool once more; that test cannot fire here.
      assert |queue| < capacity && free != [];
      var frame := free[0];
      free := free[1..];
      return Reserved(frame), wakes;
    }

    method ReturnFrame(frame: nat, code: Code) returns (verdict: Verdict, ghost wakes: set<Condition>)
      modifies this
      ensures Outcome(View(), verdict, wakes) == GiveBack(old(View()), frame, code)
    {
      free := free + [frame];
      wakes := {HasSpace};
      return Return(code), wakes;
    }

    method PushOwned(block: bool, frame: nat) returns (verdict: Verdict, ghost wakes: set<Condition>)
      modifies this
      ensures Outcome(View(), verdict, wakes) == Push(old(View()), block, frame)
    {
      wakes := {};
      if block {
        var ready := |queue| < capacity || !accepting || failed;
        if !ready {
          return Sleep(HasSpace), wakes;
        }
      }
      if failed {
        free := free + [frame];
        return Return(terminal), wakes;
      }
      if !accepting {
        free := free + [frame];
        var code := StoppedResult();
        return Return(code), wakes;
      }
      if |queue| >= capacity {
        free := free + [frame];
        wakes := wakes + {HasSpace};
        rejected := rejected + 1;
        return Return(WOULD_BLOCK), wakes;
      }
      queue := queue + [Owned(frame)];
      accepted := accepted + 1;
      peak := Max(peak, |queue|);
      wakes := wakes + {HasItems};
      return Return(OK), wakes;
    }

    method EnqueueBorrowed() returns (verdict: Verdict, ghost wakes: set<Condition>)
      modifies this
      ensures Outcome(View(), verdict, wakes) == PushBorrowed(old(View()))
    {
      wakes := {};
      if capacity == 0 {
        return Return(NOT_SUPPORTED), wakes;
      }
      if !cpuAllowed {
        return Return(NOT_SUPPORTED), wakes;
      }
      var ready := |queue| < capacity || !accepting || failed;
      if !ready {
        return Sleep(HasSpace), wakes;
      }
      if failed {
        return Return(terminal), wakes;
      }
      if !accepting {
        var code := StoppedResult();
        return Return(code), wakes;
      }
      var id := |submissions|;
      submissions := submissions + [None];
      queue := queue + [Borrowed(id)];
      accepted := accepted + 1;
      peak := Max(peak, |queue|);
      wakes := wakes + {HasItems};
      return Submitted(id), wakes;
    }

    method BeginFlush() returns (verdict: Verdict, ghost wakes: set<Condition>)
      modifies this
      ensures Outcome(View(), verdict, wakes) == FlushBegin(old(View()))
    {
      wakes := {};
      var ready := |queue| < capacity || !accepting || failed;
      if !ready {
        return Sleep(HasSpace), wakes;
      }
      if failed {
        return Return(terminal), wakes;
      }
      if !accepting {
        var code := StoppedResult();
        return Return(code), wakes;
      }
      nextToken := nextToken + 1;
      var token := nextToken;
      queue := queue + [Flush(token)];
      wakes := wakes + {HasItems};
      return Issued(token), wakes;
    }

    method EndFlush(token: nat) returns (verdict: Verdict)
      ensures Outcome(View(), verdict, {}) == FlushEnd(View(), token)
    {
      var settled := completedToken >= token || failed || canceled;
      if !settled {
        return Sleep(StateChanged);
      }
      if failed {
        return Return(terminal);
      }
      if canceled {
        return Return(CANCELLED);
      }
      return Return(OK);
    }

    /** The loop of a cancellation: complete every queued submission and recycle every queued frame. */
    method RecycleQueue()
      modifies this`submissions, this`free
      ensures submissions == CompleteAll(old(submissions), queue, CANCELLED)
      ensures free == old(free) + FramesOf(queue)
    {
      for index := 0 to |queue|
        invariant submissions == CompleteAll(old(submissions), queue[..index], CANCELLED)
        invariant free == old(free) + FramesOf(queue[..index])
      {
        assert queue[..index + 1] == queue[..index] + [queue[index]];
        CompleteAllAppend(old(submissions), queue[..index], queue[index], CANCELLED);
        FramesOfAppend(queue[..index], queue[index]);
        var item := queue[index];
        if item.Borrowed? {
          submissions := Complete(submissions, item.submission, CANCELLED);
        }
        if item.Owned? {
          free := free + [item.frame];
        }
      }
      assert queue[..|queue|] == queue;
    }

    method CancelAll() returns (verdict: Verdict, ghost wakes: set<Condition>)
      modifies this
      ensures Outcome(View(), verdict, wakes) == Cancel(old(View()))
    {
      hide CompleteAll, FramesOf;
      wakes := {};
      if closed || canceled {
        return Return(OK), wakes;
      }
      if failed {
        return Return(terminal), wakes;
      }
      canceled := true;
      accepting := false;
      if capacity != 0 {
        closeRequested := true;
      }
      RecycleQueue();
      queue := [];
      wakes := {HasItems, HasSpace, StateChanged};
      return Return(OK), wakes;
    }

    method RequestStop() returns (ghost wakes: set<Condition>)
      modifies this
      ensures Outcome(View(), Proceed, wakes) == RequestClose(old(View()))
    {
      wakes := {};
      if !closeRequested {
        accepting := false;
        closeRequested := true;
        wakes := {HasItems, HasSpace};
      }
    }

    method TestWorker() returns (verdict: Verdict)
      ensures Outcome(View(), verdict, {}) == TestJoin(View())
    {
      if joinable {
        return Proceed;
      }
      return Finish;
    }

    method JoinWorker()
      modifies this`joinable
      ensures Outcome(View(), Proceed, {}) == Join(old(View()))
    {
      joinable := false;
    }

    method FinalResult() returns (code: Code)
      ensures code == CloseResult(View())
    {
      if failed {
        return terminal;
      }
      return OK;
    }

    method FailQueuedSubmissions(code: Code)
      modifies this`submissions
      ensures submissions == CompleteAll(old(submissions), queue, code)
    {
      for index := 0 to |queue|
        invariant submissions == CompleteAll(old(submissions), queue[..index], code)
      {
        assert queue[..index + 1] == queue[..index] + [queue[index]];
        CompleteAllAppend(old(submissions), queue[..index], queue[index], code);
        var item := queue[index];
        if item.Borrowed? {
          submissions := Complete(submissions, item.submission, code);
        }
      }
      assert queue[..|queue|] == queue;
    }

    method TakeItem() returns (verdict: Verdict, ghost wakes: set<Condition>)
      modifies this
      ensures Outcome(View(), verdict, wakes) == Take(old(View()))
    {
      wakes := {};
      var ready := closeRequested || queue != [];
      if !ready {
        return Sleep(HasItems), wakes;
      }
      if queue == [] && closeRequested {
        return Finish, wakes;
      }
      var item := queue[0];
      queue := queue[1..];
      wakes := {HasSpace};
      return Took(item), wakes;
    }

    /** The part of the worker's second region that books a failed entry. */
    method RecordFailure(item: Item, code: Code)
      modifies this
      ensures View() == Failing(old(View()), item, code)
    {
      hide CompleteAll, FramesOf, Complete;
      if item.Borrowed? {
        submissions := Complete(submissions, item.submission, code);
      }
      FailQueuedSubmissions(code);
      failed := true;
      accepting := false;
      terminal := code;
      queue := [];
    }

    method CommitItem(item: Item, code: Code) returns (verdict: Verdict, ghost wakes: set<Condition>)
      modifies this
      ensures Outcome(View(), verdict, wakes) == Commit(old(View()), item, code)
    {
      hide Complete, CompleteAll, Failing;
      wakes := {};
      if item.Owned? {
        free := free + [item.frame];
        wakes := wakes + {HasSpace};
      }
      if code != OK {
        RecordFailure(item, code);
        wakes := wakes + {StateChanged, HasSpace};
        return Finish, wakes;
      }
      if item.Flush? {
        completedToken := item.token;
        wakes := wakes + {StateChanged};
      } else {
        if item.Borrowed? {
          submissions := Complete(submissions, item.submission, OK);
        }
        completed := completed + 1;
      }
      return Proceed, wakes;
    }

    method FinishBackend(code: Code) returns (ghost wakes: set<Condition>)
      modifies this
      ensures Outcome(View(), Finish, wakes) == BackendClosed(old(View()), code)
    {
      if !failed && code != OK {
        failed := true;
        terminal := code;
      }
      closed := true;
      accepting := false;
      wakes := {StateChanged, HasSpace};
    }

    method HandleThrow(active: Option<nat>) returns (ghost wakes: set<Condition>)
      modifies this
      ensures Outcome(View(), Finish, wakes) == Crash(old(View()), active)
    {
      hide CompleteAll, FramesOf, Complete;
      if active.Some? {
        submissions := Complete(submissions, active.value, INTERNAL);
      }
      FailQueuedSubmissions(INTERNAL);
      failed := true;
      closed := true;
      accepting := false;
      terminal := INTERNAL;
      wakes := {StateChanged, HasSpace};
    }
  }
}
