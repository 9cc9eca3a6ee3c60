/** Completion state and lease accounting of one GPU frame, updated in place. */
module GpuFrame {
  import opened Results

  datatype Status = PENDING | COMPLETE | FAILED

  /** The lease state of a frame core, over whatever refers to its completions. */
  datatype Core<C> = Core(leases: nat, producer: Option<C>, consumers: seq<C>, recycled: bool)

  /** Recycling, if nothing stands against it; the flag says that the recycle callback is to run. */
  function Settle<C>(c: Core<C>, done: bool): (Core<C>, bool) {
    if c.recycled || c.leases != 0 || !done then (c, false) else (c.(recycled := true), true)
  }

  /** A new external lease, which a recycled core refuses. */
  function Lease<C>(c: Core<C>): Option<Core<C>> {
    if c.recycled then None else Some(c.(leases := c.leases + 1))
  }

  function Unlease<C>(c: Core<C>, done: bool): (Core<C>, bool) {
    Settle(if c.leases != 0 then c.(leases := c.leases - 1) else c, done)
  }

  function Consume<C>(c: Core<C>, completion: Option<C>): (Core<C>, Code) {
    match completion
    case None => (c, INVALID_ARGUMENT)
    case Some(added) =>
      if c.recycled then (c, INVALID_STATE) else (c.(consumers := c.consumers + [added]), OK)
  }

  /** What the queries of one loop answer, in the order in which they are made. */
  type Answers = nat -> Status

  /** How many completions a core waits for; without a producer it waits for ever. */
  function QueryCount<C>(c: Core<C>): nat {
    1 + |c.consumers|
  }

  /** No query of a loop is answered with pending: the producer's, and then one for each consumer. */
  ghost predicate AllDone<C>(c: Core<C>, answers: Answers) {
    && c.producer.Some? && answers(0) != PENDING
    && forall k :: 0 < k <= |c.consumers| ==> answers(k) != PENDING
  }

  /** A frame core over completions that are known by number and answer queries as they like. */
  class GpuFrameCore {
    var externalLeases: nat
    const producer: Option<nat>
    var consumers: seq<nat>
    var recycled: bool

    function View(): Core<nat>
      reads this
    {
      Core(externalLeases, producer, consumers, recycled)
    }

    constructor (producer: Option<nat>)
      ensures View() == Core(0, producer, [], false)
    {
      this.producer := producer;
      externalLeases, consumers, recycled := 0, [], false;
    }

    /** Asks one completion after another, and none after one that is pending. */
    method CompletionsDone(answers: Answers) returns (done: bool, asked: nat)
      ensures done <==> AllDone(View(), answers)
      ensures forall k :: 0 <= k < asked - 1 ==> answers(k) != PENDING
      ensures if done then asked == QueryCount(View())
              else if producer == None then asked == 0
              else 0 < asked <= QueryCount(View()) && answers(asked - 1) == PENDING
    {
      if producer == None {
        return false, 0;
      }
      if answers(0) == PENDING {
        return false, 1;
      }
      for index := 0 to |consumers|
        invariant forall k :: 0 <= k <= index ==> answers(k) != PENDING
      {
        if answers(index + 1) == PENDING {
          return false, index + 2;
        }
      }
      return true, 1 + |consumers|;
    }

    method MaybeRecycle(answers: Answers) returns (callback: bool)
      modifies this
      ensures (View(), callback) == Settle(old(View()), AllDone(old(View()), answers))
      ensures callback <==>
                && !old(recycled) && old(externalLeases) == 0
                && producer.Some? && answers(0) != PENDING
                && forall k :: 0 < k <= |old(consumers)| ==> answers(k) != PENDING
      ensures recycled == (old(recycled) || callback)
      ensures externalLeases == old(externalLeases) && consumers == old(consumers)
    {
      if recycled || externalLeases != 0 {
        return false;
      }
      var done, _ := CompletionsDone(answers);
      if !done {
        return false;
      }
      recycled := true;
      return true;
    }

    method AcquireExternal() returns (ok: bool)
      modifies this
      ensures ok <==> Lease(old(View())).Some?
      ensures View() == if ok then Lease(old(View())).value else old(View())
      ensures ok <==> !old(recycled)
      ensures externalLeases == old(externalLeases) + (if ok then 1 else 0)
      ensures recycled == old(recycled) && consumers == old(consumers)
    {
      if recycled {
        return false;
      }
      externalLeases := externalLeases + 1;
      return true;
    }

    method ReleaseExternal(answers: Answers) returns (callback: bool)
      modifies this
      ensures (View(), callback) == Unlease(old(View()), AllDone(old(View()), answers))
      // It recycles exactly if this was the last lease, if any, and no query is answered with pending.
      ensures callback <==>
                && !old(recycled) && old(externalLeases) <= 1
                && producer.Some? && answers(0) != PENDING
                && forall k :: 0 < k <= |old(consumers)| ==> answers(k) != PENDING
      ensures recycled == (old(recycled) || callback)
      ensures externalLeases == (if old(externalLeases) == 0 then 0 else old(externalLeases) - 1)
      ensures consumers == old(consumers)
    {
      if externalLeases != 0 {
        externalLeases := externalLeases - 1;
      }
      callback := MaybeRecycle(answers);
    }

    method AddConsumer(completion: Option<nat>) returns (code: Code)
      modifies this
      ensures (View(), code) == Consume(old(View()), completion)
      ensures completion == None ==> code == INVALID_ARGUMENT
      ensures completion.Some? ==> code == if old(recycled) then INVALID_STATE else OK
      ensures consumers == old(consumers) + (if code == OK then [completion.value] else [])
      ensures recycled == old(recycled) && externalLeases == old(externalLeases)
    {
      if completion == None {
        return INVALID_ARGUMENT;
      }
      if recycled {
        return INVALID_STATE;
      }
      consumers := consumers + [completion.value];
      return OK;
    }
  }
}
