/** Acquirers that wait for a slot of the CPU pool, and the single notification of a recycled slot. */
module PoolWaiters {
  import opened Results
  import opened SlotTable
  import opened CpuFramePool

  /** An acquisition: waiting, perhaps asleep, perhaps with its time run out; turned away; or with a slot. */
  datatype Caller =
    | Waiting(patience: Patience, asleep: bool, expired: bool)
    | TurnedAway(code: Code)
    | Holding(slot: nat, generation: nat)
    | Finished

  datatype State = State(pool: Pool, callers: seq<Caller>)

  /** `lucky` is the sleeper a notification wakes. */
  datatype Event =
    | Arrive(patience: Patience)
    | Attempt(caller: nat)
    | Expire(sleeper: nat)
    | Nudge(sleeper: nat)
    | GiveBack(holder: nat, lucky: nat)

  predicate Asleep(c: Caller) {
    c.Waiting? && c.asleep
  }

  predicate Awake(c: Caller) {
    c.Waiting? && !c.asleep
  }

  ghost predicate SomeAsleep(callers: seq<Caller>) {
    exists k :: 0 <= k < |callers| && Asleep(callers[k])
  }

  /** A notification reaches a sleeper if there is any. */
  ghost predicate FairLuck(callers: seq<Caller>, lucky: nat) {
    SomeAsleep(callers) ==> lucky < |callers| && Asleep(callers[lucky])
  }

  ghost predicate Enabled(s: State, e: Event) {
    match e
    case Arrive(_) => true
    case Attempt(k) => k < |s.callers| && Awake(s.callers[k])
    case Expire(k) => k < |s.callers| && Asleep(s.callers[k]) && s.callers[k].patience.AtMost?
    case Nudge(k) => k < |s.callers| && Asleep(s.callers[k])
    case GiveBack(k, lucky) =>
      k < |s.callers| && s.callers[k].Holding? && FairLuck(s.callers, lucky)
  }

  /** The test of the wait predicate and what follows it in the same critical section. */
  function Attempted(s: State, k: nat): State
    requires k < |s.callers| && Awake(s.callers[k])
  {
    var c := s.callers[k];
    var (pool, result) := Acquire(s.pool, c.patience, c.expired);
    var next := match result
                case Asleep => c.(asleep := true)
                case Rejected(code) => TurnedAway(code)
                case Leased(slot, generation) => Holding(slot, generation);
    State(pool, s.callers[k := next])
  }

  function Woken(callers: seq<Caller>, k: nat): seq<Caller> {
    if k < |callers| && Asleep(callers[k]) then callers[k := callers[k].(asleep := false)] else callers
  }

  /** The end of a lease: its slot is recycled and one waiter is notified. */
  function GivenBack(s: State, k: nat, lucky: nat): State
    requires k < |s.callers| && s.callers[k].Holding?
  {
    State(Recycle(s.pool, s.callers[k].slot, s.callers[k].generation), Woken(s.callers[k := Finished], lucky))
  }

  ghost function Next(s: State, e: Event): State {
    if !Enabled(s, e) then s
    else
      match e
      case Arrive(patience) => s.(callers := s.callers + [Waiting(patience, false, false)])
      case Attempt(k) => Attempted(s, k)
      case Expire(k) => s.(callers := s.callers[k := s.callers[k].(asleep := false, expired := true)])
      case Nudge(k) => s.(callers := Woken(s.callers, k))
      case GiveBack(k, lucky) => GivenBack(s, k, lucky)
  }

  ghost function Final(capacity: nat, events: seq<Event>): State {
    if events == [] then State(EmptyPool(capacity), [])
    else Next(Final(capacity, events[..|events| - 1]), events[|events| - 1])
  }

  // ---------- The invariant ----------

  function Awakes(callers: seq<Caller>): nat {
    if callers == [] then 0
    else Awakes(callers[..|callers| - 1]) + if Awake(callers[|callers| - 1]) then 1 else 0
  }

  function FreeSlots(slots: seq<Slot>): int {
    |slots| - Busy(slots)
  }

  /** Every holder has a slot of its own, under its current generation. */
  predicate Held(slots: seq<Slot>, callers: seq<Caller>) {
    && (forall k :: 0 <= k < |callers| && callers[k].Holding? ==>
          Current(slots, callers[k].slot, callers[k].generation))
    && (forall j, k :: 0 <= j < k < |callers| && callers[j].Holding? && callers[k].Holding? ==>
          callers[j].slot != callers[k].slot)
  }

  /** While an acquirer sleeps, every free slot has an awake acquirer coming for it. */
  ghost predicate Attended(slots: seq<Slot>, callers: seq<Caller>) {
    SomeAsleep(callers) ==> FreeSlots(slots) <= Awakes(callers)
  }

  ghost predicate Inv(s: State) {
    Held(s.pool.slots, s.callers) && Attended(s.pool.slots, s.callers)
  }

  lemma {:induction false} AwakesUpdate(callers: seq<Caller>, k: nat, c: Caller)
    requires k < |callers|
    ensures Awakes(callers[k := c])
         == Awakes(callers) - (if Awake(callers[k]) then 1 else 0) + if Awake(c) then 1 else 0
  {
    var n := |callers| - 1;
    if k < n {
      AwakesUpdate(callers[..n], k, c);
      assert callers[k := c][..n] == callers[..n][k := c];
    } else {
      assert callers[k := c][..n] == callers[..n];
    }
  }

  lemma {:induction false} AllBusy(slots: seq<Slot>)
    requires forall k :: 0 <= k < |slots| ==> slots[k].inUse
    ensures FreeSlots(slots) == 0
  {
    if slots != [] {
      AllBusy(slots[..|slots| - 1]);
    }
  }

  lemma InvAttempted(s: State, k: nat)
    requires Inv(s) && k < |s.callers| && Awake(s.callers[k])
    ensures Inv(Attempted(s, k))
  {
    var t := Attempted(s, k);
    AwakesUpdate(s.callers, k, t.callers[k]);
    match FirstFree(s.pool.slots, 0)
    case None => AllBusy(s.pool.slots);
    case Some(index) =>
      BusyUpdate(s.pool.slots, index, Slot(true, s.pool.slots[index].generation + 1));
      assert SomeAsleep(t.callers) ==> SomeAsleep(s.callers);
  }

  lemma InvGivenBack(s: State, k: nat, lucky: nat)
    requires Inv(s) && k < |s.callers| && s.callers[k].Holding? && FairLuck(s.callers, lucky)
    ensures Inv(GivenBack(s, k, lucky))
  {
    var c, t := s.callers[k], GivenBack(s, k, lucky);
    BusyUpdate(s.pool.slots, c.slot, Slot(false, c.generation));
    AwakesUpdate(s.callers, k, Finished);
    var callers := s.callers[k := Finished];
    if lucky < |callers| && Asleep(callers[lucky]) {
      AwakesUpdate(callers, lucky, callers[lucky].(asleep := false));
    }
    assert SomeAsleep(t.callers) ==> SomeAsleep(s.callers);
  }

  lemma InvWoken(s: State, k: nat, c: Caller)
    requires Inv(s) && k < |s.callers| && Asleep(s.callers[k]) && Awake(c)
    ensures Inv(s.(callers := s.callers[k := c]))
  {
    AwakesUpdate(s.callers, k, c);
  }

  lemma InvArrived(s: State, c: Caller)
    requires Inv(s) && Awake(c)
    ensures Inv(s.(callers := s.callers + [c]))
  {
    assert (s.callers + [c])[..|s.callers|] == s.callers;
    assert SomeAsleep(s.callers + [c]) ==> SomeAsleep(s.callers);
  }

  lemma InvNext(s: State, e: Event)
    requires Inv(s)
    ensures Inv(Next(s, e))
  {
    hide Inv;
    if Enabled(s, e) {
      match e
      case Arrive(patience) => InvArrived(s, Waiting(patience, false, false));
      case Attempt(k) => InvAttempted(s, k);
      case Expire(k) => InvWoken(s, k, s.callers[k].(asleep := false, expired := true));
      case Nudge(k) => InvWoken(s, k, s.callers[k].(asleep := false));
      case GiveBack(k, lucky) => InvGivenBack(s, k, lucky);
    }
  }

  lemma {:induction false} InvFinal(capacity: nat, events: seq<Event>)
    ensures Inv(Final(capacity, events))
  {
    if events != [] {
      InvFinal(capacity, events[..|events| - 1]);
      InvNext(Final(capacity, events[..|events| - 1]), events[|events| - 1]);
    }
  }

  // ---------- What it means ----------

  lemma {:induction false} SomeAwake(callers: seq<Caller>)
    requires Awakes(callers) > 0
    ensures exists k :: 0 <= k < |callers| && Awake(callers[k])
  {
    var n := |callers| - 1;
    if !Awake(callers[n]) {
      SomeAwake(callers[..n]);
      var k :| 0 <= k < n && Awake(callers[..n][k]);
      assert Awake(callers[k]);
    }
  }

  lemma {:induction false} FreeExists(slots: seq<Slot>)
    requires FirstFree(slots, 0).Some?
    ensures FreeSlots(slots) > 0
  {
    var k := FirstFree(slots, 0).value;
    BusyUpdate(slots, k, Slot(true, 0));
    BusyAtMost(slots[k := Slot(true, 0)]);
  }

  lemma {:induction false} BusyAtMost(slots: seq<Slot>)
    ensures Busy(slots) <= |slots|
  {
    if slots != [] {
      BusyAtMost(slots[..|slots| - 1]);
    }
  }

  /**
   * After every run no acquirer sleeps beside a free slot for good: there are at least as many awake
   * acquirers as free slots, and an awake one that tests the pool gets a slot if one is free.
   */
  lemma NoLostSlot(capacity: nat, events: seq<Event>)
    ensures var s := Final(capacity, events);
            && (SomeAsleep(s.callers) ==> FreeSlots(s.pool.slots) <= Awakes(s.callers))
            && (SomeAsleep(s.callers) && FirstFree(s.pool.slots, 0).Some? ==>
                  exists k :: 0 <= k < |s.callers| && Awake(s.callers[k]))
            && (forall k :: 0 <= k < |s.callers| && Awake(s.callers[k]) && FirstFree(s.pool.slots, 0).Some? ==>
                  Attempted(s, k).callers[k].Holding?)
  {
    var s := Final(capacity, events);
    InvFinal(capacity, events);
    if SomeAsleep(s.callers) && FirstFree(s.pool.slots, 0).Some? {
      FreeExists(s.pool.slots);
      SomeAwake(s.callers);
    }
  }

  /** Giving a slot back frees it and wakes a sleeper if there is one. */
  lemma GiveBackWakes(capacity: nat, events: seq<Event>, k: nat, lucky: nat)
    requires var s := Final(capacity, events);
             k < |s.callers| && s.callers[k].Holding? && FairLuck(s.callers, lucky)
    ensures var s := Final(capacity, events);
            var t := GivenBack(s, k, lucky);
            && FreeSlots(t.pool.slots) == FreeSlots(s.pool.slots) + 1
            && Awakes(t.callers) == Awakes(s.callers) + if SomeAsleep(s.callers) then 1 else 0
  {
    var s := Final(capacity, events);
    InvFinal(capacity, events);
    var c, callers := s.callers[k], s.callers[k := Finished];
    BusyUpdate(s.pool.slots, c.slot, Slot(false, c.generation));
    AwakesUpdate(s.callers, k, Finished);
    if lucky < |callers| && Asleep(callers[lucky]) {
      AwakesUpdate(callers, lucky, callers[lucky].(asleep := false));
      assert SomeAsleep(s.callers);
    }
  }
}
