/**
 * The encoder session and the buffer pool together: borrowed submissions, from the caller's buffer to
 * the return of its slot.
 */
module BorrowedSlots {
  import opened Results
  import opened EncoderSections
  import opened CpuFramePool
  import Encoder = EncoderMachine
  import EncoderInvariant
  import EncoderSafety
  import Leases = LeaseMachine

  /** The encoder numbers its submissions as the leases do. */
  datatype State = State(session: Encoder.State, leases: Leases.State)

  /**
   * A step of the session; if it accepts a borrowed frame, `buffer` is what the caller submitted. What
   * the session decides for a submission reaches the submission in a step of its own.
   */
  datatype Event =
    | Session(step: Encoder.Event, buffer: nat)
    | AcquireBuffer(patience: Patience, expired: bool)
    | HandOver(submission: nat)
    | Deliver(submission: nat)
    | Release(handle: nat)

  function Decided(s: State): seq<Option<Code>> {
    s.session.session.submissions
  }

  predicate Accepts(s: State, step: Encoder.Event) {
    |Encoder.Next(s.session, step).session.submissions| > |Decided(s)|
  }

  predicate Enabled(s: State, e: Event) {
    match e
    case Session(step, buffer) => Accepts(s, step) ==> Leases.Enabled(s.leases, Leases.Submit(buffer))
    case Deliver(submission) => submission < |Decided(s)| && Decided(s)[submission].Some?
    case _ => true
  }

  /** What a step means for the leases. */
  function Effect(s: State, e: Event): Option<Leases.Event>
    requires Enabled(s, e)
  {
    match e
    case Session(step, buffer) => if Accepts(s, step) then Some(Leases.Submit(buffer)) else None
    case AcquireBuffer(patience, expired) => Some(Leases.AcquireBuffer(patience, expired))
    case HandOver(submission) => Some(Leases.HandOver(submission))
    case Deliver(submission) => Some(Leases.Finish(submission, Decided(s)[submission].value))
    case Release(handle) => Some(Leases.Release(handle))
  }

  function Next(s: State, e: Event): State
    requires Leases.InRange(s.leases)
  {
    if !Enabled(s, e) then s
    else
      State(if e.Session? then Encoder.Next(s.session, e.step) else s.session,
            match Effect(s, e)
            case Some(effect) => Leases.Next(s.leases, effect)
            case None => s.leases)
  }

  function Initial(capacity: nat, cpuAllowed: bool, slots: nat): State {
    State(Encoder.Initial(capacity, cpuAllowed), Leases.Initial(slots))
  }

  function Final(capacity: nat, cpuAllowed: bool, slots: nat, events: seq<Event>): (s: State)
    requires 0 < capacity
    ensures Inv(s)
  {
    if events == [] then
      InvInitial(capacity, cpuAllowed, slots);
      Initial(capacity, cpuAllowed, slots)
    else
      var s := Final(capacity, cpuAllowed, slots, events[..|events| - 1]);
      InvNext(s, events[|events| - 1]);
      Next(s, events[|events| - 1])
  }

  // ---------- The invariant ----------

  /** A submission has the result the session decided for it, or none yet. */
  predicate Coupled(results: seq<Option<Code>>, submissions: seq<Leases.Submission>) {
    && |submissions| == |results|
    && forall id :: 0 <= id < |results| && submissions[id].ticket.result.Some? ==>
         submissions[id].ticket.result == results[id]
  }

  ghost predicate Inv(s: State) {
    && EncoderInvariant.Inv(s.session) && Leases.Inv(s.leases) && Leases.InRange(s.leases)
    && Coupled(Decided(s), s.leases.submissions)
  }

  lemma InvInitial(capacity: nat, cpuAllowed: bool, slots: nat)
    requires 0 < capacity
    ensures Inv(Initial(capacity, cpuAllowed, slots))
  {
    EncoderInvariant.InvInitial(capacity, cpuAllowed);
    Leases.InvInitial(slots);
  }

  lemma InvNext(s: State, e: Event)
    requires Inv(s)
    ensures Inv(Next(s, e))
  {
    hide Encoder.Next, Leases.Next, EncoderInvariant.Inv, Leases.Inv, Leases.InRange, Coupled;
    if Enabled(s, e) {
      var t := Next(s, e);
      if e.Session? {
        EncoderInvariant.InvNext(s.session, e.step);
      }
      if Effect(s, e).Some? {
        Leases.InvNext(s.leases, Effect(s, e).value);
      }
      Leases.InvInRange(t.leases);
      if e.Session? {
        CoupledSession(s, e);
      } else {
        CoupledLeases(s, e);
      }
    }
  }

  lemma CoupledSession(s: State, e: Event)
    requires Inv(s) && Enabled(s, e) && e.Session?
    ensures Coupled(Decided(Next(s, e)), Next(s, e).leases.submissions)
  {
    hide Encoder.Next, Leases.Next, EncoderInvariant.Inv, Leases.Inv, Leases.InRange, Leases.Enabled, Coupled;
    var after := Encoder.Next(s.session, e.step).session.submissions;
    EncoderSafety.ResultKeptStep(s.session, e.step);
    EncoderSafety.OneSubmissionMore(s.session, e.step);
    if Accepts(s, e.step) {
      Leases.SubmitAppends(s.leases, e.buffer);
      CoupledMore(Decided(s), after, s.leases.submissions,
                  Leases.Submission(Ticket(None, None), e.buffer, true));
    } else {
      CoupledSame(Decided(s), after, s.leases.submissions);
    }
  }

  lemma CoupledMore(before: seq<Option<Code>>, after: seq<Option<Code>>, submissions: seq<Leases.Submission>,
                    added: Leases.Submission)
    requires Coupled(before, submissions) && EncoderSafety.Extends(before, after) && |after| == |before| + 1
    requires added.ticket.result == None
    ensures Coupled(after, submissions + [added])
  {
  }

  lemma CoupledSame(before: seq<Option<Code>>, after: seq<Option<Code>>, submissions: seq<Leases.Submission>)
    requires Coupled(before, submissions) && EncoderSafety.Extends(before, after) && |after| == |before|
    ensures Coupled(after, submissions)
  {
  }

  lemma CoupledLeases(s: State, e: Event)
    requires Inv(s) && Enabled(s, e) && !e.Session?
    ensures Coupled(Decided(Next(s, e)), Next(s, e).leases.submissions)
  {
    Leases.OnlyFinishDecides(s.leases, Effect(s, e).value);
    hide Leases.Next, Leases.Inv, EncoderInvariant.Inv, Leases.InRange, Leases.Enabled, Encoder.Next;
  }

  // ---------- What every run guarantees ----------

  lemma OpenIsPending(s: State, id: nat)
    requires Inv(s) && Borrowed(id) in EncoderInvariant.Open(s.session)
    ensures id < |s.leases.submissions| && s.leases.submissions[id].ticket.result == None
  {
    assert Borrowed(id) in EncoderInvariant.Rest(s.session);
    assert Borrowed(id) in s.session.history;
    EncoderSafety.StatusTells(s.session, id);
  }

  /**
   * The slot behind a borrowed entry that is queued or with the backend stays leased under the
   * generation it was submitted with, and no other lease that is alive has it.
   */
  lemma OpenEntryPinsSlot(capacity: nat, cpuAllowed: bool, slots: nat, events: seq<Event>, id: nat)
    requires 0 < capacity
    requires Borrowed(id) in EncoderInvariant.Open(Final(capacity, cpuAllowed, slots, events).session)
    ensures var s := Final(capacity, cpuAllowed, slots, events);
            id < |s.leases.submissions| && Leases.Pinned(s.leases, id)
  {
    var s := Final(capacity, cpuAllowed, slots, events);
    OpenIsPending(s, id);
    Leases.PendingPinsSlot(s.leases, id);
  }

  /** So no other live lease shows its holder a plane that the backend may still read. */
  lemma OpenPlanesUnshared(capacity: nat, cpuAllowed: bool, slots: nat, events: seq<Event>, id: nat,
                           g: Geometry, other: nat, plane: Buffer)
    requires 0 < capacity
    requires Borrowed(id) in EncoderInvariant.Open(Final(capacity, cpuAllowed, slots, events).session)
    requires var leases := Final(capacity, cpuAllowed, slots, events).leases.leases;
             other < |leases| && leases[other].recycles == 0 && plane in ViewOf(g, leases[other].slot).planes
    ensures var s := Final(capacity, cpuAllowed, slots, events).leases;
            && id < |s.submissions| && s.submissions[id].buffer < |s.leases|
            && (plane in ViewOf(g, s.leases[s.submissions[id].buffer].slot).planes ==>
                  other == s.submissions[id].buffer)
  {
    OpenEntryPinsSlot(capacity, cpuAllowed, slots, events, id);
    var s := Final(capacity, cpuAllowed, slots, events).leases;
    ViewsApart(g, s.leases[s.submissions[id].buffer].slot, s.leases[other].slot);
  }

  /** Every result that the session decided has reached its submission, and no caller keeps a handle. */
  predicate AllDelivered(s: State)
    requires |s.leases.submissions| == |Decided(s)|
  {
    && (forall id :: 0 <= id < |Decided(s)| && Decided(s)[id].Some? ==>
          s.leases.submissions[id].ticket.result.Some?)
    && forall l :: 0 <= l < |s.leases.leases| ==> !s.leases.leases[l].held
  }

  /** Once the worker has exited, all results are delivered and all handles dropped, no slot is in use. */
  lemma SlotsComeBack(capacity: nat, cpuAllowed: bool, slots: nat, events: seq<Event>)
    requires 0 < capacity
    requires var s := Final(capacity, cpuAllowed, slots, events); s.session.worker.Exited? && AllDelivered(s)
    ensures var pool := Final(capacity, cpuAllowed, slots, events).leases.pool;
            pool.inUse == 0 && forall k :: 0 <= k < |pool.slots| ==> !pool.slots[k].inUse
  {
    var s := Final(capacity, cpuAllowed, slots, events);
    forall id | 0 <= id < |Decided(s)|
      ensures s.leases.submissions[id].ticket.result.Some?
    {
      EncoderSafety.StatusTells(s.session, id);
      assert EncoderInvariant.Open(s.session) == [];
    }
    Leases.AllReturned(s.leases);
  }

  // ---------- What a caller is told of a submission ----------

  /** The steps of the session alone in a run. */
  function SessionSteps(capacity: nat, cpuAllowed: bool, slots: nat, events: seq<Event>): seq<Encoder.Event>
    requires 0 < capacity
  {
    if events == [] then []
    else
      var earlier, e := events[..|events| - 1], events[|events| - 1];
      SessionSteps(capacity, cpuAllowed, slots, earlier)
        + if e.Session? && Enabled(Final(capacity, cpuAllowed, slots, earlier), e) then [e.step] else []
  }

  /** They are a run of the session. */
  lemma {:induction false} SessionRun(capacity: nat, cpuAllowed: bool, slots: nat, events: seq<Event>)
    requires 0 < capacity
    ensures Final(capacity, cpuAllowed, slots, events).session
         == Encoder.Final(Encoder.Initial(capacity, cpuAllowed), SessionSteps(capacity, cpuAllowed, slots, events))
  {
    if events != [] {
      var earlier, e := events[..|events| - 1], events[|events| - 1];
      SessionRun(capacity, cpuAllowed, slots, earlier);
      var s, steps := Final(capacity, cpuAllowed, slots, earlier), SessionSteps(capacity, cpuAllowed, slots, earlier);
      SessionMoves(s, e);
      hide Next, Inv, Encoder.Next, Enabled;
      if e.Session? && Enabled(s, e) {
        assert SessionSteps(capacity, cpuAllowed, slots, events) == steps + [e.step];
        assert (steps + [e.step])[..|steps|] == steps;
      } else {
        assert SessionSteps(capacity, cpuAllowed, slots, events) == steps + [];
        assert steps + [] == steps;
      }
    }
  }

  lemma SessionMoves(s: State, e: Event)
    requires Leases.InRange(s.leases)
    ensures e.Session? && Enabled(s, e) ==> Next(s, e).session == Encoder.Next(s.session, e.step)
    ensures !(e.Session? && Enabled(s, e)) ==> Next(s, e).session == s.session
  {
    hide Encoder.Next, Leases.Next, Leases.InRange, Leases.Enabled;
  }

  /**
   * In every run of session and pool together, a query reports a submission complete exactly if its result
   * has reached it and the backend has written its frame successfully; pending exactly until then; and
   * cancelled or failed otherwise.
   */
  lemma QueryTells(capacity: nat, cpuAllowed: bool, slots: nat, events: seq<Event>, id: nat)
    requires 0 < capacity && id < |Final(capacity, cpuAllowed, slots, events).leases.submissions|
    ensures var ticket := Final(capacity, cpuAllowed, slots, events).leases.submissions[id].ticket;
            var log := EncoderSafety.BackendLog(Encoder.Initial(capacity, cpuAllowed),
                                                SessionSteps(capacity, cpuAllowed, slots, events));
            && (StatusOf(ticket) == COMPLETE <==>
                  ticket.result.Some? && Borrowed(id) in EncoderSafety.Succeeded(log))
            && (StatusOf(ticket) == PENDING <==> ticket.result == None)
            && (Borrowed(id) in EncoderInvariant.Open(Final(capacity, cpuAllowed, slots, events).session) ==>
                  StatusOf(ticket) == PENDING)
  {
    var s, steps := Final(capacity, cpuAllowed, slots, events), SessionSteps(capacity, cpuAllowed, slots, events);
    SessionRun(capacity, cpuAllowed, slots, events);
    EncoderSafety.SubmissionResult(capacity, cpuAllowed, steps, id);
    if Borrowed(id) in EncoderInvariant.Open(s.session) {
      OpenIsPending(s, id);
    }
  }
}
