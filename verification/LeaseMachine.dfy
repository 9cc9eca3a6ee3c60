/**
 * Native buffers submitted to the encoder, under every interleaving of acquisition, submission, the
 * hand-over of ownership to the submission, its completion, and the release of the caller's handle.
 */
module LeaseMachine {
  import opened Results
  import opened SlotTable
  import opened CpuFramePool

  /** A shared lease object: whether the caller's handle refers to it, its references, its destructions. */
  datatype Lease = Lease(slot: nat, generation: nat, held: bool, refs: nat, recycles: nat)

  /** A submission of a buffer; `handing` until the submitting call has set its owner. */
  datatype Submission = Submission(ticket: Ticket, buffer: nat, handing: bool)

  datatype State = State(pool: Pool, leases: seq<Lease>, submissions: seq<Submission>)

  datatype Event =
    | AcquireBuffer(patience: Patience, expired: bool)
    | Submit(buffer: nat)
    | HandOver(submission: nat)
    | Finish(finished: nat, code: Code)
    | Release(handle: nat)

  function Initial(capacity: nat): State {
    State(EmptyPool(capacity), [], [])
  }

  /** The C ABI requires a buffer handle to stay alive during every call that uses it. */
  predicate InCall(s: State, lease: nat) {
    exists k :: 0 <= k < |s.submissions| && s.submissions[k].handing && s.submissions[k].buffer == lease
  }

  predicate Enabled(s: State, e: Event) {
    match e
    case AcquireBuffer(_, _) => true
    case Submit(buffer) => buffer < |s.leases| && s.leases[buffer].held
    case HandOver(submission) => submission < |s.submissions| && s.submissions[submission].handing
    case Finish(finished, _) => finished < |s.submissions|
    case Release(handle) => handle < |s.leases| && s.leases[handle].held && !InCall(s, handle)
  }

  /** Dropping a reference; the last one destroys the lease, which recycles its slot. */
  function Drop(s: State, lease: nat): State
    requires lease < |s.leases|
  {
    var l := s.leases[lease];
    if l.refs == 0 then s
    else if l.refs > 1 then s.(leases := s.leases[lease := l.(refs := l.refs - 1)])
    else s.(leases := s.leases[lease := l.(refs := 0, recycles := l.recycles + 1)],
            pool := Recycle(s.pool, l.slot, l.generation))
  }

  function Acquired(s: State, patience: Patience, expired: bool): State {
    var (pool, result) := Acquire(s.pool, patience, expired);
    if result.Leased? then State(pool, s.leases + [Lease(result.slot, result.generation, true, 1, 0)], s.submissions)
    else s.(pool := pool)
  }

  /** A submission starts with a check of the lease's view, which a live lease always passes. */
  function Submitted(s: State, buffer: nat): State
    requires buffer < |s.leases|
  {
    if Current(s.pool.slots, s.leases[buffer].slot, s.leases[buffer].generation) then
      s.(submissions := s.submissions + [Submission(Ticket(None, None), buffer, true)])
    else s
  }

  function HandedOver(s: State, k: nat): State
    requires k < |s.submissions| && s.submissions[k].buffer < |s.leases|
  {
    var m := s.submissions[k];
    var updated := s.submissions[k := m.(ticket := Owned(m.ticket, m.buffer), handing := false)];
    if m.ticket.result.Some? then s.(submissions := updated)
    else
      var l := s.leases[m.buffer];
      s.(submissions := updated, leases := s.leases[m.buffer := l.(refs := l.refs + 1)])
  }

  function Finished(s: State, k: nat, code: Code): State
    requires k < |s.submissions|
    requires s.submissions[k].ticket.owner.Some? ==> s.submissions[k].ticket.owner.value < |s.leases|
  {
    var m := s.submissions[k];
    var t := s.(submissions := s.submissions[k := m.(ticket := Completed(m.ticket, code))]);
    if m.ticket.result == None && m.ticket.owner.Some? then Drop(t, m.ticket.owner.value) else t
  }

  function Released(s: State, lease: nat): State
    requires lease < |s.leases|
  {
    Drop(s.(leases := s.leases[lease := s.leases[lease].(held := false)]), lease)
  }

  /** One event of a state whose references are in range; an event that is not enabled changes nothing. */
  function Next(s: State, e: Event): State
    requires InRange(s)
  {
    if !Enabled(s, e) then s
    else
      match e
      case AcquireBuffer(patience, expired) => Acquired(s, patience, expired)
      case Submit(buffer) => Submitted(s, buffer)
      case HandOver(submission) => HandedOver(s, submission)
      case Finish(finished, code) => Finished(s, finished, code)
      case Release(handle) => Released(s, handle)
  }

  predicate InRange(s: State) {
    forall k :: 0 <= k < |s.submissions| ==>
      && s.submissions[k].buffer < |s.leases|
      && (s.submissions[k].ticket.owner.Some? ==> s.submissions[k].ticket.owner.value == s.submissions[k].buffer)
  }

  function Final(capacity: nat, events: seq<Event>): (s: State)
    ensures Inv(s)
  {
    if events == [] then
      InvInitial(capacity);
      Initial(capacity)
    else
      var s := Final(capacity, events[..|events| - 1]);
      InvNext(s, events[|events| - 1]);
      Next(s, events[|events| - 1])
  }

  // ---------- The invariant ----------

  /** How many submissions own a lease. */
  function Owners(submissions: seq<Submission>, lease: nat): nat {
    if submissions == [] then 0
    else
      var last := submissions[|submissions| - 1];
      Owners(submissions[..|submissions| - 1], lease) + if last.ticket.owner == Some(lease) then 1 else 0
  }

  function Handles(l: Lease): nat {
    if l.held then 1 else 0
  }

  predicate LeaseOk(p: Pool, l: Lease) {
    && l.slot < |p.slots| && 1 <= l.generation <= p.slots[l.slot].generation
    && l.recycles == (if l.refs > 0 then 0 else 1)
    && (l.refs > 0 <==> p.slots[l.slot] == Slot(true, l.generation))
  }

  predicate SubmissionOk(s: State, m: Submission) {
    && m.buffer < |s.leases|
    && (m.handing ==> s.leases[m.buffer].held && m.ticket.owner == None)
    && (m.ticket.result.Some? ==> m.ticket.owner == None)
    && (m.ticket.owner.Some? ==> m.ticket.owner.value == m.buffer)
    && (m.ticket.result == None && !m.handing ==> m.ticket.owner == Some(m.buffer))
  }

  /** How many lease objects are alive. */
  function Live(leases: seq<Lease>): nat {
    if leases == [] then 0
    else Live(leases[..|leases| - 1]) + if leases[|leases| - 1].refs > 0 then 1 else 0
  }

  /** The pool's counter, its busy slots and the live leases agree. */
  predicate CountsOk(p: Pool, leases: seq<Lease>) {
    && p.inUse == Busy(p.slots) == Live(leases)
    && p.inUse <= p.peak
    && p.acquisitions == |leases|
  }

  predicate LeasesOk(p: Pool, leases: seq<Lease>) {
    && (forall l :: 0 <= l < |leases| ==> LeaseOk(p, leases[l]))
    && (forall j, l :: 0 <= j < l < |leases| && leases[j].slot == leases[l].slot ==>
          leases[j].generation < leases[l].generation)
  }

  predicate SubmissionsOk(s: State) {
    forall k :: 0 <= k < |s.submissions| ==> SubmissionOk(s, s.submissions[k])
  }

  /** Every reference count is exact, but for `extra` references to one lease that are being dropped. */
  predicate RefsOk(s: State, lease: nat, extra: nat) {
    forall l :: 0 <= l < |s.leases| ==>
      s.leases[l].refs == Handles(s.leases[l]) + Owners(s.submissions, l) + if l == lease then extra else 0
  }

  predicate Inv(s: State) {
    CountsOk(s.pool, s.leases) && LeasesOk(s.pool, s.leases) && SubmissionsOk(s) && RefsOk(s, 0, 0)
  }

  lemma InvInitial(capacity: nat)
    ensures Inv(Initial(capacity))
  {
    NoneBusy(capacity);
  }

  lemma {:induction false} OwnersUpdate(submissions: seq<Submission>, k: nat, m: Submission, lease: nat)
    requires k < |submissions|
    ensures Owners(submissions[k := m], lease) + (if submissions[k].ticket.owner == Some(lease) then 1 else 0)
         == Owners(submissions, lease) + if m.ticket.owner == Some(lease) then 1 else 0
  {
    var n := |submissions| - 1;
    if k < n {
      OwnersUpdate(submissions[..n], k, m, lease);
      assert submissions[k := m][..n] == submissions[..n][k := m];
    } else {
      assert submissions[k := m][..n] == submissions[..n];
    }
  }

  lemma {:induction false} NoOwners(submissions: seq<Submission>, lease: nat)
    requires forall k :: 0 <= k < |submissions| ==> submissions[k].ticket.owner != Some(lease)
    ensures Owners(submissions, lease) == 0
  {
    if submissions != [] {
      NoOwners(submissions[..|submissions| - 1], lease);
    }
  }

  lemma {:induction false} LiveUpdate(leases: seq<Lease>, k: nat, l: Lease)
    requires k < |leases|
    ensures Live(leases[k := l]) + (if leases[k].refs > 0 then 1 else 0)
         == Live(leases) + if l.refs > 0 then 1 else 0
  {
    var n := |leases| - 1;
    if k < n {
      LiveUpdate(leases[..n], k, l);
      assert leases[k := l][..n] == leases[..n][k := l];
    } else {
      assert leases[k := l][..n] == leases[..n];
    }
  }

  lemma CountsAcquired(s: State, patience: Patience, expired: bool)
    requires CountsOk(s.pool, s.leases)
    ensures CountsOk(Acquired(s, patience, expired).pool, Acquired(s, patience, expired).leases)
  {
    var t := Acquired(s, patience, expired);
    if |t.leases| > |s.leases| {
      var l := t.leases[|s.leases|];
      BusyUpdate(s.pool.slots, l.slot, Slot(true, l.generation));
      assert t.leases[..|s.leases|] == s.leases;
    }
  }

  lemma LeasesAcquired(s: State, patience: Patience, expired: bool)
    requires LeasesOk(s.pool, s.leases)
    ensures LeasesOk(Acquired(s, patience, expired).pool, Acquired(s, patience, expired).leases)
  {
    var t := Acquired(s, patience, expired);
    forall l | 0 <= l < |t.leases|
      ensures LeaseOk(t.pool, t.leases[l])
    {
      if l < |s.leases| {
        assert LeaseOk(s.pool, s.leases[l]);
      }
    }
  }

  lemma InvAcquired(s: State, patience: Patience, expired: bool)
    requires Inv(s)
    ensures Inv(Acquired(s, patience, expired))
  {
    CountsAcquired(s, patience, expired);
    LeasesAcquired(s, patience, expired);
    SubmissionsAcquired(s, patience, expired);
    RefsAcquired(s, patience, expired);
    hide Acquired, CountsOk, LeasesOk, SubmissionsOk, RefsOk;
  }

  /** An acquisition adds at most one lease, which the caller alone holds. */
  lemma AcquiredParts(s: State, patience: Patience, expired: bool)
    ensures var t := Acquired(s, patience, expired);
            && t.submissions == s.submissions
            && (t.leases == s.leases
                || (|t.leases| == |s.leases| + 1 && t.leases == s.leases + [t.leases[|s.leases|]]
                    && t.leases[|s.leases|].held && t.leases[|s.leases|].refs == 1))
  {
    hide Acquire;
  }

  lemma SubmissionsAcquired(s: State, patience: Patience, expired: bool)
    requires SubmissionsOk(s)
    ensures SubmissionsOk(Acquired(s, patience, expired))
  {
    var t := Acquired(s, patience, expired);
    AcquiredParts(s, patience, expired);
    hide Acquired;
    forall k | 0 <= k < |t.submissions|
      ensures SubmissionOk(t, t.submissions[k])
    {
      assert SubmissionOk(s, s.submissions[k]);
    }
  }

  lemma RefsAcquired(s: State, patience: Patience, expired: bool)
    requires SubmissionsOk(s) && RefsOk(s, 0, 0)
    ensures RefsOk(Acquired(s, patience, expired), 0, 0)
  {
    AcquiredParts(s, patience, expired);
    hide Acquired;
    forall k | 0 <= k < |s.submissions|
      ensures s.submissions[k].ticket.owner != Some(|s.leases|)
    {
      assert SubmissionOk(s, s.submissions[k]);
    }
    NoOwners(s.submissions, |s.leases|);
    hide Owners, SubmissionsOk;
  }

  lemma InvSubmitted(s: State, buffer: nat)
    requires Inv(s) && buffer < |s.leases| && s.leases[buffer].held
    ensures Inv(Submitted(s, buffer))
  {
    var t := Submitted(s, buffer);
    if |t.submissions| > |s.submissions| {
      assert t.submissions[..|s.submissions|] == s.submissions;
      forall k | 0 <= k < |t.submissions|
        ensures SubmissionOk(t, t.submissions[k])
      {
        if k < |s.submissions| {
          assert SubmissionOk(s, s.submissions[k]);
        }
      }
    }
  }

  lemma InvHandedOver(s: State, k: nat)
    requires Inv(s) && k < |s.submissions| && s.submissions[k].handing
    ensures Inv(HandedOver(s, k))
  {
    var t, m := HandedOver(s, k), s.submissions[k];
    assert SubmissionOk(s, m) && LeaseOk(s.pool, s.leases[m.buffer]);
    LiveUpdate(s.leases, m.buffer, t.leases[m.buffer]);
    assert t.leases == s.leases[m.buffer := t.leases[m.buffer]];
    LeaseGrown(s.pool, s.leases, m.buffer, t.leases[m.buffer]);
    forall l | 0 <= l < |t.leases|
      ensures t.leases[l].refs == Handles(t.leases[l]) + Owners(t.submissions, l)
    {
      OwnersUpdate(s.submissions, k, t.submissions[k], l);
    }
    forall j | 0 <= j < |t.submissions|
      ensures SubmissionOk(t, t.submissions[j])
    {
      assert SubmissionOk(s, s.submissions[j]);
    }
  }

  /** Changing the holders of a live lease, without its last reference going, keeps the leases in order. */
  lemma LeaseGrown(p: Pool, leases: seq<Lease>, k: nat, l: Lease)
    requires LeasesOk(p, leases) && k < |leases| && leases[k].refs > 0 && l.refs > 0
    requires l == leases[k].(refs := l.refs, held := l.held)
    ensures LeasesOk(p, leases[k := l])
  {
    var changed := leases[k := l];
    forall j | 0 <= j < |changed|
      ensures LeaseOk(p, changed[j])
    {
      assert LeaseOk(p, leases[j]);
    }
  }

  /** Recycling on the last reference frees the slot of that lease and of no other. */
  lemma LeaseEnded(p: Pool, leases: seq<Lease>, k: nat)
    requires LeasesOk(p, leases) && CountsOk(p, leases) && k < |leases| && leases[k].refs > 0
    ensures var l := leases[k];
            var ended := leases[k := l.(refs := 0, recycles := l.recycles + 1)];
            LeasesOk(Recycle(p, l.slot, l.generation), ended) && CountsOk(Recycle(p, l.slot, l.generation), ended)
  {
    var l := leases[k];
    var over := l.(refs := 0, recycles := l.recycles + 1);
    var q, ended := Recycle(p, l.slot, l.generation), leases[k := over];
    assert LeaseOk(p, l);
    LiveUpdate(leases, k, over);
    BusyUpdate(p.slots, l.slot, Slot(false, l.generation));
    forall j | 0 <= j < |ended|
      ensures LeaseOk(q, ended[j])
    {
      assert LeaseOk(p, leases[j]);
    }
  }

  lemma InvDropped(s: State, lease: nat)
    requires CountsOk(s.pool, s.leases) && LeasesOk(s.pool, s.leases) && SubmissionsOk(s)
    requires lease < |s.leases| && RefsOk(s, lease, 1)
    ensures Inv(Drop(s, lease))
  {
    var t, l := Drop(s, lease), s.leases[lease];
    LeasesDropped(s, lease);
    hide LeasesOk, CountsOk, LeaseOk, Owners, Recycle;
    assert SubmissionsOk(t) by {
      forall k | 0 <= k < |t.submissions|
        ensures SubmissionOk(t, t.submissions[k])
      {
        assert SubmissionOk(s, s.submissions[k]);
      }
    }
  }

  lemma LeasesDropped(s: State, lease: nat)
    requires CountsOk(s.pool, s.leases) && LeasesOk(s.pool, s.leases)
    requires lease < |s.leases| && s.leases[lease].refs > 0
    ensures CountsOk(Drop(s, lease).pool, Drop(s, lease).leases)
    ensures LeasesOk(Drop(s, lease).pool, Drop(s, lease).leases)
  {
    var t, l := Drop(s, lease), s.leases[lease];
    hide Recycle, LeasesOk, Live, Busy;
    if l.refs == 1 {
      LeaseEnded(s.pool, s.leases, lease);
    } else {
      LiveUpdate(s.leases, lease, t.leases[lease]);
      LeaseGrown(s.pool, s.leases, lease, t.leases[lease]);
    }
  }

  lemma InvFinished(s: State, k: nat, code: Code)
    requires Inv(s) && k < |s.submissions|
    requires s.submissions[k].ticket.owner.Some? ==> s.submissions[k].ticket.owner.value < |s.leases|
    ensures Inv(Finished(s, k, code))
  {
    var m := s.submissions[k];
    var done := m.(ticket := Completed(m.ticket, code));
    var t := s.(submissions := s.submissions[k := done]);
    forall l | 0 <= l < |s.leases|
      ensures Owners(t.submissions, l) == Owners(s.submissions, l)
                - if m.ticket.result == None && m.ticket.owner == Some(l) then 1 else 0
    {
      assert SubmissionOk(s, m);
      OwnersUpdate(s.submissions, k, done, l);
    }
    forall j | 0 <= j < |t.submissions|
      ensures SubmissionOk(t, t.submissions[j])
    {
      assert SubmissionOk(s, s.submissions[j]);
    }
    if m.ticket.result == None && m.ticket.owner.Some? {
      InvDropped(t, m.ticket.owner.value);
    }
  }

  lemma InvReleased(s: State, lease: nat)
    requires Inv(s) && lease < |s.leases| && s.leases[lease].held && !InCall(s, lease)
    ensures Inv(Released(s, lease))
  {
    var loose := s.leases[lease].(held := false);
    var t := s.(leases := s.leases[lease := loose]);
    assert LeaseOk(s.pool, s.leases[lease]);
    LiveUpdate(s.leases, lease, loose);
    LeaseGrown(s.pool, s.leases, lease, loose);
    forall j | 0 <= j < |t.submissions|
      ensures SubmissionOk(t, t.submissions[j])
    {
      assert SubmissionOk(s, s.submissions[j]);
    }
    InvDropped(t, lease);
  }

  lemma InvNext(s: State, e: Event)
    requires Inv(s)
    ensures InRange(s) && Inv(Next(s, e))
  {
    BuffersInRange(s);
    if Enabled(s, e) {
      match e
      case AcquireBuffer(patience, expired) => InvAcquired(s, patience, expired);
      case Submit(buffer) => InvSubmitted(s, buffer);
      case HandOver(submission) => InvHandedOver(s, submission);
      case Finish(finished, code) => InvFinished(s, finished, code);
      case Release(handle) => InvReleased(s, handle);
    }
  }

  lemma BuffersInRange(s: State)
    requires SubmissionsOk(s)
    ensures InRange(s)
  {
    forall k | 0 <= k < |s.submissions|
      ensures s.submissions[k].buffer < |s.leases|
      ensures s.submissions[k].ticket.owner.Some? ==> s.submissions[k].ticket.owner.value == s.submissions[k].buffer
    {
      assert SubmissionOk(s, s.submissions[k]);
    }
  }

  lemma InvInRange(s: State)
    requires Inv(s)
    ensures InRange(s)
  {
    BuffersInRange(s);
  }

  /** Submitting a buffer whose handle is alive makes one new submission, which is pending. */
  lemma SubmitAppends(s: State, buffer: nat)
    requires Inv(s) && InRange(s) && Enabled(s, Submit(buffer))
    ensures Next(s, Submit(buffer)).submissions == s.submissions + [Submission(Ticket(None, None), buffer, true)]
  {
    assert LeaseOk(s.pool, s.leases[buffer]);
  }

  /** Of the other events only `Finish` gives a result, and only to its own submission. */
  lemma OnlyFinishDecides(s: State, e: Event)
    requires InRange(s) && !e.Submit?
    ensures var t := Next(s, e);
            && |t.submissions| == |s.submissions|
            && forall k :: 0 <= k < |s.submissions| ==>
                 || t.submissions[k].ticket.result == s.submissions[k].ticket.result
                 || (e.Finish? && e.finished == k && t.submissions[k].ticket.result == Some(e.code))
  {
  }

  // ---------- What every run guarantees ----------

  /** The slot of a submission is leased under its generation, and no other lease that is alive has it. */
  predicate Pinned(s: State, k: nat)
    requires k < |s.submissions|
  {
    var buffer := s.submissions[k].buffer;
    && buffer < |s.leases|
    && s.leases[buffer].recycles == 0
    && Current(s.pool.slots, s.leases[buffer].slot, s.leases[buffer].generation)
    && forall l :: 0 <= l < |s.leases| && l != buffer && s.leases[l].recycles == 0 ==>
         s.leases[l].slot != s.leases[buffer].slot
  }

  /** While a submission is pending, its buffer's slot stays leased to it, and no other lease has it. */
  lemma PendingPinsSlot(s: State, k: nat)
    requires Inv(s) && k < |s.submissions| && s.submissions[k].ticket.result == None
    ensures Pinned(s, k)
  {
    var m := s.submissions[k];
    assert SubmissionOk(s, m);
    if !m.handing {
      OwnerCounted(s.submissions, k, m.buffer);
    }
    assert LeaseOk(s.pool, s.leases[m.buffer]);
  }

  lemma {:induction false} OwnerCounted(submissions: seq<Submission>, k: nat, lease: nat)
    requires k < |submissions| && submissions[k].ticket.owner == Some(lease)
    ensures 0 < Owners(submissions, lease)
  {
    var n := |submissions| - 1;
    if k < n {
      OwnerCounted(submissions[..n], k, lease);
    }
  }

  /** No acquisition, in any state a run reaches, hands out the slot of a pending submission. */
  lemma NeverReacquired(s: State, k: nat, patience: Patience, expired: bool)
    requires Inv(s) && k < |s.submissions| && s.submissions[k].ticket.result == None
    ensures var (_, result) := Acquire(s.pool, patience, expired);
            result.Leased? ==>
              s.submissions[k].buffer < |s.leases| && result.slot != s.leases[s.submissions[k].buffer].slot
  {
    PendingPinsSlot(s, k);
  }

  /**
   * A slot is recycled exactly when neither the caller nor a submission refers to its lease, and then
   * exactly once; the pool counts its busy slots, which are those of
   * the live leases; a recycled lease never gets a view again.
   */
  lemma RecycledOnce(capacity: nat, events: seq<Event>, l: nat)
    requires l < |Final(capacity, events).leases|
    ensures var s := Final(capacity, events);
            var lease := s.leases[l];
            && lease.recycles <= 1
            && (lease.recycles == 0 <==> lease.held || Owners(s.submissions, l) > 0)
            && (lease.recycles == 0 <==> Current(s.pool.slots, lease.slot, lease.generation))
            && s.pool.inUse == Busy(s.pool.slots) == Live(s.leases)
  {
    assert LeaseOk(Final(capacity, events).pool, Final(capacity, events).leases[l]);
  }

  /** Once every submission has its result and the caller has dropped its handles, no slot is in use. */
  lemma AllReturned(s: State)
    requires Inv(s)
    requires forall k :: 0 <= k < |s.submissions| ==> s.submissions[k].ticket.result.Some?
    requires forall l :: 0 <= l < |s.leases| ==> !s.leases[l].held
    ensures s.pool.inUse == 0 && forall k :: 0 <= k < |s.pool.slots| ==> !s.pool.slots[k].inUse
  {
    forall l | 0 <= l < |s.leases|
      ensures s.leases[l].refs == 0
    {
      forall k | 0 <= k < |s.submissions|
        ensures s.submissions[k].ticket.owner != Some(l)
      {
        assert SubmissionOk(s, s.submissions[k]);
      }
      NoOwners(s.submissions, l);
    }
    NoneLive(s.leases);
    NoneInUse(s.pool.slots);
  }

  lemma {:induction false} NoneLive(leases: seq<Lease>)
    requires forall l :: 0 <= l < |leases| ==> leases[l].refs == 0
    ensures Live(leases) == 0
  {
    if leases != [] {
      NoneLive(leases[..|leases| - 1]);
    }
  }

  lemma {:induction false} NoneInUse(slots: seq<Slot>)
    requires Busy(slots) == 0
    ensures forall k :: 0 <= k < |slots| ==> !slots[k].inUse
  {
    if slots != [] {
      NoneInUse(slots[..|slots| - 1]);
    }
  }
}
