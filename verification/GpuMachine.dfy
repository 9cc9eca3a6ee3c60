/**
 * GPU frames under every interleaving: pool acquisition and external import, handle creation, retain
 * and release, consumers, completion changes, recycling, the recycle callback and destruction.
 */
module GpuMachine {
  import opened Results
  import opened SlotTable
  import opened GpuFrame
  import Slots = GpuFramePool

  /** Where a frame comes from; an import is accepted or refused only after its handle is made. */
  datatype Origin =
    | Pooled(slot: nat, generation: nat)
    | External(accepted: bool, refused: bool, releases: nat)

  /** The recycle callback of a frame: not due, due in the thread that recycled, or over. */
  datatype Callback = NotDue | Due | Ran

  /** A completion, with how often it has gone back to pending. */
  datatype Mark = Mark(status: Status, backs: nat)

  /**
   * The query loop of a frame runs under the frame's mutex, which does not guard the completions. While
   * it runs, `seen` holds for every completion it found done how often that one had gone back before.
   */
  datatype Check = Idle | Asking(seen: seq<nat>)

  /**
   * A frame core: its lease state over completion numbers, its origin, the owners outside handles, the
   * handles being made, the handles dropped whose lease is still to be returned, the query loop, and how
   * far its destruction got: what it waited for, whether it is in its last check, and the completion
   * that check found pending, if it did.
   */
  datatype Frame = Frame(
    core: Core<nat>,
    origin: Origin,
    owners: nat,
    making: nat,
    dropping: nat,
    check: Check,
    callback: Callback,
    waits: seq<nat>,
    dying: bool,
    missed: Option<nat>,
    destroyed: bool)

  /** An ABI handle: alive while its references last; unpublished while its import is not accepted. */
  datatype Handle = Handle(frame: nat, refs: nat, published: bool)

  datatype State = State(
    pool: Slots.Pool,
    completions: seq<Mark>,
    frames: seq<Frame>,
    handles: seq<Handle>)

  datatype Event =
    | NewCompletion
    | SetStatus(completion: nat, status: Status)
    | AcquireFrame(producer: nat)
    | ImportFrame(producer: nat)
    | BeginHandle(frame: nat)
    | EndHandle(made: nat, succeeded: bool)
    | Accept(handle: nat)
    | Retain(handle: nat)
    | Release(handle: nat)
    | ReturnLease(frame: nat)
    | AddConsumer(frame: nat, completion: nat)
    | Poll(frame: nat)
    | Query(frame: nat)
    | RunCallback(frame: nat)
    | DropOwner(frame: nat)
    | AwaitCompletion(frame: nat)
    | Destroy(frame: nat)

  // ---------- Completions ----------

  predicate IsDone(completions: seq<Mark>, completion: nat) {
    completion < |completions| && completions[completion].status != PENDING
  }

  /** No completion of the core is pending. */
  predicate Quiet(completions: seq<Mark>, c: Core<nat>) {
    forall j :: 0 <= j < |Awaited(c)| ==> IsDone(completions, Awaited(c)[j])
  }

  /** The completions of a core in the order in which they are queried and waited for. */
  function Awaited(c: Core<nat>): seq<nat> {
    (match c.producer case Some(p) => [p] case None => []) + c.consumers
  }

  /** A completion was seen done when it had gone back so often: it still is, or has gone back since. */
  predicate SeenDone(completions: seq<Mark>, completion: nat, backs: nat) {
    && completion < |completions| && backs <= completions[completion].backs
    && (completions[completion].backs == backs ==> completions[completion].status != PENDING)
  }

  // ---------- References ----------

  /** How many live handles a frame has. */
  function LiveHandles(handles: seq<Handle>, frame: nat): nat {
    if handles == [] then 0
    else
      var last := handles[|handles| - 1];
      LiveHandles(handles[..|handles| - 1], frame) + if last.frame == frame && last.refs > 0 then 1 else 0
  }

  /** Someone still holds the shared pointer of a frame. */
  predicate Referenced(s: State, frame: nat)
    requires frame < |s.frames|
  {
    var f := s.frames[frame];
    || f.owners > 0 || f.making > 0 || f.dropping > 0 || LiveHandles(s.handles, frame) > 0
    || (f.check.Asking? && !f.dying)
  }

  predicate Usable(s: State, handle: nat) {
    && handle < |s.handles| && s.handles[handle].refs > 0 && s.handles[handle].published
    && s.handles[handle].frame < |s.frames|
  }

  /** An import makes one handle before it returns. */
  predicate MayMake(s: State, frame: nat)
    requires frame < |s.frames|
  {
    var f := s.frames[frame];
    f.origin.External? && !f.origin.accepted ==>
      !f.origin.refused && f.making == 0 && LiveHandles(s.handles, frame) == 0
  }

  /** No query loop holds the frame's mutex. */
  predicate Unlocked(s: State, frame: nat) {
    frame < |s.frames| && s.frames[frame].check.Idle?
  }

  predicate Enabled(s: State, e: Event) {
    match e
    case NewCompletion => true
    case SetStatus(completion, _) => completion < |s.completions|
    case AcquireFrame(producer) => producer < |s.completions|
    case ImportFrame(producer) => producer < |s.completions|
    case BeginHandle(frame) => Unlocked(s, frame) && Referenced(s, frame) && MayMake(s, frame)
    case EndHandle(frame, _) => frame < |s.frames| && s.frames[frame].making > 0
    case Accept(handle) =>
      && handle < |s.handles| && s.handles[handle].refs > 0 && !s.handles[handle].published
      && s.handles[handle].frame < |s.frames|
    case Retain(handle) => Usable(s, handle) && Unlocked(s, s.handles[handle].frame)
    case Release(handle) => Usable(s, handle)
    case ReturnLease(frame) => Unlocked(s, frame) && s.frames[frame].dropping > 0
    case AddConsumer(frame, completion) =>
      Unlocked(s, frame) && completion < |s.completions| && Referenced(s, frame)
    case Poll(frame) => Unlocked(s, frame) && Referenced(s, frame)
    case Query(frame) => frame < |s.frames| && Querying(s.frames[frame])
    case RunCallback(frame) => frame < |s.frames| && s.frames[frame].callback == Due
    case DropOwner(frame) => frame < |s.frames| && s.frames[frame].owners > 0
    case AwaitCompletion(frame) =>
      && frame < |s.frames| && !Referenced(s, frame) && MayAwait(s.frames[frame])
      && IsDone(s.completions, Awaited(s.frames[frame].core)[|s.frames[frame].waits|])
    case Destroy(frame) => frame < |s.frames| && !Referenced(s, frame) && MayDestroy(s.frames[frame])
  }

  predicate Querying(f: Frame) {
    f.check.Asking? && |f.check.seen| < |Awaited(f.core)|
  }

  predicate MayAwait(f: Frame) {
    !f.destroyed && !f.dying && !f.core.recycled && |f.waits| < |Awaited(f.core)|
  }

  predicate MayDestroy(f: Frame) {
    !f.destroyed && !f.dying && (f.core.recycled || |f.waits| == |Awaited(f.core)|)
  }

  // ---------- Steps ----------

  function NewFrame(producer: nat, origin: Origin): Frame {
    Frame(Core(0, Some(producer), [], false), origin, 1, 0, 0, Idle, NotDue, [], false, None, false)
  }

  /** A frame whose core was settled; recycling makes its callback due. */
  function Settled(f: Frame, settled: (Core<nat>, bool)): Frame {
    f.(core := settled.0, callback := if settled.1 then Due else f.callback)
  }

  /** The start of a query loop, if nothing but pending completions stands against recycling. */
  function Checked(f: Frame): Frame {
    if f.core.recycled || f.core.leases != 0 then f else f.(check := Asking([]))
  }

  /** One query: of the next completion, under the frame's mutex. */
  function Queried(completions: seq<Mark>, f: Frame): Frame
    requires Querying(f)
  {
    var j := |f.check.seen|;
    var completion := Awaited(f.core)[j];
    if !IsDone(completions, completion) then
      f.(check := Idle, destroyed := f.dying, missed := if f.dying then Some(j) else f.missed)
    else if j + 1 < |Awaited(f.core)| then
      f.(check := Asking(f.check.seen + [completions[completion].backs]))
    else
      Settled(f, Settle(f.core, true)).(check := Idle, destroyed := f.dying)
  }

  function Acquired(s: State, producer: nat): State {
    var (pool, result) := Slots.Acquire(s.pool, true);
    if result.Refused? then s
    else s.(pool := pool, frames := s.frames + [NewFrame(producer, Pooled(result.slot, result.generation))])
  }

  /** The first half of making a handle: lease the core, or fail because it is recycled. */
  function HandleBegun(s: State, frame: nat): State
    requires frame < |s.frames|
  {
    var f := s.frames[frame];
    match Lease(f.core)
    case None => s.(frames := s.frames[frame := Unaccepted(f)])
    case Some(core) => s.(frames := s.frames[frame := f.(core := core, making := f.making + 1)])
  }

  /** An import whose handle could not be made is refused. */
  function Unaccepted(f: Frame): Frame {
    if f.origin.External? && !f.origin.accepted then f.(origin := f.origin.(refused := true)) else f
  }

  /** The second half: the handle exists, or its allocation failed and the lease is to be returned. */
  function HandleEnded(s: State, frame: nat, succeeded: bool): State
    requires frame < |s.frames| && s.frames[frame].making > 0
  {
    var f := s.frames[frame].(making := s.frames[frame].making - 1);
    if succeeded then
      s.(frames := s.frames[frame := f],
         handles := s.handles + [Handle(frame, 1, f.origin.External? ==> f.origin.accepted)])
    else
      s.(frames := s.frames[frame := Unaccepted(f.(dropping := f.dropping + 1))])
  }

  /** The import returns OK: its release callback is armed and its handle goes to the caller. */
  function Accepted(s: State, handle: nat): State
    requires handle < |s.handles| && s.handles[handle].frame < |s.frames|
  {
    var h := s.handles[handle];
    var f := s.frames[h.frame];
    if f.origin.Pooled? || f.origin.refused then s
    else s.(handles := s.handles[handle := h.(published := true)],
            frames := s.frames[h.frame := f.(origin := f.origin.(accepted := true))])
  }

  /** The last release of a handle leaves its lease to be returned. */
  function Released(s: State, handle: nat): State
    requires Usable(s, handle)
  {
    var h := s.handles[handle];
    var t := s.(handles := s.handles[handle := h.(refs := h.refs - 1)]);
    if h.refs > 1 then t
    else t.(frames := s.frames[h.frame := s.frames[h.frame].(dropping := s.frames[h.frame].dropping + 1)])
  }

  /** A lease is returned, and the query loop starts if it was the last. */
  function Returned(f: Frame): Frame
    requires f.dropping > 0
  {
    var leases := if f.core.leases != 0 then f.core.leases - 1 else 0;
    Checked(f.(core := f.core.(leases := leases), dropping := f.dropping - 1))
  }

  /** The recycle callback: the slot of a pooled frame is freed, the owner of an accepted import released. */
  function CallbackRan(s: State, frame: nat): State
    requires frame < |s.frames|
  {
    var f := s.frames[frame];
    match f.origin
    case Pooled(slot, generation) =>
      s.(pool := Slots.Recycle(s.pool, slot, generation), frames := s.frames[frame := f.(callback := Ran)])
    case External(accepted, _, releases) =>
      var origin := f.origin.(releases := releases + if accepted then 1 else 0);
      s.(frames := s.frames[frame := f.(callback := Ran, origin := origin)])
  }

  /** The last part of the destructor: nothing if recycled, else drop all leases and check once more. */
  function Dying(f: Frame): Frame {
    if f.core.recycled then f.(destroyed := true)
    else f.(dying := true, core := f.core.(leases := 0), check := Asking([]))
  }

  function Updated(s: State, frame: nat, f: Frame): State
    requires frame < |s.frames|
  {
    s.(frames := s.frames[frame := f])
  }

  function Apply(s: State, e: Event): State
    requires Enabled(s, e)
  {
    match e
    case NewCompletion => s.(completions := s.completions + [Mark(PENDING, 0)])
    case SetStatus(completion, status) =>
      var m := s.completions[completion];
      var backs := m.backs + if status == PENDING && m.status != PENDING then 1 else 0;
      s.(completions := s.completions[completion := Mark(status, backs)])
    case AcquireFrame(producer) => Acquired(s, producer)
    case ImportFrame(producer) => s.(frames := s.frames + [NewFrame(producer, External(false, false, 0))])
    case BeginHandle(frame) => HandleBegun(s, frame)
    case EndHandle(frame, succeeded) => HandleEnded(s, frame, succeeded)
    case Accept(handle) => Accepted(s, handle)
    case Retain(handle) =>
      var h := s.handles[handle];
      if s.frames[h.frame].core.recycled then s
      else s.(handles := s.handles[handle := h.(refs := h.refs + 1)])
    case Release(handle) => Released(s, handle)
    case ReturnLease(frame) => Updated(s, frame, Returned(s.frames[frame]))
    case AddConsumer(frame, completion) =>
      var f := s.frames[frame];
      Updated(s, frame, f.(core := Consume(f.core, Some(completion)).0))
    case Poll(frame) => Updated(s, frame, Checked(s.frames[frame]))
    case Query(frame) => Updated(s, frame, Queried(s.completions, s.frames[frame]))
    case RunCallback(frame) => CallbackRan(s, frame)
    case DropOwner(frame) => Updated(s, frame, s.frames[frame].(owners := s.frames[frame].owners - 1))
    case AwaitCompletion(frame) =>
      var f := s.frames[frame];
      Updated(s, frame, f.(waits := f.waits + [s.completions[Awaited(f.core)[|f.waits|]].backs]))
    case Destroy(frame) => Updated(s, frame, Dying(s.frames[frame]))
  }

  function Next(s: State, e: Event): State {
    if Enabled(s, e) then Apply(s, e) else s
  }

  function Initial(capacity: nat): State {
    State(Slots.EmptyPool(capacity), [], [], [])
  }

  function Final(s: State, events: seq<Event>): State {
    if events == [] then s else Next(Final(s, events[..|events| - 1]), events[|events| - 1])
  }

  // ---------- The invariant ----------

  /** The leases of a frame are its live handles, those being made and those being dropped. */
  predicate LeasesOk(f: Frame, handles: nat) {
    && f.core.leases == handles + f.making + f.dropping
    && (f.core.recycled ==> f.core.leases == 0)
    && (f.callback == NotDue <==> !f.core.recycled)
    && (f.dying || f.destroyed ==> f.owners == 0 && f.core.leases == 0)
  }

  predicate ImportOk(f: Frame) {
    f.origin.External? ==>
      && (f.origin.refused ==> !f.origin.accepted)
      && f.origin.releases == if f.origin.accepted && f.callback == Ran then 1 else 0
  }

  /** The query loop runs on an unleased frame and has seen done what it is past. */
  predicate CheckOk(completions: seq<Mark>, f: Frame) {
    f.check.Asking? ==>
      && f.core.leases == 0 && !f.core.recycled && !f.destroyed && Querying(f)
      && forall j :: 0 <= j < |f.check.seen| ==> SeenDone(completions, Awaited(f.core)[j], f.check.seen[j])
  }

  /** A destructor has seen done what it waited for; its last check starts after all of it. */
  predicate WaitsOk(completions: seq<Mark>, f: Frame) {
    && f.core.producer.Some? && |f.waits| <= |Awaited(f.core)|
    && (forall j :: 0 <= j < |f.waits| ==> SeenDone(completions, Awaited(f.core)[j], f.waits[j]))
    && (f.dying ==> |f.waits| == |Awaited(f.core)| && (f.check.Asking? || f.destroyed))
  }

  /** A destroyed frame is recycled unless its last check met a completion that had gone back. */
  predicate FateOk(completions: seq<Mark>, f: Frame) {
    && (f.destroyed ==> (f.core.recycled <==> f.missed == None))
    && (f.missed.Some? ==> f.destroyed && f.missed.value < |f.waits| && Wavered(completions, f, f.missed.value))
  }

  /** Completion `j` of a frame has gone back to pending since the frame's destructor waited for it. */
  predicate Wavered(completions: seq<Mark>, f: Frame, j: nat)
    requires j < |f.waits|
  {
    && j < |Awaited(f.core)| && Awaited(f.core)[j] < |completions|
    && completions[Awaited(f.core)[j]].backs > f.waits[j]
  }

  predicate SlotOk(slots: seq<Slot>, f: Frame) {
    f.origin.Pooled? ==>
      && f.origin.slot < |slots| && 1 <= f.origin.generation <= slots[f.origin.slot].generation
      && (f.callback != Ran <==> Current(slots, f.origin.slot, f.origin.generation))
  }

  /** How many pooled frames still occupy their slot. */
  function Occupying(frames: seq<Frame>): nat {
    if frames == [] then 0
    else
      var last := frames[|frames| - 1];
      Occupying(frames[..|frames| - 1]) + if last.origin.Pooled? && last.callback != Ran then 1 else 0
  }

  predicate SameSlot(f: Frame, g: Frame) {
    f.origin.Pooled? && g.origin.Pooled? && f.origin.slot == g.origin.slot
  }

  predicate PoolOk(p: Slots.Pool, frames: seq<Frame>) {
    && p.inUse == Busy(p.slots) == Occupying(frames)
    && p.inUse <= p.peak
    && (forall k :: 0 <= k < |frames| ==> SlotOk(p.slots, frames[k]))
    && (forall j, k :: 0 <= j < k < |frames| && SameSlot(frames[j], frames[k]) ==>
          frames[j].origin.generation < frames[k].origin.generation)
  }

  predicate FrameOk(s: State, k: nat)
    requires k < |s.frames|
  {
    && LeasesOk(s.frames[k], LiveHandles(s.handles, k))
    && ImportOk(s.frames[k])
    && CheckOk(s.completions, s.frames[k])
    && WaitsOk(s.completions, s.frames[k])
    && FateOk(s.completions, s.frames[k])
  }

  predicate HandlesOk(s: State) {
    forall h :: 0 <= h < |s.handles| ==> s.handles[h].frame < |s.frames|
  }

  predicate Inv(s: State) {
    && PoolOk(s.pool, s.frames)
    && HandlesOk(s)
    && forall k :: 0 <= k < |s.frames| ==> FrameOk(s, k)
  }

  // ---------- Counting ----------

  lemma {:induction false} HandlesUpdate(handles: seq<Handle>, k: nat, h: Handle, frame: nat)
    requires k < |handles| && h.frame == handles[k].frame
    ensures LiveHandles(handles[k := h], frame)
              + (if handles[k].frame == frame && handles[k].refs > 0 then 1 else 0)
         == LiveHandles(handles, frame) + if h.frame == frame && h.refs > 0 then 1 else 0
  {
    var n := |handles| - 1;
    if k < n {
      HandlesUpdate(handles[..n], k, h, frame);
      assert handles[k := h][..n] == handles[..n][k := h];
    } else {
      assert handles[k := h][..n] == handles[..n];
    }
  }

  lemma {:induction false} NoHandles(handles: seq<Handle>, frame: nat)
    requires forall h :: 0 <= h < |handles| ==> handles[h].frame != frame
    ensures LiveHandles(handles, frame) == 0
  {
    if handles != [] {
      NoHandles(handles[..|handles| - 1], frame);
    }
  }

  lemma {:induction false} HandleCounted(handles: seq<Handle>, k: nat)
    requires k < |handles| && handles[k].refs > 0
    ensures 0 < LiveHandles(handles, handles[k].frame)
  {
    var n := |handles| - 1;
    if k < n {
      HandleCounted(handles[..n], k);
    }
  }

  lemma {:induction false} OccupyingUpdate(frames: seq<Frame>, k: nat, f: Frame)
    requires k < |frames|
    ensures Occupying(frames[k := f]) + (if frames[k].origin.Pooled? && frames[k].callback != Ran then 1 else 0)
         == Occupying(frames) + if f.origin.Pooled? && f.callback != Ran then 1 else 0
  {
    var n := |frames| - 1;
    if k < n {
      OccupyingUpdate(frames[..n], k, f);
      assert frames[k := f][..n] == frames[..n][k := f];
    } else {
      assert frames[k := f][..n] == frames[..n];
    }
  }

  // ---------- Steps keep it ----------

  /** Changing one frame without touching its slot, beside any change of its own handles. */
  lemma FrameChanged(s: State, t: State, k: nat)
    requires Inv(s) && k < |s.frames| && |t.frames| == |s.frames|
    requires t.frames == s.frames[k := t.frames[k]]
    requires t.pool == s.pool && t.completions == s.completions && HandlesOk(t)
    requires SlotOk(s.pool.slots, t.frames[k]) && FrameOk(t, k)
    requires t.frames[k].origin.Pooled? == s.frames[k].origin.Pooled?
    requires t.frames[k].origin.Pooled? ==>
               && t.frames[k].origin == s.frames[k].origin
               && (t.frames[k].callback == Ran <==> s.frames[k].callback == Ran)
    requires forall j :: 0 <= j < |s.frames| && j != k ==> LiveHandles(t.handles, j) == LiveHandles(s.handles, j)
    ensures Inv(t)
  {
    OccupyingUpdate(s.frames, k, t.frames[k]);
    forall j | 0 <= j < |t.frames|
      ensures FrameOk(t, j) && SlotOk(t.pool.slots, t.frames[j])
    {
      assert FrameOk(s, j) && SlotOk(s.pool.slots, s.frames[j]);
    }
  }

  /** Adding a frame that owns a slot of its own, or none. */
  lemma FrameAdded(s: State, t: State, producer: nat, origin: Origin)
    requires Inv(s) && (origin.External? ==> origin == External(false, false, 0))
    requires t == s.(pool := t.pool, frames := s.frames + [NewFrame(producer, origin)]) && PoolOk(t.pool, t.frames)
    ensures Inv(t)
  {
    hide PoolOk;
    NoHandles(s.handles, |s.frames|);
    forall j | 0 <= j < |t.frames|
      ensures FrameOk(t, j)
    {
      if j < |s.frames| {
        assert FrameOk(s, j);
      }
    }
  }

  lemma PoolImported(p: Slots.Pool, frames: seq<Frame>, f: Frame)
    requires PoolOk(p, frames) && f.origin.External?
    ensures PoolOk(p, frames + [f])
  {
    assert (frames + [f])[..|frames|] == frames;
    forall k | 0 <= k < |frames + [f]|
      ensures SlotOk(p.slots, (frames + [f])[k])
    {
      if k < |frames| {
        assert SlotOk(p.slots, frames[k]);
      }
    }
  }

  lemma PoolAcquired(p: Slots.Pool, frames: seq<Frame>, producer: nat)
    requires PoolOk(p, frames)
    ensures var (q, result) := Slots.Acquire(p, true);
            result.Granted? ==> PoolOk(q, frames + [NewFrame(producer, Pooled(result.slot, result.generation))])
  {
    if Slots.Acquire(p, true).1.Granted? {
      CountsAcquired(p, frames, producer);
      SlotsAcquired(p, frames, producer);
      hide Slots.Acquire, NewFrame, SlotOk, SameSlot, Busy, Occupying;
    }
  }

  lemma CountsAcquired(p: Slots.Pool, frames: seq<Frame>, producer: nat)
    requires p.inUse == Busy(p.slots) == Occupying(frames) && p.inUse <= p.peak && Slots.Acquire(p, true).1.Granted?
    ensures var (q, result) := Slots.Acquire(p, true);
            && q.inUse == Busy(q.slots)
               == Occupying(frames + [NewFrame(producer, Pooled(result.slot, result.generation))])
            && q.inUse <= q.peak
  {
    var (q, result) := Slots.Acquire(p, true);
    assert (frames + [NewFrame(producer, Pooled(result.slot, result.generation))])[..|frames|] == frames;
    BusyUpdate(p.slots, result.slot, Slot(true, result.generation));
    hide Busy;
  }

  /** The new frame has the slot under a generation that no earlier one had there. */
  lemma SlotsAcquired(p: Slots.Pool, frames: seq<Frame>, producer: nat)
    requires PoolOk(p, frames) && Slots.Acquire(p, true).1.Granted?
    ensures var (q, result) := Slots.Acquire(p, true);
            var grown := frames + [NewFrame(producer, Pooled(result.slot, result.generation))];
            && (forall k :: 0 <= k < |grown| ==> SlotOk(q.slots, grown[k]))
            && (forall j, k :: 0 <= j < k < |grown| && SameSlot(grown[j], grown[k]) ==>
                  grown[j].origin.generation < grown[k].origin.generation)
  {
    hide Busy, Occupying;
    var (q, result) := Slots.Acquire(p, true);
    var grown := frames + [NewFrame(producer, Pooled(result.slot, result.generation))];
    forall k | 0 <= k < |grown|
      ensures SlotOk(q.slots, grown[k])
    {
      if k < |frames| {
        assert SlotOk(p.slots, frames[k]);
      }
    }
    forall j, k | 0 <= j < k < |grown| && SameSlot(grown[j], grown[k])
      ensures grown[j].origin.generation < grown[k].origin.generation
    {
      assert SlotOk(p.slots, frames[j]);
    }
  }

  /** What was seen done stays seen, whatever becomes of any completion. */
  lemma SeenStays(before: seq<Mark>, after: seq<Mark>, f: Frame)
    requires |before| <= |after|
    requires forall c :: 0 <= c < |before| ==> before[c].backs <= after[c].backs
    requires forall c :: 0 <= c < |before| && after[c].backs == before[c].backs && before[c].status != PENDING ==>
               after[c].status != PENDING
    requires CheckOk(before, f) && WaitsOk(before, f) && FateOk(before, f)
    ensures CheckOk(after, f) && WaitsOk(after, f) && FateOk(after, f)
  {
    if f.check.Asking? {
      forall j | 0 <= j < |f.check.seen|
        ensures SeenDone(after, Awaited(f.core)[j], f.check.seen[j])
      {
        assert SeenDone(before, Awaited(f.core)[j], f.check.seen[j]);
      }
    }
    forall j | 0 <= j < |f.waits|
      ensures SeenDone(after, Awaited(f.core)[j], f.waits[j])
    {
      assert SeenDone(before, Awaited(f.core)[j], f.waits[j]);
    }
  }

  lemma InvCompletions(s: State, e: Event)
    requires Inv(s) && Enabled(s, e) && (e.NewCompletion? || e.SetStatus?)
    ensures Inv(Apply(s, e))
  {
    var t := Apply(s, e);
    forall k | 0 <= k < |t.frames|
      ensures FrameOk(t, k)
    {
      assert FrameOk(s, k);
      SeenStays(s.completions, t.completions, s.frames[k]);
    }
  }

  lemma InvHandleEnded(s: State, frame: nat, succeeded: bool)
    requires Inv(s) && frame < |s.frames| && s.frames[frame].making > 0
    ensures Inv(HandleEnded(s, frame, succeeded))
  {
    var t := HandleEnded(s, frame, succeeded);
    assert FrameOk(s, frame) && SlotOk(s.pool.slots, s.frames[frame]);
    if succeeded {
      assert t.handles[..|s.handles|] == s.handles;
    }
    FrameChanged(s, t, frame);
  }

  lemma InvAccepted(s: State, handle: nat)
    requires Inv(s) && handle < |s.handles| && s.handles[handle].refs > 0 && s.handles[handle].frame < |s.frames|
    ensures Inv(Accepted(s, handle))
  {
    var h := s.handles[handle];
    var t := Accepted(s, handle);
    assert FrameOk(s, h.frame) && SlotOk(s.pool.slots, s.frames[h.frame]);
    HandleCounted(s.handles, handle);
    forall k
      ensures LiveHandles(t.handles, k) == LiveHandles(s.handles, k)
    {
      HandlesUpdate(s.handles, handle, h.(published := true), k);
    }
    FrameChanged(s, t, h.frame);
  }

  lemma InvRetained(s: State, handle: nat)
    requires Inv(s) && Enabled(s, Retain(handle))
    ensures Inv(Apply(s, Retain(handle)))
  {
    var h := s.handles[handle];
    var t := Apply(s, Retain(handle));
    forall k
      ensures LiveHandles(t.handles, k) == LiveHandles(s.handles, k)
    {
      HandlesUpdate(s.handles, handle, h.(refs := h.refs + 1), k);
    }
    assert FrameOk(s, h.frame) && SlotOk(s.pool.slots, s.frames[h.frame]);
    FrameChanged(s, t, h.frame);
  }

  lemma InvReleased(s: State, handle: nat)
    requires Inv(s) && Usable(s, handle)
    ensures Inv(Released(s, handle))
  {
    var h := s.handles[handle];
    var t := Released(s, handle);
    forall k
      ensures LiveHandles(t.handles, k) == LiveHandles(s.handles, k) - if k == h.frame && h.refs == 1 then 1 else 0
    {
      HandlesUpdate(s.handles, handle, h.(refs := h.refs - 1), k);
    }
    assert FrameOk(s, h.frame) && SlotOk(s.pool.slots, s.frames[h.frame]);
    FrameChanged(s, t, h.frame);
  }

  lemma InvCallbackRan(s: State, frame: nat)
    requires Inv(s) && frame < |s.frames| && s.frames[frame].callback == Due
    ensures Inv(CallbackRan(s, frame))
  {
    var t, f := CallbackRan(s, frame), s.frames[frame];
    assert FrameOk(s, frame) && SlotOk(s.pool.slots, f);
    if f.origin.Pooled? {
      PoolRecycled(s.pool, s.frames, frame);
      forall k | 0 <= k < |t.frames|
        ensures FrameOk(t, k)
      {
        assert FrameOk(s, k);
      }
    } else {
      FrameChanged(s, t, frame);
    }
  }

  lemma PoolRecycled(p: Slots.Pool, frames: seq<Frame>, k: nat)
    requires PoolOk(p, frames) && k < |frames| && frames[k].origin.Pooled? && frames[k].callback == Due
    ensures PoolOk(Slots.Recycle(p, frames[k].origin.slot, frames[k].origin.generation),
                   frames[k := frames[k].(callback := Ran)])
  {
    var f := frames[k];
    var q := Slots.Recycle(p, f.origin.slot, f.origin.generation);
    var changed := frames[k := f.(callback := Ran)];
    assert SlotOk(p.slots, f);
    OccupyingUpdate(frames, k, f.(callback := Ran));
    BusyUpdate(p.slots, f.origin.slot, Slot(false, f.origin.generation));
    forall j | 0 <= j < |changed|
      ensures SlotOk(q.slots, changed[j])
    {
      assert SlotOk(p.slots, frames[j]);
    }
  }

  /** The steps that change one frame and no handle. */
  predicate OneFrame(e: Event) {
    || e.BeginHandle? || e.ReturnLease? || e.AddConsumer? || e.Poll? || e.Query? || e.DropOwner?
    || e.AwaitCompletion? || e.Destroy?
  }

  /** A new state of one frame, leaving its slot and its handles alone. */
  lemma InvUpdated(s: State, k: nat, f: Frame)
    requires Inv(s) && k < |s.frames|
    requires f.origin.Pooled? == s.frames[k].origin.Pooled?
    requires f.origin.Pooled? ==> f.origin == s.frames[k].origin && (f.callback == Ran <==> s.frames[k].callback == Ran)
    requires FrameOk(s, k) ==> FrameOk(Updated(s, k, f), k)
    ensures Inv(Updated(s, k, f))
  {
    assert FrameOk(s, k) && SlotOk(s.pool.slots, s.frames[k]);
    hide PoolOk, FrameOk;
    FrameChanged(s, Updated(s, k, f), k);
  }

  lemma QueriedOk(completions: seq<Mark>, f: Frame)
    requires CheckOk(completions, f) && WaitsOk(completions, f) && FateOk(completions, f) && f.check.Asking?
    ensures var g := Queried(completions, f);
            CheckOk(completions, g) && WaitsOk(completions, g) && FateOk(completions, g)
  {
    var j := |f.check.seen|;
    if f.dying {
      assert SeenDone(completions, Awaited(f.core)[j], f.waits[j]);
    }
  }

  lemma QueriedLeases(completions: seq<Mark>, f: Frame, handles: nat)
    requires LeasesOk(f, handles) && ImportOk(f) && CheckOk(completions, f) && f.check.Asking?
    ensures LeasesOk(Queried(completions, f), handles) && ImportOk(Queried(completions, f))
  {
  }

  lemma InvQueried(s: State, k: nat)
    requires Inv(s) && Enabled(s, Query(k))
    ensures Inv(Updated(s, k, Queried(s.completions, s.frames[k])))
  {
    assert FrameOk(s, k);
    QueriedOk(s.completions, s.frames[k]);
    QueriedLeases(s.completions, s.frames[k], LiveHandles(s.handles, k));
    InvUpdated(s, k, Queried(s.completions, s.frames[k]));
  }

  lemma InvBegun(s: State, k: nat)
    requires Inv(s) && Enabled(s, BeginHandle(k))
    ensures Inv(HandleBegun(s, k))
  {
    assert FrameOk(s, k);
    InvUpdated(s, k, HandleBegun(s, k).frames[k]);
  }

  lemma InvReturned(s: State, k: nat)
    requires Inv(s) && Enabled(s, ReturnLease(k))
    ensures Inv(Updated(s, k, Returned(s.frames[k])))
  {
    assert FrameOk(s, k);
    assert |Awaited(s.frames[k].core)| > 0;
    InvUpdated(s, k, Returned(s.frames[k]));
  }

  lemma InvPolled(s: State, k: nat)
    requires Inv(s) && Enabled(s, Poll(k))
    ensures Inv(Updated(s, k, Checked(s.frames[k])))
  {
    assert FrameOk(s, k);
    InvUpdated(s, k, Checked(s.frames[k]));
  }

  lemma InvConsumed(s: State, k: nat, completion: nat)
    requires Inv(s) && Enabled(s, AddConsumer(k, completion))
    ensures Inv(Apply(s, AddConsumer(k, completion)))
  {
    var f := s.frames[k];
    var g := f.(core := Consume(f.core, Some(completion)).0);
    assert FrameOk(s, k);
    assert Awaited(f.core) <= Awaited(g.core);
    InvUpdated(s, k, g);
  }

  lemma InvAwaited(s: State, k: nat)
    requires Inv(s) && Enabled(s, AwaitCompletion(k))
    ensures Inv(Apply(s, AwaitCompletion(k)))
  {
    assert FrameOk(s, k);
    InvUpdated(s, k, Apply(s, AwaitCompletion(k)).frames[k]);
  }

  lemma InvDying(s: State, k: nat)
    requires Inv(s) && Enabled(s, Destroy(k))
    ensures Inv(Updated(s, k, Dying(s.frames[k])))
  {
    assert FrameOk(s, k);
    InvUpdated(s, k, Dying(s.frames[k]));
  }

  lemma InvDisowned(s: State, k: nat)
    requires Inv(s) && Enabled(s, DropOwner(k))
    ensures Inv(Apply(s, DropOwner(k)))
  {
    assert FrameOk(s, k);
    InvUpdated(s, k, s.frames[k].(owners := s.frames[k].owners - 1));
  }

  lemma InvAcquired(s: State, producer: nat)
    requires Inv(s)
    ensures Inv(Acquired(s, producer))
  {
    var (pool, result) := Slots.Acquire(s.pool, true);
    PoolAcquired(s.pool, s.frames, producer);
    if result.Granted? {
      FrameAdded(s, Acquired(s, producer), producer, Pooled(result.slot, result.generation));
    }
  }

  lemma InvImported(s: State, producer: nat)
    requires Inv(s)
    ensures Inv(s.(frames := s.frames + [NewFrame(producer, External(false, false, 0))]))
  {
    var f := NewFrame(producer, External(false, false, 0));
    PoolImported(s.pool, s.frames, f);
    FrameAdded(s, s.(frames := s.frames + [f]), producer, f.origin);
  }

  lemma InvNext(s: State, e: Event)
    requires Inv(s)
    ensures Inv(Next(s, e))
  {
    hide Inv;
    if Enabled(s, e) {
      match e
      case NewCompletion => InvCompletions(s, e);
      case SetStatus(_, _) => InvCompletions(s, e);
      case AcquireFrame(producer) => InvAcquired(s, producer);
      case ImportFrame(producer) => InvImported(s, producer);
      case BeginHandle(frame) => InvBegun(s, frame);
      case EndHandle(frame, succeeded) => InvHandleEnded(s, frame, succeeded);
      case Accept(handle) => InvAccepted(s, handle);
      case Retain(handle) => InvRetained(s, handle);
      case Release(handle) => InvReleased(s, handle);
      case ReturnLease(frame) => InvReturned(s, frame);
      case AddConsumer(frame, completion) => InvConsumed(s, frame, completion);
      case Poll(frame) => InvPolled(s, frame);
      case Query(frame) => InvQueried(s, frame);
      case RunCallback(frame) => InvCallbackRan(s, frame);
      case DropOwner(frame) => InvDisowned(s, frame);
      case AwaitCompletion(frame) => InvAwaited(s, frame);
      case Destroy(frame) => InvDying(s, frame);
    }
  }

  lemma InvInitial(capacity: nat)
    ensures Inv(Initial(capacity))
  {
    NoneBusy(capacity);
  }

  lemma {:induction false} InvFinal(capacity: nat, events: seq<Event>)
    ensures Inv(Final(Initial(capacity), events))
  {
    if events == [] {
      InvInitial(capacity);
    } else {
      InvFinal(capacity, events[..|events| - 1]);
      InvNext(Final(Initial(capacity), events[..|events| - 1]), events[|events| - 1]);
    }
  }

  // ---------- What every run guarantees ----------

  /**
   * A frame's leases are its live handles, those being made and those being dropped, it is never
   * recycled while one of them lives, so a retain of a live handle is never refused, and the pool counts
   * the frames that occupy a slot.
   */
  lemma LeasesAreHandles(capacity: nat, events: seq<Event>, k: nat)
    requires k < |Final(Initial(capacity), events).frames|
    ensures var s := Final(Initial(capacity), events);
            && s.frames[k].core.leases == LiveHandles(s.handles, k) + s.frames[k].making + s.frames[k].dropping
            && (LiveHandles(s.handles, k) > 0 ==> !s.frames[k].core.recycled && !s.frames[k].destroyed)
            && s.pool.inUse == Busy(s.pool.slots) == Occupying(s.frames)
  {
    InvFinal(capacity, events);
    assert FrameOk(Final(Initial(capacity), events), k);
  }

  /** Only the last query of a loop recycles. */
  lemma RecycledByQuery(s: State, e: Event, k: nat)
    requires k < |s.frames| && !s.frames[k].core.recycled
    ensures |s.frames| <= |Next(s, e).frames|
    ensures Next(s, e).frames[k].core.recycled ==>
              && e == Query(k) && Enabled(s, e) && |s.frames[k].check.seen| + 1 == |Awaited(s.frames[k].core)|
              && IsDone(s.completions, Awaited(s.frames[k].core)[|s.frames[k].check.seen|])
  {
  }

  /**
   * A step recycles a frame only with no lease left, and only after every completion was seen done, one
   * after another: the last one just now, and each other one then, so it still is unless it has gone
   * back to pending since it was seen. If none has, all are done at once.
   */
  lemma RecycledOnlyWhenSeen(s: State, e: Event, k: nat)
    requires Inv(s) && k < |s.frames| && !s.frames[k].core.recycled
    ensures |s.frames| <= |Next(s, e).frames|
    ensures var f := s.frames[k];
            Next(s, e).frames[k].core.recycled ==>
              && f.core.leases == 0 && LiveHandles(s.handles, k) == 0
              && f.check.Asking? && |f.check.seen| + 1 == |Awaited(f.core)|
              && IsDone(s.completions, Awaited(f.core)[|f.check.seen|])
              && (forall j :: 0 <= j < |f.check.seen| ==>
                    SeenDone(s.completions, Awaited(f.core)[j], f.check.seen[j]))
              && (Undisturbed(s.completions, f) ==> Quiet(s.completions, f.core))
  {
    RecycledByQuery(s, e, k);
    assert FrameOk(s, k);
  }

  /** No completion that the running query loop is past has gone back since. */
  predicate Undisturbed(completions: seq<Mark>, f: Frame)
    requires f.check.Asking? && |f.check.seen| <= |Awaited(f.core)|
  {
    forall j :: 0 <= j < |f.check.seen| ==>
      Awaited(f.core)[j] < |completions| && completions[Awaited(f.core)[j]].backs == f.check.seen[j]
  }

  /** A number of queries of one frame with nothing in between. */
  function Queries(s: State, k: nat, count: nat): State
    decreases count
  {
    if count == 0 then s else Queries(Next(s, Query(k)), k, count - 1)
  }

  /** A query loop that nothing interrupts recycles the frame exactly if no completion is pending. */
  lemma {:induction false} LoopAlone(s: State, k: nat) returns (count: nat)
    requires k < |s.frames| && Querying(s.frames[k]) && !s.frames[k].core.recycled && s.frames[k].core.leases == 0
    requires forall j :: 0 <= j < |s.frames[k].check.seen| ==> IsDone(s.completions, Awaited(s.frames[k].core)[j])
    ensures var t := Queries(s, k, count);
            && |t.frames| == |s.frames| && t.frames[k].check.Idle?
            && (t.frames[k].core.recycled <==> Quiet(s.completions, s.frames[k].core))
    decreases |Awaited(s.frames[k].core)| - |s.frames[k].check.seen|
  {
    var f, j := s.frames[k], |s.frames[k].check.seen|;
    var t := Next(s, Query(k));
    if IsDone(s.completions, Awaited(f.core)[j]) && j + 1 < |Awaited(f.core)| {
      var rest := LoopAlone(t, k);
      count := rest + 1;
    } else {
      count := 1;
      assert Queries(s, k, 1) == Queries(t, k, 0) == t;
    }
  }

  /** What the return of a lease leaves: one lease less, and a query loop if it was the last. */
  lemma LeaseReturned(s: State, k: nat)
    requires Inv(s) && Enabled(s, ReturnLease(k)) && s.frames[k].core.leases == 1 && !s.frames[k].core.recycled
    ensures var t := Next(s, ReturnLease(k));
            && |t.frames| == |s.frames| && t.completions == s.completions && t.pool == s.pool
            && t.frames[k].core == s.frames[k].core.(leases := 0) && t.frames[k].check == Asking([])
            && t.frames[k].origin == s.frames[k].origin && !t.frames[k].dying
            && Querying(t.frames[k]) && t.frames[k].callback == NotDue
  {
    assert FrameOk(s, k);
  }

  /** Queries alone change nothing but their frame's core, loop and callback. */
  lemma {:induction false} QueriesKeep(s: State, k: nat, count: nat)
    requires Inv(s) && k < |s.frames|
    ensures var t := Queries(s, k, count);
            && Inv(t) && |t.frames| == |s.frames| && t.pool == s.pool && t.frames[k].origin == s.frames[k].origin
            && (t.frames[k].callback == Ran ==> s.frames[k].callback == Ran)
    decreases count
  {
    hide Inv, PoolOk, FrameOk;
    if count != 0 {
      InvNext(s, Query(k));
      QueryKeeps(s, k);
      QueriesKeep(Next(s, Query(k)), k, count - 1);
    }
  }

  lemma QueryKeeps(s: State, k: nat)
    requires k < |s.frames|
    ensures var t := Next(s, Query(k));
            && |t.frames| == |s.frames| && t.pool == s.pool && t.frames[k].origin == s.frames[k].origin
            && (t.frames[k].callback == Ran ==> s.frames[k].callback == Ran)
  {
  }

  /**
   * In any reachable state, when the last lease of a frame that is not recycled is returned and nothing
   * comes in between, the frame is recycled and its callback due exactly if none of its completions is
   * pending; and the callback then frees the frame's slot.
   */
  lemma LastLeaseRecycles(s: State, k: nat) returns (count: nat)
    requires Inv(s) && Enabled(s, ReturnLease(k)) && s.frames[k].core.leases == 1 && !s.frames[k].core.recycled
    ensures var t := Queries(Next(s, ReturnLease(k)), k, count);
            && |t.frames| == |s.frames|
            && (t.frames[k].core.recycled <==> Quiet(s.completions, s.frames[k].core))
            && (t.frames[k].callback == Due <==> Quiet(s.completions, s.frames[k].core))
            && (Quiet(s.completions, s.frames[k].core) && s.frames[k].origin.Pooled? ==>
                  var slot, generation := s.frames[k].origin.slot, s.frames[k].origin.generation;
                  && slot < |s.pool.slots| && s.pool.slots[slot] == Slot(true, generation)
                  && Next(t, RunCallback(k)).pool.slots == s.pool.slots[slot := Slot(false, generation)])
  {
    var t0 := Next(s, ReturnLease(k));
    LeaseReturned(s, k);
    InvNext(s, ReturnLease(k));
    count := LoopAlone(t0, k);
    var t := Queries(t0, k, count);
    QueriesKeep(t0, k, count);
    assert FrameOk(t, k) && FrameOk(s, k);
    assert Awaited(t0.frames[k].core) == Awaited(s.frames[k].core);
    hide Queries, Inv, FrameOk, Awaited;
    if t.frames[k].callback == Due && s.frames[k].origin.Pooled? {
      CallbackFrees(t, k);
    }
    hide Next;
  }

  /** Asking an unleased frame again recycles it exactly if none of its completions is pending by then. */
  lemma PollRecycles(s: State, k: nat) returns (count: nat)
    requires Inv(s) && Enabled(s, Poll(k)) && s.frames[k].core.leases == 0 && !s.frames[k].core.recycled
    ensures var t := Queries(Next(s, Poll(k)), k, count);
            && |t.frames| == |s.frames|
            && (t.frames[k].core.recycled <==> Quiet(s.completions, s.frames[k].core))
            && (t.frames[k].callback == Due <==> Quiet(s.completions, s.frames[k].core))
  {
    var t0 := Next(s, Poll(k));
    assert FrameOk(s, k);
    InvNext(s, Poll(k));
    count := LoopAlone(t0, k);
    QueriesKeep(t0, k, count);
    assert FrameOk(Queries(t0, k, count), k);
  }

  /** An import that is accepted publishes its handle, and will release what it imported. */
  lemma AcceptTells(s: State, handle: nat)
    requires Inv(s) && Enabled(s, Accept(handle)) && s.frames[s.handles[handle].frame].origin.External?
    requires !s.frames[s.handles[handle].frame].origin.refused
    ensures var t := Next(s, Accept(handle));
            && Usable(t, handle) && t.handles[handle].refs == s.handles[handle].refs
            && t.frames[t.handles[handle].frame].origin.External? && t.frames[t.handles[handle].frame].origin.accepted
  {
  }

  /** A callback that is due frees the slot that its frame still occupies, and no other. */
  lemma CallbackFrees(s: State, k: nat)
    requires Inv(s) && k < |s.frames| && s.frames[k].callback == Due && s.frames[k].origin.Pooled?
    ensures var slot, generation := s.frames[k].origin.slot, s.frames[k].origin.generation;
            && slot < |s.pool.slots| && s.pool.slots[slot] == Slot(true, generation)
            && Next(s, RunCallback(k)).pool.slots == s.pool.slots[slot := Slot(false, generation)]
  {
    assert SlotOk(s.pool.slots, s.frames[k]);
  }

  /** Any other lease is returned without consequence. */
  lemma OtherLeaseReturned(s: State, k: nat)
    requires Enabled(s, ReturnLease(k)) && s.frames[k].core.leases > 1
    ensures var f, t := s.frames[k], Next(s, ReturnLease(k));
            t == s.(frames := s.frames[k := f.(core := f.core.(leases := f.core.leases - 1),
                                               dropping := f.dropping - 1)])
  {
  }

  /** A consumer that was accepted is waited for, and queried, after all others. */
  lemma ConsumerAwaited(s: State, k: nat, completion: nat)
    requires Inv(s) && Enabled(s, AddConsumer(k, completion)) && !s.frames[k].core.recycled
    ensures var t := Next(s, AddConsumer(k, completion));
            |t.frames| == |s.frames| && Awaited(t.frames[k].core) == Awaited(s.frames[k].core) + [completion]
  {
  }

  /** What a run has done to the references of one handle: made it, retained it and released it. */
  function Balance(s: State, events: seq<Event>, handle: nat): int {
    if events == [] then 0
    else
      var earlier, e := events[..|events| - 1], events[|events| - 1];
      var t := Final(s, earlier);
      Balance(s, earlier, handle)
        + if !Enabled(t, e) then 0
          else if e == EndHandle(FrameMade(e), true) && |t.handles| == handle then 1
          else if e == Retain(handle) then 1
          else if e == Release(handle) then -1
          else 0
  }

  function FrameMade(e: Event): nat {
    if e.EndHandle? then e.made else 0
  }

  lemma BalanceStep(s: State, e: Event, handle: nat)
    requires Inv(s)
    ensures var t := Next(s, e);
            && |s.handles| <= |t.handles| <= |s.handles| + 1
            && (handle < |t.handles| ==>
                  t.handles[handle].refs == (if handle < |s.handles| then s.handles[handle].refs else 0)
                    + if !Enabled(s, e) then 0
                      else if e == EndHandle(FrameMade(e), true) && |s.handles| == handle then 1
                      else if e == Retain(handle) then 1
                      else if e == Release(handle) then -1
                      else 0)
            && (|s.handles| <= handle && |t.handles| <= handle ==>
                  !(Enabled(s, e) && (e == Retain(handle) || e == Release(handle)
                                      || (e == EndHandle(FrameMade(e), true) && |s.handles| == handle))))
  {
    if Enabled(s, e) && e.Retain? {
      LiveNotRecycled(s, e.handle);
    }
    hide Inv, Slots.Acquire, Slots.Recycle, Queried, Lease, Consume;
  }

  lemma LiveNotRecycled(s: State, handle: nat)
    requires Inv(s) && Usable(s, handle)
    ensures !s.frames[s.handles[handle].frame].core.recycled
  {
    assert FrameOk(s, s.handles[handle].frame);
    HandleCounted(s.handles, handle);
  }

  /** Over every run the references of a handle are one for its making, one for each retain, less its releases. */
  lemma {:induction false} ReferencesCount(capacity: nat, events: seq<Event>, handle: nat)
    ensures var s := Final(Initial(capacity), events);
            && (handle < |s.handles| ==> s.handles[handle].refs == Balance(Initial(capacity), events, handle))
            && (|s.handles| <= handle ==> Balance(Initial(capacity), events, handle) == 0)
  {
    hide Inv, Next, Enabled;
    if events != [] {
      var earlier, e := events[..|events| - 1], events[|events| - 1];
      ReferencesCount(capacity, earlier, handle);
      InvFinal(capacity, earlier);
      BalanceStep(Final(Initial(capacity), earlier), e, handle);
    }
  }

  /** How far a recycle callback has come. */
  function Stage(c: Callback): nat {
    match c
    case NotDue => 0
    case Due => 1
    case Ran => 2
  }

  /** At most one stage on, not by a run of the callback, and the origin keeps what it records. */
  ghost predicate StageMoves(before: Frame, after: Frame) {
    && Stage(before.callback) <= Stage(after.callback) <= Stage(before.callback) + 1
    && (after.callback == Ran ==> before.callback == Ran)
    && SameOrigin(before.origin, after.origin)
  }

  lemma QueryMoves(s: State, k: nat)
    requires Inv(s) && k < |s.frames| && Querying(s.frames[k])
    ensures StageMoves(s.frames[k], Queried(s.completions, s.frames[k]))
  {
    assert FrameOk(s, k);
    hide PoolOk, WaitsOk, LeasesOk, ImportOk;
  }

  lemma StageUpdated(s: State, e: Event, k: nat)
    requires Inv(s) && Enabled(s, e) && OneFrame(e) && k < |s.frames|
    ensures StageMoves(s.frames[k], Apply(s, e).frames[k])
  {
    if e.Query? && e.frame == k {
      QueryMoves(s, k);
    }
    hide Inv, Referenced, Queried;
  }

  /** A callback becomes due or runs, one stage a step, and runs in its own step only. */
  lemma StageStep(s: State, e: Event, k: nat)
    requires Inv(s) && k < |s.frames|
    ensures |s.frames| <= |Next(s, e).frames|
    ensures var before, after := s.frames[k], Next(s, e).frames[k];
            && Stage(before.callback) <= Stage(after.callback) <= Stage(before.callback) + 1
            && (after.callback == Ran && before.callback != Ran ==> e == RunCallback(k))
            && SameOrigin(before.origin, after.origin)
  {
    if Enabled(s, e) {
      if OneFrame(e) {
        StageUpdated(s, e, k);
      } else {
        StageOther(s, e, k);
      }
    }
  }

  lemma StageOther(s: State, e: Event, k: nat)
    requires Enabled(s, e) && !OneFrame(e) && k < |s.frames|
    ensures |s.frames| <= |Apply(s, e).frames|
    ensures var before, after := s.frames[k], Apply(s, e).frames[k];
            && Stage(before.callback) <= Stage(after.callback) <= Stage(before.callback) + 1
            && (after.callback == Ran && before.callback != Ran ==> e == RunCallback(k))
            && SameOrigin(before.origin, after.origin)
  {
    hide Referenced, Unlocked;
  }

  predicate SameOrigin(a: Origin, b: Origin) {
    && (a.Pooled? ==> b == a)
    && (a.External? ==> b.External? && (a.accepted ==> b.accepted) && (a.refused ==> b.refused))
  }

  /** The recycle callback runs at most once over the life of a frame: its stages never go back. */
  lemma {:induction false} CallbackOnce(s: State, events: seq<Event>, k: nat)
    requires Inv(s) && k < |s.frames|
    ensures var t := Final(s, events);
            && Inv(t) && k < |t.frames|
            && Stage(s.frames[k].callback) <= Stage(t.frames[k].callback)
            && SameOrigin(s.frames[k].origin, t.frames[k].origin)
  {
    hide Inv, Next;
    if events != [] {
      var earlier := events[..|events| - 1];
      CallbackOnce(s, earlier, k);
      InvNext(Final(s, earlier), events[|events| - 1]);
      StageStep(Final(s, earlier), events[|events| - 1], k);
    }
  }

  /** A slot in use is freed only by the callback of the frame that has its current generation. */
  lemma SlotFreedByOwner(s: State, e: Event, slot: nat, generation: nat)
    requires Inv(s) && Current(s.pool.slots, slot, generation) && !Current(Next(s, e).pool.slots, slot, generation)
    ensures e.RunCallback? && e.frame < |s.frames| && s.frames[e.frame].origin == Pooled(slot, generation)
  {
  }

  /**
   * The release callback of an import runs once if the import was accepted and its frame is recycled,
   * not before, and never if the import was refused.
   */
  lemma ReleasedOnce(capacity: nat, events: seq<Event>, k: nat)
    requires k < |Final(Initial(capacity), events).frames|
    requires Final(Initial(capacity), events).frames[k].origin.External?
    ensures var f := Final(Initial(capacity), events).frames[k];
            && (f.origin.releases == 1 <==> f.origin.accepted && f.callback == Ran)
            && (f.origin.releases != 1 ==> f.origin.releases == 0)
            && (f.origin.refused ==> f.origin.releases == 0)
  {
    InvFinal(capacity, events);
    assert FrameOk(Final(Initial(capacity), events), k);
  }

  /**
   * A destroyed frame has been recycled, unless its destructor's check met one of the frame's own
   * completions pending; and that one had gone back to pending after the destructor waited for it.
   */
  lemma DestroyedIsRecycledIff(capacity: nat, events: seq<Event>, k: nat)
    requires k < |Final(Initial(capacity), events).frames|
    requires Final(Initial(capacity), events).frames[k].destroyed
    ensures var s := Final(Initial(capacity), events);
            var f := s.frames[k];
            && (f.core.recycled <==> f.missed == None)
            && (f.missed.Some? ==> f.missed.value < |f.waits| && Wavered(s.completions, f, f.missed.value))
            && ((forall j :: 0 <= j < |f.waits| ==> !Wavered(s.completions, f, j)) ==>
                  f.core.recycled && Stage(f.callback) >= 1)
  {
    InvFinal(capacity, events);
    assert FrameOk(Final(Initial(capacity), events), k);
  }

  /** The step that ends a destructor's check recycles exactly if the completion it queries is done. */
  lemma DestroyRecyclesIff(s: State, e: Event, k: nat)
    requires Inv(s) && k < |s.frames| && s.frames[k].dying && !s.frames[k].destroyed
    ensures |s.frames| <= |Next(s, e).frames|
    ensures Next(s, e).frames[k].destroyed ==>
              && e == Query(k) && Querying(s.frames[k])
              && (Next(s, e).frames[k].core.recycled <==>
                    IsDone(s.completions, Awaited(s.frames[k].core)[|s.frames[k].check.seen|]))
  {
    assert FrameOk(s, k);
    hide PoolOk;
  }

  lemma DestroyedUpdated(s: State, e: Event, k: nat)
    requires Inv(s) && Enabled(s, e) && OneFrame(e)
    requires k < |s.frames| && s.frames[k].destroyed && !s.frames[k].core.recycled
    ensures Apply(s, e).frames[k] == s.frames[k]
  {
    assert FrameOk(s, k);
    hide PoolOk;
  }

  lemma DestroyedStays(s: State, e: Event, k: nat)
    requires Inv(s) && k < |s.frames| && s.frames[k].destroyed && !s.frames[k].core.recycled
    ensures |s.frames| <= |Next(s, e).frames| && Next(s, e).frames[k] == s.frames[k]
  {
    if Enabled(s, e) {
      if OneFrame(e) {
        DestroyedUpdated(s, e, k);
      } else {
        DestroyedOther(s, e, k);
      }
    }
  }

  lemma DestroyedOther(s: State, e: Event, k: nat)
    requires Inv(s) && Enabled(s, e) && !OneFrame(e)
    requires k < |s.frames| && s.frames[k].destroyed && !s.frames[k].core.recycled
    ensures |s.frames| <= |Apply(s, e).frames| && Apply(s, e).frames[k] == s.frames[k]
  {
    assert FrameOk(s, k);
    hide PoolOk, Referenced, CheckOk, WaitsOk, FateOk;
    if e.Retain? || e.Release? || e.Accept? {
      HandleCounted(s.handles, e.handle);
    }
  }

  /** A frame destroyed without being recycled never is, and a slot it occupies is never free again. */
  lemma {:induction false} LeakIsForever(s: State, events: seq<Event>, k: nat)
    requires Inv(s) && k < |s.frames| && s.frames[k].destroyed && !s.frames[k].core.recycled
    ensures var t := Final(s, events);
            && Inv(t) && k < |t.frames| && t.frames[k] == s.frames[k]
            && (s.frames[k].origin.Pooled? ==>
                  Current(t.pool.slots, s.frames[k].origin.slot, s.frames[k].origin.generation))
  {
    if events != [] {
      var earlier := events[..|events| - 1];
      LeakIsForever(s, earlier, k);
      InvNext(Final(s, earlier), events[|events| - 1]);
      DestroyedStays(Final(s, earlier), events[|events| - 1], k);
    }
    assert FrameOk(Final(s, events), k) && SlotOk(Final(s, events).pool.slots, s.frames[k]);
  }

  // ---------- Two runs with a completion that goes back ----------

  function Run(s: State, events: seq<Event>): State
    decreases |events|
  {
    if events == [] then s else Run(Next(s, events[0]), events[1..])
  }

  lemma {:induction false} FinalIsRun(s: State, a: seq<Event>, b: seq<Event>)
    ensures Final(s, a + b) == Run(Final(s, a), b)
    decreases |b|
  {
    if b == [] {
      assert a + b == a;
    } else {
      assert a + b == (a + [b[0]]) + b[1..];
      assert (a + [b[0]])[..|a|] == a;
      FinalIsRun(s, a + [b[0]], b[1..]);
    }
  }

  lemma RunOne(s: State, e: Event, events: seq<Event>)
    ensures Run(s, [e] + events) == Run(Next(s, e), events)
  {
    assert ([e] + events)[1..] == events;
  }

  /** A pool of one slot, which a frame without handles has taken. */
  function Taken(f: Frame, marks: seq<Mark>): State {
    State(Slots.Pool([Slot(true, 1)], 1, 1), marks, [f], [])
  }

  function FirstTaken(): State {
    Taken(NewFrame(0, Pooled(0, 1)), [Mark(PENDING, 0)])
  }

  lemma TakenFromFresh()
    ensures Next(Next(Initial(1), NewCompletion), AcquireFrame(0)) == FirstTaken()
  {
    var s := Next(Initial(1), NewCompletion);
    assert s == State(Slots.EmptyPool(1), [Mark(PENDING, 0)], [], []);
    assert Slots.EmptyPool(1).slots == [Slot(false, 0)];
    assert FirstFree(s.pool.slots, 0) == Some(0);
    assert s.pool.slots[0 := Slot(true, 1)] == [Slot(true, 1)];
    assert Slots.Acquire(s.pool, true) == (Slots.Pool([Slot(true, 1)], 1, 1), Slots.Granted(0, 1));
    assert Next(s, AcquireFrame(0)) == Acquired(s, 0);
    assert Acquired(s, 0).frames == FirstTaken().frames;
  }

  lemma MarkSet(f: Frame, marks: seq<Mark>, c: nat, status: Status)
    requires c < |marks|
    ensures var backs := marks[c].backs + if status == PENDING && marks[c].status != PENDING then 1 else 0;
            Next(Taken(f, marks), SetStatus(c, status)) == Taken(f, marks[c := Mark(status, backs)])
  {
  }

  lemma OwnerDropped(f: Frame, marks: seq<Mark>)
    requires f.owners > 0
    ensures Next(Taken(f, marks), DropOwner(0)) == Taken(f.(owners := f.owners - 1), marks)
  {
  }

  predicate Alone(f: Frame) {
    f.owners == 0 && f.making == 0 && f.dropping == 0 && f.check.Idle?
  }

  lemma WaitEnded(f: Frame, marks: seq<Mark>)
    requires Alone(f) && MayAwait(f) && IsDone(marks, Awaited(f.core)[|f.waits|])
    ensures Next(Taken(f, marks), AwaitCompletion(0))
         == Taken(f.(waits := f.waits + [marks[Awaited(f.core)[|f.waits|]].backs]), marks)
  {
  }

  lemma CheckBegun(f: Frame, marks: seq<Mark>)
    requires f.check.Idle?
    ensures Alone(f) && MayDestroy(f) ==> Next(Taken(f, marks), Destroy(0)) == Taken(Dying(f), marks)
    ensures f.owners > 0 ==> Next(Taken(f, marks), Poll(0)) == Taken(Checked(f), marks)
  {
  }

  lemma QueryMade(f: Frame, marks: seq<Mark>)
    requires Querying(f)
    ensures Next(Taken(f, marks), Query(0)) == Taken(Queried(marks, f), marks)
  {
  }

  lemma ConsumerAdded(f: Frame, marks: seq<Mark>, c: nat)
    requires f.check.Idle? && f.owners > 0 && c < |marks| && !f.core.recycled
    ensures Next(Taken(f, marks), AddConsumer(0, c))
         == Taken(f.(core := f.core.(consumers := f.core.consumers + [c])), marks)
  {
  }

  lemma MarkAdded(f: Frame, marks: seq<Mark>)
    ensures Next(Taken(f, marks), NewCompletion) == Taken(f, marks + [Mark(PENDING, 0)])
  {
  }

  function Leaking(): seq<Event> {
    [DropOwner(0), SetStatus(0, COMPLETE), AwaitCompletion(0), SetStatus(0, PENDING), Destroy(0), Query(0)]
  }

  function Waiting(waits: seq<nat>, dying: bool, check: Check): Frame {
    NewFrame(0, Pooled(0, 1)).(owners := 0, waits := waits, dying := dying, check := check)
  }

  lemma LeakingBegins()
    ensures Next(FirstTaken(), DropOwner(0)) == Taken(Waiting([], false, Idle), [Mark(PENDING, 0)])
    ensures Next(Taken(Waiting([], false, Idle), [Mark(PENDING, 0)]), SetStatus(0, COMPLETE))
         == Taken(Waiting([], false, Idle), [Mark(COMPLETE, 0)])
    ensures Next(Taken(Waiting([], false, Idle), [Mark(COMPLETE, 0)]), AwaitCompletion(0))
         == Taken(Waiting([0], false, Idle), [Mark(COMPLETE, 0)])
  {
    var f := Waiting([], false, Idle);
    assert Awaited(f.core) == [0] && f.waits + [0] == [0];
    hide Next, Taken;
    OwnerDropped(NewFrame(0, Pooled(0, 1)), [Mark(PENDING, 0)]);
    MarkSet(f, [Mark(PENDING, 0)], 0, COMPLETE);
    assert [Mark(PENDING, 0)][0 := Mark(COMPLETE, 0)] == [Mark(COMPLETE, 0)];
    WaitEnded(f, [Mark(COMPLETE, 0)]);
  }

  lemma LeakingGoesOn()
    ensures Next(Taken(Waiting([0], false, Idle), [Mark(COMPLETE, 0)]), SetStatus(0, PENDING))
         == Taken(Waiting([0], false, Idle), [Mark(PENDING, 1)])
    ensures Next(Taken(Waiting([0], false, Idle), [Mark(PENDING, 1)]), Destroy(0))
         == Taken(Waiting([0], true, Asking([])), [Mark(PENDING, 1)])
    ensures Next(Taken(Waiting([0], true, Asking([])), [Mark(PENDING, 1)]), Query(0))
         == Taken(Waiting([0], true, Idle).(missed := Some(0), destroyed := true), [Mark(PENDING, 1)])
  {
    var f, g := Waiting([0], false, Idle), Waiting([0], true, Asking([]));
    assert Awaited(f.core) == [0] && Awaited(g.core) == [0];
    hide Next, Taken;
    MarkSet(f, [Mark(COMPLETE, 0)], 0, PENDING);
    assert [Mark(COMPLETE, 0)][0 := Mark(PENDING, 1)] == [Mark(PENDING, 1)];
    CheckBegun(f, [Mark(PENDING, 1)]);
    QueryMade(g, [Mark(PENDING, 1)]);
  }

  /** Done, seen done by the destructor, pending again, and so met pending by the destructor's check. */
  lemma LeakingEnds()
    ensures Run(FirstTaken(), Leaking())
         == Taken(Waiting([0], true, Idle).(missed := Some(0), destroyed := true), [Mark(PENDING, 1)])
  {
    LeakingBegins();
    LeakingGoesOn();
    hide Next, Taken, Run, FirstTaken, Waiting;
    Steps(Leaking(),
          [FirstTaken(), Taken(Waiting([], false, Idle), [Mark(PENDING, 0)]),
           Taken(Waiting([], false, Idle), [Mark(COMPLETE, 0)]), Taken(Waiting([0], false, Idle), [Mark(COMPLETE, 0)]),
           Taken(Waiting([0], false, Idle), [Mark(PENDING, 1)]),
           Taken(Waiting([0], true, Asking([])), [Mark(PENDING, 1)]),
           Taken(Waiting([0], true, Idle).(missed := Some(0), destroyed := true), [Mark(PENDING, 1)])], 0);
    assert Leaking()[0..] == Leaking();
  }

  /** A run whose states are known one by one. */
  lemma {:induction false} Steps(events: seq<Event>, states: seq<State>, from: nat)
    requires |states| == |events| + 1 && from <= |events|
    requires forall j :: 0 <= j < |events| ==> Next(states[j], events[j]) == states[j + 1]
    ensures Run(states[from], events[from..]) == states[|events|]
    decreases |events| - from
  {
    hide Next;
    if from < |events| {
      Steps(events, states, from + 1);
      assert events[from..][1..] == events[from + 1..];
    }
  }

  /** What follows the acquisition of the only slot. */
  lemma AfterTaken(events: seq<Event>)
    ensures Final(Initial(1), [NewCompletion, AcquireFrame(0)] + events) == Run(FirstTaken(), events)
  {
    TakenFromFresh();
    hide Next, Initial, FirstTaken;
    var all := [NewCompletion, AcquireFrame(0)] + events;
    FinalIsRun(Initial(1), [], all);
    assert [] + all == all;
    assert all[1..] == [AcquireFrame(0)] + events && all[1..][1..] == events;
    assert Run(Initial(1), all) == Run(Next(Initial(1), NewCompletion), all[1..]);
    assert Run(Next(Initial(1), NewCompletion), all[1..]) == Run(FirstTaken(), events);
  }

  /** A completion that goes back between the destructor's wait and its check leaks the slot. */
  lemma WaveringLeaks()
    ensures exists events :: var s := Final(Initial(1), events);
              && |s.frames| == 1 && s.frames[0].destroyed && !s.frames[0].core.recycled
              && s.pool.slots == [Slot(true, 1)]
  {
    AfterTaken(Leaking());
    LeakingEnds();
    var s := Final(Initial(1), [NewCompletion, AcquireFrame(0)] + Leaking());
    assert |s.frames| == 1;
  }

  function Slipping(): seq<Event> {
    [NewCompletion, AddConsumer(0, 1), SetStatus(0, COMPLETE), SetStatus(1, COMPLETE),
     Poll(0), Query(0), SetStatus(0, PENDING), Query(0)]
  }

  function Polled(consumers: seq<nat>, check: Check): Frame {
    NewFrame(0, Pooled(0, 1)).(core := Core(0, Some(0), consumers, false), check := check)
  }

  function Marks(first: Mark, second: Status): seq<Mark> {
    [first, Mark(second, 0)]
  }

  lemma SlippingBegins()
    ensures var both := Marks(Mark(PENDING, 0), PENDING);
            && Next(FirstTaken(), NewCompletion) == Taken(Polled([], Idle), both)
            && Next(Taken(Polled([], Idle), both), AddConsumer(0, 1)) == Taken(Polled([1], Idle), both)
  {
    hide Next, Taken;
    MarkAdded(Polled([], Idle), [Mark(PENDING, 0)]);
    assert [Mark(PENDING, 0)] + [Mark(PENDING, 0)] == Marks(Mark(PENDING, 0), PENDING);
    ConsumerAdded(Polled([], Idle), Marks(Mark(PENDING, 0), PENDING), 1);
    assert Polled([], Idle).core.consumers + [1] == [1];
  }

  lemma SlippingMarks(f: Frame)
    ensures Next(Taken(f, Marks(Mark(PENDING, 0), PENDING)), SetStatus(0, COMPLETE))
         == Taken(f, Marks(Mark(COMPLETE, 0), PENDING))
    ensures Next(Taken(f, Marks(Mark(COMPLETE, 0), PENDING)), SetStatus(1, COMPLETE))
         == Taken(f, Marks(Mark(COMPLETE, 0), COMPLETE))
    ensures Next(Taken(f, Marks(Mark(COMPLETE, 0), COMPLETE)), SetStatus(0, PENDING))
         == Taken(f, Marks(Mark(PENDING, 1), COMPLETE))
  {
    hide Next, Taken;
    MarkSet(f, Marks(Mark(PENDING, 0), PENDING), 0, COMPLETE);
    MarkSet(f, Marks(Mark(COMPLETE, 0), PENDING), 1, COMPLETE);
    MarkSet(f, Marks(Mark(COMPLETE, 0), COMPLETE), 0, PENDING);
    assert Marks(Mark(PENDING, 0), PENDING)[0 := Mark(COMPLETE, 0)] == Marks(Mark(COMPLETE, 0), PENDING);
    assert Marks(Mark(COMPLETE, 0), PENDING)[1 := Mark(COMPLETE, 0)] == Marks(Mark(COMPLETE, 0), COMPLETE);
    assert Marks(Mark(COMPLETE, 0), COMPLETE)[0 := Mark(PENDING, 1)] == Marks(Mark(PENDING, 1), COMPLETE);
  }

  function Slipped(): Frame {
    NewFrame(0, Pooled(0, 1)).(core := Core(0, Some(0), [1], true), callback := Due)
  }

  lemma SlippingQueries()
    ensures var done, late := Marks(Mark(COMPLETE, 0), COMPLETE), Marks(Mark(PENDING, 1), COMPLETE);
            && Next(Taken(Polled([1], Idle), done), Poll(0)) == Taken(Polled([1], Asking([])), done)
            && Next(Taken(Polled([1], Asking([])), done), Query(0)) == Taken(Polled([1], Asking([0])), done)
            && Next(Taken(Polled([1], Asking([0])), late), Query(0)) == Taken(Slipped(), late)
  {
    var f, g := Polled([1], Asking([])), Polled([1], Asking([0]));
    assert Awaited(f.core) == [0, 1] && Awaited(g.core) == [0, 1] && f.check.seen + [0] == [0];
    hide Next, Taken;
    CheckBegun(Polled([1], Idle), Marks(Mark(COMPLETE, 0), COMPLETE));
    QueryMade(f, Marks(Mark(COMPLETE, 0), COMPLETE));
    QueryMade(g, Marks(Mark(PENDING, 1), COMPLETE));
  }

  /** A producer goes back after the loop queried it, while the consumer is still to be queried. */
  lemma SlippingEnds()
    ensures Run(FirstTaken(), Slipping()) == Taken(Slipped(), Marks(Mark(PENDING, 1), COMPLETE))
  {
    SlippingBegins();
    SlippingMarks(Polled([1], Idle));
    SlippingMarks(Polled([1], Asking([0])));
    SlippingQueries();
    hide Next, Taken, Run, FirstTaken, Polled, Marks, Slipped;
    var done, late := Marks(Mark(COMPLETE, 0), COMPLETE), Marks(Mark(PENDING, 1), COMPLETE);
    Steps(Slipping(),
          [FirstTaken(), Taken(Polled([], Idle), Marks(Mark(PENDING, 0), PENDING)),
           Taken(Polled([1], Idle), Marks(Mark(PENDING, 0), PENDING)),
           Taken(Polled([1], Idle), Marks(Mark(COMPLETE, 0), PENDING)),
           Taken(Polled([1], Idle), done), Taken(Polled([1], Asking([])), done), Taken(Polled([1], Asking([0])), done),
           Taken(Polled([1], Asking([0])), late), Taken(Slipped(), late)], 0);
    assert Slipping()[0..] == Slipping();
  }

  /** So a frame can be recycled while its producer is pending. */
  lemma SlippingRecycles()
    ensures exists events :: var s := Final(Initial(1), events);
              && |s.frames| == 1 && s.frames[0].core.recycled && s.frames[0].core.producer.Some?
              && !IsDone(s.completions, s.frames[0].core.producer.value)
  {
    AfterTaken(Slipping());
    SlippingEnds();
    var s := Final(Initial(1), [NewCompletion, AcquireFrame(0)] + Slipping());
    assert |s.frames| == 1 && s.frames[0].core.producer == Some(0) && !IsDone(s.completions, 0);
  }
}
