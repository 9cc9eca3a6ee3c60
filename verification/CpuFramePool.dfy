/** The fixed pool of native CPU buffers and the completion state of borrowed submissions. */
module CpuFramePool {
  import opened Results
  import opened SlotTable

  const MAX_INT32: nat := 0x7FFF_FFFF

  datatype Format = I420 | NV12 | BGR24 | RGB24 | BGRA32

  /** What all slots of a pool have in common. */
  datatype Geometry = Geometry(format: Format, width: nat, height: nat)

  /** The allocation of one plane of one slot. */
  datatype Buffer = Buffer(slot: nat, plane: nat)

  /** What a lease shows its holder. */
  datatype SlotView = SlotView(geometry: Geometry, planes: seq<Buffer>, strides: seq<int>, pts: int)

  /** The guard of a pool's factory. */
  predicate Creatable(capacity: nat, g: Geometry) {
    capacity != 0 && g.width != 0 && g.height != 0 && g.width % 2 == 0 && g.height % 2 == 0
    && g.width <= MAX_INT32 / 4
  }

  /** An unsigned 32-bit product, kept as a signed 32-bit number. */
  function Stored(product: nat): int {
    var low := product % 0x1_0000_0000;
    if low <= MAX_INT32 then low else low - 0x1_0000_0000
  }

  function PlaneCount(f: Format): nat {
    match f
    case I420 => 3
    case NV12 => 2
    case _ => 1
  }

  /** The bytes of a row of one plane. */
  function RowBytes(g: Geometry, plane: nat): nat {
    match g.format
    case I420 => if plane == 0 then g.width else g.width / 2
    case NV12 => g.width
    case BGRA32 => g.width * 4
    case _ => g.width * 3
  }

  function BuffersOf(slot: nat, count: nat): seq<Buffer> {
    seq(count, k requires 0 <= k < count => Buffer(slot, k))
  }

  function StridesOf(g: Geometry, count: nat): seq<int> {
    seq(count, k requires 0 <= k < count => Stored(RowBytes(g, k)))
  }

  function ViewOf(g: Geometry, slot: nat): SlotView {
    var count := PlaneCount(g.format);
    SlotView(g, BuffersOf(slot, count), StridesOf(g, count), -1)
  }

  /** The guard keeps every stride what it should be: the bytes of a row, not shortened by 32 bits. */
  lemma StridesExact(capacity: nat, g: Geometry, slot: nat)
    requires Creatable(capacity, g)
    ensures ViewOf(g, slot).strides == match g.format
                                       case I420 => [g.width, g.width / 2, g.width / 2]
                                       case NV12 => [g.width, g.width]
                                       case BGR24 => [3 * g.width]
                                       case RGB24 => [3 * g.width]
                                       case BGRA32 => [4 * g.width]
    ensures |ViewOf(g, slot).planes| == |ViewOf(g, slot).strides| && ViewOf(g, slot).pts == -1
    ensures forall k :: 0 <= k < |ViewOf(g, slot).strides| ==> 0 < ViewOf(g, slot).strides[k] <= 0x7FFF_FFFF
  {
    forall k | 0 <= k < PlaneCount(g.format)
      ensures StridesOf(g, PlaneCount(g.format))[k] == RowBytes(g, k)
    {
      StoredSmall(RowBytes(g, k));
    }
    hide Stored;
  }

  lemma StoredSmall(product: nat)
    requires product <= MAX_INT32
    ensures Stored(product) == product
  {
  }

  /** Views of two slots have a plane in common only if it is the same slot. */
  lemma ViewsApart(g: Geometry, a: nat, b: nat)
    ensures (exists x :: x in ViewOf(g, a).planes && x in ViewOf(g, b).planes) <==> a == b
  {
    if a == b {
      assert ViewOf(g, a).planes[0] in ViewOf(g, b).planes;
    }
  }

  /** The fields the pool mutex guards. */
  datatype Pool = Pool(slots: seq<Slot>, inUse: nat, peak: nat, acquisitions: nat, rejected: nat)

  /** How an acquisition ends: asleep until a slot is recycled, turned away, or with a lease. */
  datatype Acquisition = Asleep | Rejected(code: Code) | Leased(slot: nat, generation: nat)

  /** How long an acquisition may wait. */
  datatype Patience = Forever | AtMost(milliseconds: nat)

  function EmptyPool(capacity: nat): Pool {
    Pool(FreshSlots(capacity), 0, 0, 0, 0)
  }

  /** Acquisition of the first free slot; `expired` says that a bounded wait has run out. */
  function Acquire(p: Pool, patience: Patience, expired: bool): (Pool, Acquisition) {
    match FirstFree(p.slots, 0)
    case Some(index) =>
      var generation := p.slots[index].generation + 1;
      var inUse := p.inUse + 1;
      (p.(slots := p.slots[index := Slot(true, generation)], inUse := inUse,
          peak := if p.peak < inUse then inUse else p.peak, acquisitions := p.acquisitions + 1),
       Leased(index, generation))
    case None =>
      if patience == AtMost(0) then (p.(rejected := p.rejected + 1), Rejected(WOULD_BLOCK))
      else if patience.AtMost? && expired then (p.(rejected := p.rejected + 1), Rejected(TIMEOUT))
      else (p, Asleep)
  }

  /** Recycling a stale or unknown slot does nothing. */
  function Recycle(p: Pool, slot: nat, generation: nat): Pool {
    if !Current(p.slots, slot, generation) then p
    else p.(slots := p.slots[slot := Slot(false, generation)],
            inUse := if p.inUse != 0 then p.inUse - 1 else 0)
  }

  class NativePool {
    const geometry: Geometry
    const slots: array<Slot>
    var inUse: nat
    var peakInUse: nat
    var acquisitions: nat
    var rejectedAcquisitions: nat

    function View(): Pool
      reads this, slots
    {
      Pool(slots[..], inUse, peakInUse, acquisitions, rejectedAcquisitions)
    }

    constructor (capacity: nat, geometry: Geometry)
      ensures View() == EmptyPool(capacity) && this.geometry == geometry && fresh(slots)
    {
      this.geometry := geometry;
      slots := new Slot[capacity](_ => Slot(false, 0));
      inUse, peakInUse, acquisitions, rejectedAcquisitions := 0, 0, 0, 0;
    }

    method HasFreeSlot() returns (found: bool)
      ensures found <==> FirstFree(slots[..], 0).Some?
    {
      for index := 0 to slots.Length
        invariant FirstFree(slots[..], 0) == FirstFree(slots[..], index)
      {
        if !slots[index].inUse {
          return true;
        }
      }
      return false;
    }

    method AcquireSlot(patience: Patience, expired: bool) returns (result: Acquisition)
      modifies this, slots
      ensures (View(), result) == Acquire(old(View()), patience, expired)
      // The same in terms of the slots: the first that is free, under its next generation.
      ensures forall k :: 0 <= k < slots.Length && !old(slots[k]).inUse
                          && (forall j :: 0 <= j < k ==> old(slots[j]).inUse) ==>
                result == Leased(k, old(slots[k]).generation + 1)
                && slots[..] == old(slots[..])[k := Slot(true, old(slots[k]).generation + 1)]
      ensures (forall k :: 0 <= k < slots.Length ==> old(slots[k]).inUse) ==>
                && slots[..] == old(slots[..])
                && result == (match patience
                              case Forever => Asleep
                              case AtMost(milliseconds) =>
                                if milliseconds == 0 then Rejected(WOULD_BLOCK)
                                else if expired then Rejected(TIMEOUT)
                                else Asleep)
      ensures inUse == old(inUse) + (if result.Leased? then 1 else 0)
      ensures acquisitions == old(acquisitions) + (if result.Leased? then 1 else 0)
      ensures rejectedAcquisitions == old(rejectedAcquisitions) + (if result.Rejected? then 1 else 0)
      ensures peakInUse == if result.Leased? && old(peakInUse) < inUse then inUse else old(peakInUse)
    {
      var free := HasFreeSlot();
      if !free {
        if patience == Forever || (patience != AtMost(0) && !expired) {
          return Asleep;
        }
        rejectedAcquisitions := rejectedAcquisitions + 1;
        return Rejected(if patience == AtMost(0) then WOULD_BLOCK else TIMEOUT);
      }
      var index := 0;
      while slots[index].inUse
        invariant index < slots.Length
        invariant FirstFree(slots[..], 0) == FirstFree(slots[..], index)
        decreases slots.Length - index
      {
        index := index + 1;
      }
      var generation := slots[index].generation + 1;
      slots[index] := Slot(true, generation);
      acquisitions := acquisitions + 1;
      inUse := inUse + 1;
      peakInUse := if peakInUse < inUse then inUse else peakInUse;
      return Leased(index, generation);
    }

    method ViewSlot(slot: nat, generation: nat) returns (code: Code, view: Option<SlotView>)
      ensures code == OK <==> Current(slots[..], slot, generation)
      ensures code == OK ==> view == Some(ViewOf(geometry, slot))
      ensures code != OK ==> code == INVALID_STATE && view == None
    {
      if slot >= slots.Length {
        return INVALID_STATE, None;
      }
      if !slots[slot].inUse || slots[slot].generation != generation {
        return INVALID_STATE, None;
      }
      var planes, strides := [], [];
      for index := 0 to PlaneCount(geometry.format)
        invariant planes == BuffersOf(slot, index) && strides == StridesOf(geometry, index)
      {
        planes := planes + [Buffer(slot, index)];
        strides := strides + [Stored(RowBytes(geometry, index))];
      }
      return OK, Some(SlotView(geometry, planes, strides, -1));
    }

    method RecycleSlot(slot: nat, generation: nat)
      modifies this, slots
      ensures View() == Recycle(old(View()), slot, generation)
      // The same in terms of the slots: freed under its generation, or left alone if that has passed.
      ensures slot < slots.Length && old(slots[slot]) == Slot(true, generation) ==>
                slots[..] == old(slots[..])[slot := Slot(false, generation)]
                && inUse == if old(inUse) == 0 then 0 else old(inUse) - 1
      ensures !(slot < slots.Length && old(slots[slot]) == Slot(true, generation)) ==>
                slots[..] == old(slots[..]) && inUse == old(inUse)
      ensures peakInUse == old(peakInUse) && acquisitions == old(acquisitions)
    {
      if slot >= slots.Length {
        return;
      }
      if !slots[slot].inUse || slots[slot].generation != generation {
        return;
      }
      slots[slot] := Slot(false, generation);
      if inUse != 0 {
        inUse := inUse - 1;
      }
    }
  }

  // ---------- Submissions ----------

  /** The state of a borrowed submission: its result once it has one, and the buffer it keeps alive. */
  datatype Ticket = Ticket(result: Option<Code>, owner: Option<nat>)

  function Completed(t: Ticket, code: Code): Ticket {
    if t.result.Some? then t else Ticket(Some(code), None)
  }

  function Owned(t: Ticket, lease: nat): Ticket {
    if t.result.Some? then t else t.(owner := Some(lease))
  }

  datatype Status = PENDING | COMPLETE | WAS_CANCELLED | FAILED

  function StatusOf(t: Ticket): (status: Status)
    ensures status == PENDING <==> t.result == None
    ensures status == COMPLETE <==> t.result == Some(OK)
    ensures status == WAS_CANCELLED <==> t.result == Some(CANCELLED)
  {
    match t.result
    case None => PENDING
    case Some(OK) => COMPLETE
    case Some(CANCELLED) => WAS_CANCELLED
    case Some(_) => FAILED
  }

  class CpuSubmission {
    var terminal: bool
    var result: Code
    var owner: Option<nat>

    function View(): Ticket
      reads this
    {
      Ticket(if terminal then Some(result) else None, owner)
    }

    constructor ()
      ensures View() == Ticket(None, None)
    {
      terminal, result, owner := false, OK, None;
    }

    /** Returns the lease whose reference the completion gives up, if it held one; only the first counts. */
    method Complete(code: Code) returns (dropped: Option<nat>)
      modifies this
      ensures View() == Completed(old(View()), code)
      ensures terminal && result == (if old(terminal) then old(result) else code)
      ensures owner == if old(terminal) then old(owner) else None
      ensures dropped == if old(terminal) then None else old(owner)
    {
      if terminal {
        return None;
      }
      dropped := owner;
      terminal := true;
      result := code;
      owner := None;
    }

    method SetOwner(lease: nat)
      modifies this
      ensures View() == Owned(old(View()), lease)
      ensures terminal == old(terminal) && result == old(result)
      ensures owner == if terminal then old(owner) else Some(lease)
    {
      if !terminal {
        owner := Some(lease);
      }
    }

    method Query() returns (status: Status)
      ensures status == StatusOf(View())
      ensures status == PENDING <==> !terminal
      ensures status == COMPLETE <==> terminal && result == OK
      ensures status == WAS_CANCELLED <==> terminal && result == CANCELLED
      ensures status == FAILED <==> terminal && result != OK && result != CANCELLED
    {
      if !terminal {
        return PENDING;
      }
      status := if result == OK then COMPLETE
                else if result == CANCELLED then WAS_CANCELLED
                else FAILED;
    }
  }
}
