/** The generation-checked pool of GPU frame slots. */
module GpuFramePool {
  import opened Results
  import opened SlotTable

  datatype Pool = Pool(slots: seq<Slot>, inUse: nat, peak: nat)

  datatype Acquisition = Refused(code: Code) | Granted(slot: nat, generation: nat)

  function EmptyPool(capacity: nat): Pool {
    Pool(FreshSlots(capacity), 0, 0)
  }

  function Acquire(p: Pool, hasProducer: bool): (Pool, Acquisition) {
    if !hasProducer || p.slots == [] then (p, Refused(INVALID_ARGUMENT))
    else
      match FirstFree(p.slots, 0)
      case None => (p, Refused(WOULD_BLOCK))
      case Some(index) =>
        var generation, inUse := p.slots[index].generation + 1, p.inUse + 1;
        (Pool(p.slots[index := Slot(true, generation)], inUse, if p.peak < inUse then inUse else p.peak),
         Granted(index, generation))
  }

  function Recycle(p: Pool, slot: nat, generation: nat): Pool {
    if !Current(p.slots, slot, generation) then p
    else p.(slots := p.slots[slot := Slot(false, generation)],
            inUse := if p.inUse != 0 then p.inUse - 1 else 0)
  }

  class FramePool {
    const slots: array<Slot>
    var inUse: nat
    var peakInUse: nat

    function View(): Pool
      reads this, slots
    {
      Pool(slots[..], inUse, peakInUse)
    }

    constructor (capacity: nat)
      ensures View() == EmptyPool(capacity) && fresh(slots)
    {
      slots := new Slot[capacity](_ => Slot(false, 0));
      inUse, peakInUse := 0, 0;
    }

    method AcquireSlot(hasProducer: bool) returns (result: Acquisition)
      modifies this, slots
      ensures (View(), result) == Acquire(old(View()), hasProducer)
      // The same in terms of the slots: the first that is free, under its next generation.
      ensures !hasProducer || slots.Length == 0 ==> result == Refused(INVALID_ARGUMENT)
      ensures hasProducer && slots.Length != 0 && (forall k :: 0 <= k < slots.Length ==> old(slots[k]).inUse) ==>
                result == Refused(WOULD_BLOCK)
      ensures hasProducer ==>
                forall k :: 0 <= k < slots.Length && !old(slots[k]).inUse
                            && (forall j :: 0 <= j < k ==> old(slots[j]).inUse) ==>
                  result == Granted(k, old(slots[k]).generation + 1)
                  && slots[..] == old(slots[..])[k := Slot(true, old(slots[k]).generation + 1)]
      ensures result.Refused? ==> slots[..] == old(slots[..]) && inUse == old(inUse)
      ensures result.Granted? ==> inUse == old(inUse) + 1
      ensures peakInUse == if result.Granted? && old(peakInUse) < inUse then inUse else old(peakInUse)
    {
      if !hasProducer || slots.Length == 0 {
        return Refused(INVALID_ARGUMENT);
      }
      var index := slots.Length;
      for candidate := 0 to slots.Length
        invariant index == slots.Length
        invariant FirstFree(slots[..], 0) == FirstFree(slots[..], candidate)
      {
        if !slots[candidate].inUse {
          index := candidate;
          break;
        }
      }
      if index == slots.Length {
        return Refused(WOULD_BLOCK);
      }
      var generation := slots[index].generation + 1;
      slots[index] := Slot(true, generation);
      inUse := inUse + 1;
      peakInUse := if peakInUse < inUse then inUse else peakInUse;
      return Granted(index, generation);
    }

    method RecycleSlot(slot: nat, generation: nat)
      modifies this, slots
      ensures View() == Recycle(old(View()), slot, generation)
      // The same in terms of the slots: freed under its generation, or left alone if that has passed.
      ensures slot < slots.Length && old(slots[slot]) == Slot(true, generation) ==>
                slots[..] == old(slots[..])[slot := Slot(false, generation)]
                && inUse == if old(inUse) == 0 then 0 else old(inUse) - 1
      ensures !(slot < slots.Length && old(slots[slot]) == Slot(true, generation)) ==>
                slots[..] == old(slots[..]) && inUse == old(inUse)
      ensures peakInUse == old(peakInUse)
    {
      if slot >= slots.Length {
        return;
      }
      if !slots[slot].inUse || slots[slot].generation != generation {
        return;
      }
      slots[slot] := Slot(false, generation);
      if inUse != 0 {
        inUse := inUse - 1;
      }
    }
  }
}
