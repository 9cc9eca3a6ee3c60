/** The slot tables of the CPU and the GPU frame pool: a use flag and a generation for each slot. */
module SlotTable {
  import opened Results

  datatype Slot = Slot(inUse: bool, generation: nat)

  function FreshSlots(capacity: nat): seq<Slot> {
    seq(capacity, _ => Slot(false, 0))
  }

  /** The first slot not in use, from a position on. */
  function FirstFree(slots: seq<Slot>, from: nat): (r: Option<nat>)
    requires from <= |slots|
    ensures r.Some? ==> from <= r.value < |slots| && !slots[r.value].inUse
    ensures r.Some? ==> forall k :: from <= k < r.value ==> slots[k].inUse
    ensures r == None <==> forall k :: from <= k < |slots| ==> slots[k].inUse
    decreases |slots| - from
  {
    if from == |slots| then None
    else if !slots[from].inUse then Some(from)
    else FirstFree(slots, from + 1)
  }

  /** Whether a slot is in its use number `generation`. */
  predicate Current(slots: seq<Slot>, slot: nat, generation: nat) {
    slot < |slots| && slots[slot] == Slot(true, generation)
  }

  /** How many slots are in use. */
  function Busy(slots: seq<Slot>): nat {
    if slots == [] then 0
    else Busy(slots[..|slots| - 1]) + if slots[|slots| - 1].inUse then 1 else 0
  }

  lemma {:induction false} NoneBusy(capacity: nat)
    ensures Busy(FreshSlots(capacity)) == 0
  {
    if capacity != 0 {
      NoneBusy(capacity - 1);
      assert FreshSlots(capacity)[..capacity - 1] == FreshSlots(capacity - 1);
    }
  }

  lemma {:induction false} BusyUpdate(slots: seq<Slot>, k: nat, slot: Slot)
    requires k < |slots|
    ensures Busy(slots[k := slot]) + (if slots[k].inUse then 1 else 0)
         == Busy(slots) + if slot.inUse then 1 else 0
  {
    var n := |slots| - 1;
    if k < n {
      BusyUpdate(slots[..n], k, slot);
      assert slots[k := slot][..n] == slots[..n][k := slot];
    } else {
      assert slots[k := slot][..n] == slots[..n];
    }
  }
}
