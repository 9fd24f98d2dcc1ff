/**
 * The time-slot picker of `Calendar` (`calendar.tsx`): the choice of the first
 * selection, the two effects that reconcile it with the props, the click handler
 * and the selection the slot buttons display. The date grid is not modelled.
 */
module Calendar {
  import opened Wrappers
  import opened Seqs

  /** `defaultTimeSlots`, used when the `timeSlots` prop is absent. */
  const DefaultTimeSlots: seq<string> := [
    "09:00 AM", "09:30 AM", "10:00 AM", "10:30 AM", "11:00 AM",
    "01:00 PM", "01:30 PM", "02:00 PM", "02:30 PM", "03:00 PM"
  ]

  /** The props that drive the picker; `None` is an omitted prop. */
  datatype SlotProps = SlotProps(
    timeSlots: Option<seq<string>>,
    selectedTimeSlot: Option<string>,
    initialTimeSlot: Option<string>,
    hasOnTimeSlotSelect: bool)

  function TimeSlots(p: SlotProps): seq<string>
  {
    p.timeSlots.GetOr(DefaultTimeSlots)
  }

  /** `selectedTimeSlot !== undefined`. */
  predicate IsControlled(p: SlotProps)
  {
    p.selectedTimeSlot.Some?
  }

  /** JavaScript truthiness of an optional string: present and not empty. */
  predicate Truthy(o: Option<string>)
  {
    o.Some? && o.value != ""
  }

  /** The `useState` initialiser of `internalSelectedSlot`. */
  function InitialSlot(p: SlotProps): (slot: Option<string>)
  {
    if IsControlled(p) then p.selectedTimeSlot
    else if Truthy(p.initialTimeSlot) then p.initialTimeSlot
    else if |TimeSlots(p)| > 0 then Some(TimeSlots(p)[0])
    else None
  }

  /**
   * The state updater of the uncontrolled effect: keep `prev` while it is listed,
   * else take `initial` if listed, else the first slot; nothing when there are no slots.
   */
  function Reconcile(slots: seq<string>, initial: Option<string>, prev: Option<string>): (r: Option<string>)
    ensures r.None? <==> slots == []
    ensures r.Some? ==> r.value in slots
  {
    if |slots| == 0 then None
    else if Truthy(prev) && prev.value in slots then prev
    else if Truthy(initial) && initial.value in slots then initial
    else Some(slots[0])
  }

  /** `currentSelectedSlot`: in controlled mode the prop, otherwise the internal state. */
  function CurrentSelectedSlot(p: SlotProps, internal: Option<string>): (shown: Option<string>)
  {
    if IsControlled(p) then p.selectedTimeSlot else internal
  }

  /**
   * Controlled, the displayed selection is the prop whatever the internal state
   * holds; uncontrolled, it is the internal state.
   */
  lemma ControlledSelectionIsProp(p: SlotProps, internal: Option<string>, other: Option<string>)
    ensures IsControlled(p) ==>
              CurrentSelectedSlot(p, internal) == CurrentSelectedSlot(p, other) == p.selectedTimeSlot
    ensures !IsControlled(p) ==> CurrentSelectedSlot(p, internal) == internal
  {
  }

  /** For each rendered slot button, whether it shows as selected (`currentSelectedSlot === slot`). */
  function SelectedMarks(slots: seq<string>, current: Option<string>): seq<bool>
  {
    seq(|slots|, k requires 0 <= k < |slots| => current == Some(slots[k]))
  }

  /** A non-empty selection that is still listed survives; otherwise a listed `initial`, then the first slot. */
  lemma ReconcilePreference(slots: seq<string>, initial: Option<string>, prev: Option<string>)
    requires slots != []
    ensures Truthy(prev) && prev.value in slots ==> Reconcile(slots, initial, prev) == prev
    ensures (!(Truthy(prev) && prev.value in slots) && Truthy(initial) && initial.value in slots)
            ==> Reconcile(slots, initial, prev) == initial
    ensures (!(Truthy(prev) && prev.value in slots) && !(Truthy(initial) && initial.value in slots))
            ==> Reconcile(slots, initial, prev) == Some(slots[0])
  {
  }

  /** Running the reconciling effect a second time changes nothing. */
  lemma ReconcileIdempotent(slots: seq<string>, initial: Option<string>, prev: Option<string>)
    ensures Reconcile(slots, initial, Reconcile(slots, initial, prev)) == Reconcile(slots, initial, prev)
  {
  }

  /**
   * Uncontrolled, the first selection survives the effect that runs on mount
   * exactly when it is none or listed; an unlisted `initialTimeSlot` is replaced
   * by the first slot, or by none when there are no slots.
   */
  lemma InitialSlotAfterMount(p: SlotProps)
    requires !IsControlled(p)
    ensures var r := Reconcile(TimeSlots(p), p.initialTimeSlot, InitialSlot(p));
            r == InitialSlot(p) <==> InitialSlot(p).None? || InitialSlot(p).value in TimeSlots(p)
    ensures (Truthy(p.initialTimeSlot) && p.initialTimeSlot.value !in TimeSlots(p) && TimeSlots(p) != [])
            ==> Reconcile(TimeSlots(p), p.initialTimeSlot, InitialSlot(p)) == Some(TimeSlots(p)[0])
  {
  }

  /** With the default slots and no other props, the picker starts on the first default slot. */
  lemma DefaultInitialSlot()
    ensures InitialSlot(SlotProps(None, None, None, false)) == Some("09:00 AM")
  {
  }

  /** A button is marked exactly when its slot is the current selection; with distinct slots, at most one is. */
  lemma AtMostOneMarked(slots: seq<string>, current: Option<string>, i: nat, j: nat)
    requires Distinct(slots) && i < j < |slots|
    ensures var m := SelectedMarks(slots, current);
            !(m[i] && m[j])
  {
  }

  /**
   * Uncontrolled, after reconciliation with distinct, non-empty slots, exactly one
   * slot button is marked selected.
   */
  lemma ExactlyOneMarkedAfterReconcile(slots: seq<string>, initial: Option<string>, prev: Option<string>)
    requires Distinct(slots) && slots != []
    ensures var m := SelectedMarks(slots, Reconcile(slots, initial, prev));
            exists k :: 0 <= k < |m| && m[k] && forall j :: 0 <= j < |m| && j != k ==> !m[j]
  {
    var r := Reconcile(slots, initial, prev);
    var m := SelectedMarks(slots, r);
    var k :| 0 <= k < |slots| && slots[k] == r.value;
    assert m[k];
    assert forall j :: 0 <= j < |m| && j != k ==> !m[j] by {
      forall j | 0 <= j < |m| && j != k ensures !m[j] {
        if j < k { assert slots[j] != slots[k]; } else { assert slots[k] != slots[j]; }
      }
    }
  }

  /** The default slots are pairwise different. */
  lemma DefaultSlotsDistinct()
    ensures Distinct(DefaultTimeSlots)
  {
  }

  /** The picker's React state and handlers; the props are passed in on each call, as on each render. */
  class TimeSlotPicker {
    var internalSelectedSlot: Option<string>

    constructor (p: SlotProps)
      ensures internalSelectedSlot == InitialSlot(p)
    {
      internalSelectedSlot := InitialSlot(p);
    }

    /** The selection the buttons render. */
    function Current(p: SlotProps): (r: Option<string>)
      reads this
    {
      CurrentSelectedSlot(p, internalSelectedSlot)
    }

    /** The first effect: in controlled mode the internal state follows the prop. */
    method SyncControlled(p: SlotProps)
      modifies this
      ensures IsControlled(p) ==> internalSelectedSlot == p.selectedTimeSlot && Current(p) == internalSelectedSlot
      ensures !IsControlled(p) ==> internalSelectedSlot == old(internalSelectedSlot)
    {
      if IsControlled(p) {
        internalSelectedSlot := p.selectedTimeSlot;
      }
    }

    /** The second effect: in uncontrolled mode the selection is reconciled with the slot list. */
    method ReconcileUncontrolled(p: SlotProps)
      modifies this
      ensures !IsControlled(p) ==>
                internalSelectedSlot == Reconcile(TimeSlots(p), p.initialTimeSlot, old(internalSelectedSlot))
      ensures !IsControlled(p) ==>
                (Current(p).None? <==> TimeSlots(p) == []) && (Current(p).Some? ==> Current(p).value in TimeSlots(p))
      ensures IsControlled(p) ==> internalSelectedSlot == old(internalSelectedSlot)
    {
      if !IsControlled(p) {
        var slots := TimeSlots(p);
        if |slots| == 0 {
          internalSelectedSlot := None;
          return;
        }
        var prev := internalSelectedSlot;
        if Truthy(prev) && prev.value in slots {
          internalSelectedSlot := prev;
        } else if Truthy(p.initialTimeSlot) && p.initialTimeSlot.value in slots {
          internalSelectedSlot := p.initialTimeSlot;
        } else {
          internalSelectedSlot := Some(slots[0]);
        }
      }
    }

    /**
     * `handleTimeSlotSelect(slot)`: uncontrolled, the slot becomes the selection;
     * controlled, the state is left alone. `callbackArg` is what `onTimeSlotSelect`
     * receives, `None` when that prop is absent.
     */
    method HandleTimeSlotSelect(p: SlotProps, slot: string) returns (callbackArg: Option<string>)
      modifies this
      ensures !IsControlled(p) ==> internalSelectedSlot == Some(slot) && Current(p) == Some(slot)
      ensures IsControlled(p) ==> internalSelectedSlot == old(internalSelectedSlot) && Current(p) == p.selectedTimeSlot
      ensures callbackArg == (if p.hasOnTimeSlotSelect then Some(slot) else None)
    {
      if !IsControlled(p) {
        internalSelectedSlot := Some(slot);
      }
      callbackArg := if p.hasOnTimeSlotSelect then Some(slot) else None;
    }
  }
}
