/**
 * The slot preview and the settings form of src/app/admin/timeslots/page.tsx.
 * The preview steps through the same window as the customer generator but
 * stops after 20 entries; its entries are the instants (minutes after today's
 * midnight) that the page then renders with `toLocaleTimeString`.
 */
module SlotPreview {
  import opened Wrappers
  import opened Seqs
  import opened TimeSlots
  import opened Booking

  /** The preview never shows more than this many slots. */
  const PreviewCap: nat := 20

  /**
   * How many entries the preview loop produces for the window `[start, end)`:
   * none for an empty window; otherwise, with a positive step, the window's slot
   * count up to the cap, and with a step that does not advance, exactly the cap.
   */
  function PreviewLength(start: int, end: int, d: int): (n: nat)
    ensures n <= PreviewCap
  {
    if start >= end then 0
    else if d > 0 then Min(PreviewCap, SlotCount(start, end, d))
    else PreviewCap
  }

  /** `preview` is what `generatePreviewSlots` yields for the window `[start, end)`. */
  predicate PreviewOf(preview: seq<int>, start: int, end: int, d: int) {
    && |preview| == PreviewLength(start, end, d)
    && forall k :: 0 <= k < |preview| ==> preview[k] == NthSlotTime(start, d, k)
  }

  /** `generatePreviewSlots()` for the form's current start, end and duration. */
  method GeneratePreviewSlots(startTime: string, endTime: string, slotDuration: int)
    returns (slots: seq<int>)
    ensures TimeOfDay(startTime).None? || TimeOfDay(endTime).None? ==> slots == []
    ensures TimeOfDay(startTime).Some? && TimeOfDay(endTime).Some? ==>
      PreviewOf(slots, TimeOfDay(startTime).value, TimeOfDay(endTime).value, slotDuration)
  {
    slots := [];
    var startDate := TimeOfDay(startTime);
    var endDate := TimeOfDay(endTime);
    if startDate.None? || endDate.None? {
      // an invalid date compares false, so the loop never runs
      return;
    }
    slots := PreviewBetween(startDate.value, endDate.value, slotDuration);
  }

  /** The `while (current < end && slots.length < 20)` loop, on minutes. */
  method PreviewBetween(start: int, end: int, slotDuration: int) returns (slots: seq<int>)
    ensures PreviewOf(slots, start, end, slotDuration)
  {
    slots := [];
    var current := start;
    while current < end && |slots| < 20
      invariant |slots| <= PreviewCap
      invariant current == NthSlotTime(start, slotDuration, |slots|)
      invariant forall k :: 0 <= k < |slots| ==> slots[k] == NthSlotTime(start, slotDuration, k)
      invariant forall k :: 0 <= k < |slots| ==> NthSlotTime(start, slotDuration, k) < end
      decreases PreviewCap - |slots|
    {
      NthSlotNext(start, slotDuration, |slots|);
      slots := slots + [current];
      current := current + slotDuration;
    }
    PreviewLengthAtExit(start, end, slotDuration, |slots|);
  }

  /** The loop's two exit conditions give exactly `PreviewLength` entries. */
  lemma PreviewLengthAtExit(start: int, end: int, d: int, n: nat)
    requires n <= PreviewCap
    requires forall k :: 0 <= k < n ==> NthSlotTime(start, d, k) < end
    requires NthSlotTime(start, d, n) >= end || n == PreviewCap
    ensures n == PreviewLength(start, end, d)
  {
    if d > 0 {
      if start < end {
        if n == PreviewCap {
          assert NthSlotTime(start, d, n - 1) < end;
          SlotCountExact(start, end, d, n - 1);
        } else {
          SlotCountExact(start, end, d, n);
          if n > 0 {
            assert NthSlotTime(start, d, n - 1) < end;
            SlotCountExact(start, end, d, n - 1);
          }
        }
      }
    } else if n < PreviewCap {
      assert NthSlotTime(start, d, n) <= start by {
        NonPositiveStep(start, d, n);
      }
      if start < end {
        assert false;
      }
    } else {
      assert NthSlotTime(start, d, 0) < end;
    }
  }

  lemma {:induction false} NonPositiveStep(start: int, d: int, k: nat)
    requires d <= 0
    ensures NthSlotTime(start, d, k) <= start
  {
    if k > 0 {
      NonPositiveStep(start, d, k - 1);
      NthSlotNext(start, d, k - 1);
    }
  }

  // ---------------------------------------------------------------------
  // the preview against the customer generator

  /**
   * For a positive duration, the preview lists the instants of the first
   * `min(20, n)` slots that `getTimeSlots` emits for the same configuration.
   */
  lemma PreviewIsPrefix(preview: seq<int>, slots: seq<Slot>, startTime: string, endTime: string, d: int,
                        booked: map<string, int>, maxOrders: int, nowMs: int)
    requires d > 0
    requires TimeOfDay(startTime).None? || TimeOfDay(endTime).None? ==> preview == []
    requires TimeOfDay(startTime).Some? && TimeOfDay(endTime).Some? ==>
      PreviewOf(preview, TimeOfDay(startTime).value, TimeOfDay(endTime).value, d)
    requires Generated(slots, startTime, endTime, d, booked, maxOrders, nowMs)
    ensures |preview| == Min(PreviewCap, |slots|)
    ensures forall k :: 0 <= k < |preview| ==> preview[k] == slots[k].at
  {
    if TimeOfDay(startTime).Some? && TimeOfDay(endTime).Some? {
      var start, end := TimeOfDay(startTime).value, TimeOfDay(endTime).value;
      if start >= end {
        assert SlotCount(start, end, d) == 0;
      }
    }
  }

  /** The preview is empty exactly when the window is. */
  lemma PreviewEmptyIff(preview: seq<int>, start: int, end: int, d: int)
    requires PreviewOf(preview, start, end, d)
    ensures preview == [] <==> start >= end
  {
    if start < end && d > 0 {
      SlotCountExact(start, end, d, 0);
    }
  }

  /** The page shows "+ more slots..." when the preview has reached the cap. */
  predicate ShowsMoreNote(preview: seq<int>) {
    |preview| >= PreviewCap
  }

  /**
   * For a positive duration the note is shown exactly when the window has at
   * least 20 slots, which includes a window of exactly 20 with nothing more.
   */
  lemma MoreNoteIff(preview: seq<int>, start: int, end: int, d: int)
    requires d > 0 && PreviewOf(preview, start, end, d)
    ensures ShowsMoreNote(preview) <==> start < end && SlotCount(start, end, d) >= PreviewCap
  {
  }

  /** 09:00 to 14:00 every 15 minutes has exactly 20 slots, and the note is still shown. */
  lemma MoreNoteWithNothingMore(preview: seq<int>)
    requires PreviewOf(preview, 540, 840, 15)
    ensures SlotCount(540, 840, 15) == 20 && ShowsMoreNote(preview)
  {
  }

  // ---------------------------------------------------------------------
  // the settings form

  /** The form's initial state, before the stored configuration is loaded. */
  const FormDefaults: TimeSlotConfig := TimeSlotConfig("09:00", "22:00", 15, 5)

  /** The durations the select offers. */
  const DurationOptions: seq<int> := [10, 15, 20, 30, 60]

  /** The values the form lets through: a listed duration and a capacity in 1..50. */
  predicate FormAccepts(c: TimeSlotConfig) {
    c.slotDuration in DurationOptions && 1 <= c.maxOrdersPerSlot <= 50
  }

  /** The form starts from the server's default row, and every value it accepts has a positive duration. */
  lemma FormDefaultsAgree(c: TimeSlotConfig)
    requires FormAccepts(c)
    ensures FormDefaults == DefaultConfig && FormAccepts(FormDefaults)
    ensures c.slotDuration > 0 && c.maxOrdersPerSlot > 0
  {
    assert c.slotDuration == 10 || c.slotDuration == 15 || c.slotDuration == 20 || c.slotDuration == 30 || c.slotDuration == 60;
  }
}
