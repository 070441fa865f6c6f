/**
 * The `GET` handler of src/app/api/timeslots/route.ts: the stored slot
 * configuration or its defaults, the orders that occupy a slot today, the
 * per-key tally of those orders, and the slots built from them.
 *
 * Instants are minutes since a midnight-aligned epoch, so day `today` is the
 * window `[today * 1440, (today + 1) * 1440)` and the local hour and minute of
 * an instant are those of `at % 1440`.
 */
module Booking {
  import opened Wrappers
  import opened Seqs
  import opened TimeSlots

  /** The columns of an order row that the handler selects or filters on. */
  datatype BookedOrder = BookedOrder(pickupAt: int, paymentStatus: string, status: string)

  /** The `timeSlotConfig` row. */
  datatype TimeSlotConfig = TimeSlotConfig(startTime: string, endTime: string, slotDuration: int, maxOrdersPerSlot: int)

  /** The row the handler creates when none is stored. */
  const DefaultConfig: TimeSlotConfig := TimeSlotConfig("09:00", "22:00", 15, 5)

  /** `findFirst()`, falling back to the created default row. */
  function ConfigOrDefault(stored: Option<TimeSlotConfig>): TimeSlotConfig {
    stored.GetOr(DefaultConfig)
  }

  /** The query's `where`: picked up today, paid, and not cancelled. */
  predicate Eligible(o: BookedOrder, today: int) {
    && today * 1440 <= o.pickupAt < today * 1440 + 1440
    && o.paymentStatus == "PAID"
    && o.status != "CANCELLED"
  }

  /** The rows `findMany` returns: the eligible orders, in table order. */
  function TodaysBookings(table: seq<BookedOrder>, today: int): seq<BookedOrder> {
    Filter(table, o => Eligible(o, today))
  }

  /** The `HH:MM` key of an order's pickup time. */
  function PickupKey(o: BookedOrder): string {
    TimeKey(o.pickupAt % 1440)
  }

  /** How many of `orders` are picked up under `key`. */
  function CountWithKey(orders: seq<BookedOrder>, key: string): nat {
    if orders == [] then 0
    else CountWithKey(orders[..|orders| - 1], key) + (if PickupKey(orders[|orders| - 1]) == key then 1 else 0)
  }

  /**
   * The `forEach` that builds `bookedSlots`: afterwards every key maps to the
   * number of orders picked up under it, and only keys of some order are present.
   */
  method TallyBookings(orders: seq<BookedOrder>) returns (bookedSlots: map<string, int>)
    ensures forall key :: BookedCount(bookedSlots, key) == CountWithKey(orders, key)
    ensures forall key :: key in bookedSlots <==> CountWithKey(orders, key) > 0
  {
    bookedSlots := map[];
    for i := 0 to |orders|
      invariant forall key :: BookedCount(bookedSlots, key) == CountWithKey(orders[..i], key)
      invariant forall key :: key in bookedSlots <==> CountWithKey(orders[..i], key) > 0
    {
      var timeStr := PickupKey(orders[i]);
      var count := if timeStr in bookedSlots then bookedSlots[timeStr] else 0;
      bookedSlots := bookedSlots[timeStr := count + 1];
      assert orders[..i + 1][..i] == orders[..i];
    }
    assert orders[..|orders|] == orders;
  }

  // ---------------------------------------------------------------------
  // the tally adds up to the number of eligible orders

  /** The keys of the minutes of one day, in order. */
  function DayKeys(): (keys: seq<string>)
    ensures |keys| == 1440
  {
    seq(1440, t requires 0 <= t => TimeKey(t))
  }

  predicate Distinct(keys: seq<string>) {
    forall i, j :: 0 <= i < j < |keys| ==> keys[i] != keys[j]
  }

  /** The sum of the tally over `keys`. */
  function SumBooked(keys: seq<string>, bookedSlots: map<string, int>): int {
    if keys == [] then 0 else BookedCount(bookedSlots, keys[0]) + SumBooked(keys[1..], bookedSlots)
  }

  /** The sum of the per-key counts over `keys`. */
  function SumCounts(keys: seq<string>, orders: seq<BookedOrder>): nat {
    if keys == [] then 0 else CountWithKey(orders, keys[0]) + SumCounts(keys[1..], orders)
  }

  /** How often `key` occurs in `keys`. */
  function Occurrences(keys: seq<string>, key: string): nat {
    if keys == [] then 0 else (if keys[0] == key then 1 else 0) + Occurrences(keys[1..], key)
  }

  lemma DayKeysDistinct()
    ensures Distinct(DayKeys())
  {
    var keys := DayKeys();
    forall i, j | 0 <= i < j < |keys| ensures keys[i] != keys[j] {
      if keys[i] == keys[j] {
        TimeKeyInjective(i, j);
      }
    }
  }

  /** Every pickup key is a key of the day. */
  lemma PickupKeyInDay(o: BookedOrder)
    ensures PickupKey(o) in DayKeys()
  {
    assert DayKeys()[o.pickupAt % 1440] == PickupKey(o);
  }

  lemma {:induction false} OccursOnce(keys: seq<string>, key: string)
    requires Distinct(keys) && key in keys
    ensures Occurrences(keys, key) == 1
  {
    if keys[0] == key {
      NotOccurring(keys[1..], key);
    } else {
      OccursOnce(keys[1..], key);
    }
  }

  lemma {:induction false} NotOccurring(keys: seq<string>, key: string)
    requires key !in keys
    ensures Occurrences(keys, key) == 0
  {
    if keys != [] {
      NotOccurring(keys[1..], key);
    }
  }

  lemma {:induction false} SumCountsSnoc(keys: seq<string>, orders: seq<BookedOrder>, o: BookedOrder)
    ensures SumCounts(keys, orders + [o]) == SumCounts(keys, orders) + Occurrences(keys, PickupKey(o))
  {
    if keys != [] {
      assert (orders + [o])[..|orders + [o]| - 1] == orders;
      SumCountsSnoc(keys[1..], orders, o);
    }
  }

  /** Over distinct keys that cover every order's key, the counts add up to the number of orders. */
  lemma {:induction false} SumCountsIsLength(keys: seq<string>, orders: seq<BookedOrder>)
    requires Distinct(keys)
    requires forall i :: 0 <= i < |orders| ==> PickupKey(orders[i]) in keys
    ensures SumCounts(keys, orders) == |orders|
  {
    if orders == [] {
      NoOrdersNoCounts(keys);
    } else {
      var init, o := orders[..|orders| - 1], orders[|orders| - 1];
      assert orders == init + [o];
      SumCountsIsLength(keys, init);
      SumCountsSnoc(keys, init, o);
      OccursOnce(keys, PickupKey(o));
    }
  }

  lemma {:induction false} NoOrdersNoCounts(keys: seq<string>)
    ensures SumCounts(keys, []) == 0
  {
    if keys != [] {
      NoOrdersNoCounts(keys[1..]);
    }
  }

  lemma {:induction false} SumBookedIsSumCounts(keys: seq<string>, bookedSlots: map<string, int>, orders: seq<BookedOrder>)
    requires forall key :: BookedCount(bookedSlots, key) == CountWithKey(orders, key)
    ensures SumBooked(keys, bookedSlots) == SumCounts(keys, orders)
  {
    if keys != [] {
      SumBookedIsSumCounts(keys[1..], bookedSlots, orders);
    }
  }

  /** A key with a positive count is the key of some order. */
  lemma {:induction false} CountedKeyOccurs(orders: seq<BookedOrder>, key: string)
    requires CountWithKey(orders, key) > 0
    ensures exists i :: 0 <= i < |orders| && PickupKey(orders[i]) == key
  {
    var init := orders[..|orders| - 1];
    if PickupKey(orders[|orders| - 1]) != key {
      CountedKeyOccurs(init, key);
      var i :| 0 <= i < |init| && PickupKey(init[i]) == key;
      assert orders[i] == init[i];
    }
  }

  /**
   * The tally holds only keys of the day, and its counts over the day add up
   * to the number of orders tallied.
   */
  lemma TallyTotal(orders: seq<BookedOrder>, bookedSlots: map<string, int>)
    requires forall key :: BookedCount(bookedSlots, key) == CountWithKey(orders, key)
    requires forall key :: key in bookedSlots <==> CountWithKey(orders, key) > 0
    ensures forall key :: key in bookedSlots ==> key in DayKeys()
    ensures SumBooked(DayKeys(), bookedSlots) == |orders|
  {
    forall key | key in bookedSlots ensures key in DayKeys() {
      CountedKeyOccurs(orders, key);
      var i :| 0 <= i < |orders| && PickupKey(orders[i]) == key;
      PickupKeyInDay(orders[i]);
    }
    forall i | 0 <= i < |orders| ensures PickupKey(orders[i]) in DayKeys() {
      PickupKeyInDay(orders[i]);
    }
    DayKeysDistinct();
    SumCountsIsLength(DayKeys(), orders);
    SumBookedIsSumCounts(DayKeys(), bookedSlots, orders);
  }

  // ---------------------------------------------------------------------
  // the handler

  /**
   * The handler's result after the database calls: the stored configuration,
   * or the default row when none is stored, the tally of today's eligible
   * orders, and the slots `getTimeSlots` builds from them. A stored row whose
   * duration does not advance the clock over an open window makes the
   * generator loop forever, so such a row is excluded here (see
   * `StoredZeroDurationNeverEnds` and `CorrectedTimeSlotsToday`).
   */
  method TimeSlotsToday(stored: Option<TimeSlotConfig>, table: seq<BookedOrder>, today: int, nowMs: int)
    returns (config: TimeSlotConfig, bookedSlots: map<string, int>, slots: seq<Slot>)
    requires ConfigOrDefault(stored).slotDuration > 0
          || !WindowOpen(ConfigOrDefault(stored).startTime, ConfigOrDefault(stored).endTime)
    ensures stored.Some? ==> config == stored.value
    ensures stored.None? ==> config == DefaultConfig
    ensures forall key :: BookedCount(bookedSlots, key) == CountWithKey(TodaysBookings(table, today), key)
    ensures Generated(slots, config.startTime, config.endTime, config.slotDuration, bookedSlots, config.maxOrdersPerSlot, nowMs)
  {
    config := ConfigOrDefault(stored);
    var orders := TodaysBookings(table, today);
    bookedSlots := TallyBookings(orders);
    slots := GetTimeSlots(config.startTime, config.endTime, config.slotDuration, bookedSlots, config.maxOrdersPerSlot, nowMs);
  }

  /**
   * As written, the handler serves whatever row is stored, and nothing stops a
   * row whose duration is not positive: with 09:00-22:00 and a duration of 0
   * the generator's loop guard holds at every step, so the request never ends.
   */
  lemma StoredZeroDurationNeverEnds(k: nat)
    ensures ConfigOrDefault(Some(TimeSlotConfig("09:00", "22:00", 0, 5))).slotDuration == 0
    ensures WindowOpen("09:00", "22:00")
    ensures NthSlotTime(540, 0, k) < 1320
  {
    OpeningAt("09:00", 9, 0);
    OpeningAt("22:00", 22, 0);
  }

  /**
   * The configuration the handler should serve: the stored row when its
   * duration advances the clock, the default row otherwise.
   */
  function UsableConfig(stored: Option<TimeSlotConfig>): (config: TimeSlotConfig)
    ensures config.slotDuration > 0
    ensures config == ConfigOrDefault(stored) || config == DefaultConfig
  {
    if stored.Some? && stored.value.slotDuration > 0 then stored.value else DefaultConfig
  }

  /** On every row the settings form can write, the corrected choice is the handler's own. */
  lemma UsableConfigAgrees(stored: Option<TimeSlotConfig>)
    requires stored.None? || stored.value.slotDuration > 0
    ensures UsableConfig(stored) == ConfigOrDefault(stored)
  {
  }

  /**
   * The handler with the corrected choice of configuration: it answers for
   * every stored row, and on every row with a positive duration it answers
   * exactly as the handler does.
   */
  method CorrectedTimeSlotsToday(stored: Option<TimeSlotConfig>, table: seq<BookedOrder>, today: int, nowMs: int)
    returns (config: TimeSlotConfig, bookedSlots: map<string, int>, slots: seq<Slot>)
    ensures config.slotDuration > 0
    ensures stored.Some? && stored.value.slotDuration > 0 ==> config == stored.value
    ensures stored.None? || stored.value.slotDuration <= 0 ==> config == DefaultConfig
    ensures forall key :: BookedCount(bookedSlots, key) == CountWithKey(TodaysBookings(table, today), key)
    ensures Generated(slots, config.startTime, config.endTime, config.slotDuration, bookedSlots, config.maxOrdersPerSlot, nowMs)
  {
    config, bookedSlots, slots := TimeSlotsToday(Some(UsableConfig(stored)), table, today, nowMs);
  }

  /** With no stored row, slots run every 15 minutes from 09:00 up to 21:45: 52 of them. */
  lemma DefaultWindow()
    ensures TimeOfDay(DefaultConfig.startTime) == Some(540)
    ensures TimeOfDay(DefaultConfig.endTime) == Some(1320)
    ensures SlotCount(540, 1320, DefaultConfig.slotDuration) == 52
    ensures DefaultConfig.maxOrdersPerSlot == 5
  {
    OpeningAt("09:00", 9, 0);
    OpeningAt("22:00", 22, 0);
  }

  /** A literal canonical time parses to its own hour and minute. */
  lemma OpeningAt(s: string, h: nat, m: nat)
    requires IsCanonicalTime(s) && CanonicalHour(s) == h && CanonicalMinute(s) == m
    ensures TimeOfDay(s) == Some(h * 60 + m)
  {
    TimeOfCanonical(s);
  }
}
