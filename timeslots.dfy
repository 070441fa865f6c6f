/**
 * The customer pickup-slot generator `getTimeSlots` of src/lib/utils.ts and
 * the `HH:MM` parsing and formatting it uses.
 *
 * Wall-clock times are minutes after today's midnight; "now" is given in
 * milliseconds after today's midnight, since the source compares `Date`
 * values to the millisecond. Days have no daylight-saving changes.
 */
module TimeSlots {
  import opened Wrappers
  import opened Text

  // Arithmetic below writes 60 (minutes per hour), 1440 (minutes per day) and
  // 60000 (milliseconds per minute) as literals, which keeps it linear.

  /** A slot must start at least this many minutes from now. */
  const LeadTimeMinutes: nat := 15

  // ---------------------------------------------------------------------
  // HH:MM strings

  /**
   * `const [h, m] = s.split(':').map(Number)`. A missing piece or a piece that
   * is not a numeral (NaN) gives `None`.
   */
  function ParseTime(s: string): Option<(nat, nat)> {
    var parts := Split(s, ':');
    if |parts| >= 2 && NumberValue(parts[0]).Some? && NumberValue(parts[1]).Some? then
      Some((NumberValue(parts[0]).value, NumberValue(parts[1]).value))
    else
      None
  }

  /**
   * `date.setHours(h, m, 0, 0)` applied to today's date, as minutes after
   * today's midnight; hours past 23 and minutes past 59 carry over as they do
   * for `setHours`. `None` is the invalid date that NaN produces.
   */
  function TimeOfDay(s: string): Option<nat> {
    match ParseTime(s)
    case None => None
    case Some((h, m)) => Some(h * 60 + m)
  }

  /**
   * `${h.toString().padStart(2, '0')}:${m.toString().padStart(2, '0')}` for an
   * hour and a minute below 100, written out digit by digit; `FormatIsPadded`
   * proves it equal to the padded numerals.
   */
  function FormatHHMM(h: nat, m: nat): (r: string)
    requires h < 100 && m < 100
    ensures |r| == 5 && r[2] == ':'
  {
    [DigitChar(h / 10), DigitChar(h % 10), ':', DigitChar(m / 10), DigitChar(m % 10)]
  }

  /** The key of the instant `t` minutes after today's midnight (`getHours()`, `getMinutes()`). */
  function TimeKey(t: nat): string {
    FormatHHMM((t / 60) % 24, t % 60)
  }

  /** A zero-padded 24-hour `HH:MM` string. */
  predicate IsCanonicalTime(s: string) {
    && |s| == 5 && IsDigit(s[0]) && IsDigit(s[1]) && s[2] == ':' && IsDigit(s[3]) && IsDigit(s[4])
    && 10 * DigitValue(s[0]) + DigitValue(s[1]) < 24
    && 10 * DigitValue(s[3]) + DigitValue(s[4]) < 60
  }

  function CanonicalHour(s: string): nat
    requires IsCanonicalTime(s)
  {
    10 * DigitValue(s[0]) + DigitValue(s[1])
  }

  function CanonicalMinute(s: string): nat
    requires IsCanonicalTime(s)
  {
    10 * DigitValue(s[3]) + DigitValue(s[4])
  }

  /** The digit-by-digit formatter is the padded-numeral template of the source. */
  lemma FormatIsPadded(h: nat, m: nat)
    requires h < 100 && m < 100
    ensures FormatHHMM(h, m) == Pad2(h) + ":" + Pad2(m)
  {
    Pad2Digits(h);
    Pad2Digits(m);
    FiveChars(Pad2(h), Pad2(m));
  }

  lemma FiveChars(x: string, y: string)
    requires |x| == 2 && |y| == 2
    ensures x + ":" + y == [x[0], x[1], ':', y[0], y[1]]
  {
  }

  lemma {:induction false} SplitWithoutSeparator(y: string, sep: char)
    requires sep !in y
    ensures Split(y, sep) == [y]
  {
    if y != [] {
      SplitWithoutSeparator(y[1..], sep);
      assert [y[0]] + y[1..] == y;
    }
  }

  lemma {:induction false} SplitAtSeparator(x: string, y: string, sep: char)
    requires sep !in x && sep !in y
    ensures Split(x + [sep] + y, sep) == [x, y]
  {
    var s := x + [sep] + y;
    if x == [] {
      assert s[1..] == y;
      SplitWithoutSeparator(y, sep);
    } else {
      assert s[1..] == x[1..] + [sep] + y;
      SplitAtSeparator(x[1..], y, sep);
      assert [x[0]] + x[1..] == x;
    }
  }

  lemma TwoDigitValue(a: char, b: char)
    requires IsDigit(a) && IsDigit(b)
    ensures NumberValue([a, b]) == Some(10 * DigitValue(a) + DigitValue(b))
  {
    assert [a, b][..1] == [a];
    assert [a][..0] == [];
    assert DecimalValue([a]) == DigitValue(a);
  }

  /** A canonical `HH:MM` string parses to its hour and minute. */
  lemma ParseCanonical(s: string)
    requires IsCanonicalTime(s)
    ensures ParseTime(s) == Some((CanonicalHour(s), CanonicalMinute(s)))
    ensures TimeOfDay(s) == Some(CanonicalHour(s) * 60 + CanonicalMinute(s))
  {
    var hh, mm := [s[0], s[1]], [s[3], s[4]];
    assert Split(s, ':') == [hh, mm] by {
      assert s == hh + [':'] + mm;
      SplitAtSeparator(hh, mm, ':');
    }
    TwoDigitValue(s[0], s[1]);
    TwoDigitValue(s[3], s[4]);
    ParseTwoParts(s, hh, mm, CanonicalHour(s), CanonicalMinute(s));
  }

  lemma ParseTwoParts(s: string, hh: string, mm: string, h: nat, m: nat)
    requires Split(s, ':') == [hh, mm]
    requires NumberValue(hh) == Some(h) && NumberValue(mm) == Some(m)
    ensures ParseTime(s) == Some((h, m)) && TimeOfDay(s) == Some(h * 60 + m)
  {
  }

  lemma DecimalDigits(a: nat, b: nat)
    requires a < 10 && b < 10
    ensures (10 * a + b) / 10 == a && (10 * a + b) % 10 == b
  {
  }

  /** The formatter writes a canonical `HH:MM` string for an hour and a minute in range. */
  lemma FormatCanonical(h: nat, m: nat)
    requires h < 24 && m < 60
    ensures IsCanonicalTime(FormatHHMM(h, m))
    ensures CanonicalHour(FormatHHMM(h, m)) == h && CanonicalMinute(FormatHHMM(h, m)) == m
  {
  }

  /** Formatting then parsing gives back the hour and the minute. */
  lemma FormatParseRoundTrip(h: nat, m: nat)
    requires h < 24 && m < 60
    ensures ParseTime(FormatHHMM(h, m)) == Some((h, m))
  {
    FormatCanonical(h, m);
    ParseCanonical(FormatHHMM(h, m));
  }

  /** Every key is a canonical `HH:MM` string naming the hour and minute of its instant. */
  lemma TimeKeyCanonical(t: nat)
    ensures IsCanonicalTime(TimeKey(t))
    ensures CanonicalHour(TimeKey(t)) == (t / 60) % 24
    ensures CanonicalMinute(TimeKey(t)) == t % 60
  {
    FormatCanonical((t / 60) % 24, t % 60);
  }

  /** Within one day, distinct instants have distinct keys. */
  lemma TimeKeyInjective(a: nat, b: nat)
    requires a < 1440 && b < 1440 && TimeKey(a) == TimeKey(b)
    ensures a == b
  {
    TimeKeyCanonical(a);
    TimeKeyCanonical(b);
    assert a / 60 == b / 60 && a % 60 == b % 60;
  }

  lemma MinutesDivMod(h: nat, m: nat)
    requires m < 60
    ensures (h * 60 + m) / 60 == h && (h * 60 + m) % 60 == m
  {
  }

  /** The key of `h * 60 + m` is the formatted hour and minute. */
  lemma TimeKeyOf(t: nat, h: nat, m: nat)
    requires h < 24 && m < 60 && t == h * 60 + m
    ensures TimeKey(t) == FormatHHMM(h, m)
  {
    MinutesDivMod(h, m);
    assert (t / 60) % 24 == h;
  }

  lemma DigitCharOfValue(c: char)
    requires IsDigit(c)
    ensures DigitChar(DigitValue(c)) == c
  {
  }

  /** A canonical string is its own hour and minute, formatted. */
  lemma FormatOfCanonical(s: string)
    requires IsCanonicalTime(s)
    ensures FormatHHMM(CanonicalHour(s), CanonicalMinute(s)) == s
  {
    DecimalDigits(DigitValue(s[0]), DigitValue(s[1]));
    DecimalDigits(DigitValue(s[3]), DigitValue(s[4]));
    DigitCharOfValue(s[0]);
    DigitCharOfValue(s[1]);
    DigitCharOfValue(s[3]);
    DigitCharOfValue(s[4]);
  }

  /**
   * Parsing a canonical time and taking its key gives back the same string, so
   * a configured opening time is emitted under its own name.
   */
  lemma ParseFormatRoundTrip(s: string)
    requires IsCanonicalTime(s)
    ensures TimeOfDay(s) == Some(CanonicalHour(s) * 60 + CanonicalMinute(s))
    ensures TimeKey(CanonicalHour(s) * 60 + CanonicalMinute(s)) == s
  {
    TimeOfCanonical(s);
    KeyOfCanonical(s);
  }

  lemma TimeOfCanonical(s: string)
    requires IsCanonicalTime(s)
    ensures TimeOfDay(s) == Some(CanonicalHour(s) * 60 + CanonicalMinute(s))
  {
    ParseCanonical(s);
  }

  lemma KeyOfCanonical(s: string)
    requires IsCanonicalTime(s)
    ensures TimeKey(CanonicalHour(s) * 60 + CanonicalMinute(s)) == s
  {
    TimeKeyOf(CanonicalHour(s) * 60 + CanonicalMinute(s), CanonicalHour(s), CanonicalMinute(s));
    FormatOfCanonical(s);
  }

  // ---------------------------------------------------------------------
  // the slot generator

  /** One entry of the result; `at` is the instant (minutes after midnight) given to `formatTime` for `displayTime`. */
  datatype Slot = Slot(time: string, available: bool, at: nat)

  /** `bookedSlots.get(key) || 0`. */
  function BookedCount(booked: map<string, int>, key: string): int {
    if key in booked then booked[key] else 0
  }

  /** The `k`-th instant the loop visits. */
  function NthSlotTime(start: int, d: int, k: nat): int {
    start + k * d
  }

  lemma NthSlotNext(start: int, d: int, k: nat)
    ensures NthSlotTime(start, d, k + 1) == NthSlotTime(start, d, k) + d
  {
    assert (k + 1) * d == k * d + d;
  }

  lemma NthSlotIncreasing(start: int, d: int, i: nat, j: nat)
    requires d > 0 && i < j
    ensures NthSlotTime(start, d, i) < NthSlotTime(start, d, j)
  {
    MulMonotone(i + 1, j, d);
    NthSlotNext(start, d, i);
  }

  /** How many times the loop body runs: the ceiling of `(end - start) / d`, or 0. */
  function SlotCount(start: int, end: int, d: int): nat
    requires d > 0
  {
    if start >= end then 0 else (end - start + d - 1) / d
  }

  lemma MulMonotone(a: int, b: int, d: int)
    requires a <= b && d > 0
    ensures a * d <= b * d
  {
  }

  /** The loop visits `start + k*d` exactly for the `k` that keep it before `end`. */
  lemma {:induction false} SlotCountExact(start: int, end: int, d: int, k: nat)
    requires d > 0
    ensures k < SlotCount(start, end, d) <==> NthSlotTime(start, d, k) < end
  {
    if start < end {
      var n := end - start;
      var c := (n + d - 1) / d;
      assert c * d <= n + d - 1 < c * d + d;
      if k < c {
        MulMonotone(k, c - 1, d);
        assert (c - 1) * d == c * d - d;
      } else {
        MulMonotone(c, k, d);
      }
    } else {
      assert k * d >= 0;
    }
  }

  /** A slot is bookable: far enough ahead and below capacity. */
  predicate IsAvailable(t: nat, booked: map<string, int>, maxOrders: int, nowMs: int) {
    t * 60000 >= nowMs + LeadTimeMinutes * 60000 && BookedCount(booked, TimeKey(t)) < maxOrders
  }

  /** The slot the generator emits for the instant `t`. */
  function SlotAt(t: nat, booked: map<string, int>, maxOrders: int, nowMs: int): Slot {
    Slot(TimeKey(t), IsAvailable(t, booked, maxOrders, nowMs), t)
  }

  /** `slots` is what the generator emits for the window `[start, end)`. */
  predicate SlotsFrom(slots: seq<Slot>, start: nat, end: int, d: int, booked: map<string, int>, maxOrders: int, nowMs: int)
    requires d > 0
  {
    && |slots| == SlotCount(start, end, d)
    && forall k :: 0 <= k < |slots| ==> slots[k] == SlotAt(NthSlotTime(start, d, k), booked, maxOrders, nowMs)
  }

  /**
   * What the generator emits for the configured strings: nothing when either
   * time does not parse, otherwise the slots of the parsed window.
   */
  predicate Generated(slots: seq<Slot>, startTime: string, endTime: string, d: int,
                      booked: map<string, int>, maxOrders: int, nowMs: int)
  {
    if TimeOfDay(startTime).Some? && TimeOfDay(endTime).Some? && d > 0 then
      SlotsFrom(slots, TimeOfDay(startTime).value, TimeOfDay(endTime).value, d, booked, maxOrders, nowMs)
    else
      slots == []
  }

  /** Both times parse and the opening comes strictly before the closing. */
  predicate WindowOpen(startTime: string, endTime: string) {
    TimeOfDay(startTime).Some? && TimeOfDay(endTime).Some? && TimeOfDay(startTime).value < TimeOfDay(endTime).value
  }

  /**
   * `getTimeSlots(startTime, endTime, slotDuration, bookedSlots, maxOrdersPerSlot)`
   * with the clock reading passed in as `nowMs`. The source loops forever on an
   * open window when the duration is not positive, hence the requirement.
   */
  method GetTimeSlots(startTime: string, endTime: string, slotDuration: int,
                      bookedSlots: map<string, int>, maxOrdersPerSlot: int, nowMs: int)
    returns (slots: seq<Slot>)
    requires slotDuration > 0 || !WindowOpen(startTime, endTime)
    ensures Generated(slots, startTime, endTime, slotDuration, bookedSlots, maxOrdersPerSlot, nowMs)
  {
    slots := [];
    var startDate := TimeOfDay(startTime);
    var endDate := TimeOfDay(endTime);
    if startDate.None? || endDate.None? {
      // an invalid date compares false with everything, so the loop never runs
      return;
    }
    var start, end := startDate.value, endDate.value;
    if slotDuration <= 0 {
      // here the window is empty, so the loop below would not run
      return;
    }
    slots := SlotsBetween(start, end, slotDuration, bookedSlots, maxOrdersPerSlot, nowMs);
  }

  /** The `while (current < endDate)` loop of `getTimeSlots`, on minutes. */
  method SlotsBetween(start: nat, end: int, slotDuration: int,
                      bookedSlots: map<string, int>, maxOrdersPerSlot: int, nowMs: int)
    returns (slots: seq<Slot>)
    requires slotDuration > 0
    ensures SlotsFrom(slots, start, end, slotDuration, bookedSlots, maxOrdersPerSlot, nowMs)
  {
    slots := [];
    var minPickupTime := nowMs + LeadTimeMinutes * 60000;
    var current := start;
    while current < end
      invariant current == NthSlotTime(start, slotDuration, |slots|)
      invariant |slots| <= SlotCount(start, end, slotDuration)
      invariant forall k :: 0 <= k < |slots| ==>
        slots[k] == SlotAt(NthSlotTime(start, slotDuration, k), bookedSlots, maxOrdersPerSlot, nowMs)
      decreases end - current
    {
      SlotCountExact(start, end, slotDuration, |slots|);
      var timeStr := TimeKey(current);
      var booked := BookedCount(bookedSlots, timeStr);
      var isPast := current * 60000 < minPickupTime;
      var isFull := booked >= maxOrdersPerSlot;
      var slot := Slot(timeStr, !isPast && !isFull, current);
      assert slot == SlotAt(current, bookedSlots, maxOrdersPerSlot, nowMs);
      NthSlotNext(start, slotDuration, |slots|);
      slots := slots + [slot];
      current := current + slotDuration;
    }
    SlotCountExact(start, end, slotDuration, |slots|);
  }

  // ---------------------------------------------------------------------
  // properties of the emitted slots

  /** The emitted instants are exactly `start + k*d` for the `k` with `start + k*d < end`. */
  lemma SlotTimesExact(slots: seq<Slot>, start: nat, end: int, d: int, booked: map<string, int>, maxOrders: int, nowMs: int, k: nat)
    requires d > 0 && SlotsFrom(slots, start, end, d, booked, maxOrders, nowMs)
    ensures k < |slots| <==> NthSlotTime(start, d, k) < end
    ensures k < |slots| ==> slots[k].at == NthSlotTime(start, d, k)
  {
    SlotCountExact(start, end, d, k);
  }

  /** An empty or inverted window yields no slots. */
  lemma EmptyWindow(slots: seq<Slot>, start: nat, end: int, d: int, booked: map<string, int>, maxOrders: int, nowMs: int)
    requires d > 0 && SlotsFrom(slots, start, end, d, booked, maxOrders, nowMs)
    requires start >= end
    ensures slots == []
  {
  }

  /** Consecutive slots are exactly `d` minutes apart, and every slot lies in `[start, end)`. */
  lemma SlotsStepped(slots: seq<Slot>, start: nat, end: int, d: int, booked: map<string, int>, maxOrders: int, nowMs: int)
    requires d > 0 && SlotsFrom(slots, start, end, d, booked, maxOrders, nowMs)
    ensures forall k :: 0 <= k < |slots| - 1 ==> slots[k + 1].at == slots[k].at + d
    ensures forall k :: 0 <= k < |slots| ==> start <= slots[k].at < end
  {
    forall k | 0 <= k < |slots| - 1 ensures slots[k + 1].at == slots[k].at + d {
      NthSlotNext(start, d, k);
    }
    forall k | 0 <= k < |slots| ensures start <= slots[k].at < end {
      SlotCountExact(start, end, d, k);
    }
  }

  /** Slot instants strictly increase, so no `HH:MM` key is emitted twice within a day. */
  lemma SlotsIncreasing(slots: seq<Slot>, start: nat, end: int, d: int, booked: map<string, int>, maxOrders: int, nowMs: int)
    requires d > 0 && SlotsFrom(slots, start, end, d, booked, maxOrders, nowMs)
    ensures forall i, j :: 0 <= i < j < |slots| ==> slots[i].at < slots[j].at
  {
    forall i, j | 0 <= i < j < |slots| ensures slots[i].at < slots[j].at {
      NthSlotIncreasing(start, d, i, j);
    }
  }

  /** A key missing from the booking map counts as zero bookings. */
  lemma MissingKeyIsUnbooked(t: nat, booked: map<string, int>, maxOrders: int, nowMs: int)
    requires TimeKey(t) !in booked
    ensures IsAvailable(t, booked, maxOrders, nowMs) <==> t * 60000 >= nowMs + LeadTimeMinutes * 60000 && 0 < maxOrders
  {
  }

  // ---------------------------------------------------------------------
  // worked examples

  lemma SlotsFromAt(slots: seq<Slot>, start: nat, end: int, d: int, booked: map<string, int>, maxOrders: int, nowMs: int, k: nat, t: nat)
    requires d > 0 && SlotsFrom(slots, start, end, d, booked, maxOrders, nowMs)
    requires k < |slots| && t == start + k * d
    ensures slots[k] == SlotAt(t, booked, maxOrders, nowMs)
  {
  }

  lemma KeysOfExample()
    ensures TimeKey(540) == "09:00" && TimeKey(555) == "09:15" && TimeKey(570) == "09:30"
  {
    Key0900();
    Key0915();
    Key0930();
  }

  lemma Key0900() ensures TimeKey(540) == "09:00" {
    TimeKeyOf(540, 9, 0);
  }

  lemma Key0915() ensures TimeKey(555) == "09:15" {
    TimeKeyOf(555, 9, 15);
  }

  lemma Key0930() ensures TimeKey(570) == "09:30" {
    TimeKeyOf(570, 9, 30);
  }

  /**
   * Opening 09:00, closing 09:31, 15-minute slots, capacity 5, nothing booked,
   * and the clock at 08:45 or earlier: three slots, all available.
   */
  lemma ExampleThreeOpenSlots(slots: seq<Slot>, nowMs: int)
    requires SlotsFrom(slots, 540, 571, 15, map[], 5, nowMs)
    requires nowMs <= 525 * 60000
    ensures |slots| == 3
    ensures slots[0].time == "09:00" && slots[1].time == "09:15" && slots[2].time == "09:30"
    ensures slots[0].available && slots[1].available && slots[2].available
  {
    assert |slots| == 3;
    SlotsFromAt(slots, 540, 571, 15, map[], 5, nowMs, 0, 540);
    SlotsFromAt(slots, 540, 571, 15, map[], 5, nowMs, 1, 555);
    SlotsFromAt(slots, 540, 571, 15, map[], 5, nowMs, 2, 570);
    KeysOfExample();
  }

  /** The same window with 09:15 booked five times: only 09:15 is unavailable. */
  lemma ExampleFullSlot(slots: seq<Slot>, nowMs: int)
    requires SlotsFrom(slots, 540, 571, 15, map["09:15" := 5], 5, nowMs)
    requires nowMs <= 525 * 60000
    ensures |slots| == 3
    ensures slots[0].available && !slots[1].available && slots[2].available
  {
    var booked := map["09:15" := 5];
    assert |slots| == 3;
    SlotsFromAt(slots, 540, 571, 15, booked, 5, nowMs, 0, 540);
    SlotsFromAt(slots, 540, 571, 15, booked, 5, nowMs, 1, 555);
    SlotsFromAt(slots, 540, 571, 15, booked, 5, nowMs, 2, 570);
    KeysOfExample();
    ExampleBookings();
    assert slots[0] == SlotAt(540, booked, 5, nowMs);
    assert slots[1] == SlotAt(555, booked, 5, nowMs);
    assert slots[2] == SlotAt(570, booked, 5, nowMs);
  }

  lemma ExampleBookings()
    ensures BookedCount(map["09:15" := 5], "09:00") == 0
    ensures BookedCount(map["09:15" := 5], "09:15") == 5
    ensures BookedCount(map["09:15" := 5], "09:30") == 0
  {
    assert "09:00" != "09:15" by { assert "09:00"[3] != "09:15"[3]; }
    assert "09:30" != "09:15" by { assert "09:30"[3] != "09:15"[3]; }
  }

  /** At 09:10 the cutoff is 09:25, so a slot at 09:15 is unavailable whatever its bookings. */
  lemma ExampleTooSoon(booked: map<string, int>, maxOrders: int)
    ensures !IsAvailable(555, booked, maxOrders, 550 * 60000)
  {
  }

  /** At 08:50 the cutoff is 09:05, so the 09:00 slot is unavailable though the shop has not opened and nothing is booked. */
  lemma ExampleJustBeforeOpening()
    ensures !IsAvailable(540, map[], 5, 530 * 60000)
    ensures IsAvailable(540, map[], 5, 525 * 60000)
  {
    Key0900();
  }
}
