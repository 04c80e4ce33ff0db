/**
 Interview scheduling (packages/domain/src/services.ts and the confirmation handlers of
 apps/api/src/server.ts and apps/telegram-bot/src/commands.ts): which slots are accepted,
 and what the recorded interviews keep over any run of confirmations.
 */
module Scheduling {
  import opened Common
  import opened IcsLines

  const MINUTE_MS: int := 60 * 1000
  const EVENT_MINUTES: int := 60

  datatype Slot = Slot(date: string, time: string, timezone: string, durationMinutes: Option<int>)

  datatype EventStatus = PendingConfirmation | Scheduled | Cancelled

  /** An event does not store how long it lasts. `details` stands for the fields no branch reads. */
  datatype Event = Event(interviewId: string, dateTime: string, timezone: string, status: EventStatus, details: string)

  /** A daily window "HH:MM-HH:MM", split at its dash. */
  datatype Window = Window(start: string, end: string)

  datatype Availability = Availability(
    timezone: string, defaultWindows: map<string, seq<Window>>, minNoticeHours: int,
    bufferMinutesBefore: int, bufferMinutesAfter: int, maxInterviewsPerDay: int)

  /**
   Time-zone and calendar arithmetic: the instant of a date, hour and minute in a zone, weekdays
   and ISO dates; and the number a piece of text stands for.
   */
  datatype Calendar = Calendar(
    zoned: (string, int, int, string) -> int, weekday: (int, string) -> string, isoDate: int -> string, number: string -> int)

  // Times of day: the numbers before and after the first colon, a missing one is zero

  function HourText(time: string): string {
    time[..IndexOf(time, ':')]
  }

  function MinuteText(time: string): Option<string> {
    var i := IndexOf(time, ':');
    if i == |time| then None else Some(time[i + 1..][..IndexOf(time[i + 1..], ':')])
  }

  function HourOf(cal: Calendar, time: string): int {
    cal.number(HourText(time))
  }

  function MinuteOf(cal: Calendar, time: string): int {
    match MinuteText(time)
    case None => 0
    case Some(text) => cal.number(text)
  }

  /** toMinutes. */
  function MinutesOf(cal: Calendar, time: string): int {
    HourOf(cal, time) * 60 + MinuteOf(cal, time)
  }

  /** zonedDateTimeMs, as far as it reads the time. */
  function InstantOf(cal: Calendar, date: string, time: string, timezone: string): int {
    cal.zoned(date, HourOf(cal, time), MinuteOf(cal, time), timezone)
  }

  predicate RangesOverlap(leftStart: int, leftEnd: int, rightStart: int, rightEnd: int) {
    leftStart < rightEnd && rightStart < leftEnd
  }

  /** JavaScript's `slice`, which clamps its bounds. */
  function Slice(text: string, from: nat, to: nat): (part: string)
    requires from <= to
    ensures |part| == if |text| <= from then 0 else if |text| < to then |text| - from else to - from
    ensures forall i :: 0 <= i < |part| ==> part[i] == text[from + i]
  {
    var end := if to < |text| then to else |text|;
    if from < end then text[from..end] else ""
  }

  // Slots and events

  function DateTimeOf(slot: Slot): string {
    slot.date + "T" + slot.time + ":00"
  }

  function DateOf(event: Event): string {
    Slice(event.dateTime, 0, 10)
  }

  function SlotOf(event: Event): Slot {
    Slot(Slice(event.dateTime, 0, 10), Slice(event.dateTime, 11, 16), event.timezone, None)
  }

  function EventStart(cal: Calendar, event: Event): int {
    InstantOf(cal, Slice(event.dateTime, 0, 10), Slice(event.dateTime, 11, 16), event.timezone)
  }

  function SlotStart(cal: Calendar, slot: Slot): int {
    InstantOf(cal, slot.date, slot.time, slot.timezone)
  }

  function RecordOf(slot: Slot, id: string, status: EventStatus, details: string): Event {
    Event(id, DateTimeOf(slot), slot.timezone, status, details)
  }

  /** The event made from the slot is read back on its date, at its instant. */
  predicate ReadsBack(cal: Calendar, slot: Slot) {
    var event := RecordOf(slot, "", PendingConfirmation, "");
    DateOf(event) == slot.date && EventStart(cal, event) == SlotStart(cal, slot)
  }

  /** Nothing, "0" and "00" all stand for zero. */
  predicate ReadsZeros(cal: Calendar) {
    cal.number("") == 0 && cal.number("0") == 0 && cal.number("00") == 0
  }

  lemma {:induction false} IndexOfSum(text: string, tail: string, mark: char)
    ensures IndexOf(text + tail, mark) == if IndexOf(text, mark) < |text| then IndexOf(text, mark) else |text| + IndexOf(tail, mark)
  {
    if text == [] {
      assert text + tail == tail;
    } else if text[0] != mark {
      IndexOfSum(text[1..], tail, mark);
      assert (text + tail)[1..] == text[1..] + tail;
    }
  }

  lemma ReadsParts(hour: string, rest: string)
    requires ':' !in hour
    ensures HourText(hour + [':'] + rest) == hour && MinuteText(hour + [':'] + rest) == Some(rest[..IndexOf(rest, ':')])
  {
    var time := hour + [':'] + rest;
    IndexOfMark(hour, ':', rest);
    assert time[..|hour|] == hour && time[|hour| + 1..] == rest;
  }

  /** "hh:mm" is read as its two numbers. */
  lemma TimeIsRead(cal: Calendar, hour: string, minute: string)
    requires ':' !in hour && ':' !in minute
    ensures HourOf(cal, hour + [':'] + minute) == cal.number(hour) && MinuteOf(cal, hour + [':'] + minute) == cal.number(minute)
    ensures MinutesOf(cal, hour + [':'] + minute) == cal.number(hour) * 60 + cal.number(minute)
    ensures HourOf(cal, hour) == cal.number(hour) && MinuteOf(cal, hour) == 0
  {
    ReadsParts(hour, minute);
    NoMark(minute, ':');
    NoMark(hour, ':');
    assert minute[..|minute|] == minute && hour[..|hour|] == hour;
  }

  /** After a colon of its own, a time is read up to the next one. */
  lemma SecondTailIsNotRead(hour: string, rest: string, tail: string)
    requires ':' !in hour && tail != [] && tail[0] == ':'
    ensures HourText(hour + [':'] + (rest + tail)) == HourText(hour + [':'] + rest)
    ensures MinuteText(hour + [':'] + (rest + tail)) == MinuteText(hour + [':'] + rest)
  {
    ReadsParts(hour, rest);
    ReadsParts(hour, rest + tail);
    IndexOfSum(rest, tail, ':');
    assert (rest + tail)[..IndexOf(rest, ':')] == rest[..IndexOf(rest, ':')];
  }

  /** A start of ":00" after a time does not change it. */
  lemma TailIsNotRead(cal: Calendar, time: string, zeros: string)
    requires ReadsZeros(cal) && zeros in {"", "0", "00"}
    ensures HourOf(cal, time + ":" + zeros) == HourOf(cal, time) && MinuteOf(cal, time + ":" + zeros) == MinuteOf(cal, time)
  {
    var i := IndexOf(time, ':');
    if i < |time| {
      var hour, rest := time[..i], time[i + 1..];
      assert time == hour + [':'] + rest && time + ":" + zeros == hour + [':'] + (rest + (":" + zeros));
      SecondTailIsNotRead(hour, rest, ":" + zeros);
    } else {
      assert time + ":" + zeros == time + [':'] + zeros && HourText(time) == time;
      ReadsParts(time, zeros);
      NoColon(zeros);
    }
  }

  lemma NoColon(zeros: string)
    requires zeros in {"", "0", "00"}
    ensures IndexOf(zeros, ':') == |zeros| && zeros[..|zeros|] == zeros
  {
    assert "00"[1..] == "0" && "0"[1..] == "";
    assert zeros[..|zeros|] == zeros;
  }

  /** A slot reads back whenever its date has ten characters and its time at most five: "9:00" as well as "09:00". */
  lemma SlotReadsBack(cal: Calendar, slot: Slot)
    requires ReadsZeros(cal) && |slot.date| == 10 && |slot.time| <= 5
    ensures ReadsBack(cal, slot)
  {
    var text := DateTimeOf(slot);
    assert Slice(text, 0, 10) == slot.date;
    var read := Slice(text, 11, 16);
    if |slot.time| == 5 {
      assert read == slot.time;
    } else {
      var zeros := if |slot.time| == 4 then "" else if |slot.time| == 3 then "0" else "00";
      assert read == slot.time + ":" + zeros;
      TailIsNotRead(cal, slot.time, zeros);
    }
  }

  /** A date of any other length is read back as another one. */
  lemma OtherDatesAreLost(slot: Slot, id: string, status: EventStatus, details: string)
    ensures DateOf(RecordOf(slot, id, status, details)) == slot.date <==> |slot.date| == 10
  {}

  /** An event gives back the slot it was made from, except for its duration. */
  lemma SlotRoundTrip(cal: Calendar, slot: Slot, id: string, status: EventStatus, details: string)
    requires |slot.date| == 10 && |slot.time| == 5
    ensures var event := RecordOf(slot, id, status, details);
            SlotOf(event) == slot.(durationMinutes := None) && EventStart(cal, event) == SlotStart(cal, slot) && DateOf(event) == slot.date
  {}

  // Evaluation of a slot

  datatype Proof = Proof(
    timezoneMatched: bool, minNoticeSatisfied: bool, insideAvailabilityWindow: bool, noCalendarConflict: bool, maxPerDaySatisfied: bool)

  predicate Passes(proof: Proof) {
    proof == Proof(true, true, true, true, true)
  }

  function Duration(slot: Slot): int {
    slot.durationMinutes.GetOr(EVENT_MINUTES)
  }

  function SlotFrom(cal: Calendar, avail: Availability, slot: Slot): int {
    SlotStart(cal, slot) - avail.bufferMinutesBefore * MINUTE_MS
  }

  function SlotTo(cal: Calendar, avail: Availability, slot: Slot): int {
    SlotStart(cal, slot) + (Duration(slot) + avail.bufferMinutesAfter) * MINUTE_MS
  }

  predicate ClashesWith(cal: Calendar, avail: Availability, slot: Slot, event: Event) {
    RangesOverlap(
      SlotFrom(cal, avail, slot), SlotTo(cal, avail, slot),
      EventStart(cal, event) - avail.bufferMinutesBefore * MINUTE_MS,
      EventStart(cal, event) + (EVENT_MINUTES + avail.bufferMinutesAfter) * MINUTE_MS)
  }

  /** The in-memory calendar built from the same events: busy hours in the slot's zone, all blocked without availability. */
  predicate CalendarBusy(cal: Calendar, avail: Availability, slot: Slot, events: set<Event>) {
    || (exists event | event in events ::
          event.timezone == slot.timezone
          && RangesOverlap(EventStart(cal, event), EventStart(cal, event) + EVENT_MINUTES * MINUTE_MS,
                           SlotFrom(cal, avail, slot), SlotTo(cal, avail, slot)))
    || (avail.defaultWindows == map[] && (if avail.timezone == "" then "UTC" else avail.timezone) == slot.timezone
        && RangesOverlap(0, END_OF_TIME, SlotFrom(cal, avail, slot), SlotTo(cal, avail, slot)))
  }

  /** 9999-12-31T23:59:59.999Z. */
  const END_OF_TIME: int := 253402300799999

  predicate HasConflict(cal: Calendar, avail: Availability, slot: Slot, events: set<Event>) {
    (exists event | event in events :: ClashesWith(cal, avail, slot, event)) || CalendarBusy(cal, avail, slot, events)
  }

  predicate InsideWindow(cal: Calendar, avail: Availability, slot: Slot) {
    var day := cal.weekday(SlotStart(cal, slot), avail.timezone);
    day in avail.defaultWindows
    && exists window | window in avail.defaultWindows[day] ::
         MinutesOf(cal, window.start) <= MinutesOf(cal, slot.time) <= MinutesOf(cal, window.end)
  }

  function SameDay(events: set<Event>, date: string): set<Event> {
    set event | event in events && DateOf(event) == date
  }

  function Evaluate(cal: Calendar, avail: Availability, slot: Slot, now: int, events: set<Event>): Proof {
    Proof(slot.timezone == avail.timezone,
          SlotStart(cal, slot) >= now + avail.minNoticeHours * HOUR_MS,
          InsideWindow(cal, avail, slot),
          !HasConflict(cal, avail, slot, events),
          |SameDay(events, slot.date)| < avail.maxInterviewsPerDay)
  }

  /** A slot is free of conflicts exactly when it keeps its distance from every event. */
  lemma ConflictFreeMeansApart(cal: Calendar, avail: Availability, slot: Slot, event: Event)
    ensures !ClashesWith(cal, avail, slot, event) <==>
              || EventStart(cal, event) - SlotStart(cal, slot)
                 >= (Duration(slot) + avail.bufferMinutesBefore + avail.bufferMinutesAfter) * MINUTE_MS
              || SlotStart(cal, slot) - EventStart(cal, event)
                 >= (EVENT_MINUTES + avail.bufferMinutesBefore + avail.bufferMinutesAfter) * MINUTE_MS
  {}

  /** With buffers that are not negative the calendar built from the events blocks nothing more. */
  lemma CalendarAddsNothing(cal: Calendar, avail: Availability, slot: Slot, events: set<Event>)
    requires 0 <= avail.bufferMinutesBefore && 0 <= avail.bufferMinutesAfter && avail.defaultWindows != map[]
    ensures HasConflict(cal, avail, slot, events) <==> exists event :: event in events && ClashesWith(cal, avail, slot, event)
  {}

  /** An event of the slot's zone whose hour overlaps the slot with its buffers. */
  predicate TakesHour(cal: Calendar, avail: Availability, slot: Slot, event: Event) {
    && event.timezone == slot.timezone
    && EventStart(cal, event) < SlotStart(cal, slot) + (Duration(slot) + avail.bufferMinutesAfter) * 60 * 1000
    && SlotStart(cal, slot) - avail.bufferMinutesBefore * 60 * 1000 < EventStart(cal, event) + 60 * 60 * 1000
  }

  lemma TakesHourExactlyWhen(cal: Calendar, avail: Availability, slot: Slot, event: Event)
    ensures TakesHour(cal, avail, slot, event) <==>
              && event.timezone == slot.timezone
              && RangesOverlap(EventStart(cal, event), EventStart(cal, event) + EVENT_MINUTES * MINUTE_MS,
                               SlotFrom(cal, avail, slot), SlotTo(cal, avail, slot))
  {}

  /** The calendar alone blocks a slot whose hour an event takes, or any slot in the profile's zone without availability. */
  lemma CalendarBlocksExactlyWhen(cal: Calendar, avail: Availability, slot: Slot, events: set<Event>)
    ensures CalendarBusy(cal, avail, slot, events) <==>
              || (exists event :: event in events && TakesHour(cal, avail, slot, event))
              || (avail.defaultWindows == map[] && slot.timezone == (if avail.timezone != "" then avail.timezone else "UTC")
                  && 0 < SlotStart(cal, slot) + (Duration(slot) + avail.bufferMinutesAfter) * 60 * 1000
                  && SlotStart(cal, slot) - avail.bufferMinutesBefore * 60 * 1000 < 253402300799999)
  {
    forall event ensures TakesHour(cal, avail, slot, event) <==>
              && event.timezone == slot.timezone
              && RangesOverlap(EventStart(cal, event), EventStart(cal, event) + EVENT_MINUTES * MINUTE_MS,
                               SlotFrom(cal, avail, slot), SlotTo(cal, avail, slot))
    {
      TakesHourExactlyWhen(cal, avail, slot, event);
    }
  }

  /** A time of day, in minutes, from the start of the window to its end. */
  predicate Within(cal: Calendar, window: Window, minutes: int) {
    && HourOf(cal, window.start) * 60 + MinuteOf(cal, window.start) <= minutes
    && minutes <= HourOf(cal, window.end) * 60 + MinuteOf(cal, window.end)
  }

  /** On the instant's weekday in the profile's zone some window holds the time of day. */
  ghost predicate IsOpen(cal: Calendar, avail: Availability, instant: int, hour: int, minute: int) {
    var day := cal.weekday(instant, avail.timezone);
    && day in avail.defaultWindows
    && exists k :: 0 <= k < |avail.defaultWindows[day]| && Within(cal, avail.defaultWindows[day][k], hour * 60 + minute)
  }

  lemma InsideMeansOpen(cal: Calendar, avail: Availability, slot: Slot)
    ensures InsideWindow(cal, avail, slot) <==> IsOpen(cal, avail, SlotStart(cal, slot), HourOf(cal, slot.time), MinuteOf(cal, slot.time))
  {
    var day := cal.weekday(SlotStart(cal, slot), avail.timezone);
    if day in avail.defaultWindows {
      var windows, minutes := avail.defaultWindows[day], HourOf(cal, slot.time) * 60 + MinuteOf(cal, slot.time);
      if InsideWindow(cal, avail, slot) {
        var window :| window in windows && MinutesOf(cal, window.start) <= MinutesOf(cal, slot.time) <= MinutesOf(cal, window.end);
        var k :| 0 <= k < |windows| && windows[k] == window;
        assert Within(cal, windows[k], minutes);
      }
      if k :| 0 <= k < |windows| && Within(cal, windows[k], minutes) {
        assert windows[k] in windows;
      }
    }
  }

  /** The slot starts or ends far enough from the hour of the event. */
  predicate KeepsApart(cal: Calendar, avail: Availability, slot: Slot, event: Event) {
    var buffers := avail.bufferMinutesBefore + avail.bufferMinutesAfter;
    || EventStart(cal, event) - SlotStart(cal, slot) >= (Duration(slot) + buffers) * MINUTE_MS
    || SlotStart(cal, slot) - EventStart(cal, event) >= (EVENT_MINUTES + buffers) * MINUTE_MS
  }

  lemma NoClashMeansApart(cal: Calendar, avail: Availability, slot: Slot, event: Event)
    ensures !ClashesWith(cal, avail, slot, event) <==> KeepsApart(cal, avail, slot, event)
  {
    ConflictFreeMeansApart(cal, avail, slot, event);
  }

  lemma FreeExactlyWhen(cal: Calendar, avail: Availability, slot: Slot, events: set<Event>)
    requires 0 <= avail.bufferMinutesBefore && 0 <= avail.bufferMinutesAfter && avail.defaultWindows != map[]
    ensures !HasConflict(cal, avail, slot, events) <==> forall event :: event in events ==> KeepsApart(cal, avail, slot, event)
  {
    CalendarAddsNothing(cal, avail, slot, events);
    forall event ensures !ClashesWith(cal, avail, slot, event) <==> KeepsApart(cal, avail, slot, event) {
      NoClashMeansApart(cal, avail, slot, event);
    }
  }

  /** What each part of the proof says of a slot, when the calendar adds nothing to the buffers; it passes when all hold. */
  lemma PassesExactlyWhen(cal: Calendar, avail: Availability, slot: Slot, now: int, events: set<Event>)
    requires 0 <= avail.bufferMinutesBefore && 0 <= avail.bufferMinutesAfter && avail.defaultWindows != map[]
    ensures var proof := Evaluate(cal, avail, slot, now, events);
            && (proof.timezoneMatched <==> slot.timezone == avail.timezone)
            && (proof.minNoticeSatisfied <==> SlotStart(cal, slot) - now >= avail.minNoticeHours * 60 * 60 * 1000)
            && (proof.insideAvailabilityWindow <==>
                  IsOpen(cal, avail, SlotStart(cal, slot), HourOf(cal, slot.time), MinuteOf(cal, slot.time)))
            && (proof.noCalendarConflict <==> forall event :: event in events ==> KeepsApart(cal, avail, slot, event))
            && (proof.maxPerDaySatisfied <==> |set event | event in events && DateOf(event) == slot.date| < avail.maxInterviewsPerDay)
            && (Passes(proof) <==>
                  && proof.timezoneMatched && proof.minNoticeSatisfied && proof.insideAvailabilityWindow
                  && proof.noCalendarConflict && proof.maxPerDaySatisfied)
  {
    InsideMeansOpen(cal, avail, slot);
    FreeExactlyWhen(cal, avail, slot, events);
  }

  lemma PassingIsOpen(cal: Calendar, avail: Availability, slot: Slot, now: int, events: set<Event>)
    requires Passes(Evaluate(cal, avail, slot, now, events))
    ensures slot.timezone == avail.timezone
    ensures IsOpen(cal, avail, SlotStart(cal, slot), HourOf(cal, slot.time), MinuteOf(cal, slot.time))
  {
    InsideMeansOpen(cal, avail, slot);
  }

  // The decision engine

  /** chooseSlot: the first proposed slot that passes; `None` when there is none. */
  function ChooseSlot(cal: Calendar, avail: Availability, slots: seq<Slot>, now: int, events: set<Event>): Option<Slot> {
    if slots == [] then None
    else if SlotStart(cal, slots[0]) >= now + avail.minNoticeHours * HOUR_MS && Passes(Evaluate(cal, avail, slots[0], now, events))
    then Some(slots[0])
    else ChooseSlot(cal, avail, slots[1..], now, events)
  }

  ghost predicate IsFirstPassing(cal: Calendar, avail: Availability, slots: seq<Slot>, now: int, events: set<Event>, slot: Slot, k: int) {
    && 0 <= k < |slots| && slots[k] == slot && Passes(Evaluate(cal, avail, slot, now, events))
    && forall i :: 0 <= i < k ==> !Passes(Evaluate(cal, avail, slots[i], now, events))
  }

  lemma {:induction false} ChosenIsFirstPassing(cal: Calendar, avail: Availability, slots: seq<Slot>, now: int, events: set<Event>)
    ensures var chosen := ChooseSlot(cal, avail, slots, now, events);
            && (chosen.None? ==> forall k :: 0 <= k < |slots| ==> !Passes(Evaluate(cal, avail, slots[k], now, events)))
            && (chosen.Some? ==> exists k :: IsFirstPassing(cal, avail, slots, now, events, chosen.value, k))
  {
    if slots == [] {
    } else if Passes(Evaluate(cal, avail, slots[0], now, events)) {
      assert ChooseSlot(cal, avail, slots, now, events) == Some(slots[0]);
      assert IsFirstPassing(cal, avail, slots, now, events, slots[0], 0);
    } else {
      ChosenIsFirstPassing(cal, avail, slots[1..], now, events);
      assert forall k :: 0 < k < |slots| ==> slots[k] == slots[1..][k - 1];
      var chosen := ChooseSlot(cal, avail, slots[1..], now, events);
      assert chosen == ChooseSlot(cal, avail, slots, now, events);
      if chosen.Some? {
        var k :| IsFirstPassing(cal, avail, slots[1..], now, events, chosen.value, k);
        assert IsFirstPassing(cal, avail, slots, now, events, chosen.value, k + 1);
      }
    }
  }

  lemma OneSlotIsChosenWhenItPasses(cal: Calendar, avail: Availability, slot: Slot, now: int, events: set<Event>)
    ensures ChooseSlot(cal, avail, [slot], now, events) == if Passes(Evaluate(cal, avail, slot, now, events)) then Some(slot) else None
  {}

  // Proposed alternatives

  const ALTERNATIVE_DAYS: int := 14
  const MAX_ALTERNATIVES: nat := 3

  function DayOf(now: int, offset: int): int {
    now + offset * DAY_MS
  }

  function WindowsOn(cal: Calendar, avail: Availability, day: int): seq<Window> {
    var name := cal.weekday(day, avail.timezone);
    if name in avail.defaultWindows then avail.defaultWindows[name] else []
  }

  function OpeningSlot(cal: Calendar, avail: Availability, day: int, window: Window): Slot {
    Slot(cal.isoDate(day), window.start, avail.timezone, None)
  }

  /** The day offers the opening of one of its windows. */
  ghost predicate Offers(cal: Calendar, avail: Availability, now: int, events: set<Event>, offset: int, slot: Slot) {
    var day := now + offset * 24 * 60 * 60 * 1000;
    var name := cal.weekday(day, avail.timezone);
    && day - now >= avail.minNoticeHours * 60 * 60 * 1000
    && Passes(Evaluate(cal, avail, slot, now, events))
    && name in avail.defaultWindows
    && exists k :: 0 <= k < |avail.defaultWindows[name]|
                   && slot == Slot(cal.isoDate(day), avail.defaultWindows[name][k].start, avail.timezone, None)
  }

  /** The opening of the day's `k`-th window passes. */
  predicate OpeningPasses(cal: Calendar, avail: Availability, now: int, events: set<Event>, day: int, k: int) {
    var windows := WindowsOn(cal, avail, day);
    0 <= k < |windows| && Passes(Evaluate(cal, avail, OpeningSlot(cal, avail, day, windows[k]), now, events))
  }

  lemma OpeningIsOffered(cal: Calendar, avail: Availability, now: int, events: set<Event>, offset: int, k: int)
    requires var day := DayOf(now, offset);
             day >= now + avail.minNoticeHours * HOUR_MS && OpeningPasses(cal, avail, now, events, day, k)
    ensures var day := DayOf(now, offset);
            Offers(cal, avail, now, events, offset, OpeningSlot(cal, avail, day, WindowsOn(cal, avail, day)[k]))
  {}

  lemma OnlyOpeningsAreOffered(cal: Calendar, avail: Availability, now: int, events: set<Event>, offset: int, slot: Slot) returns (k: int)
    requires Offers(cal, avail, now, events, offset, slot)
    ensures var day := DayOf(now, offset);
            && day >= now + avail.minNoticeHours * HOUR_MS
            && 0 <= k < |WindowsOn(cal, avail, day)|
            && slot == OpeningSlot(cal, avail, day, WindowsOn(cal, avail, day)[k])
  {
    var day := DayOf(now, offset);
    var windows := WindowsOn(cal, avail, day);
    k :| 0 <= k < |windows| && slot == Slot(cal.isoDate(day), windows[k].start, avail.timezone, None);
  }

  type Offering = (int, Slot) -> bool

  ghost function OffersOf(cal: Calendar, avail: Availability, now: int, events: set<Event>): Offering {
    (offset, slot) => Offers(cal, avail, now, events, offset, slot)
  }

  ghost predicate OffersNothing(offers: Offering, offset: int) {
    forall slot :: !offers(offset, slot)
  }

  /** The alternatives of the first `until` days: one a day, in order of days, none left out. */
  ghost predicate AlternativesOf(offers: Offering, slots: seq<Slot>, offsets: seq<int>, until: int) {
    && |offsets| == |slots|
    && (forall i :: 0 <= i < |slots| ==> 1 <= offsets[i] <= until && offers(offsets[i], slots[i]))
    && (forall i, j :: 0 <= i < j < |offsets| ==> offsets[i] < offsets[j])
    && (forall offset :: 1 <= offset <= until && offset !in offsets ==> OffersNothing(offers, offset))
  }

  lemma NothingOffered(cal: Calendar, avail: Availability, now: int, events: set<Event>, offset: int)
    requires var day := DayOf(now, offset);
             day >= now + avail.minNoticeHours * HOUR_MS ==> forall i :: !OpeningPasses(cal, avail, now, events, day, i)
    ensures OffersNothing(OffersOf(cal, avail, now, events), offset)
  {
    forall slot ensures !Offers(cal, avail, now, events, offset, slot) {
      if Offers(cal, avail, now, events, offset, slot) {
        var k := OnlyOpeningsAreOffered(cal, avail, now, events, offset, slot);
        assert OpeningPasses(cal, avail, now, events, DayOf(now, offset), k);
      }
    }
  }

  method FirstPassingOpening(cal: Calendar, avail: Availability, now: int, events: set<Event>, day: int) returns (found: Option<int>)
    ensures found.None? ==> forall i :: !OpeningPasses(cal, avail, now, events, day, i)
    ensures found.Some? ==> OpeningPasses(cal, avail, now, events, day, found.value)
  {
    for k := 0 to |WindowsOn(cal, avail, day)|
      invariant forall i :: i < k ==> !OpeningPasses(cal, avail, now, events, day, i)
    {
      if OpeningPasses(cal, avail, now, events, day, k) {
        return Some(k);
      }
    }
    found := None;
  }

  method FirstOffer(cal: Calendar, avail: Availability, now: int, events: set<Event>, offset: int) returns (found: Option<Slot>)
    ensures found.None? ==> OffersNothing(OffersOf(cal, avail, now, events), offset)
    ensures found.Some? ==> Offers(cal, avail, now, events, offset, found.value)
  {
    var day := DayOf(now, offset);
    if day < now + avail.minNoticeHours * HOUR_MS {
      NothingOffered(cal, avail, now, events, offset);
      return None;
    }
    var k := FirstPassingOpening(cal, avail, now, events, day);
    match k {
      case None =>
        NothingOffered(cal, avail, now, events, offset);
        found := None;
      case Some(k) =>
        OpeningIsOffered(cal, avail, now, events, offset, k);
        found := Some(OpeningSlot(cal, avail, day, WindowsOn(cal, avail, day)[k]));
    }
  }

  lemma SkipDay(offers: Offering, slots: seq<Slot>, offsets: seq<int>, offset: int)
    requires 1 <= offset && AlternativesOf(offers, slots, offsets, offset - 1) && OffersNothing(offers, offset)
    ensures AlternativesOf(offers, slots, offsets, offset)
  {}

  lemma AddDay(offers: Offering, slots: seq<Slot>, offsets: seq<int>, offset: int, slot: Slot)
    requires 1 <= offset && AlternativesOf(offers, slots, offsets, offset - 1) && offers(offset, slot)
    ensures AlternativesOf(offers, slots + [slot], offsets + [offset], offset)
  {
    assert offset in offsets + [offset];
  }

  method ProposeAlternatives(cal: Calendar, avail: Availability, now: int, events: set<Event>)
    returns (alternatives: seq<Slot>, ghost offsets: seq<int>, ghost until: int)
    ensures AlternativesOf(OffersOf(cal, avail, now, events), alternatives, offsets, until)
    ensures |alternatives| <= 3 && until <= 14
    ensures |alternatives| < 3 ==> until == 14
  {
    alternatives, offsets := [], [];
    var offset := 1;
    while offset <= ALTERNATIVE_DAYS && |alternatives| < MAX_ALTERNATIVES
      invariant 1 <= offset <= ALTERNATIVE_DAYS + 1 && |alternatives| <= MAX_ALTERNATIVES
      invariant AlternativesOf(OffersOf(cal, avail, now, events), alternatives, offsets, offset - 1)
    {
      var found := FirstOffer(cal, avail, now, events, offset);
      if found.Some? {
        AddDay(OffersOf(cal, avail, now, events), alternatives, offsets, offset, found.value);
        alternatives, offsets := alternatives + [found.value], offsets + [offset];
      } else {
        SkipDay(OffersOf(cal, avail, now, events), alternatives, offsets, offset);
      }
      offset := offset + 1;
    }
    until := offset - 1;
  }

  // Confirmations

  function Others(events: map<string, Event>, id: string): set<Event> {
    set other | other in events && other != id :: events[other]
  }

  /** POST /schedule/confirmations, once the job and the conversation are found. */
  function Confirm(
    cal: Calendar, avail: Availability, events: map<string, Event>, slot: Slot, freshId: string, details: string,
    policyAllows: bool, now: int): map<string, Event>
  {
    if ChooseSlot(cal, avail, [slot], now, events.Values).Some? && policyAllows
    then events[freshId := RecordOf(slot, freshId, PendingConfirmation, details)]
    else events
  }

  /**
   The two resolve handlers: an approval re-evaluates the event's own slot against the other
   events; `resolved` says that the approval request went through.
   */
  function ResolveConfirmation(
    cal: Calendar, avail: Availability, events: map<string, Event>, id: string, approve: bool, resolved: bool, now: int): map<string, Event>
  {
    if id !in events then events
    else if approve && ChooseSlot(cal, avail, [SlotOf(events[id])], now, Others(events, id)).None? then events
    else if !resolved then events
    else events[id := events[id].(status := if approve then Scheduled else Cancelled)]
  }

  /** A resolution that went through cancels the event, or schedules it if its own slot still passes against the others; no other event changes. */
  lemma ResolutionMeans(
    cal: Calendar, avail: Availability, events: map<string, Event>, id: string, approve: bool, resolved: bool, now: int)
    requires id in events
    ensures var event := events[id];
            var slot := Slot(Slice(event.dateTime, 0, 10), Slice(event.dateTime, 11, 16), event.timezone, None);
            var fits := Passes(Evaluate(cal, avail, slot, now, set other | other in events && other != id :: events[other]));
            var status := if !resolved || (approve && !fits) then event.status else if approve then Scheduled else Cancelled;
            ResolveConfirmation(cal, avail, events, id, approve, resolved, now)
            == events[id := Event(event.interviewId, event.dateTime, event.timezone, status, event.details)]
  {
    OneSlotIsChosenWhenItPasses(cal, avail, SlotOf(events[id]), now, Others(events, id));
    assert Others(events, id) == set other | other in events && other != id :: events[other];
  }

  class InterviewDesk {
    var events: map<string, Event>

    constructor ()
      ensures events == map[]
    {
      events := map[];
    }

    method ConfirmSlot(
      cal: Calendar, avail: Availability, slot: Slot, freshId: string, details: string, policyAllows: bool, now: int)
      returns (recorded: bool)
      modifies this
      ensures events == Confirm(cal, avail, old(events), slot, freshId, details, policyAllows, now)
      ensures recorded <==> Passes(Evaluate(cal, avail, slot, now, old(events).Values)) && policyAllows
      ensures recorded ==> IsOpen(cal, avail, SlotStart(cal, slot), HourOf(cal, slot.time), MinuteOf(cal, slot.time))
      ensures events == if !recorded then old(events)
                        else old(events)[freshId := Event(
                          freshId, slot.date + "T" + slot.time + ":00", slot.timezone, PendingConfirmation, details)]
    {
      var selected := ChooseSlot(cal, avail, [slot], now, events.Values);
      OneSlotIsChosenWhenItPasses(cal, avail, slot, now, events.Values);
      recorded := selected.Some? && policyAllows;
      InsideMeansOpen(cal, avail, slot);
      if recorded {
        events := events[freshId := RecordOf(slot, freshId, PendingConfirmation, details)];
      }
    }

    method ResolveSlot(cal: Calendar, avail: Availability, id: string, approve: bool, resolved: bool, now: int)
      modifies this
      ensures events == ResolveConfirmation(cal, avail, old(events), id, approve, resolved, now)
      ensures id !in old(events) ==> events == old(events)
      ensures id in old(events) ==>
                var event := old(events)[id];
                var others := set other | other in old(events) && other != id :: old(events)[other];
                var fits := Passes(Evaluate(cal, avail, SlotOf(event), now, others));
                events == old(events)[id := event.(
                            status := if resolved && !approve then Cancelled else if resolved && fits then Scheduled else event.status)]
    {
      if id !in events {
        return;
      }
      var event := events[id];
      if approve {
        var selected := ChooseSlot(cal, avail, [SlotOf(event)], now, Others(events, id));
        OneSlotIsChosenWhenItPasses(cal, avail, SlotOf(event), now, Others(events, id));
        if selected.None? {
          return;
        }
      }
      if !resolved {
        return;
      }
      events := events[id := event.(status := if approve then Scheduled else Cancelled)];
    }
  }

  // Runs

  datatype Step =
    | ConfirmStep(slot: Slot, freshId: string, details: string, policyAllows: bool, now: int)
    | ResolveStep(id: string, approve: bool, resolved: bool, now: int)

  predicate Enabled(events: map<string, Event>, step: Step) {
    step.ConfirmStep? ==> step.freshId !in events
  }

  function Apply(cal: Calendar, avail: Availability, events: map<string, Event>, step: Step): map<string, Event> {
    match step
    case ConfirmStep(slot, freshId, details, policyAllows, now) =>
      Confirm(cal, avail, events, slot, freshId, details, policyAllows, now)
    case ResolveStep(id, approve, resolved, now) => ResolveConfirmation(cal, avail, events, id, approve, resolved, now)
  }

  ghost predicate IsRun(cal: Calendar, avail: Availability, states: seq<map<string, Event>>, steps: seq<Step>) {
    && |states| == |steps| + 1 && states[0] == map[]
    && forall i :: 0 <= i < |steps| ==> Enabled(states[i], steps[i]) && states[i + 1] == Apply(cal, avail, states[i], steps[i])
  }

  /** Slots read back, and last at least `shortest` minutes. */
  predicate LastsAtLeast(cal: Calendar, step: Step, shortest: int) {
    step.ConfirmStep? ==> ReadsBack(cal, step.slot) && Duration(step.slot) >= shortest
  }

  function Gap(avail: Availability, shortest: int): int {
    ((if shortest < EVENT_MINUTES then shortest else EVENT_MINUTES) + avail.bufferMinutesBefore + avail.bufferMinutesAfter) * MINUTE_MS
  }

  predicate Apart(cal: Calendar, left: Event, right: Event, gap: int) {
    EventStart(cal, left) - EventStart(cal, right) >= gap || EventStart(cal, right) - EventStart(cal, left) >= gap
  }

  ghost predicate AllApart(cal: Calendar, events: map<string, Event>, gap: int) {
    forall left, right :: left in events && right in events && left != right ==> Apart(cal, events[left], events[right], gap)
  }

  function OnDate(events: map<string, Event>, date: string): set<string> {
    set id | id in events && DateOf(events[id]) == date
  }

  ghost predicate DaysWithinLimit(avail: Availability, events: map<string, Event>) {
    forall date :: OnDate(events, date) == {} || |OnDate(events, date)| <= avail.maxInterviewsPerDay
  }

  /** Events are stored under their own ids, so the values on a date are as many as the ids. */
  ghost predicate IdsMatch(events: map<string, Event>) {
    forall id :: id in events ==> events[id].interviewId == id
  }

  lemma {:induction false} SameCount(events: map<string, Event>, ids: set<string>, values: set<Event>)
    requires IdsMatch(events) && ids <= events.Keys
    requires values == set id | id in ids :: events[id]
    ensures |ids| == |values|
    decreases |ids|
  {
    if ids != {} {
      var id :| id in ids;
      var rest := ids - {id};
      SameCount(events, rest, set other | other in rest :: events[other]);
      assert values == (set other | other in rest :: events[other]) + {events[id]};
    }
  }

  lemma PassingSlotIsApart(
    cal: Calendar, avail: Availability, slot: Slot, now: int, events: set<Event>, event: Event, recorded: Event, shortest: int)
    requires Passes(Evaluate(cal, avail, slot, now, events)) && event in events && Duration(slot) >= shortest
    requires EventStart(cal, recorded) == SlotStart(cal, slot)
    ensures Apart(cal, event, recorded, Gap(avail, shortest))
  {
    ConflictFreeMeansApart(cal, avail, slot, event);
  }

  lemma ConfirmKeepsApart(cal: Calendar, avail: Availability, events: map<string, Event>, step: Step, shortest: int)
    requires step.ConfirmStep? && Enabled(events, step) && LastsAtLeast(cal, step, shortest)
    requires AllApart(cal, events, Gap(avail, shortest))
    ensures AllApart(cal, Apply(cal, avail, events, step), Gap(avail, shortest))
  {
    var after := Apply(cal, avail, events, step);
    if after != events {
      var event := after[step.freshId];
      assert EventStart(cal, event) == SlotStart(cal, step.slot);
      OneSlotIsChosenWhenItPasses(cal, avail, step.slot, step.now, events.Values);
      forall id | id in events
        ensures Apart(cal, events[id], event, Gap(avail, shortest)) && Apart(cal, event, events[id], Gap(avail, shortest))
      {
        PassingSlotIsApart(cal, avail, step.slot, step.now, events.Values, events[id], event, shortest);
      }
    }
  }

  lemma RecordAddsToItsDay(events: map<string, Event>, event: Event, date: string)
    requires event.interviewId !in events
    ensures OnDate(events[event.interviewId := event], date)
         == OnDate(events, date) + if date == DateOf(event) then {event.interviewId} else {}
  {}

  lemma RecordKeepsDays(avail: Availability, events: map<string, Event>, event: Event)
    requires event.interviewId !in events && IdsMatch(events) && DaysWithinLimit(avail, events)
    requires |SameDay(events.Values, DateOf(event))| < avail.maxInterviewsPerDay
    ensures DaysWithinLimit(avail, events[event.interviewId := event])
  {
    var after := events[event.interviewId := event];
    SameCount(events, OnDate(events, DateOf(event)), SameDay(events.Values, DateOf(event)));
    forall date
      ensures OnDate(after, date) == {} || |OnDate(after, date)| <= avail.maxInterviewsPerDay
    {
      RecordAddsToItsDay(events, event, date);
    }
  }

  lemma ConfirmKeepsDays(cal: Calendar, avail: Availability, events: map<string, Event>, step: Step)
    requires step.ConfirmStep? && Enabled(events, step) && |step.slot.date| == 10
    requires IdsMatch(events) && DaysWithinLimit(avail, events)
    ensures DaysWithinLimit(avail, Apply(cal, avail, events, step))
  {
    OneSlotIsChosenWhenItPasses(cal, avail, step.slot, step.now, events.Values);
    if Passes(Evaluate(cal, avail, step.slot, step.now, events.Values)) && step.policyAllows {
      OtherDatesAreLost(step.slot, step.freshId, PendingConfirmation, step.details);
      RecordKeepsDays(avail, events, RecordOf(step.slot, step.freshId, PendingConfirmation, step.details));
    }
  }

  lemma ResolveKeepsTimes(cal: Calendar, avail: Availability, events: map<string, Event>, step: Step)
    requires step.ResolveStep?
    ensures var after := Apply(cal, avail, events, step);
            && after.Keys == events.Keys
            && (forall id :: id in events ==> after[id] == events[id].(status := after[id].status))
            && (forall date :: OnDate(after, date) == OnDate(events, date))
  {}

  lemma StepKeepsApart(cal: Calendar, avail: Availability, events: map<string, Event>, step: Step, shortest: int)
    requires Enabled(events, step) && LastsAtLeast(cal, step, shortest) && AllApart(cal, events, Gap(avail, shortest))
    ensures AllApart(cal, Apply(cal, avail, events, step), Gap(avail, shortest))
  {
    if step.ConfirmStep? {
      ConfirmKeepsApart(cal, avail, events, step, shortest);
    } else {
      ResolveKeepsTimes(cal, avail, events, step);
    }
  }

  lemma {:induction false} RunKeepsDistances(
    cal: Calendar, avail: Availability, states: seq<map<string, Event>>, steps: seq<Step>, n: nat, shortest: int)
    requires IsRun(cal, avail, states, steps) && n <= |steps|
    requires forall i :: 0 <= i < |steps| ==> LastsAtLeast(cal, steps[i], shortest)
    ensures AllApart(cal, states[n], Gap(avail, shortest))
  {
    if n > 0 {
      RunKeepsDistances(cal, avail, states, steps, n - 1, shortest);
      StepKeepsApart(cal, avail, states[n - 1], steps[n - 1], shortest);
    }
  }

  lemma {:induction false} RunKeepsDays(
    cal: Calendar, avail: Availability, states: seq<map<string, Event>>, steps: seq<Step>, n: nat)
    requires IsRun(cal, avail, states, steps) && n <= |steps|
    requires forall i :: 0 <= i < |steps| && steps[i].ConfirmStep? ==> |steps[i].slot.date| == 10
    ensures DaysWithinLimit(avail, states[n]) && IdsMatch(states[n])
  {
    if n > 0 {
      RunKeepsDays(cal, avail, states, steps, n - 1);
      if steps[n - 1].ConfirmStep? {
        ConfirmKeepsDays(cal, avail, states[n - 1], steps[n - 1]);
      } else {
        ResolveKeepsTimes(cal, avail, states[n - 1], steps[n - 1]);
      }
    }
  }

  /** The time of day is read back from the slot's event. */
  predicate ReadsTimeBack(cal: Calendar, slot: Slot) {
    var time := SlotOf(RecordOf(slot, "", PendingConfirmation, "")).time;
    HourOf(cal, time) == HourOf(cal, slot.time) && MinuteOf(cal, time) == MinuteOf(cal, slot.time)
  }

  lemma TimeReadsBack(cal: Calendar, slot: Slot)
    requires ReadsZeros(cal) && |slot.date| == 10 && |slot.time| <= 5
    ensures ReadsTimeBack(cal, slot)
  {
    var read := Slice(DateTimeOf(slot), 11, 16);
    if |slot.time| == 5 {
      assert read == slot.time;
    } else {
      var zeros := if |slot.time| == 4 then "" else if |slot.time| == 3 then "0" else "00";
      assert read == slot.time + ":" + zeros;
      TailIsNotRead(cal, slot.time, zeros);
    }
  }

  /** The event lies in the profile's zone, in a window of its weekday. */
  ghost predicate EventIsOpen(cal: Calendar, avail: Availability, event: Event) {
    && event.timezone == avail.timezone
    && IsOpen(cal, avail, EventStart(cal, event), HourOf(cal, SlotOf(event).time), MinuteOf(cal, SlotOf(event).time))
  }

  lemma StepKeepsOpen(cal: Calendar, avail: Availability, events: map<string, Event>, step: Step)
    requires step.ConfirmStep? ==> ReadsBack(cal, step.slot) && ReadsTimeBack(cal, step.slot)
    requires forall id :: id in events ==> EventIsOpen(cal, avail, events[id])
    ensures forall id :: id in Apply(cal, avail, events, step) ==> EventIsOpen(cal, avail, Apply(cal, avail, events, step)[id])
  {
    match step
    case ConfirmStep(slot, freshId, details, policyAllows, now) =>
      OneSlotIsChosenWhenItPasses(cal, avail, slot, now, events.Values);
      if Passes(Evaluate(cal, avail, slot, now, events.Values)) {
        PassingIsOpen(cal, avail, slot, now, events.Values);
        var event := RecordOf(slot, freshId, PendingConfirmation, details);
        assert EventStart(cal, event) == SlotStart(cal, slot) && SlotOf(event).time == SlotOf(RecordOf(slot, "", PendingConfirmation, "")).time;
        assert EventIsOpen(cal, avail, event);
      }
    case ResolveStep(_, _, _, _) =>
      ResolveKeepsTimes(cal, avail, events, step);
  }

  /** Over every run, each recorded interview lies in a window of its weekday. */
  lemma {:induction false} InterviewsAreInWindows(
    cal: Calendar, avail: Availability, states: seq<map<string, Event>>, steps: seq<Step>, n: nat)
    requires IsRun(cal, avail, states, steps) && n <= |steps|
    requires forall i :: 0 <= i < |steps| && steps[i].ConfirmStep? ==> ReadsBack(cal, steps[i].slot) && ReadsTimeBack(cal, steps[i].slot)
    ensures forall id :: id in states[n] ==> EventIsOpen(cal, avail, states[n][id])
  {
    if n > 0 {
      InterviewsAreInWindows(cal, avail, states, steps, n - 1);
      StepKeepsOpen(cal, avail, states[n - 1], steps[n - 1]);
    }
  }

  /** All recorded interviews, cancelled ones included, are an hour and both buffers apart when no slot is shorter than an hour. */
  lemma InterviewsStayApart(
    cal: Calendar, avail: Availability, states: seq<map<string, Event>>, steps: seq<Step>, n: nat, left: string, right: string)
    requires IsRun(cal, avail, states, steps) && n <= |steps|
    requires forall i :: 0 <= i < |steps| ==> LastsAtLeast(cal, steps[i], EVENT_MINUTES)
    requires left in states[n] && right in states[n] && left != right
    ensures Apart(cal, states[n][left], states[n][right],
                  (EVENT_MINUTES + avail.bufferMinutesBefore + avail.bufferMinutesAfter) * MINUTE_MS)
  {
    RunKeepsDistances(cal, avail, states, steps, n, EVENT_MINUTES);
  }

  lemma NoDayIsOverbooked(
    cal: Calendar, avail: Availability, states: seq<map<string, Event>>, steps: seq<Step>, n: nat, date: string)
    requires IsRun(cal, avail, states, steps) && n <= |steps| && 0 <= avail.maxInterviewsPerDay
    requires forall i :: 0 <= i < |steps| && steps[i].ConfirmStep? ==> |steps[i].slot.date| == 10
    ensures |OnDate(states[n], date)| <= avail.maxInterviewsPerDay
  {
    RunKeepsDays(cal, avail, states, steps, n);
  }

  // The distance is the best there is, and below an hour for short slots

  /** Only two instants matter: that of hour ten and that of every other hour. */
  function TwoInstants(atTen: int, otherwise: int): Calendar {
    Calendar((date, hour, minute, zone) => if hour == 10 then atTen else otherwise,
             (at, zone) => "monday", at => "2030-01-07", text => if text == "10" then 10 else 0)
  }

  function Buffered(before: int, after: int): Availability {
    Availability("UTC", map["monday" := [Window("00:00", "10:00")]], 0, before, after, 2)
  }

  lemma ReadsTen(atTen: int, otherwise: int)
    ensures HourOf(TwoInstants(atTen, otherwise), "10:00") == 10 && MinuteOf(TwoInstants(atTen, otherwise), "10:00") == 0
    ensures HourOf(TwoInstants(atTen, otherwise), "00:00") == 0 && MinuteOf(TwoInstants(atTen, otherwise), "00:00") == 0
  {
    assert "10:00"[1..] == "0:00" && "0:00"[1..] == ":00" && "00:00"[1..] == "0:00" && ":00"[1..] == "00";
    NoColon("00");
    assert "10:00"[..2] == "10" && "10:00"[3..] == "00" && "00:00"[..2] == "00" && "00:00"[3..] == "00";
  }

  function TenSlot(duration: int): Slot {
    Slot("2030-01-07", "10:00", "UTC", Some(duration))
  }

  function OtherSlot(duration: int): Slot {
    Slot("2030-01-07", "00:00", "UTC", Some(duration))
  }

  lemma InsideOnlyWindow(atTen: int, otherwise: int, before: int, after: int, slot: Slot)
    requires slot.time == "10:00" || slot.time == "00:00"
    ensures InsideWindow(TwoInstants(atTen, otherwise), Buffered(before, after), slot)
  {
    ReadsTen(atTen, otherwise);
    var window := Buffered(before, after).defaultWindows["monday"][0];
    assert window == Window("00:00", "10:00");
  }

  lemma FreeSlotPasses(cal: Calendar, before: int, after: int, slot: Slot, now: int, events: set<Event>)
    requires 0 <= before && 0 <= after && slot.timezone == "UTC" && |events| <= 1 && now <= SlotStart(cal, slot)
    requires InsideWindow(cal, Buffered(before, after), slot)
    requires forall event :: event in events ==> !ClashesWith(cal, Buffered(before, after), slot, event)
    ensures ChooseSlot(cal, Buffered(before, after), [slot], now, events).Some?
  {
    OneSlotIsChosenWhenItPasses(cal, Buffered(before, after), slot, now, events);
    CalendarAddsNothing(cal, Buffered(before, after), slot, events);
    var others := events - SameDay(events, slot.date);
    assert events == SameDay(events, slot.date) + others && |events| == |SameDay(events, slot.date)| + |others|;
  }

  /** Where a second slot of at least `shortest` minutes may start: its own length before a recorded hour, or an hour after it. */
  function Nearest(before: int, after: int, shortest: int): int {
    if shortest < EVENT_MINUTES then -Gap(Buffered(before, after), shortest) else Gap(Buffered(before, after), shortest)
  }

  lemma NearestIsFree(cal: Calendar, before: int, after: int, slot: Slot, event: Event)
    requires EventStart(cal, event) == 0 && SlotStart(cal, slot) == Nearest(before, after, Duration(slot))
    ensures !ClashesWith(cal, Buffered(before, after), slot, event)
  {
    ConflictFreeMeansApart(cal, Buffered(before, after), slot, event);
  }

  lemma SlotsStart(otherwise: int, duration: int)
    ensures var cal := TwoInstants(0, otherwise);
            SlotStart(cal, TenSlot(duration)) == 0 && SlotStart(cal, OtherSlot(duration)) == otherwise
  {
    ReadsTen(0, otherwise);
  }

  lemma RecordsStart(cal: Calendar, slot: Slot, id: string)
    requires |slot.date| == 10 && |slot.time| == 5
    ensures EventStart(cal, RecordOf(slot, id, PendingConfirmation, "")) == SlotStart(cal, slot) && ReadsBack(cal, slot)
  {
    SlotRoundTrip(cal, slot, id, PendingConfirmation, "");
    SlotRoundTrip(cal, slot, "", PendingConfirmation, "");
  }

  /** A slot at the epoch and the nearest one to it. */
  predicate AreNearest(cal: Calendar, before: int, after: int, left: Slot, right: Slot) {
    && left.timezone == right.timezone == "UTC" && |left.date| == |right.date| == 10 && |left.time| == |right.time| == 5
    && SlotStart(cal, left) == 0 && SlotStart(cal, right) == Nearest(before, after, Duration(right))
  }

  lemma BothAreChosen(cal: Calendar, before: nat, after: nat, left: Slot, right: Slot, now: int)
    requires AreNearest(cal, before, after, left, right) && now <= SlotStart(cal, left) && now <= SlotStart(cal, right)
    requires InsideWindow(cal, Buffered(before, after), left) && InsideWindow(cal, Buffered(before, after), right)
    ensures ChooseSlot(cal, Buffered(before, after), [left], now, {}).Some?
    ensures ChooseSlot(cal, Buffered(before, after), [right], now, {RecordOf(left, "a", PendingConfirmation, "")}).Some?
  {
    var first := RecordOf(left, "a", PendingConfirmation, "");
    RecordsStart(cal, left, "a");
    FreeSlotPasses(cal, before, after, left, now, {});
    NearestIsFree(cal, before, after, right, first);
    FreeSlotPasses(cal, before, after, right, now, {first});
  }

  lemma NearestIsTight(cal: Calendar, before: nat, after: nat, left: Slot, right: Slot)
    requires AreNearest(cal, before, after, left, right) && 0 <= Duration(right)
    ensures var first, second := RecordOf(left, "a", PendingConfirmation, ""), RecordOf(right, "b", PendingConfirmation, "");
            !Apart(cal, first, second, Gap(Buffered(before, after), Duration(right)) + 1)
  {
    RecordsStart(cal, left, "a");
    RecordsStart(cal, right, "b");
  }

  lemma TheyAreNearest(before: nat, after: nat, shortest: nat, duration: int)
    ensures AreNearest(TwoInstants(0, Nearest(before, after, shortest)), before, after, TenSlot(duration), OtherSlot(shortest))
  {
    SlotsStart(Nearest(before, after, shortest), duration);
    SlotsStart(Nearest(before, after, shortest), shortest);
  }

  lemma TwoConfirmations(cal: Calendar, avail: Availability, left: Slot, right: Slot, now: int)
    returns (states: seq<map<string, Event>>, steps: seq<Step>)
    requires ChooseSlot(cal, avail, [left], now, {}).Some?
    requires ChooseSlot(cal, avail, [right], now, {RecordOf(left, "a", PendingConfirmation, "")}).Some?
    ensures IsRun(cal, avail, states, steps) && |steps| == 2
    ensures steps == [ConfirmStep(left, "a", "", true, now), ConfirmStep(right, "b", "", true, now)]
    ensures "a" in states[2] && states[2]["a"] == RecordOf(left, "a", PendingConfirmation, "")
    ensures "b" in states[2] && states[2]["b"] == RecordOf(right, "b", PendingConfirmation, "")
  {
    var first, second := RecordOf(left, "a", PendingConfirmation, ""), RecordOf(right, "b", PendingConfirmation, "");
    states := [map[], map["a" := first], map["a" := first, "b" := second]];
    steps := [ConfirmStep(left, "a", "", true, now), ConfirmStep(right, "b", "", true, now)];
    assert states[0].Values == {} && states[1].Values == {first};
  }

  lemma NearestPair(before: nat, after: nat, shortest: nat) returns (cal: Calendar, left: Slot, right: Slot)
    ensures AreNearest(cal, before, after, left, right) && shortest == Duration(right) <= Duration(left)
    ensures InsideWindow(cal, Buffered(before, after), left) && InsideWindow(cal, Buffered(before, after), right)
  {
    var other := Nearest(before, after, shortest);
    cal, left, right := TwoInstants(0, other), TenSlot(shortest), OtherSlot(shortest);
    TheyAreNearest(before, after, shortest, shortest);
    InsideOnlyWindow(0, other, before, after, left);
    InsideOnlyWindow(0, other, before, after, right);
  }

  lemma LastsItsDuration(cal: Calendar, slot: Slot, id: string, now: int, shortest: int)
    requires |slot.date| == 10 && |slot.time| == 5 && shortest <= Duration(slot)
    ensures LastsAtLeast(cal, ConfirmStep(slot, id, "", true, now), shortest)
  {
    RecordsStart(cal, slot, id);
  }

  lemma PlayNearest(cal: Calendar, before: nat, after: nat, left: Slot, right: Slot)
    returns (states: seq<map<string, Event>>, steps: seq<Step>, now: int)
    requires AreNearest(cal, before, after, left, right)
    requires InsideWindow(cal, Buffered(before, after), left) && InsideWindow(cal, Buffered(before, after), right)
    ensures IsRun(cal, Buffered(before, after), states, steps) && |steps| == 2
    ensures steps == [ConfirmStep(left, "a", "", true, now), ConfirmStep(right, "b", "", true, now)]
    ensures "a" in states[2] && states[2]["a"] == RecordOf(left, "a", PendingConfirmation, "")
    ensures "b" in states[2] && states[2]["b"] == RecordOf(right, "b", PendingConfirmation, "")
  {
    now := if SlotStart(cal, right) < 0 then SlotStart(cal, right) else 0;
    BothAreChosen(cal, before, after, left, right, now);
    states, steps := TwoConfirmations(cal, Buffered(before, after), left, right, now);
  }

  lemma TwoNearest(cal: Calendar, before: nat, after: nat, left: Slot, right: Slot)
    returns (states: seq<map<string, Event>>, steps: seq<Step>)
    requires AreNearest(cal, before, after, left, right) && 0 <= Duration(right) <= Duration(left)
    requires InsideWindow(cal, Buffered(before, after), left) && InsideWindow(cal, Buffered(before, after), right)
    ensures IsRun(cal, Buffered(before, after), states, steps) && |steps| == 2
    ensures forall i :: 0 <= i < |steps| ==> LastsAtLeast(cal, steps[i], Duration(right))
    ensures "a" in states[2] && "b" in states[2]
    ensures !Apart(cal, states[2]["a"], states[2]["b"], Gap(Buffered(before, after), Duration(right)) + 1)
  {
    var now: int;
    states, steps, now := PlayNearest(cal, before, after, left, right);
    LastsItsDuration(cal, left, "a", now, Duration(right));
    LastsItsDuration(cal, right, "b", now, Duration(right));
    NearestIsTight(cal, before, after, left, right);
  }

  /** For every minimum length and all buffers that are not negative, a run of slots no shorter that records two interviews exactly at the kept distance. */
  lemma DistanceIsReached(before: nat, after: nat, shortest: nat)
    returns (cal: Calendar, states: seq<map<string, Event>>, steps: seq<Step>)
    ensures IsRun(cal, Buffered(before, after), states, steps) && |steps| == 2
    ensures forall i :: 0 <= i < |steps| ==> LastsAtLeast(cal, steps[i], shortest)
    ensures "a" in states[2] && "b" in states[2]
    ensures !Apart(cal, states[2]["a"], states[2]["b"], Gap(Buffered(before, after), shortest) + 1)
  {
    var left: Slot, right: Slot;
    cal, left, right := NearestPair(before, after, shortest);
    states, steps := TwoNearest(cal, before, after, left, right);
  }

  /** So interviews come closer than an hour and both buffers for every minimum length below an hour. */
  lemma ShortSlotComesCloser(before: nat, after: nat, shortest: nat)
    returns (cal: Calendar, states: seq<map<string, Event>>, steps: seq<Step>)
    requires shortest < EVENT_MINUTES
    ensures IsRun(cal, Buffered(before, after), states, steps) && |steps| == 2
    ensures forall i :: 0 <= i < |steps| ==> LastsAtLeast(cal, steps[i], shortest)
    ensures "a" in states[2] && "b" in states[2]
    ensures !Apart(cal, states[2]["a"], states[2]["b"], (EVENT_MINUTES + before + after) * MINUTE_MS)
  {
    cal, states, steps := DistanceIsReached(before, after, shortest);
  }
}
