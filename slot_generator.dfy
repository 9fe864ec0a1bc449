/** Slot generation and availability creation (DOCTOR_MS/helper/slot_generator.js). */
module SlotGenerator {
  import opened Wrappers
  import opened Seqs
  import opened ObjectIds
  import opened AppointmentModel
  import opened DepartmentModel
  import opened DoctorModel
  import opened DoctorStore

  /** An hour and a minute, as `start.split(":").map(Number)` yields them. */
  datatype Clock = Clock(hour: nat, minute: nat)

  /** The generator's default bounds, "10:00" and "16:00". */
  const DefaultStart := Clock(10, 0)
  const DefaultEnd := Clock(16, 0)

  function ToMinutes(c: Clock): nat {
    60 * c.hour + c.minute
  }

  /** The loop condition `hour < endHour || (hour === endHour && minute < endMinute)`. */
  predicate Before(a: Clock, b: Clock) {
    a.hour < b.hour || (a.hour == b.hour && a.minute < b.minute)
  }

  /** One step of the loop: 30 minutes later, except that a minute count
      reaching 60 resets to :00 of the next hour instead of carrying. */
  function Next(c: Clock): (r: Clock)
    ensures Before(c, r) && r.minute < 60
    ensures c.minute < 60 ==>
      ToMinutes(r) == if c.minute < 30 then ToMinutes(c) + 30 else 60 * (c.hour + 1)
  {
    var minute := c.minute + 30;
    if minute >= 60 then Clock(c.hour + 1, 0) else Clock(c.hour, minute)
  }

  /** A bound on the number of loop iterations left. */
  function Remaining(c: Clock, end: Clock): nat {
    if c.hour > end.hour then 0
    else 3 * (end.hour - c.hour) + 1 + (if c.minute < 30 then 2 else if c.minute < 60 then 1 else 0)
  }

  /** The times the loop visits from c on. */
  function SlotTimes(c: Clock, end: Clock): seq<Clock>
    decreases Remaining(c, end)
  {
    if Before(c, end) then [c] + SlotTimes(Next(c), end) else []
  }

  function DigitChar(d: nat): char
    requires d < 10
  {
    ('0' as nat + d) as char
  }

  /** String(n) for a non-negative integer. */
  function DecimalText(n: nat): (s: string)
    ensures |s| >= 1
  {
    if n < 10 then [DigitChar(n)] else DecimalText(n / 10) + [DigitChar(n % 10)]
  }

  /** s.padStart(2, '0'). */
  function PadStart2(s: string): string {
    if |s| == 0 then "00" else if |s| == 1 then "0" + s else s
  }

  lemma TwoDigits(n: nat)
    ensures n < 100 ==> PadStart2(DecimalText(n)) == [DigitChar(n / 10), DigitChar(n % 10)]
  {
    if 10 <= n < 100 {
      assert DecimalText(n / 10) == [DigitChar(n / 10)];
    }
  }

  /** The slot label: zero-padded hour, ':', zero-padded minute. */
  function FormatClock(c: Clock): (t: string)
    ensures |t| >= 5
  {
    PadStart2(DecimalText(c.hour)) + ":" + PadStart2(DecimalText(c.minute))
  }

  /** With two-digit fields the label is exactly "HH:MM". */
  lemma FormatDigits(c: Clock)
    requires c.hour < 100 && c.minute < 100
    ensures FormatClock(c) ==
      [DigitChar(c.hour / 10), DigitChar(c.hour % 10), ':', DigitChar(c.minute / 10), DigitChar(c.minute % 10)]
  {
    TwoDigits(c.hour);
    TwoDigits(c.minute);
  }

  predicate IsDigitChar(ch: char) {
    '0' <= ch <= '9'
  }

  /** Reads an "HH:MM" label back into a clock. */
  function ReadClock(t: string): Option<Clock> {
    if |t| == 5 && t[2] == ':' && IsDigitChar(t[0]) && IsDigitChar(t[1]) && IsDigitChar(t[3]) && IsDigitChar(t[4]) then
      Some(Clock(10 * (t[0] as nat - '0' as nat) + (t[1] as nat - '0' as nat),
                 10 * (t[3] as nat - '0' as nat) + (t[4] as nat - '0' as nat)))
    else None
  }

  /** The label of every clock with two-digit fields reads back as that clock. */
  lemma ReadFormatRoundTrip(c: Clock)
    requires c.hour < 100 && c.minute < 100
    ensures ReadClock(FormatClock(c)) == Some(c)
  {
    FormatDigits(c);
  }

  /** The slot objects the loop pushes for the given times. */
  function Render(times: seq<Clock>): (slots: seq<SlotInit>)
    ensures |slots| == |times|
    ensures forall i :: 0 <= i < |times| ==> slots[i] == SlotInit(FormatClock(times[i]), false, None)
  {
    if times == [] then [] else [SlotInit(FormatClock(times[0]), false, None)] + Render(times[1..])
  }

  /** One turn of the loop: a time before end contributes its own slot,
      followed by the slots from the next time on. */
  lemma RenderStep(c: Clock, end: Clock)
    requires Before(c, end)
    ensures Render(SlotTimes(c, end)) == [SlotInit(FormatClock(c), false, None)] + Render(SlotTimes(Next(c), end))
  {
    var times := SlotTimes(c, end);
    assert times == [c] + SlotTimes(Next(c), end);
    assert times[1..] == SlotTimes(Next(c), end);
  }

  /** generate30MinSlots(start, end). */
  method Generate30MinSlots(start: Clock, end: Clock) returns (slots: seq<SlotInit>)
    ensures slots == Render(SlotTimes(start, end))
  {
    slots := [];
    var hour: nat, minute: nat := start.hour, start.minute;
    while hour < end.hour || (hour == end.hour && minute < end.minute)
      invariant slots + Render(SlotTimes(Clock(hour, minute), end)) == Render(SlotTimes(start, end))
      decreases Remaining(Clock(hour, minute), end)
    {
      var c := Clock(hour, minute);
      var time := FormatClock(c);
      RenderStep(c, end);
      AppendOneThen(slots, SlotInit(time, false, None), Render(SlotTimes(Next(c), end)));
      slots := slots + [SlotInit(time, false, None)];
      minute := minute + 30;
      if minute >= 60 {
        hour := hour + 1;
        minute := 0;
      }
      assert Clock(hour, minute) == Next(c);
    }
  }

  /** The list is empty exactly when start is not earlier than end, and
      otherwise begins with start. */
  lemma SlotTimesEmptyIff(start: Clock, end: Clock)
    ensures SlotTimes(start, end) == [] <==> !Before(start, end)
    ensures Before(start, end) ==> SlotTimes(start, end)[0] == start
  {
  }

  /** Every time is strictly earlier than end, no time is earlier than
      start, and the times strictly increase. */
  lemma {:induction false} SlotTimesOrdered(c: Clock, end: Clock)
    ensures forall i :: 0 <= i < |SlotTimes(c, end)| ==> Before(SlotTimes(c, end)[i], end)
    ensures forall i :: 0 <= i < |SlotTimes(c, end)| ==> SlotTimes(c, end)[i] == c || Before(c, SlotTimes(c, end)[i])
    ensures forall i, j :: 0 <= i < j < |SlotTimes(c, end)| ==> Before(SlotTimes(c, end)[i], SlotTimes(c, end)[j])
    decreases Remaining(c, end)
  {
    if Before(c, end) {
      var rest := SlotTimes(Next(c), end);
      SlotTimesOrdered(Next(c), end);
      assert SlotTimes(c, end) == [c] + rest;
    }
  }

  /** With a start on the hour or half hour and an end minute below 60,
      there is one slot per started half hour between start and end. */
  lemma {:induction false} AlignedSlotCount(start: Clock, end: Clock)
    requires start.minute == 0 || start.minute == 30
    requires end.minute < 60
    ensures |SlotTimes(start, end)| ==
      if ToMinutes(start) < ToMinutes(end) then (ToMinutes(end) - ToMinutes(start) + 29) / 30 else 0
    decreases Remaining(start, end)
  {
    if Before(start, end) {
      var n := Next(start);
      assert ToMinutes(n) == ToMinutes(start) + 30;
      AlignedSlotCount(n, end);
    }
  }

  /** The default bounds visit the twelve half hours from 10:00 to 15:30. */
  lemma DefaultTimes()
    ensures SlotTimes(DefaultStart, DefaultEnd) ==
      [Clock(10, 0), Clock(10, 30), Clock(11, 0), Clock(11, 30), Clock(12, 0), Clock(12, 30),
       Clock(13, 0), Clock(13, 30), Clock(14, 0), Clock(14, 30), Clock(15, 0), Clock(15, 30)]
  {
    var times := [Clock(10, 0), Clock(10, 30), Clock(11, 0), Clock(11, 30), Clock(12, 0), Clock(12, 30),
                  Clock(13, 0), Clock(13, 30), Clock(14, 0), Clock(14, 30), Clock(15, 0), Clock(15, 30)];
    assert SlotTimes(Clock(16, 0), DefaultEnd) == [];
    assert SlotTimes(Clock(15, 30), DefaultEnd) == times[11..];
    assert SlotTimes(Clock(15, 0), DefaultEnd) == times[10..];
    assert SlotTimes(Clock(14, 30), DefaultEnd) == times[9..];
    assert SlotTimes(Clock(14, 0), DefaultEnd) == times[8..];
    assert SlotTimes(Clock(13, 30), DefaultEnd) == times[7..];
    assert SlotTimes(Clock(13, 0), DefaultEnd) == times[6..];
    assert SlotTimes(Clock(12, 30), DefaultEnd) == times[5..];
    assert SlotTimes(Clock(12, 0), DefaultEnd) == times[4..];
    assert SlotTimes(Clock(11, 30), DefaultEnd) == times[3..];
    assert SlotTimes(Clock(11, 0), DefaultEnd) == times[2..];
    assert SlotTimes(Clock(10, 30), DefaultEnd) == times[1..];
  }

  /** The labels of the twelve default times. */
  lemma DefaultLabels()
    ensures FormatClock(Clock(10, 0)) == "10:00" && FormatClock(Clock(10, 30)) == "10:30"
    ensures FormatClock(Clock(11, 0)) == "11:00" && FormatClock(Clock(11, 30)) == "11:30"
    ensures FormatClock(Clock(12, 0)) == "12:00" && FormatClock(Clock(12, 30)) == "12:30"
    ensures FormatClock(Clock(13, 0)) == "13:00" && FormatClock(Clock(13, 30)) == "13:30"
    ensures FormatClock(Clock(14, 0)) == "14:00" && FormatClock(Clock(14, 30)) == "14:30"
    ensures FormatClock(Clock(15, 0)) == "15:00" && FormatClock(Clock(15, 30)) == "15:30"
  {
    FormatDigits(Clock(10, 0)); FormatDigits(Clock(10, 30));
    FormatDigits(Clock(11, 0)); FormatDigits(Clock(11, 30));
    FormatDigits(Clock(12, 0)); FormatDigits(Clock(12, 30));
    FormatDigits(Clock(13, 0)); FormatDigits(Clock(13, 30));
    FormatDigits(Clock(14, 0)); FormatDigits(Clock(14, 30));
    FormatDigits(Clock(15, 0)); FormatDigits(Clock(15, 30));
  }

  /** The twelve default slots "10:00", "10:30", ..., "15:30", all open. */
  lemma DefaultSlots()
    ensures Render(SlotTimes(DefaultStart, DefaultEnd)) ==
      [SlotInit("10:00", false, None), SlotInit("10:30", false, None),
       SlotInit("11:00", false, None), SlotInit("11:30", false, None),
       SlotInit("12:00", false, None), SlotInit("12:30", false, None),
       SlotInit("13:00", false, None), SlotInit("13:30", false, None),
       SlotInit("14:00", false, None), SlotInit("14:30", false, None),
       SlotInit("15:00", false, None), SlotInit("15:30", false, None)]
  {
    DefaultTimes();
    DefaultLabels();
    var times := SlotTimes(DefaultStart, DefaultEnd);
    var r := Render(times);
    var expected :=
      [SlotInit("10:00", false, None), SlotInit("10:30", false, None),
       SlotInit("11:00", false, None), SlotInit("11:30", false, None),
       SlotInit("12:00", false, None), SlotInit("12:30", false, None),
       SlotInit("13:00", false, None), SlotInit("13:30", false, None),
       SlotInit("14:00", false, None), SlotInit("14:30", false, None),
       SlotInit("15:00", false, None), SlotInit("15:30", false, None)];
    assert |r| == |expected|;
    forall i | 0 <= i < |expected|
      ensures r[i] == expected[i]
    {
      assert r[i] == SlotInit(FormatClock(times[i]), false, None);
    }
  }

  /** Minute overflow resets instead of carrying: from 10:45 the next slot is 11:00. */
  lemma MinuteOverflowResets()
    ensures Render(SlotTimes(Clock(10, 45), Clock(12, 0))) ==
      [SlotInit("10:45", false, None), SlotInit("11:00", false, None), SlotInit("11:30", false, None)]
  {
    assert SlotTimes(Clock(11, 30), Clock(12, 0)) == [Clock(11, 30)];
    assert SlotTimes(Clock(11, 0), Clock(12, 0)) == [Clock(11, 0), Clock(11, 30)];
    assert SlotTimes(Clock(10, 45), Clock(12, 0)) == [Clock(10, 45), Clock(11, 0), Clock(11, 30)];
    FormatDigits(Clock(10, 45));
    FormatDigits(Clock(11, 0));
    FormatDigits(Clock(11, 30));
  }

  /** The failure createDoctorAvailabilitySlots throws: a duplicate record,
      or the schema rejecting the document on save. */
  datatype CreateError = AlreadyExists | ValidationFailed

  const AlreadyExistsMessage := "Availability already exists for this doctor on this date."

  /** The `message` of the thrown Error. */
  function ErrorMessage(e: CreateError): (m: string)
    ensures m == AlreadyExistsMessage <==> e == AlreadyExists
  {
    match e
    case AlreadyExists => AlreadyExistsMessage
    case ValidationFailed =>
      var m := "DoctorAvailability validation failed: date: Path `date` is required.";
      assert |m| != |AlreadyExistsMessage|;
      m
  }

  /** The record createDoctorAvailabilitySlots builds, with ids handed out from `first`. */
  function NewAvailability(first: nat, doctorId: ObjectId, date: string): Availability {
    Availability(ObjectId(first), doctorId, date, WithIds(Render(SlotTimes(DefaultStart, DefaultEnd)), first + 1))
  }

  /** There are twelve default slots. */
  lemma DefaultSlotCount()
    ensures |SlotTimes(DefaultStart, DefaultEnd)| == 12
  {
    AlignedSlotCount(DefaultStart, DefaultEnd);
  }

  /** Appending the record built for a key that is not yet taken keeps the
      store's invariants, with every id of the new record below first + 13. */
  lemma NewAvailabilityKeepsValid(doctors: seq<Doctor>, ds: seq<Department>, avs: seq<Availability>,
                                  appointments: seq<Appointment>, first: nat, doctorId: ObjectId, date: string)
    requires Consistent(doctors, ds, avs, appointments, first)
    requires FindAvailability(avs, doctorId, date).None? && date != ""
    ensures Consistent(doctors, ds, avs + [NewAvailability(first, doctorId, date)], appointments, first + 13)
  {
    DefaultSlotCount();
    var a := NewAvailability(first, doctorId, date);
    var avs' := avs + [a];
    assert |a.slots| == 12;
    forall j | 0 <= j < |a.slots|
      ensures a.slots[j].time != "" && SlotConsistent(a.slots[j]) && a.slots[j].id.value < first + 13
    {
    }
    assert avs'[|avs|] == a;
  }

  /** createDoctorAvailabilitySlots(doctorId, date). */
  method CreateDoctorAvailabilitySlots(db: Db, doctorId: ObjectId, date: string) returns (r: Result<Availability, CreateError>)
    requires db.Valid()
    modifies db
    ensures db.Valid()
    ensures db.doctors == old(db.doctors) && db.departments == old(db.departments)
    ensures db.appointments == old(db.appointments)
    ensures FindAvailability(old(db.availabilities), doctorId, date).Some? ==>
      r == Failure(AlreadyExists) && db.availabilities == old(db.availabilities) && db.nextId == old(db.nextId)
    ensures FindAvailability(old(db.availabilities), doctorId, date).None? && date == "" ==>
      r == Failure(ValidationFailed) && db.availabilities == old(db.availabilities) && db.nextId == old(db.nextId)
    ensures FindAvailability(old(db.availabilities), doctorId, date).None? && date != "" ==>
      && r == Success(NewAvailability(old(db.nextId), doctorId, date))
      && db.availabilities == old(db.availabilities) + [r.value]
      && db.nextId == old(db.nextId) + 13
  {
    var existing := FindAvailability(db.availabilities, doctorId, date);
    if existing.Some? {
      return Failure(AlreadyExists);
    }
    var inits := Generate30MinSlots(DefaultStart, DefaultEnd);
    if date == "" {
      return Failure(ValidationFailed);
    }
    var first := db.nextId;
    var availability := Availability(ObjectId(first), doctorId, date, WithIds(inits, first + 1));
    NewAvailabilityKeepsValid(db.doctors, db.departments, db.availabilities, db.appointments, first, doctorId, date);
    db.availabilities := db.availabilities + [availability];
    db.nextId := first + 13;
    r := Success(availability);
  }
}
