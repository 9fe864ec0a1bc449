/** A day of one doctor, end to end through the DOCTOR_MS routes: check in,
    book the 10:00 slot, fail to book it a second time, cancel it, book it
    again. */
module BookingScenario {
  import opened Wrappers
  import opened Http
  import opened ObjectIds
  import opened AppointmentModel
  import opened DoctorModel
  import opened DoctorStore
  import opened SlotGenerator
  import opened BookAppointment
  import opened CreateDoctor

  /** Only the first default slot is labelled "10:00": the later times are
      strictly after 10:00, and distinct two-digit clocks get distinct labels. */
  lemma OnlyFirstDefaultSlotAtTen()
    ensures var inits := Render(SlotTimes(DefaultStart, DefaultEnd));
      && |inits| == 12
      && inits[0] == SlotInit("10:00", false, None)
      && forall j :: 1 <= j < 12 ==> inits[j].time != "10:00"
  {
    DefaultTimes();
    var times := SlotTimes(DefaultStart, DefaultEnd);
    var inits := Render(times);
    SlotTimesOrdered(DefaultStart, DefaultEnd);
    ReadFormatRoundTrip(DefaultStart);
    assert FormatClock(DefaultStart) == "10:00";
    forall j | 1 <= j < 12
      ensures inits[j].time != "10:00"
    {
      assert Before(times[0], times[j]);
      assert times[j].hour < 100 && times[j].minute < 100;
      ReadFormatRoundTrip(times[j]);
    }
  }

  /** The first slot of a new availability record is the open 10:00 slot,
      and no other slot has that time. */
  lemma NewRecordOpensAtTen(first: nat, doctorId: ObjectId, date: string)
    ensures var slots := NewAvailability(first, doctorId, date).slots;
      && |slots| == 12
      && slots[0] == Slot(ObjectId(first + 1), "10:00", false, None)
      && forall j :: 1 <= j < |slots| ==> slots[j].time != "10:00"
  {
    OnlyFirstDefaultSlotAtTen();
  }

  /** A record appended under a key that was free is the one findOne returns. */
  lemma FindsAppended(avs: seq<Availability>, a: Availability)
    requires FindAvailability(avs, a.doctorId, a.date).None?
    ensures FindAvailability(avs + [a], a.doctorId, a.date) == Some(|avs|)
  {
    var r := FindAvailability(avs + [a], a.doctorId, a.date);
    assert (avs + [a])[|avs|] == a;
    assert forall m :: 0 <= m < |avs| ==> (avs + [a])[m] == avs[m];
  }

  /** Writing a record back with new slots does not change what findOne returns. */
  lemma FindsAfterWriteBack(avs: seq<Availability>, doctorId: ObjectId, date: string, k: nat, slots: seq<Slot>)
    requires FindAvailability(avs, doctorId, date) == Some(k)
    ensures FindAvailability(avs[k := avs[k].(slots := slots)], doctorId, date) == Some(k)
  {
    var avs' := avs[k := avs[k].(slots := slots)];
    assert forall m :: 0 <= m < |avs| ==> avs'[m].doctorId == avs[m].doctorId && avs'[m].date == avs[m].date;
  }

  /** Booking 10:00 on a record whose first slot is the open 10:00 slot
      takes that slot. */
  method BookFirstSlot(db: Db, doctorText: string, date: string, k: nat, slots: seq<Slot>, p: Option<string>)
    returns (booked: Reply<Appointment>)
    requires db.Valid()
    requires ParseObjectId(doctorText).Some?
    requires FindAvailability(db.availabilities, ParseObjectId(doctorText).value, date) == Some(k)
    requires db.availabilities[k].slots == slots
    requires |slots| > 0 && slots[0].time == "10:00" && !slots[0].isBooked
    modifies db
    ensures db.Valid()
    ensures booked == Json(201, Appointment(ObjectId(old(db.nextId)), ParseObjectId(doctorText).value, date, "10:00", p))
    ensures FindAvailability(db.availabilities, ParseObjectId(doctorText).value, date) == Some(k)
    ensures db.availabilities[k].slots == BookSlot(slots, 0, p)
  {
    var id := ParseObjectId(doctorText).value;
    assert FirstOpenSlot(slots, "10:00") == Some(0);
    ghost var before := db.availabilities;
    booked := Book(db, doctorText, date, "10:00", p);
    FindsAfterWriteBack(before, id, date, k, BookSlot(slots, 0, p));
  }

  /** On a record whose only 10:00 slot has been booked: a second booking is
      refused, cancelling that slot by its id succeeds, and booking 10:00
      again then succeeds. */
  method RefuseCancelRebook(db: Db, doctorText: string, date: string, k: nat, slots: seq<Slot>, p1: Option<string>, p2: Option<string>)
    returns (refused: Reply<Appointment>, cancelled: Reply<()>, rebooked: Reply<Appointment>)
    requires db.Valid()
    requires ParseObjectId(doctorText).Some?
    requires FindAvailability(db.availabilities, ParseObjectId(doctorText).value, date) == Some(k)
    requires |slots| > 0 && slots[0].time == "10:00" && !slots[0].isBooked && SlotConsistent(slots[0])
    requires slots[0].id.value < Pow16(24)
    requires forall j :: 1 <= j < |slots| ==> slots[j].time != "10:00"
    requires db.availabilities[k].slots == BookSlot(slots, 0, p1)
    modifies db
    ensures db.Valid()
    ensures refused == Message(400, "Slot not available")
    ensures cancelled == Message(200, "Slot deleted successfully")
    ensures rebooked.Json? && rebooked.status == 201 && rebooked.body.time == "10:00" && rebooked.body.patient == p2
  {
    var id := ParseObjectId(doctorText).value;
    var afterBook := BookSlot(slots, 0, p1);
    assert FirstOpenSlot(afterBook, "10:00").None? by {
      assert forall j :: 1 <= j < |afterBook| ==> afterBook[j] == slots[j];
    }
    refused := Book(db, doctorText, date, "10:00", p2);

    var slotText := IdText(slots[0].id);
    IdTextRoundTrip(slots[0].id);
    assert FindSlotById(db.availabilities[k].slots, slotText) == Some(0);
    ghost var before := db.availabilities;
    cancelled := Cancel(db, doctorText, date, slotText);
    BookThenCancelRestores(slots, 0, p1);
    FindsAfterWriteBack(before, id, date, k, slots);
    assert db.availabilities == before[k := before[k].(slots := slots)];
    assert FirstOpenSlot(db.availabilities[k].slots, "10:00") == Some(0);

    rebooked := Book(db, doctorText, date, "10:00", p2);
  }

  /** The whole day: check in, book 10:00 for p1, a second booking of 10:00
      is refused, p1's slot is cancelled, and 10:00 is booked for p2. */
  method CheckInBookCancelRebook(db: Db, doctorText: string, date: string, p1: Option<string>, p2: Option<string>)
    returns (checkin: Reply<Availability>, booked: Reply<Appointment>, refused: Reply<Appointment>,
             cancelled: Reply<()>, rebooked: Reply<Appointment>)
    requires db.Valid()
    requires ParseObjectId(doctorText).Some?
    requires FindDoctorById(db.doctors, ParseObjectId(doctorText).value).Some?
    requires FindAvailability(db.availabilities, ParseObjectId(doctorText).value, date).None?
    requires date != ""
    requires db.nextId + 1 < Pow16(24)
    modifies db
    ensures db.Valid()
    ensures checkin.Json? && checkin.status == 201 && |checkin.body.slots| == 12
    ensures booked.Json? && booked.status == 201
    ensures booked.body.doctorId == ParseObjectId(doctorText).value
    ensures booked.body.date == date && booked.body.time == "10:00" && booked.body.patient == p1
    ensures refused == Message(400, "Slot not available")
    ensures cancelled == Message(200, "Slot deleted successfully")
    ensures rebooked.Json? && rebooked.status == 201 && rebooked.body.time == "10:00" && rebooked.body.patient == p2
  {
    var id := ParseObjectId(doctorText).value;
    var n := db.nextId;
    var k := |db.availabilities|;
    var record := NewAvailability(n, id, date);
    NewRecordOpensAtTen(n, id, date);
    ghost var before := db.availabilities;
    checkin := CheckIn(db, doctorText, date);
    FindsAppended(before, record);
    booked := BookFirstSlot(db, doctorText, date, k, record.slots, p1);
    refused, cancelled, rebooked := RefuseCancelRebook(db, doctorText, date, k, record.slots, p1, p2);
  }
}
