/** The availability lookup, booking, cancellation and my-appointments
    routes (DOCTOR_MS/routes/book_appointment.js). Requests are handled one
    after another; each handler reads a record, changes one slot and writes
    the record back. */
module BookAppointment {
  import opened Wrappers
  import opened Seqs
  import opened Http
  import opened ObjectIds
  import opened AppointmentModel
  import opened DepartmentModel
  import opened DoctorModel
  import opened DoctorStore

  const NoAvailabilityMessage := "No availability found for this doctor on this date"

  /** availability.slots.find(slot => slot.time === time && !slot.isBooked). */
  function FirstOpenSlot(slots: seq<Slot>, time: string): (r: Option<nat>)
    ensures r.Some? ==> r.value < |slots| && slots[r.value].time == time && !slots[r.value].isBooked
    ensures r.Some? ==> forall j :: 0 <= j < r.value ==> slots[j].time != time || slots[j].isBooked
    ensures r.None? <==> forall j :: 0 <= j < |slots| ==> slots[j].time != time || slots[j].isBooked
  {
    FirstIndex(slots, (s: Slot) => s.time == time && !s.isBooked)
  }

  /** availability.slots.id(slotId): text that is not an ObjectId matches no slot. */
  function FindSlotById(slots: seq<Slot>, slotId: string): (r: Option<nat>)
    ensures r.Some? ==> r.value < |slots| && ParseObjectId(slotId) == Some(slots[r.value].id)
    ensures r.None? <==>
      (ParseObjectId(slotId).None? || forall j :: 0 <= j < |slots| ==> slots[j].id != ParseObjectId(slotId).value)
  {
    match ParseObjectId(slotId)
    case None => None
    case Some(id) => FirstIndex(slots, (s: Slot) => s.id == id)
  }

  /** slot.isBooked = true; slot.patient = patientId, which is None when the
      request has no patientId: the slot is then booked for nobody. */
  function BookSlot(slots: seq<Slot>, i: nat, patientId: Option<string>): seq<Slot>
    requires i < |slots|
  {
    slots[i := slots[i].(isBooked := true, patient := patientId)]
  }

  /** slot.isBooked = false; slot.patient = null. */
  function ReleaseSlot(slots: seq<Slot>, i: nat): seq<Slot>
    requires i < |slots|
  {
    slots[i := slots[i].(isBooked := false, patient := None)]
  }

  /** Appointment.find({ patient: patientId }) over the appointment log. */
  function AppointmentsOf(appointments: seq<Appointment>, patientId: string): (r: seq<Appointment>)
    ensures forall a :: multiset(r)[a] == if a.patient == Some(patientId) then multiset(appointments)[a] else 0
    ensures forall a :: a in r <==> a in appointments && a.patient == Some(patientId)
  {
    Filter(appointments, (a: Appointment) => a.patient == Some(patientId))
  }

  /** Replacing one slot by one with the same id and time that keeps its
      flag and patient in step keeps the store's invariants. */
  lemma ReplaceSlotKeepsValid(doctors: seq<Doctor>, ds: seq<Department>, avs: seq<Availability>,
                              appointments: seq<Appointment>, bound: nat, k: nat, i: nat, s: Slot)
    requires Consistent(doctors, ds, avs, appointments, bound)
    requires k < |avs| && i < |avs[k].slots|
    requires s.id == avs[k].slots[i].id && s.time == avs[k].slots[i].time && SlotConsistent(s)
    ensures Consistent(doctors, ds, avs[k := avs[k].(slots := avs[k].slots[i := s])], appointments, bound)
  {
    var avs' := avs[k := avs[k].(slots := avs[k].slots[i := s])];
    assert forall m :: 0 <= m < |avs| ==> avs'[m].doctorId == avs[m].doctorId && avs'[m].date == avs[m].date;
    assert forall m :: 0 <= m < |avs| ==> |avs'[m].slots| == |avs[m].slots|;
    assert forall m, j :: 0 <= m < |avs| && 0 <= j < |avs[m].slots| ==>
      avs'[m].slots[j] == avs[m].slots[j] || (m == k && j == i && avs'[m].slots[j] == s);
  }

  /** GET /availability/:doctorId/:date. The store is only read. */
  method GetAvailability(db: Db, doctorId: string, date: string) returns (reply: Reply<Availability>)
    ensures ParseObjectId(doctorId).None? ==> reply == Message(500, InternalError)
    ensures ParseObjectId(doctorId).Some? ==>
      match FindAvailability(db.availabilities, ParseObjectId(doctorId).value, date)
      case None => reply == Message(404, NoAvailabilityMessage)
      case Some(k) => reply == Json(200, db.availabilities[k])
  {
    var id := ParseObjectId(doctorId);
    if id.None? {
      return Message(500, InternalError);
    }
    var found := FindAvailability(db.availabilities, id.value, date);
    if found.None? {
      return Message(404, NoAvailabilityMessage);
    }
    return Json(200, db.availabilities[found.value]);
  }

  /** POST /bookappointment: books the first open slot with the requested
      time, logs the appointment, then writes the record back. */
  method Book(db: Db, doctorId: string, date: string, time: string, patientId: Option<string>) returns (reply: Reply<Appointment>)
    requires db.Valid()
    modifies db
    ensures db.Valid()
    ensures db.doctors == old(db.doctors) && db.departments == old(db.departments)
    ensures reply.status != 201 ==>
      db.availabilities == old(db.availabilities) && db.appointments == old(db.appointments) && db.nextId == old(db.nextId)
    ensures ParseObjectId(doctorId).None? ==> reply == Message(500, InternalError)
    ensures ParseObjectId(doctorId).Some? ==>
      var id := ParseObjectId(doctorId).value;
      var avs := old(db.availabilities);
      match FindAvailability(avs, id, date)
      case None => reply == Message(404, "Doctor not available on this date")
      case Some(k) =>
        match FirstOpenSlot(avs[k].slots, time)
        case None => reply == Message(400, "Slot not available")
        case Some(i) =>
          var appointment := Appointment(ObjectId(old(db.nextId)), id, date, time, patientId);
          && reply == Json(201, appointment)
          && db.appointments == old(db.appointments) + [appointment]
          && db.availabilities == avs[k := avs[k].(slots := BookSlot(avs[k].slots, i, patientId))]
          && db.nextId == old(db.nextId) + 1
  {
    var id := ParseObjectId(doctorId);
    if id.None? {
      return Message(500, InternalError);
    }
    var found := FindAvailability(db.availabilities, id.value, date);
    if found.None? {
      return Message(404, "Doctor not available on this date");
    }
    var k := found.value;
    var availability := db.availabilities[k];
    var slot := FirstOpenSlot(availability.slots, time);
    if slot.None? {
      return Message(400, "Slot not available");
    }
    var i := slot.value;
    ghost var before := db.availabilities;
    // The appointment is saved before the availability record is written back.
    var appointmentId := db.NewId();
    var appointment := Appointment(appointmentId, id.value, date, time, patientId);
    LoggedAppointmentKeepsConsistent(db.doctors, db.departments, db.availabilities, db.appointments, db.nextId, appointment);
    db.appointments := db.appointments + [appointment];
    var booked := availability.slots[i].(isBooked := true, patient := patientId);
    ReplaceSlotKeepsValid(db.doctors, db.departments, db.availabilities, db.appointments, db.nextId, k, i, booked);
    availability := availability.(slots := availability.slots[i := booked]);
    db.availabilities := db.availabilities[k := availability];
    reply := Json(201, appointment);
  }

  /** DELETE /deleteappointment/:doctorId/:date/:slotId: reopens the slot.
      The appointment log is left as it is. */
  method Cancel(db: Db, doctorId: string, date: string, slotId: string) returns (reply: Reply<()>)
    requires db.Valid()
    modifies db
    ensures db.Valid()
    ensures db.doctors == old(db.doctors) && db.departments == old(db.departments)
    ensures db.appointments == old(db.appointments) && db.nextId == old(db.nextId)
    ensures reply.status != 200 ==> db.availabilities == old(db.availabilities)
    ensures ParseObjectId(doctorId).None? ==> reply == Message(500, InternalError)
    ensures ParseObjectId(doctorId).Some? ==>
      var avs := old(db.availabilities);
      match FindAvailability(avs, ParseObjectId(doctorId).value, date)
      case None => reply == Message(404, NoAvailabilityMessage)
      case Some(k) =>
        match FindSlotById(avs[k].slots, slotId)
        case None => reply == Message(404, "Slot not found")
        case Some(i) =>
          && reply == Message(200, "Slot deleted successfully")
          && db.availabilities == avs[k := avs[k].(slots := ReleaseSlot(avs[k].slots, i))]
  {
    var id := ParseObjectId(doctorId);
    if id.None? {
      return Message(500, InternalError);
    }
    var found := FindAvailability(db.availabilities, id.value, date);
    if found.None? {
      return Message(404, NoAvailabilityMessage);
    }
    var k := found.value;
    var availability := db.availabilities[k];
    var slot := FindSlotById(availability.slots, slotId);
    if slot.None? {
      return Message(404, "Slot not found");
    }
    var i := slot.value;
    var released := availability.slots[i].(isBooked := false, patient := None);
    ReplaceSlotKeepsValid(db.doctors, db.departments, db.availabilities, db.appointments, db.nextId, k, i, released);
    availability := availability.(slots := availability.slots[i := released]);
    db.availabilities := db.availabilities[k := availability];
    reply := Message(200, "Slot deleted successfully");
  }

  /** GET /myappointments/:patientId. The store is only read. */
  method MyAppointments(db: Db, patientId: string) returns (reply: Reply<seq<Appointment>>)
    ensures AppointmentsOf(db.appointments, patientId) == [] ==>
      reply == Message(404, "No appointments found for this patient")
    ensures AppointmentsOf(db.appointments, patientId) != [] ==>
      reply == Json(200, AppointmentsOf(db.appointments, patientId))
  {
    var appointments := AppointmentsOf(db.appointments, patientId);
    if appointments == [] {
      return Message(404, "No appointments found for this patient");
    }
    return Json(200, appointments);
  }

  /** After a booking, the same time can be booked again exactly when some
      other slot with that time is still open. */
  lemma RebookSameTime(slots: seq<Slot>, time: string, patientId: Option<string>)
    requires FirstOpenSlot(slots, time).Some?
    ensures var i := FirstOpenSlot(slots, time).value;
      FirstOpenSlot(BookSlot(slots, i, patientId), time).None? <==>
        forall j :: 0 <= j < |slots| && j != i ==> slots[j].time != time || slots[j].isBooked
  {
    var i := FirstOpenSlot(slots, time).value;
    var after := BookSlot(slots, i, patientId);
    assert forall j :: 0 <= j < |slots| && j != i ==> after[j] == slots[j];
  }

  /** A booking request without patientId still takes the slot: it is booked
      for nobody, and later bookings of that time pass it over. */
  lemma BookingWithoutPatientTakesSlot(slots: seq<Slot>, time: string)
    requires FirstOpenSlot(slots, time).Some?
    ensures var i := FirstOpenSlot(slots, time).value;
      var after := BookSlot(slots, i, None);
      && after[i].isBooked && after[i].patient.None? && SlotConsistent(after[i])
      && (FirstOpenSlot(after, time).Some? ==> FirstOpenSlot(after, time).value > i)
  {
    var i := FirstOpenSlot(slots, time).value;
    var after := BookSlot(slots, i, None);
    assert forall j :: 0 <= j < |slots| && j != i ==> after[j] == slots[j];
  }

  /** Open -> Booked -> Open: cancelling a booked slot restores it exactly. */
  lemma BookThenCancelRestores(slots: seq<Slot>, i: nat, patientId: Option<string>)
    requires i < |slots| && !slots[i].isBooked && SlotConsistent(slots[i])
    ensures ReleaseSlot(BookSlot(slots, i, patientId), i) == slots
  {
  }

  /** Cancelling a slot that is open leaves it as it is. */
  lemma CancelOpenSlotIsNoOp(slots: seq<Slot>, i: nat)
    requires i < |slots| && !slots[i].isBooked && SlotConsistent(slots[i])
    ensures ReleaseSlot(slots, i) == slots
  {
  }

  /** After a cancellation a booking for the released slot's time succeeds,
      at that slot or at an earlier open slot with the same time. */
  lemma CancelReopens(slots: seq<Slot>, i: nat)
    requires i < |slots|
    ensures FirstOpenSlot(ReleaseSlot(slots, i), slots[i].time).Some?
    ensures FirstOpenSlot(ReleaseSlot(slots, i), slots[i].time).value <= i
  {
    var after := ReleaseSlot(slots, i);
    assert after[i].time == slots[i].time && !after[i].isBooked;
  }

  /** The booking handler AS WRITTEN. `Appointment` and `DoctorAvailability`
      are the same model, so `new Appointment({doctorId, date, time, patient})`
      is an availability document: the strict schema drops `time` and
      `patient`, and its save adds a record with no slots to the availability
      collection before the real record is written back. */
  function BookAsWritten(avs: seq<Availability>, nextId: nat, doctorId: ObjectId, date: string,
                         time: string, patientId: Option<string>): (r: seq<Availability>)
    ensures |r| == |avs| || |r| == |avs| + 1
    ensures forall k :: 0 <= k < |avs| ==>
      r[k].id == avs[k].id && r[k].doctorId == avs[k].doctorId && r[k].date == avs[k].date
    ensures |r| == |avs| + 1 ==> r[|avs|] == Availability(ObjectId(nextId), doctorId, date, [])
  {
    match FindAvailability(avs, doctorId, date)
    case None => avs
    case Some(k) =>
      match FirstOpenSlot(avs[k].slots, time)
      case None => avs
      case Some(i) =>
        var saved := avs + [Availability(ObjectId(nextId), doctorId, date, [])];
        saved[k := avs[k].(slots := BookSlot(avs[k].slots, i, patientId))]
  }

  /** As written, every successful booking leaves two availability records
      for the same doctor and date, and the saved "appointment" keeps neither
      the time nor the patient. */
  lemma BookAsWrittenDuplicatesRecord(avs: seq<Availability>, nextId: nat, doctorId: ObjectId, date: string,
                                      time: string, patientId: Option<string>)
    requires FindAvailability(avs, doctorId, date).Some?
    requires FirstOpenSlot(avs[FindAvailability(avs, doctorId, date).value].slots, time).Some?
    ensures var after := BookAsWritten(avs, nextId, doctorId, date, time, patientId);
      && |after| == |avs| + 1
      && !KeysUnique(after)
      && after[|avs|] == Availability(ObjectId(nextId), doctorId, date, [])
  {
    var k := FindAvailability(avs, doctorId, date).value;
    var after := BookAsWritten(avs, nextId, doctorId, date, time, patientId);
    assert after[k].doctorId == doctorId && after[k].date == date;
    assert after[|avs|].doctorId == doctorId && after[|avs|].date == date;
  }
}
