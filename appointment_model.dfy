/** The slot subdocument and the per-doctor-per-date availability record
    (DOCTOR_MS/models/appointment_model.js), and the appointment log entry
    the booking handler evidently intends to save. */
module AppointmentModel {
  import opened Wrappers
  import opened Seqs
  import opened ObjectIds

  /** A bookable time of one day. `time` is a required string; `isBooked`
      defaults to false and `patient` to null. */
  datatype Slot = Slot(id: ObjectId, time: string, isBooked: bool, patient: Option<string>)

  /** The plain object the slot generator pushes, before the schema casts it
      into a subdocument with its own id. */
  datatype SlotInit = SlotInit(time: string, isBooked: bool, patient: Option<string>)

  /** One doctor's slots for one date, in order. */
  datatype Availability = Availability(id: ObjectId, doctorId: ObjectId, date: string, slots: seq<Slot>)

  /** What a successful booking records: which doctor, date and time, for
      which patient. The request's patientId is optional (None when the body
      has none), and is stored as given. */
  datatype Appointment = Appointment(id: ObjectId, doctorId: ObjectId, date: string, time: string, patient: Option<string>)

  /** The schema's `required` checks: Mongoose rejects an empty required string. */
  predicate AvailabilitySchemaValid(a: Availability) {
    a.date != "" && forall j :: 0 <= j < |a.slots| ==> a.slots[j].time != ""
  }

  /** An open slot names no patient. A booked slot need not name one: a
      booking request without patientId books the slot with none. */
  predicate SlotConsistent(s: Slot) {
    !s.isBooked ==> s.patient.None?
  }

  /** The subdocuments the schema builds from the generated objects, with
      the ids first, first + 1, ... */
  function WithIds(inits: seq<SlotInit>, first: nat): seq<Slot> {
    seq(|inits|, i requires 0 <= i < |inits| =>
      Slot(ObjectId(first + i), inits[i].time, inits[i].isBooked, inits[i].patient))
  }

  /** findOne({ doctorId, date }) over the availability collection. */
  function FindAvailability(avs: seq<Availability>, doctorId: ObjectId, date: string): (r: Option<nat>)
    ensures r.Some? ==> r.value < |avs| && avs[r.value].doctorId == doctorId && avs[r.value].date == date
    ensures r.None? <==> forall k :: 0 <= k < |avs| ==> avs[k].doctorId != doctorId || avs[k].date != date
  {
    FirstIndex(avs, (a: Availability) => a.doctorId == doctorId && a.date == date)
  }

  /** At most one availability record per (doctorId, date). */
  predicate KeysUnique(avs: seq<Availability>) {
    forall i, j :: 0 <= i < j < |avs| ==> avs[i].doctorId != avs[j].doctorId || avs[i].date != avs[j].date
  }

  /** With unique keys, the record findOne returns is the only one with its key. */
  lemma FoundRecordIsTheOnlyOne(avs: seq<Availability>, doctorId: ObjectId, date: string)
    requires KeysUnique(avs)
    requires FindAvailability(avs, doctorId, date).Some?
    ensures forall k :: 0 <= k < |avs| && avs[k].doctorId == doctorId && avs[k].date == date ==>
      k == FindAvailability(avs, doctorId, date).value
  {
  }
}
