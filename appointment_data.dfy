/** The Backend's POST /consult handler (Backend/routes/appointmentData.js):
    required fields, three lookups reported in a fixed order, then one insert
    with defaults. The patients (USER_MS database) and the doctors and
    availability records (DOCTOR_MS database) are read-only inputs. */
module AppointmentData {
  import opened Wrappers
  import opened Seqs
  import opened Http
  import opened ObjectIds
  import opened AppointmentModel
  import opened DoctorModel
  import opened ConsultSchema
  import opened SlotGenerator

  const ServerError := "Internal Server Error"
  const PatientNotFound := "Patient not found"
  const DoctorNotFound := "Doctor not found"
  const AppointmentNotFound := "Appointment not found"

  /** The JSON body; an absent field is None. */
  datatype ConsultRequest = ConsultRequest(
    patientId: Option<string>,
    doctorId: Option<string>,
    appointmentId: Option<string>,
    date: Option<string>,
    medicines: Option<seq<string>>,
    suggestions: Option<seq<string>>,
    status: Option<string>)

  /** An error answer. */
  datatype Rejection = Rejection(status: nat, message: string)

  /** The three ids once cast and resolved. */
  datatype Resolved = Resolved(patient: ObjectId, doctor: ObjectId, appointment: ObjectId)

  predicate RequiredPresent(req: ConsultRequest) {
    Truthy(req.patientId) && Truthy(req.doctorId) && Truthy(req.appointmentId) && Truthy(req.date)
  }

  predicate IdsCast(req: ConsultRequest)
    requires RequiredPresent(req)
  {
    && ParseObjectId(req.patientId.value).Some?
    && ParseObjectId(req.doctorId.value).Some?
    && ParseObjectId(req.appointmentId.value).Some?
  }

  /** A record with that doctor and date holding a slot with that id. */
  predicate HoldsSlot(a: Availability, doctorId: ObjectId, date: string, slotId: ObjectId) {
    a.doctorId == doctorId && a.date == date && exists s :: s in a.slots && s.id == slotId
  }

  /** The availability query with "slots._id": the first matching record. */
  function FindAppointmentRecord(avs: seq<Availability>, doctorId: ObjectId, date: string, slotId: ObjectId): (r: Option<nat>)
    ensures r.Some? ==> r.value < |avs| && HoldsSlot(avs[r.value], doctorId, date, slotId)
    ensures r.None? <==> forall k :: 0 <= k < |avs| ==> !HoldsSlot(avs[k], doctorId, date, slotId)
  {
    FirstIndex(avs, (a: Availability) => HoldsSlot(a, doctorId, date, slotId))
  }

  /** Everything the handler decides before it builds the consult. */
  function CheckConsult(req: ConsultRequest, patients: seq<ObjectId>, doctors: seq<Doctor>, avs: seq<Availability>)
    : (r: Result<Resolved, Rejection>)
    ensures !RequiredPresent(req) ==> r == Failure(Rejection(400, FieldsRequired))
    ensures RequiredPresent(req) && !IdsCast(req) ==> r == Failure(Rejection(500, ServerError))
    ensures RequiredPresent(req) && IdsCast(req) ==>
      var p := ParseObjectId(req.patientId.value).value;
      var d := ParseObjectId(req.doctorId.value).value;
      var a := ParseObjectId(req.appointmentId.value).value;
      var appointmentFound := exists k :: 0 <= k < |avs| && HoldsSlot(avs[k], d, req.date.value, a);
      && (p !in patients ==> r == Failure(Rejection(404, PatientNotFound)))
      && (p in patients && FindDoctorById(doctors, d).None? ==> r == Failure(Rejection(404, DoctorNotFound)))
      && (p in patients && FindDoctorById(doctors, d).Some? && !appointmentFound ==>
            r == Failure(Rejection(404, AppointmentNotFound)))
      && (p in patients && FindDoctorById(doctors, d).Some? && appointmentFound ==> r == Success(Resolved(p, d, a)))
  {
    if !RequiredPresent(req) then Failure(Rejection(400, FieldsRequired))
    else if !IdsCast(req) then Failure(Rejection(500, ServerError))
    else
      var p := ParseObjectId(req.patientId.value).value;
      var d := ParseObjectId(req.doctorId.value).value;
      var a := ParseObjectId(req.appointmentId.value).value;
      if p !in patients then Failure(Rejection(404, PatientNotFound))
      else if FindDoctorById(doctors, d).None? then Failure(Rejection(404, DoctorNotFound))
      else if FindAppointmentRecord(avs, d, req.date.value, a).None? then Failure(Rejection(404, AppointmentNotFound))
      else Success(Resolved(p, d, a))
  }

  /** Only the first failing lookup is reported: a missing patient hides a
      missing doctor and a missing appointment. */
  lemma LookupErrorsInOrder(req: ConsultRequest, patients: seq<ObjectId>, doctors: seq<Doctor>, avs: seq<Availability>)
    requires RequiredPresent(req) && IdsCast(req)
    ensures var r := CheckConsult(req, patients, doctors, avs);
      && (r == Failure(Rejection(404, PatientNotFound)) <==> ParseObjectId(req.patientId.value).value !in patients)
      && (r == Failure(Rejection(404, DoctorNotFound)) ==> ParseObjectId(req.patientId.value).value in patients)
      && (r == Failure(Rejection(404, AppointmentNotFound)) ==>
            FindDoctorById(doctors, ParseObjectId(req.doctorId.value).value).Some?)
  {
  }

  /** Each of the twelve slots a DOCTOR_MS check-in creates is an appointment
      the consult handler can find under that doctor and date. */
  lemma CheckedInSlotIsFound(avs: seq<Availability>, first: nat, doctorId: ObjectId, date: string, j: nat)
    requires j < 12
    ensures FindAppointmentRecord(avs + [NewAvailability(first, doctorId, date)], doctorId, date, ObjectId(first + 1 + j)).Some?
  {
    DefaultSlotCount();
    var a := NewAvailability(first, doctorId, date);
    assert a.slots[j].id == ObjectId(first + 1 + j);
    assert HoldsSlot(a, doctorId, date, ObjectId(first + 1 + j)) by {
      assert a.slots[j] in a.slots;
    }
    assert (avs + [a])[|avs|] == a;
  }

  /** The defaults: medicines and suggestions are empty lists, the status
      "followup", when absent (or, for the status, empty). */
  function OrEmpty(xs: Option<seq<string>>): seq<string> {
    if xs.Some? then xs.value else []
  }

  function StatusOrDefault(status: Option<string>): string {
    if Truthy(status) then status.value else DefaultStatusText
  }

  /** POST /consult. */
  method PostConsult(store: ConsultCollection, req: ConsultRequest,
                     patients: seq<ObjectId>, doctors: seq<Doctor>, avs: seq<Availability>)
    returns (reply: Reply<Consult>)
    requires store.Valid()
    modifies store
    ensures store.Valid()
    ensures CheckConsult(req, patients, doctors, avs).Failure? ==>
      var e := CheckConsult(req, patients, doctors, avs).error;
      reply == Message(e.status, e.message) && store.consults == old(store.consults) && store.nextId == old(store.nextId)
    ensures CheckConsult(req, patients, doctors, avs).Success? ==>
      var ids := CheckConsult(req, patients, doctors, avs).value;
      var status := StatusOrDefault(req.status);
      var suggestions := OrEmpty(req.suggestions);
      if ParseStatus(status).None? || !SuggestionsValid(suggestions) then
        reply == Message(500, ServerError) && store.consults == old(store.consults) && store.nextId == old(store.nextId)
      else
        && reply == Json(201, Consult(ObjectId(old(store.nextId)), ids.appointment, ids.doctor, ids.patient,
                                      OrEmpty(req.medicines), suggestions, ParseStatus(status).value))
        && store.consults == old(store.consults) + [reply.body]
        && store.nextId == old(store.nextId) + 1
  {
    var checked := CheckConsult(req, patients, doctors, avs);
    if checked.Failure? {
      return Message(checked.error.status, checked.error.message);
    }
    var ids := checked.value;
    var saved := store.Save(ids.appointment, ids.doctor, ids.patient,
                            OrEmpty(req.medicines), OrEmpty(req.suggestions), StatusOrDefault(req.status));
    if saved.Failure? {
      return Message(500, ServerError);
    }
    reply := Json(201, saved.value);
  }
}
