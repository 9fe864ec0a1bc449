/** Doctor registration, lookup and check-in (DOCTOR_MS/routes/create_doctor.js). */
module CreateDoctor {
  import opened Wrappers
  import opened Seqs
  import opened Http
  import opened ObjectIds
  import opened AppointmentModel
  import opened DepartmentModel
  import opened DoctorModel
  import opened DoctorStore
  import opened SlotGenerator

  const DoctorExistsMessage :=
    "Doctor already exists, if name is exactly same, please add some receding number to make it unique. Example Washim_1"

  /** The post-save hook (looking up by departmentName) and the route's own
      $addToSet hit the same department, so together they add the id once. */
  lemma HookThenAddToSet(ds: seq<Department>, k: nat, doc: Doctor)
    requires NamesUnique(ds) && k < |ds| && ds[k].name == doc.departmentName
    ensures AddDoctorAt(PostSaveHook(ds, doc), k, doc.id) == AddDoctorAt(ds, k, doc.id)
  {
    assert FindDepartmentByName(ds, doc.departmentName) == Some(k);
    AddToSetIdempotent(ds[k].doctors, doc.id);
  }

  /** A fresh doctor id ends up in the department at k, exactly once, and in
      no other department. */
  lemma AddFreshDoctorAt(ds: seq<Department>, k: nat, id: ObjectId)
    requires k < |ds|
    requires forall m :: 0 <= m < |ds| ==> id !in ds[m].doctors
    ensures var r := AddDoctorAt(ds, k, id);
      && |r| == |ds|
      && r[k].doctors == ds[k].doctors + [id]
      && forall m :: 0 <= m < |ds| ==> (id in r[m].doctors <==> m == k)
  {
  }

  /** POST /register. */
  method Register(db: Db, name: string, specialization: string, departmentName: string) returns (reply: Reply<Doctor>)
    requires db.Valid()
    modifies db
    ensures db.Valid()
    ensures db.availabilities == old(db.availabilities) && db.appointments == old(db.appointments)
    ensures reply.status != 201 ==>
      db.doctors == old(db.doctors) && db.departments == old(db.departments) && db.nextId == old(db.nextId)
    ensures
      var ds := old(db.departments);
      match FindDepartmentByName(ds, departmentName)
      case None => reply == Message(404, "Department not found")
      case Some(k) =>
        if FindDoctorByNameAndSpecialization(old(db.doctors), name, specialization).Some? then
          reply == Message(400, DoctorExistsMessage)
        else if name == "" || specialization == "" then
          reply == Message(500, InternalError)
        else
          var doctor := Doctor(ObjectId(old(db.nextId)), name, specialization, departmentName);
          && reply == Json(201, doctor)
          && db.doctors == old(db.doctors) + [doctor]
          && db.departments == AddDoctorAt(ds, k, doctor.id)
          && db.departments[k].doctors == ds[k].doctors + [doctor.id]
          && (forall m :: 0 <= m < |ds| ==> (doctor.id in db.departments[m].doctors <==> m == k))
          && db.nextId == old(db.nextId) + 1
  {
    var department := FindDepartmentByName(db.departments, departmentName);
    if department.None? {
      return Message(404, "Department not found");
    }
    var k := department.value;
    var existing := FindDoctorByNameAndSpecialization(db.doctors, name, specialization);
    if existing.Some? {
      return Message(400, DoctorExistsMessage);
    }
    ghost var ds := db.departments;
    assert departmentName != "" by {
      assert DepartmentSchemaValid(ds[k]);
    }
    var saved := db.SaveDoctor(name, specialization, departmentName);
    if saved.Failure? {
      return Message(500, InternalError);
    }
    var doctor := saved.value;
    HookThenAddToSet(ds, k, doctor);
    assert forall m :: 0 <= m < |ds| ==> doctor.id !in ds[m].doctors by {
      assert IdsBelow(old(db.doctors), ds, old(db.availabilities), old(db.appointments), old(db.nextId));
    }
    AddFreshDoctorAt(ds, k, doctor.id);
    db.departments := AddDoctorAt(db.departments, k, doctor.id);
    reply := Json(201, doctor);
  }

  /** GET /getall: every stored doctor, in stored order. */
  method GetAll(db: Db) returns (reply: Reply<seq<Doctor>>)
    ensures reply.status == 200 && reply.Json?
    ensures forall d :: d in reply.body <==> d in db.doctors
  {
    return Json(200, db.doctors);
  }

  /** GET /:id. */
  method GetById(db: Db, id: string) returns (reply: Reply<Doctor>)
    ensures ParseObjectId(id).None? ==> reply == Message(500, InternalError)
    ensures ParseObjectId(id).Some? ==>
      match FindDoctorById(db.doctors, ParseObjectId(id).value)
      case None => reply == Message(404, "Doctor not found")
      case Some(k) => reply == Json(200, db.doctors[k])
  {
    var oid := ParseObjectId(id);
    if oid.None? {
      return Message(500, InternalError);
    }
    var found := FindDoctorById(db.doctors, oid.value);
    if found.None? {
      return Message(404, "Doctor not found");
    }
    return Json(200, db.doctors[found.value]);
  }

  /** POST /checkin: the doctor must exist; then the day's availability is created. */
  method CheckIn(db: Db, doctorId: string, date: string) returns (reply: Reply<Availability>)
    requires db.Valid()
    modifies db
    ensures db.Valid()
    ensures db.doctors == old(db.doctors) && db.departments == old(db.departments)
    ensures db.appointments == old(db.appointments)
    ensures reply.status != 201 ==> db.availabilities == old(db.availabilities) && db.nextId == old(db.nextId)
    ensures ParseObjectId(doctorId).None? ==> reply == Message(500, InternalError)
    ensures ParseObjectId(doctorId).Some? ==>
      var id := ParseObjectId(doctorId).value;
      if FindDoctorById(old(db.doctors), id).None? then
        reply == Message(404, "Doctor not found")
      else if FindAvailability(old(db.availabilities), id, date).Some? then
        reply == Message(400, AlreadyExistsMessage)
      else if date == "" then
        reply == Message(500, InternalError)
      else
        && reply == Json(201, NewAvailability(old(db.nextId), id, date))
        && db.availabilities == old(db.availabilities) + [reply.body]
        && db.nextId == old(db.nextId) + 13
  {
    var id := ParseObjectId(doctorId);
    if id.None? {
      return Message(500, InternalError);
    }
    var doctor := FindDoctorById(db.doctors, id.value);
    if doctor.None? {
      return Message(404, "Doctor not found");
    }
    var created := CreateDoctorAvailabilitySlots(db, id.value, date);
    if created.Failure? {
      if ErrorMessage(created.error) == AlreadyExistsMessage {
        return Message(400, ErrorMessage(created.error));
      }
      return Message(500, InternalError);
    }
    return Json(201, created.value);
  }
}
