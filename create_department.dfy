/** Department registration and the two department reads
    (DOCTOR_MS/routes/create_department.js). */
module CreateDepartment {
  import opened Wrappers
  import opened Seqs
  import opened Http
  import opened ObjectIds
  import opened DepartmentModel
  import opened DoctorModel
  import opened DoctorStore

  /** A department as `populate("doctors")` returns it: ids replaced by doctors. */
  datatype PopulatedDepartment = PopulatedDepartment(id: ObjectId, name: string, description: string, doctors: seq<Doctor>)

  /** populate over an id list: each id that names a stored doctor becomes
      that doctor, in list order; ids naming no doctor are dropped. */
  function Populate(ids: seq<ObjectId>, doctors: seq<Doctor>): (r: seq<Doctor>)
    ensures |r| <= |ids|
    ensures forall d :: d in r ==> d in doctors && d.id in ids
  {
    if ids == [] then []
    else
      var tail := Populate(ids[1..], doctors);
      match FindDoctorById(doctors, ids[0])
      case None => tail
      case Some(k) => [doctors[k]] + tail
  }

  /** The ids of a list that name a stored doctor, in list order. */
  function ResolvingIds(ids: seq<ObjectId>, doctors: seq<Doctor>): seq<ObjectId> {
    Filter(ids, (id: ObjectId) => FindDoctorById(doctors, id).Some?)
  }

  /** populate is an order-preserving map over the ids that resolve: the
      j-th doctor returned is a stored doctor with the j-th resolving id. */
  lemma {:induction false} PopulateResolvesInOrder(ids: seq<ObjectId>, doctors: seq<Doctor>)
    ensures var kept := ResolvingIds(ids, doctors);
      var r := Populate(ids, doctors);
      && |r| == |kept|
      && forall j :: 0 <= j < |r| ==> r[j].id == kept[j] && r[j] in doctors
  {
    if ids != [] {
      var tail := ids[1..];
      PopulateResolvesInOrder(tail, doctors);
      var keptTail := ResolvingIds(tail, doctors);
      var rest := Populate(tail, doctors);
      var kept := ResolvingIds(ids, doctors);
      var r := Populate(ids, doctors);
      match FindDoctorById(doctors, ids[0])
      case None =>
        assert kept == keptTail;
        assert r == rest;
      case Some(k) =>
        assert kept == [ids[0]] + keptTail;
        assert r == [doctors[k]] + rest;
        forall j | 0 <= j < |r|
          ensures r[j].id == kept[j] && r[j] in doctors
        {
          if j > 0 {
            assert r[j] == rest[j - 1] && kept[j] == keptTail[j - 1];
          }
        }
    }
  }

  /** When every id names a stored doctor, nothing is dropped and the
      doctors come back in the order of the ids. */
  lemma {:induction false} PopulateKeepsEveryId(ids: seq<ObjectId>, doctors: seq<Doctor>)
    requires forall j :: 0 <= j < |ids| ==> FindDoctorById(doctors, ids[j]).Some?
    ensures var r := Populate(ids, doctors);
      |r| == |ids| && forall j :: 0 <= j < |ids| ==> r[j].id == ids[j]
  {
    if ids != [] {
      var tail := ids[1..];
      forall j | 0 <= j < |tail|
        ensures FindDoctorById(doctors, tail[j]).Some?
      {
        assert tail[j] == ids[j + 1];
      }
      PopulateKeepsEveryId(tail, doctors);
      var k := FindDoctorById(doctors, ids[0]).value;
      var rest := Populate(tail, doctors);
      var r := Populate(ids, doctors);
      assert r == [doctors[k]] + rest;
      forall j | 0 <= j < |ids|
        ensures r[j].id == ids[j]
      {
        if j > 0 {
          assert r[j] == rest[j - 1] && tail[j - 1] == ids[j];
        }
      }
    }
  }

  function PopulateDepartment(d: Department, doctors: seq<Doctor>): PopulatedDepartment {
    PopulatedDepartment(d.id, d.name, d.description, Populate(d.doctors, doctors))
  }

  /** p is department d with each listed doctor id, in order, replaced by
      a doctor with that id. */
  predicate ListsDoctorsOf(p: PopulatedDepartment, d: Department) {
    && p.id == d.id && p.name == d.name && p.description == d.description
    && |p.doctors| == |d.doctors|
    && forall j :: 0 <= j < |d.doctors| ==> p.doctors[j].id == d.doctors[j]
  }

  /** In a consistent store every department comes back with all its doctors. */
  lemma PopulatedDepartmentIsComplete(d: Department, doctors: seq<Doctor>)
    requires forall id :: id in d.doctors ==> FindDoctorById(doctors, id).Some?
    ensures ListsDoctorsOf(PopulateDepartment(d, doctors), d)
  {
    forall j | 0 <= j < |d.doctors|
      ensures FindDoctorById(doctors, d.doctors[j]).Some?
    {
      assert d.doctors[j] in d.doctors;
    }
    PopulateKeepsEveryId(d.doctors, doctors);
  }

  /** Registering a name that is not yet taken keeps names pairwise distinct. */
  lemma RegistrationKeepsNamesUnique(ds: seq<Department>, d: Department)
    requires NamesUnique(ds) && FindDepartmentByName(ds, d.name).None?
    ensures NamesUnique(ds + [d])
  {
  }

  /** POST /registerdepartment. */
  method RegisterDepartment(db: Db, name: string, description: string) returns (reply: Reply<Department>)
    requires db.Valid()
    modifies db
    ensures db.Valid()
    ensures db.doctors == old(db.doctors) && db.availabilities == old(db.availabilities)
    ensures db.appointments == old(db.appointments)
    ensures reply.status != 201 ==> db.departments == old(db.departments) && db.nextId == old(db.nextId)
    ensures
      if FindDepartmentByName(old(db.departments), name).Some? then
        reply == Message(400, "Department already exists")
      else if name == "" || description == "" then
        reply == Message(500, InternalError)
      else
        var department := Department(ObjectId(old(db.nextId)), name, description, []);
        && reply == Json(201, department)
        && db.departments == old(db.departments) + [department]
        && db.nextId == old(db.nextId) + 1
  {
    var existing := FindDepartmentByName(db.departments, name);
    if existing.Some? {
      return Message(400, "Department already exists");
    }
    if name == "" || description == "" {
      return Message(500, InternalError);
    }
    var id := db.NewId();
    var department := Department(id, name, description, []);
    RegistrationKeepsNamesUnique(db.departments, department);
    db.departments := db.departments + [department];
    reply := Json(201, department);
  }

  /** GET /getdepartmentdetails: every department with its doctors resolved. */
  method GetDepartmentDetails(db: Db) returns (reply: Reply<seq<PopulatedDepartment>>)
    requires db.Valid()
    ensures reply.Json? && reply.status == 200 && |reply.body| == |db.departments|
    ensures forall k :: 0 <= k < |db.departments| ==>
      reply.body[k] == PopulateDepartment(db.departments[k], db.doctors)
    ensures forall k :: 0 <= k < |db.departments| ==> ListsDoctorsOf(reply.body[k], db.departments[k])
  {
    var populated := seq(|db.departments|, k requires 0 <= k < |db.departments| reads db =>
      PopulateDepartment(db.departments[k], db.doctors));
    forall k | 0 <= k < |db.departments|
      ensures ListsDoctorsOf(populated[k], db.departments[k])
    {
      PopulatedDepartmentIsComplete(db.departments[k], db.doctors);
    }
    return Json(200, populated);
  }

  /** GET /getdepartmentdetails/:id. */
  method GetDepartmentDetailsById(db: Db, id: string) returns (reply: Reply<PopulatedDepartment>)
    requires db.Valid()
    ensures ParseObjectId(id).None? ==> reply == Message(500, InternalError)
    ensures ParseObjectId(id).Some? ==>
      match FindDepartmentById(db.departments, ParseObjectId(id).value)
      case None => reply == Message(404, "Department not found")
      case Some(k) =>
        reply == Json(200, PopulateDepartment(db.departments[k], db.doctors)) && ListsDoctorsOf(reply.body, db.departments[k])
  {
    var oid := ParseObjectId(id);
    if oid.None? {
      return Message(500, InternalError);
    }
    var found := FindDepartmentById(db.departments, oid.value);
    if found.None? {
      return Message(404, "Department not found");
    }
    PopulatedDepartmentIsComplete(db.departments[found.value], db.doctors);
    return Json(200, PopulateDepartment(db.departments[found.value], db.doctors));
  }
}
