/** The DOCTOR_MS database: the doctor, department and availability
    collections and the appointment log, with the fresh-id source that
    Mongoose's ObjectId generation stands for. */
module DoctorStore {
  import opened Wrappers
  import opened Seqs
  import opened ObjectIds
  import opened AppointmentModel
  import opened DepartmentModel
  import opened DoctorModel

  /** Every slot of every record keeps its booked flag and patient in step. */
  predicate AllSlotsConsistent(avs: seq<Availability>) {
    forall k, j :: 0 <= k < |avs| && 0 <= j < |avs[k].slots| ==> SlotConsistent(avs[k].slots[j])
  }

  predicate AllAvailabilitiesSchemaValid(avs: seq<Availability>) {
    forall k :: 0 <= k < |avs| ==> AvailabilitySchemaValid(avs[k])
  }

  predicate AllDepartmentsValid(ds: seq<Department>) {
    NamesUnique(ds) &&
    forall k :: 0 <= k < |ds| ==> DepartmentSchemaValid(ds[k]) && NoDuplicates(ds[k].doctors)
  }

  predicate AllDoctorsValid(doctors: seq<Doctor>) {
    forall k :: 0 <= k < |doctors| ==> DoctorSchemaValid(doctors[k])
  }

  /** Every id a department lists names a stored doctor: a doctor is
      inserted before the hook and the route file its id. */
  predicate DoctorsResolve(doctors: seq<Doctor>, ds: seq<Department>) {
    forall k, id :: 0 <= k < |ds| && id in ds[k].doctors ==> FindDoctorById(doctors, id).Some?
  }

  /** Every id stored anywhere is below the next id to be handed out. */
  predicate IdsBelow(doctors: seq<Doctor>, ds: seq<Department>, avs: seq<Availability>,
                     appointments: seq<Appointment>, bound: nat) {
    && (forall k :: 0 <= k < |doctors| ==> doctors[k].id.value < bound)
    && (forall k :: 0 <= k < |ds| ==> ds[k].id.value < bound)
    && (forall k, j :: 0 <= k < |ds| && 0 <= j < |ds[k].doctors| ==> ds[k].doctors[j].value < bound)
    && (forall k :: 0 <= k < |avs| ==> avs[k].id.value < bound)
    && (forall k, j :: 0 <= k < |avs| && 0 <= j < |avs[k].slots| ==> avs[k].slots[j].id.value < bound)
    && (forall k :: 0 <= k < |appointments| ==> appointments[k].id.value < bound)
  }

  /** What the schemas, the unique index and the handlers keep true of the
      stored documents, with every id below the next one to be handed out. */
  predicate Consistent(doctors: seq<Doctor>, ds: seq<Department>, avs: seq<Availability>,
                       appointments: seq<Appointment>, nextId: nat) {
    && AllDoctorsValid(doctors)
    && AllDepartmentsValid(ds)
    && DoctorsResolve(doctors, ds)
    && KeysUnique(avs)
    && AllAvailabilitiesSchemaValid(avs)
    && AllSlotsConsistent(avs)
    && IdsBelow(doctors, ds, avs, appointments, nextId)
  }

  /** Inserting a doctor that passes the schema checks under the next id,
      then running the post-save hook, keeps the store consistent. */
  lemma SavedDoctorKeepsConsistent(doctors: seq<Doctor>, ds: seq<Department>, avs: seq<Availability>,
                                   appointments: seq<Appointment>, nextId: nat, doc: Doctor)
    requires Consistent(doctors, ds, avs, appointments, nextId)
    requires DoctorSchemaValid(doc) && doc.id == ObjectId(nextId)
    ensures Consistent(doctors + [doc], PostSaveHook(ds, doc), avs, appointments, nextId + 1)
  {
    var doctors' := doctors + [doc];
    var ds' := PostSaveHook(ds, doc);
    forall k | 0 <= k < |doctors'|
      ensures DoctorSchemaValid(doctors'[k]) && doctors'[k].id.value < nextId + 1
    {
      if k < |doctors| {
        assert doctors'[k] == doctors[k];
      }
    }
    forall k | 0 <= k < |ds'|
      ensures DepartmentSchemaValid(ds'[k]) && NoDuplicates(ds'[k].doctors)
      ensures forall j :: 0 <= j < |ds'[k].doctors| ==> ds'[k].doctors[j].value < nextId + 1
    {
      forall j | 0 <= j < |ds'[k].doctors|
        ensures ds'[k].doctors[j].value < nextId + 1
      {
        assert ds'[k].doctors[j] in ds'[k].doctors;
      }
    }
    forall k, id | 0 <= k < |ds'| && id in ds'[k].doctors
      ensures FindDoctorById(doctors', id).Some?
    {
      FoundAfterAppend(doctors, doc, id);
    }
  }

  /** Logging an appointment whose id is below the bound keeps the store consistent. */
  lemma LoggedAppointmentKeepsConsistent(doctors: seq<Doctor>, ds: seq<Department>, avs: seq<Availability>,
                                         appointments: seq<Appointment>, nextId: nat, a: Appointment)
    requires Consistent(doctors, ds, avs, appointments, nextId)
    requires a.id.value < nextId
    ensures Consistent(doctors, ds, avs, appointments + [a], nextId)
  {
    var appointments' := appointments + [a];
    assert forall k :: 0 <= k < |appointments'| ==> appointments'[k] == a || appointments'[k] == appointments[k];
  }

  class Db {
    var doctors: seq<Doctor>
    var departments: seq<Department>
    var availabilities: seq<Availability>
    var appointments: seq<Appointment>
    var nextId: nat

    ghost predicate Valid()
      reads this
    {
      Consistent(doctors, departments, availabilities, appointments, nextId)
    }

    /** An empty database. */
    constructor ()
      ensures Valid()
      ensures doctors == [] && departments == [] && availabilities == [] && appointments == []
    {
      doctors, departments, availabilities, appointments := [], [], [], [];
      nextId := 0;
    }

    /** A fresh ObjectId, distinct from every id stored so far. */
    method NewId() returns (id: ObjectId)
      requires Valid()
      modifies this`nextId
      ensures Valid()
      ensures id == ObjectId(old(nextId)) && nextId == old(nextId) + 1
    {
      id := ObjectId(nextId);
      nextId := nextId + 1;
    }

    /** new Doctor({ name, specialization, departmentName }).save(): the
        schema's required checks, the insert, then the post-save hook. */
    method SaveDoctor(name: string, specialization: string, departmentName: string) returns (r: Result<Doctor, ()>)
      requires Valid()
      modifies this
      ensures Valid()
      ensures availabilities == old(availabilities) && appointments == old(appointments)
      ensures name == "" || specialization == "" || departmentName == "" ==>
        r == Failure(()) && doctors == old(doctors) && departments == old(departments) && nextId == old(nextId)
      ensures name != "" && specialization != "" && departmentName != "" ==>
        && r == Success(Doctor(ObjectId(old(nextId)), name, specialization, departmentName))
        && doctors == old(doctors) + [r.value]
        && departments == PostSaveHook(old(departments), r.value)
        && nextId == old(nextId) + 1
    {
      if name == "" || specialization == "" || departmentName == "" {
        return Failure(());
      }
      var doctor := Doctor(ObjectId(nextId), name, specialization, departmentName);
      SavedDoctorKeepsConsistent(doctors, departments, availabilities, appointments, nextId, doctor);
      doctors := doctors + [doctor];
      departments := PostSaveHook(departments, doctor);
      nextId := nextId + 1;
      r := Success(doctor);
    }
  }
}
