/** The doctor document and its post-save hook (DOCTOR_MS/models/Doctor_model.js). */
module DoctorModel {
  import opened Wrappers
  import opened Seqs
  import opened ObjectIds
  import opened DepartmentModel

  /** `name`, `specialization` and `departmentName` are all required. */
  datatype Doctor = Doctor(id: ObjectId, name: string, specialization: string, departmentName: string)

  /** The schema's `required` checks. */
  predicate DoctorSchemaValid(d: Doctor) {
    d.name != "" && d.specialization != "" && d.departmentName != ""
  }

  /** findById over the doctor collection. */
  function FindDoctorById(doctors: seq<Doctor>, id: ObjectId): (r: Option<nat>)
    ensures r.Some? ==> r.value < |doctors| && doctors[r.value].id == id
    ensures r.None? <==> forall k :: 0 <= k < |doctors| ==> doctors[k].id != id
  {
    FirstIndex(doctors, (d: Doctor) => d.id == id)
  }

  /** A doctor found before one is appended is still found, and so is the
      appended one. */
  lemma FoundAfterAppend(doctors: seq<Doctor>, doc: Doctor, id: ObjectId)
    requires FindDoctorById(doctors, id).Some? || id == doc.id
    ensures FindDoctorById(doctors + [doc], id).Some?
  {
    var all := doctors + [doc];
    if id == doc.id {
      assert all[|doctors|].id == id;
    } else {
      var m := FindDoctorById(doctors, id).value;
      assert all[m].id == id;
    }
  }

  /** findOne({ name, specialization }) over the doctor collection. */
  function FindDoctorByNameAndSpecialization(doctors: seq<Doctor>, name: string, specialization: string): (r: Option<nat>)
    ensures r.Some? ==> r.value < |doctors| && doctors[r.value].name == name && doctors[r.value].specialization == specialization
    ensures r.None? <==> forall k :: 0 <= k < |doctors| ==> doctors[k].name != name || doctors[k].specialization != specialization
  {
    FirstIndex(doctors, (d: Doctor) => d.name == name && d.specialization == specialization)
  }

  /** Set-insert a doctor id into the department found by `name`, if any. */
  function AddDoctorToNamedDepartment(ds: seq<Department>, name: string, doctorId: ObjectId): seq<Department> {
    match FindDepartmentByName(ds, name)
    case None => ds
    case Some(k) => AddDoctorAt(ds, k, doctorId)
  }

  /** The post-save hook AS WRITTEN: it looks the department up by the
      doctor's own `name`, not by its `departmentName`. */
  function PostSaveHookAsWritten(ds: seq<Department>, doc: Doctor): (r: seq<Department>)
    ensures |r| == |ds|
    ensures forall k :: 0 <= k < |ds| ==> r[k].id == ds[k].id && r[k].name == ds[k].name && r[k].description == ds[k].description
    ensures forall k :: 0 <= k < |ds| && ds[k].name != doc.name ==> r[k].doctors == ds[k].doctors
    ensures FindDepartmentByName(ds, doc.name).Some? ==>
      var k := FindDepartmentByName(ds, doc.name).value;
      r[k].doctors == AddToSet(ds[k].doctors, doc.id)
  {
    AddDoctorToNamedDepartment(ds, doc.name, doc.id)
  }

  /** The post-save hook as its comment describes it ("based on
      departmentName"); the rest of the model uses this one. */
  function PostSaveHook(ds: seq<Department>, doc: Doctor): (r: seq<Department>)
    requires NamesUnique(ds)
    ensures |r| == |ds| && NamesUnique(r)
    ensures forall k :: 0 <= k < |ds| ==> r[k].id == ds[k].id && r[k].name == ds[k].name && r[k].description == ds[k].description
    ensures forall k :: 0 <= k < |ds| ==>
      r[k].doctors == if ds[k].name == doc.departmentName then AddToSet(ds[k].doctors, doc.id) else ds[k].doctors
  {
    AddDoctorToNamedDepartment(ds, doc.departmentName, doc.id)
  }

  /** As written, a doctor whose name happens to be a department's name is
      filed into that department, and the hook misses its own department. */
  lemma HookAsWrittenFilesByDoctorName()
    ensures
      var ds := [Department(ObjectId(1), "Cardiology", "Heart", []),
                 Department(ObjectId(2), "Neurology", "Brain", [])];
      var doc := Doctor(ObjectId(3), "Cardiology", "Neurosurgeon", "Neurology");
      && PostSaveHookAsWritten(ds, doc)[0].doctors == [ObjectId(3)]
      && PostSaveHookAsWritten(ds, doc)[1].doctors == []
      && PostSaveHook(ds, doc)[0].doctors == []
      && PostSaveHook(ds, doc)[1].doctors == [ObjectId(3)]
  {
    var ds := [Department(ObjectId(1), "Cardiology", "Heart", []),
               Department(ObjectId(2), "Neurology", "Brain", [])];
    var doc := Doctor(ObjectId(3), "Cardiology", "Neurosurgeon", "Neurology");
    assert FindDepartmentByName(ds, "Cardiology") == Some(0);
  }
}
