/** The department document (DOCTOR_MS/models/Department_model.js). */
module DepartmentModel {
  import opened Wrappers
  import opened Seqs
  import opened ObjectIds

  /** `name` is required and unique, `description` is required, `doctors`
      lists Doctor ids. */
  datatype Department = Department(id: ObjectId, name: string, description: string, doctors: seq<ObjectId>)

  /** The schema's `required` checks on name and description. */
  predicate DepartmentSchemaValid(d: Department) {
    d.name != "" && d.description != ""
  }

  /** The unique index on `name`. */
  predicate NamesUnique(ds: seq<Department>) {
    forall i, j :: 0 <= i < j < |ds| ==> ds[i].name != ds[j].name
  }

  /** findOne({ name }) over the department collection. */
  function FindDepartmentByName(ds: seq<Department>, name: string): (r: Option<nat>)
    ensures r.Some? ==> r.value < |ds| && ds[r.value].name == name
    ensures r.None? <==> forall k :: 0 <= k < |ds| ==> ds[k].name != name
  {
    FirstIndex(ds, (d: Department) => d.name == name)
  }

  /** findById over the department collection. */
  function FindDepartmentById(ds: seq<Department>, id: ObjectId): (r: Option<nat>)
    ensures r.Some? ==> r.value < |ds| && ds[r.value].id == id
    ensures r.None? <==> forall k :: 0 <= k < |ds| ==> ds[k].id != id
  {
    FirstIndex(ds, (d: Department) => d.id == id)
  }

  /** findByIdAndUpdate(ds[k]._id, { $addToSet: { doctors: doctorId } }). */
  function AddDoctorAt(ds: seq<Department>, k: nat, doctorId: ObjectId): seq<Department>
    requires k < |ds|
  {
    ds[k := ds[k].(doctors := AddToSet(ds[k].doctors, doctorId))]
  }
}
