/** The Backend's consult queries (Backend/routes/getConsultDetails.js):
    POST /patient and POST /doctor list the consults of one patient or one
    doctor. They only read the consults collection. */
module ConsultDetails {
  import opened Wrappers
  import opened Http
  import opened ObjectIds
  import opened Seqs
  import opened ConsultSchema

  /** Which id a query is keyed on. */
  datatype Key = ByPatient | ByDoctor

  function KeyOf(c: Consult, key: Key): ObjectId {
    match key
    case ByPatient => c.patientId
    case ByDoctor => c.doctorId
  }

  /** The filter of find({ <key>: id }). */
  function KeyIs(key: Key, id: ObjectId): Consult -> bool {
    (c: Consult) => KeyOf(c, key) == id
  }

  /** find({ <key>: id }): the consults whose key is id, in stored order. */
  function Matching(consults: seq<Consult>, key: Key, id: ObjectId): seq<Consult> {
    Filter(consults, KeyIs(key, id))
  }

  /** Cast the id text and run the query. The `!appointmentDetails` guard
      never fires (an array is truthy), so there is no 404 branch. */
  function ConsultsWith(consults: seq<Consult>, idText: Option<string>, key: Key): (r: Reply<seq<Consult>>)
    ensures !Truthy(idText) <==> r == Message(400, FieldsRequired)
    ensures Truthy(idText) && ParseObjectId(idText.value).None? <==> r == Message(500, InternalError)
    ensures r.Json? <==> Truthy(idText) && ParseObjectId(idText.value).Some?
    ensures r.Json? ==> r.status == 200 && r.body == Matching(consults, key, ParseObjectId(idText.value).value)
    ensures r.Json? ==> forall c :: c in r.body <==> c in consults && KeyOf(c, key) == ParseObjectId(idText.value).value
    ensures r.Json? ==> forall c :: multiset(r.body)[c] ==
                                    (if KeyOf(c, key) == ParseObjectId(idText.value).value then multiset(consults)[c] else 0)
  {
    if !Truthy(idText) then Message(400, FieldsRequired)
    else match ParseObjectId(idText.value)
      case None => Message(500, InternalError)
      case Some(id) =>
        Json(200, Matching(consults, key, id))
  }

  /** POST /patient: every consult of that patient, as often as stored, and no other. */
  function PatientConsults(consults: seq<Consult>, patientId: Option<string>): (r: Reply<seq<Consult>>)
    ensures !Truthy(patientId) <==> r == Message(400, FieldsRequired)
    ensures Truthy(patientId) && ParseObjectId(patientId.value).None? <==> r == Message(500, InternalError)
    ensures r.Json? <==> Truthy(patientId) && ParseObjectId(patientId.value).Some?
    ensures r.status != 404
    ensures r.Json? ==>
      && r.status == 200
      && (forall c :: c in r.body <==> c in consults && Some(c.patientId) == ParseObjectId(patientId.value))
      && (forall c: Consult :: c.patientId == ParseObjectId(patientId.value).value ==> multiset(r.body)[c] == multiset(consults)[c])
  {
    ConsultsWith(consults, patientId, ByPatient)
  }

  /** POST /doctor: the same query keyed on doctorId. */
  function DoctorConsults(consults: seq<Consult>, doctorId: Option<string>): (r: Reply<seq<Consult>>)
    ensures !Truthy(doctorId) <==> r == Message(400, FieldsRequired)
    ensures Truthy(doctorId) && ParseObjectId(doctorId.value).None? <==> r == Message(500, InternalError)
    ensures r.Json? <==> Truthy(doctorId) && ParseObjectId(doctorId.value).Some?
    ensures r.status != 404
    ensures r.Json? ==>
      && r.status == 200
      && (forall c :: c in r.body <==> c in consults && Some(c.doctorId) == ParseObjectId(doctorId.value))
      && (forall c: Consult :: c.doctorId == ParseObjectId(doctorId.value).value ==> multiset(r.body)[c] == multiset(consults)[c])
  {
    ConsultsWith(consults, doctorId, ByDoctor)
  }

  /** A consult stored by POST /consult is listed last by both queries made
      with ids that name its patient and its doctor. */
  lemma SavedConsultIsListed(consults: seq<Consult>, c: Consult, patientText: string, doctorText: string)
    requires ParseObjectId(patientText) == Some(c.patientId)
    requires ParseObjectId(doctorText) == Some(c.doctorId)
    ensures PatientConsults(consults + [c], Some(patientText)).Json?
    ensures PatientConsults(consults + [c], Some(patientText)).body
         == PatientConsults(consults, Some(patientText)).body + [c]
    ensures DoctorConsults(consults + [c], Some(doctorText)).body
         == DoctorConsults(consults, Some(doctorText)).body + [c]
  {
    FilterAppend(consults, c, KeyIs(ByPatient, c.patientId));
    FilterAppend(consults, c, KeyIs(ByDoctor, c.doctorId));
  }

  /** A patient with no consults gets 200 and an empty list, not 404. */
  lemma NoConsultsIsEmptyList(consults: seq<Consult>, patientText: string)
    requires ParseObjectId(patientText).Some?
    requires forall k :: 0 <= k < |consults| ==> Some(consults[k].patientId) != ParseObjectId(patientText)
    ensures PatientConsults(consults, Some(patientText)) == Json(200, [])
  {
  }
}
