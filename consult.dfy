/** The Backend's consult collection (Backend/schema/consult.js): the record,
    its status enumeration and the schema validation run by `save()`. */
module ConsultSchema {
  import opened Wrappers
  import opened ObjectIds

  /** The status enumeration; "followup" is the default. */
  datatype Status = Followup | Completed | Cancelled

  const DefaultStatusText := "followup"

  /** The stored text of a status. */
  function StatusText(s: Status): (t: string)
    ensures t == "followup" || t == "completed" || t == "cancelled"
    ensures s == Followup <==> t == DefaultStatusText
  {
    match s
    case Followup => "followup"
    case Completed => "completed"
    case Cancelled => "cancelled"
  }

  /** The enum validator: a text outside the enumeration is refused. */
  function ParseStatus(t: string): (r: Option<Status>)
    ensures r.Some? <==> t == "followup" || t == "completed" || t == "cancelled"
    ensures r.Some? ==> StatusText(r.value) == t
  {
    if t == "followup" then Some(Followup)
    else if t == "completed" then Some(Completed)
    else if t == "cancelled" then Some(Cancelled)
    else None
  }

  /** Every status survives being stored as text and read back. */
  lemma StatusRoundTrip(s: Status)
    ensures ParseStatus(StatusText(s)) == Some(s)
  {
  }

  /** A consult record; createdAt is not modelled. */
  datatype Consult = Consult(
    id: ObjectId,
    appointmentId: ObjectId,
    doctorId: ObjectId,
    patientId: ObjectId,
    medicines: seq<string>,
    suggestions: seq<string>,
    status: Status)

  /** Each element of suggestions is a required string, so it may not be empty;
      the elements of medicines are optional. */
  predicate SuggestionsValid(suggestions: seq<string>) {
    forall i :: 0 <= i < |suggestions| ==> suggestions[i] != ""
  }

  /** The consults collection with its id generator. */
  class ConsultCollection {
    var consults: seq<Consult>
    var nextId: nat

    ghost predicate Valid()
      reads this
    {
      && (forall i :: 0 <= i < |consults| ==> consults[i].id.value < nextId)
      && (forall i :: 0 <= i < |consults| ==> SuggestionsValid(consults[i].suggestions))
      && (forall i, j :: 0 <= i < j < |consults| ==> consults[i].id != consults[j].id)
    }

    constructor ()
      ensures Valid() && consults == [] && nextId == 0
    {
      consults := [];
      nextId := 0;
    }

    /** `new consult({...}).save()`: the schema validates the status text and
        the suggestions; a document that fails is not stored. */
    method Save(appointmentId: ObjectId, doctorId: ObjectId, patientId: ObjectId,
                medicines: seq<string>, suggestions: seq<string>, status: string)
      returns (r: Result<Consult, ()>)
      requires Valid()
      modifies this
      ensures Valid()
      ensures ParseStatus(status).None? || !SuggestionsValid(suggestions) ==>
        r.Failure? && consults == old(consults) && nextId == old(nextId)
      ensures ParseStatus(status).Some? && SuggestionsValid(suggestions) ==>
        && r == Success(Consult(ObjectId(old(nextId)), appointmentId, doctorId, patientId,
                                medicines, suggestions, ParseStatus(status).value))
        && consults == old(consults) + [r.value]
        && nextId == old(nextId) + 1
    {
      var parsed := ParseStatus(status);
      if parsed.None? || !SuggestionsValid(suggestions) {
        return Failure(());
      }
      var c := Consult(ObjectId(nextId), appointmentId, doctorId, patientId, medicines, suggestions, parsed.value);
      consults := consults + [c];
      nextId := nextId + 1;
      r := Success(c);
    }
  }
}
