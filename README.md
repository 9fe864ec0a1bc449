# Doctor–patient appointment services, modelled in Dafny

This project models the core of a small appointment system made of three
Node/Express services and a gateway:

- **DOCTOR_MS.**
  - Departments and doctors are registered. The registration route files each new doctor's id into the department named by its `departmentName`. A post-save hook on the doctor model also tries to file it, but looks the department up by the doctor's own `name` (see Findings).
  - A doctor "checks in" for a date, which creates one availability record holding twelve half-hour slots from 10:00 to 15:30.
  - Patients book the first open slot with a given time, cancel a slot by its id, and list their appointments.
- **API_GATEWAY.**
  - The `/auth` handler forwards to USER_MS when a health probe succeeds, and otherwise to the Backend's backup login.
  - The `/api/users/` and `/doctors/` prefixes run the `authenticate` middleware (pathname bypass, bearer token, JWT check) before proxying. `/consult` is proxied without a check.
- **Backend.**
  - `POST /consult` checks the required fields, resolves the patient, the doctor and the appointment slot (reporting the first one missing), and inserts a consult with defaults.
  - `POST /patient` and `POST /doctor` list the consults of one patient or one doctor.

The state-changing handlers are methods on classes:
- `DoctorStore.Db` holds the doctor, department and availability collections and the appointment log.
- `ConsultSchema.ConsultCollection` holds the consults.

Each class has a `Valid()` invariant, and each method states the whole new state it leaves. The slot generator is a `while` loop proved equal to a recursive specification (`SlotTimes`, `Render`). Lemmas about that specification carry the generator's properties. Read-only queries and the gateway's decisions are pure functions.

Mongoose ObjectIds are modelled as numbers:
- A fresh id comes from a counter in each store.
- Request text is cast by `ObjectIds.ParseObjectId`: exactly 24 hexadecimal digits, otherwise the cast error.

A cast error inside a DOCTOR_MS or Backend `try` block is answered with the handler's 500. In `availability.slots.id(...)` it matches no slot.

Two details of the slot generator:
- **Slot count.** Started on the hour or half hour, the loop produces one slot per *started* half hour before the end time. For example, 10:00–10:45 gives "10:00" and "10:30". `SlotGenerator.AlignedSlotCount` states this count.
- **Start times off the half hour.** From such a start, the minute overflow resets to :00 rather than carrying (`SlotGenerator.MinuteOverflowResets`).

A booking request's `patientId` is optional. A request without one still books the slot, which is then booked for nobody (`BookAppointment.BookingWithoutPatientTakesSlot`). The store invariant therefore only promises that an open slot names no patient.

## Model

| member | source | states |
|---|---|---|
| Seqs.Filter | APIs_Doctor_Patient_interaction/Backend/routes/getConsultDetails.js:99 | `find`: keeps each element that matches as often as it is stored and drops every other one |
| Seqs.FilterAppend | APIs_Doctor_Patient_interaction/Backend/routes/getConsultDetails.js:99 | the query distributes over appending one document |
| Seqs.AddToSet | APIs_Doctor_Patient_interaction/DOCTOR_MS/routes/create_doctor.js:59-61 | `$addToSet`: the element is present afterwards, nothing else is added, an existing element leaves the list unchanged, a new one is appended after the old list, and a duplicate-free list stays duplicate-free |
| Seqs.AddToSetIdempotent | APIs_Doctor_Patient_interaction/DOCTOR_MS/models/Doctor_model.js:18-20 | adding the same id twice has the effect of adding it once |
| ObjectIds.ParseObjectId | APIs_Doctor_Patient_interaction/Backend/routes/appointmentData.js:134-136 | the cast succeeds exactly for text of 24 hexadecimal digits |
| ObjectIds.ParsedIdBound | APIs_Doctor_Patient_interaction/Backend/routes/appointmentData.js:134-136 | every id a cast yields is below 16^24 |
| ObjectIds.IdTextRoundTrip | APIs_Doctor_Patient_interaction/DOCTOR_MS/routes/book_appointment.js:236 | the text of an id, as sent in a reply, casts back to the same id, so a client can cancel a slot by the id it was shown |
| AppointmentModel.FindAvailability | APIs_Doctor_Patient_interaction/DOCTOR_MS/helper/slot_generator.js:28 | `findOne({doctorId, date})`: a found record has that key, and there is none exactly when no record has it |
| AppointmentModel.FoundRecordIsTheOnlyOne | APIs_Doctor_Patient_interaction/DOCTOR_MS/helper/slot_generator.js:28-31 | while keys are unique, the record found is the only one with its (doctorId, date) |
| DepartmentModel.FindDepartmentByName | APIs_Doctor_Patient_interaction/DOCTOR_MS/routes/create_doctor.js:40-43 | a found department has that name, and there is none exactly when no department has it |
| DepartmentModel.FindDepartmentById | APIs_Doctor_Patient_interaction/DOCTOR_MS/routes/create_department.js:190-194 | a found department has that id, and there is none exactly when no department has it |
| DoctorModel.FindDoctorById | APIs_Doctor_Patient_interaction/DOCTOR_MS/routes/create_doctor.js:161-164 | a found doctor has that id, and there is none exactly when no doctor has it |
| DoctorModel.FindDoctorByNameAndSpecialization | APIs_Doctor_Patient_interaction/DOCTOR_MS/routes/create_doctor.js:45-48 | a found doctor has both that name and that specialization, and there is none exactly when no doctor has both |
| DoctorModel.PostSaveHook | APIs_Doctor_Patient_interaction/DOCTOR_MS/models/Doctor_model.js:13-27 | corrected hook: only the department named by the doctor's departmentName gains the id (set-insert); every other department, and every name, id and description, is unchanged; names stay unique |
| DoctorModel.PostSaveHookAsWritten | APIs_Doctor_Patient_interaction/DOCTOR_MS/models/Doctor_model.js:13-27 | the hook as written: ids, names and descriptions are unchanged, only a department named like the doctor itself can change, and the department found under the doctor's name has the id set-inserted (`$addToSet`): its earlier ids are kept and the id is added only when absent |
| DoctorModel.HookAsWrittenFilesByDoctorName | APIs_Doctor_Patient_interaction/DOCTOR_MS/models/Doctor_model.js:15 | as written, a doctor named "Cardiology" working in "Neurology" is filed into Cardiology and missing from Neurology; the corrected hook does the opposite |
| DoctorStore.SavedDoctorKeepsConsistent | APIs_Doctor_Patient_interaction/DOCTOR_MS/models/Doctor_model.js:5-20 | inserting a doctor that passes the required checks under the next id, then running the hook, keeps every store invariant (schemas, unique names, no duplicate doctor ids in a department, every listed doctor id naming a stored doctor, ids below the counter) |
| DoctorStore.LoggedAppointmentKeepsConsistent | APIs_Doctor_Patient_interaction/DOCTOR_MS/routes/book_appointment.js:158-165 | logging an appointment with an id below the counter keeps every store invariant |
| DoctorStore.Db.SaveDoctor | APIs_Doctor_Patient_interaction/DOCTOR_MS/models/Doctor_model.js:5-27 | a doctor missing a required field is refused and nothing changes; otherwise it is appended under a fresh id and the corrected post-save hook (see Findings, Doctor_model.js:15) files it into the department named by its `departmentName`; the invariant is kept |
| SlotGenerator.Next | APIs_Doctor_Patient_interaction/DOCTOR_MS/helper/slot_generator.js:16-20 | one step is strictly later; from a minute below 60 it is 30 minutes later when the minute is below 30, and the next full hour otherwise |
| SlotGenerator.FormatDigits | APIs_Doctor_Patient_interaction/DOCTOR_MS/helper/slot_generator.js:9 | with two-digit fields the label is zero-padded hour, ':', zero-padded minute |
| SlotGenerator.ReadFormatRoundTrip | APIs_Doctor_Patient_interaction/DOCTOR_MS/helper/slot_generator.js:9 | reading a label back gives the clock it was made from, so distinct clocks get distinct labels |
| SlotGenerator.Render | APIs_Doctor_Patient_interaction/DOCTOR_MS/helper/slot_generator.js:10-14 | one slot per time, in order, each labelled by its time, open and with no patient |
| SlotGenerator.RenderStep | APIs_Doctor_Patient_interaction/DOCTOR_MS/helper/slot_generator.js:8-14 | a time before the end contributes its own slot, followed by the slots from the next time on |
| SlotGenerator.Generate30MinSlots | APIs_Doctor_Patient_interaction/DOCTOR_MS/helper/slot_generator.js:3-24 | the loop returns exactly the rendered slots of the times from start while before end |
| SlotGenerator.SlotTimesEmptyIff | APIs_Doctor_Patient_interaction/DOCTOR_MS/helper/slot_generator.js:8-9 | no slots exactly when start is not before end; otherwise the first time is start |
| SlotGenerator.SlotTimesOrdered | APIs_Doctor_Patient_interaction/DOCTOR_MS/helper/slot_generator.js:8-20 | every time is before end, none is before start, and the times strictly increase |
| SlotGenerator.AlignedSlotCount | APIs_Doctor_Patient_interaction/DOCTOR_MS/helper/slot_generator.js:8-20 | from a start on the hour or half hour, the count is the number of started half hours before end (zero when end is not later) |
| SlotGenerator.DefaultTimes | APIs_Doctor_Patient_interaction/DOCTOR_MS/helper/slot_generator.js:3-24 | the default bounds visit 10:00, 10:30, …, 15:30 |
| SlotGenerator.DefaultLabels | APIs_Doctor_Patient_interaction/DOCTOR_MS/helper/slot_generator.js:9 | the twelve default times are labelled "10:00" … "15:30" |
| SlotGenerator.DefaultSlots | APIs_Doctor_Patient_interaction/DOCTOR_MS/helper/slot_generator.js:3-24 | the default slots are exactly "10:00", "10:30", …, "15:30", all open with no patient |
| SlotGenerator.MinuteOverflowResets | APIs_Doctor_Patient_interaction/DOCTOR_MS/helper/slot_generator.js:16-20 | from 10:45 to 12:00 the slots are "10:45", "11:00", "11:30": the overflow resets to :00 |
| SlotGenerator.DefaultSlotCount | APIs_Doctor_Patient_interaction/DOCTOR_MS/helper/slot_generator.js:3-24 | there are twelve default slots |
| SlotGenerator.ErrorMessage | APIs_Doctor_Patient_interaction/DOCTOR_MS/helper/slot_generator.js:30 | the "already exists" message is thrown exactly for a duplicate record, so the check-in route can tell the two failures apart |
| SlotGenerator.NewAvailabilityKeepsValid | APIs_Doctor_Patient_interaction/DOCTOR_MS/helper/slot_generator.js:33-39 | appending the new record for a free key keeps keys unique, schemas valid and slots consistent, with all its 13 ids below the advanced counter |
| SlotGenerator.CreateDoctorAvailabilitySlots | APIs_Doctor_Patient_interaction/DOCTOR_MS/helper/slot_generator.js:27-41 | a taken key fails with "already exists" and stores nothing; an empty date fails validation and stores nothing; otherwise exactly one record with the default slots is appended and returned |
| BookAppointment.FirstOpenSlot | APIs_Doctor_Patient_interaction/DOCTOR_MS/routes/book_appointment.js:151 | the slot chosen has the requested time and is open, no earlier slot is both, and there is none exactly when no slot is both |
| BookAppointment.FindSlotById | APIs_Doctor_Patient_interaction/DOCTOR_MS/routes/book_appointment.js:236 | the slot found has the cast id; none exactly when the text does not cast or no slot has that id |
| BookAppointment.AppointmentsOf | APIs_Doctor_Patient_interaction/DOCTOR_MS/routes/book_appointment.js:306 | exactly the logged appointments of that patient, each as often as logged |
| BookAppointment.ReplaceSlotKeepsValid | APIs_Doctor_Patient_interaction/DOCTOR_MS/routes/book_appointment.js:168-171 | replacing one slot by one with the same id and time, and a flag and patient in step, keeps the store invariants |
| BookAppointment.GetAvailability | APIs_Doctor_Patient_interaction/DOCTOR_MS/routes/book_appointment.js:62-77 | 500 on a bad id, 404 when no record has the key, otherwise 200 with that record; read only |
| BookAppointment.Book | APIs_Doctor_Patient_interaction/DOCTOR_MS/routes/book_appointment.js:140-178 | 500 on a bad id, 404 with no record, 400 with no open slot of that time (all changing nothing); otherwise the appointment is logged under a fresh id, exactly the first open slot of that time is booked for the given patientId (none when the body has none), nothing else changes, and 201 returns the appointment |
| BookAppointment.Cancel | APIs_Doctor_Patient_interaction/DOCTOR_MS/routes/book_appointment.js:226-253 | 500 on a bad doctor id, 404 with no record, 404 with no slot of that id (all changing nothing); otherwise exactly that slot is reopened with no patient; the appointment log never changes |
| BookAppointment.MyAppointments | APIs_Doctor_Patient_interaction/DOCTOR_MS/routes/book_appointment.js:302-316 | 404 when the patient has no appointment, otherwise 200 with exactly that patient's appointments |
| BookAppointment.RebookSameTime | APIs_Doctor_Patient_interaction/DOCTOR_MS/routes/book_appointment.js:151-155 | after a booking, the same time finds no open slot exactly when every other slot with that time is booked |
| BookAppointment.BookingWithoutPatientTakesSlot | APIs_Doctor_Patient_interaction/DOCTOR_MS/routes/book_appointment.js:141-169 | a request without patientId books the first open slot of that time for nobody, and later bookings of that time pass it over |
| BookAppointment.BookThenCancelRestores | APIs_Doctor_Patient_interaction/DOCTOR_MS/routes/book_appointment.js:243-246 | open, booked, then cancelled gives back the original slots |
| BookAppointment.CancelOpenSlotIsNoOp | APIs_Doctor_Patient_interaction/DOCTOR_MS/routes/book_appointment.js:243-246 | cancelling an open slot leaves the slots unchanged |
| BookAppointment.CancelReopens | APIs_Doctor_Patient_interaction/DOCTOR_MS/routes/book_appointment.js:243-246 | after a cancellation, a booking for that time succeeds at that slot or at an earlier open slot with the same time |
| BookAppointment.BookAsWritten | APIs_Doctor_Patient_interaction/DOCTOR_MS/routes/book_appointment.js:158-171 | the booking save as written: keys of existing records are unchanged, and the one record it may add is an empty record under the booked doctor and date |
| BookAppointment.BookAsWrittenDuplicatesRecord | APIs_Doctor_Patient_interaction/DOCTOR_MS/routes/book_appointment.js:158-165 | as written, a successful booking appends an availability record with no slots under the same doctor and date, so two records share a key |
| BookingScenario.OnlyFirstDefaultSlotAtTen | APIs_Doctor_Patient_interaction/DOCTOR_MS/helper/slot_generator.js:3-24 | of the twelve default slots only the first is labelled "10:00", and it is open |
| BookingScenario.NewRecordOpensAtTen | APIs_Doctor_Patient_interaction/DOCTOR_MS/helper/slot_generator.js:33-37 | a new record's first slot is the open 10:00 slot with the first slot id, and no other slot has that time |
| BookingScenario.FindsAppended | APIs_Doctor_Patient_interaction/DOCTOR_MS/routes/book_appointment.js:145 | a record saved under a free key is the one the booking lookup finds |
| BookingScenario.FindsAfterWriteBack | APIs_Doctor_Patient_interaction/DOCTOR_MS/routes/book_appointment.js:171 | writing a record back with new slots does not change which record the lookup finds |
| BookingScenario.BookFirstSlot | APIs_Doctor_Patient_interaction/DOCTOR_MS/routes/book_appointment.js:140-178 | booking 10:00 on a record whose first slot is the open 10:00 slot returns 201 with the appointment and books that slot |
| BookingScenario.RefuseCancelRebook | APIs_Doctor_Patient_interaction/DOCTOR_MS/routes/book_appointment.js:140-253 | once the only 10:00 slot is booked, a second booking gets 400 "Slot not available", cancelling it by its id gets 200, and 10:00 can then be booked for another patient |
| BookingScenario.CheckInBookCancelRebook | APIs_Doctor_Patient_interaction/DOCTOR_MS/routes/book_appointment.js:140-253 | end to end: check-in returns 201 with twelve slots, 10:00 is booked for p1, refused for a second booking, cancelled, then booked for p2 |
| CreateDoctor.HookThenAddToSet | APIs_Doctor_Patient_interaction/DOCTOR_MS/routes/create_doctor.js:56-61 | the hook and the route's own `$addToSet` hit the same department, so the id is added once |
| CreateDoctor.AddFreshDoctorAt | APIs_Doctor_Patient_interaction/DOCTOR_MS/routes/create_doctor.js:59-61 | a fresh id ends up appended to that department's list, and in no other department |
| CreateDoctor.Register | APIs_Doctor_Patient_interaction/DOCTOR_MS/routes/create_doctor.js:35-68 | 404 with no such department, then 400 when name and specialization are taken (both storing nothing); otherwise one doctor is stored under a fresh id, the found department alone gains its id (hook and `$addToSet` together, see `HookThenAddToSet` and `AddFreshDoctorAt`), and 201 returns it |
| CreateDoctor.GetAll | APIs_Doctor_Patient_interaction/DOCTOR_MS/routes/create_doctor.js:105-115 | 200 with every stored doctor and no other |
| CreateDoctor.GetById | APIs_Doctor_Patient_interaction/DOCTOR_MS/routes/create_doctor.js:158-171 | 500 on a bad id, 404 when unknown, otherwise 200 with that doctor |
| CreateDoctor.CheckIn | APIs_Doctor_Patient_interaction/DOCTOR_MS/routes/create_doctor.js:217-242 | 500 on a bad id, 404 for an unknown doctor, 400 with the "already exists" message for a taken key, 500 for an empty date (all storing nothing); otherwise 201 with the new record, which is appended |
| CreateDepartment.Populate | APIs_Doctor_Patient_interaction/DOCTOR_MS/routes/create_department.js:121 | `populate`: no more doctors than ids, and each one returned is a stored doctor named in the list |
| CreateDepartment.PopulateResolvesInOrder | APIs_Doctor_Patient_interaction/DOCTOR_MS/routes/create_department.js:121 | `populate` maps the ids that name a stored doctor, in list order, each to a stored doctor with that id, and drops the others |
| CreateDepartment.PopulateKeepsEveryId | APIs_Doctor_Patient_interaction/DOCTOR_MS/routes/create_department.js:121 | when every id names a stored doctor, all are returned, in the order of the ids |
| CreateDepartment.PopulatedDepartmentIsComplete | APIs_Doctor_Patient_interaction/DOCTOR_MS/routes/create_department.js:121 | a department whose ids all name stored doctors is returned with its id, name and description, and one doctor per listed id, in order |
| CreateDepartment.RegistrationKeepsNamesUnique | APIs_Doctor_Patient_interaction/DOCTOR_MS/routes/create_department.js:56-59 | registering only free names keeps department names pairwise distinct |
| CreateDepartment.RegisterDepartment | APIs_Doctor_Patient_interaction/DOCTOR_MS/routes/create_department.js:51-72 | 400 for a taken name, 500 for a missing name or description (both storing nothing); otherwise one department is appended under a fresh id and returned with 201 |
| CreateDepartment.GetDepartmentDetails | APIs_Doctor_Patient_interaction/DOCTOR_MS/routes/create_department.js:119-128 | 200 with every department, in order; in a consistent store each comes back with one doctor per listed id, in order |
| CreateDepartment.GetDepartmentDetailsById | APIs_Doctor_Patient_interaction/DOCTOR_MS/routes/create_department.js:186-200 | 500 on a bad id, 404 when absent, otherwise 200 with that department and one doctor per listed id, in order |
| Auth.SecondField | APIs_Doctor_Patient_interaction/API_GATEWAY/middleware/auth.js:23 | `split(" ")[1]` is undefined exactly when there is no space; otherwise it is the text after the first space up to the next space or the end |
| Auth.BearerToken | APIs_Doctor_Patient_interaction/API_GATEWAY/middleware/auth.js:23 | the second field of "scheme token" is the token |
| Auth.Authenticate | APIs_Doctor_Patient_interaction/API_GATEWAY/middleware/auth.js:3-39 | bypass paths pass with headers untouched; no header gives 401; the request passes exactly when bypassed or its token verifies; with a header present, every refusal is 403 "Invalid token"; a verified request carries the claims and the serialized "user-data" header |
| Auth.BearerHeaderDecides | APIs_Doctor_Patient_interaction/API_GATEWAY/middleware/auth.js:15-34 | with "Bearer token", an accepted token passes on with its claims and a rejected one gets 403 "Invalid token" |
| Gateway.RewritePrefixInverse | APIs_Doctor_Patient_interaction/API_GATEWAY/app.js:107-109 | the anchored rewrite keeps the rest of the path, and rewriting back restores the original |
| Gateway.AuthFailover | APIs_Doctor_Patient_interaction/API_GATEWAY/app.js:97-133 | USER_MS with "/userauth" when the probe succeeded, APPOINTMENT_MS with "/api/backup/login" otherwise; the rest of the path is kept; the forwarded headers are exactly the incoming ones, so the authorization header is passed on exactly when present (Host rewrite not modelled, see Left out) |
| Gateway.RouteFor | APIs_Doctor_Patient_interaction/API_GATEWAY/app.js:136-162 | the route chosen is a table row whose mount matches, and there is none exactly when no mount matches |
| Gateway.Dispatch | APIs_Doctor_Patient_interaction/API_GATEWAY/app.js:97-162 | a request is unrouted exactly when no mount matches; a refusal is 401 or 403 and never on /auth; DOCTOR_MS is reached only after `authenticate` passes, USER_MS only through /auth or after `authenticate` passes |
| Gateway.AuthIsFailoverOnly | APIs_Doctor_Patient_interaction/API_GATEWAY/app.js:97-133 | any /auth request is forwarded without authentication, to the service the probe picks, with the rewritten path |
| Gateway.ConsultIsUngated | APIs_Doctor_Patient_interaction/API_GATEWAY/app.js:156-162 | /consult requests go to APPOINTMENT_MS unchanged, whatever their headers |
| Gateway.DoctorsIsGated | APIs_Doctor_Patient_interaction/API_GATEWAY/app.js:146-153 | /doctors requests reach DOCTOR_MS exactly when `authenticate` passes them on, with its headers; otherwise its refusal is the answer |
| Gateway.UsersIsGated | APIs_Doctor_Patient_interaction/API_GATEWAY/app.js:136-144 | /api/users requests reach USER_MS exactly when `authenticate` passes them on; otherwise its refusal is the answer |
| ConsultSchema.StatusText | APIs_Doctor_Patient_interaction/Backend/schema/consult.js:33-37 | every status is stored as one of the three enum texts, and "followup" is the default one |
| ConsultSchema.ParseStatus | APIs_Doctor_Patient_interaction/Backend/schema/consult.js:33-37 | a status text is accepted exactly when it is in the enum, and the accepted status is stored as that text |
| ConsultSchema.StatusRoundTrip | APIs_Doctor_Patient_interaction/Backend/schema/consult.js:33-37 | every status survives being stored as text and read back |
| ConsultSchema.ConsultCollection.Save | APIs_Doctor_Patient_interaction/Backend/schema/consult.js:4-38 | a status outside the enum or an empty suggestion string fails validation and stores nothing; otherwise one consult is appended under a fresh id; ids stay unique |
| AppointmentData.FindAppointmentRecord | APIs_Doctor_Patient_interaction/Backend/routes/appointmentData.js:140-151 | a found record has that doctor and date and holds a slot with that id; none exactly when no record does |
| AppointmentData.CheckConsult | APIs_Doctor_Patient_interaction/Backend/routes/appointmentData.js:127-161 | 400 when a required field is missing, then 500 when an id does not cast, then 404 for the patient, the doctor and the appointment in that order; otherwise the three resolved ids |
| AppointmentData.LookupErrorsInOrder | APIs_Doctor_Patient_interaction/Backend/routes/appointmentData.js:153-161 | "Patient not found" exactly when the patient is missing; a doctor error implies the patient exists; an appointment error implies the doctor exists |
| AppointmentData.CheckedInSlotIsFound | APIs_Doctor_Patient_interaction/Backend/routes/appointmentData.js:140-151 | each of the twelve slots a check-in creates is an appointment the consult lookup finds |
| AppointmentData.PostConsult | APIs_Doctor_Patient_interaction/Backend/routes/appointmentData.js:125-183 | every rejection is answered as decided and stores nothing; an invalid status or suggestion gives 500 and stores nothing; otherwise one consult with the three ids and the defaults ([] and "followup") is appended and returned with 201 |
| ConsultDetails.ConsultsWith | APIs_Doctor_Patient_interaction/Backend/routes/getConsultDetails.js:94-108 | 400 exactly when the id is missing, 500 exactly when it does not cast, otherwise 200 with exactly the consults with that key |
| ConsultDetails.PatientConsults | APIs_Doctor_Patient_interaction/Backend/routes/getConsultDetails.js:90-111 | /patient: 400, 500 or 200 as above and never 404; exactly that patient's consults, each as often as stored |
| ConsultDetails.DoctorConsults | APIs_Doctor_Patient_interaction/Backend/routes/getConsultDetails.js:199-219 | /doctor: the same, keyed on doctorId |
| ConsultDetails.SavedConsultIsListed | APIs_Doctor_Patient_interaction/Backend/routes/getConsultDetails.js:98-105 | a consult saved by /consult is listed last by both queries made with its patient's and its doctor's ids |
| ConsultDetails.NoConsultsIsEmptyList | APIs_Doctor_Patient_interaction/Backend/routes/getConsultDetails.js:101-105 | a patient with no consults gets 200 and an empty list, not 404 |

## Left out

- Concurrency. Requests are handled one after another. Two simultaneous bookings that both see a slot open (the read-modify-write in `book_appointment.js`) are not modelled, and no atomicity is claimed.
- Store and network failures. A failing database call, and the 500 it produces, are not modelled. The only 500s modelled are the deterministic ones: id cast errors and schema validation failures.
- Partial failure between the appointment save and the availability write-back in `/bookappointment`.
- Parsing of the "HH:MM" bounds (`split(":").map(Number)`). The generator is modelled on parsed clocks, and the route only ever passes the defaults.
- Twelve-character ObjectId strings and other non-hex inputs that Mongoose also accepts.
- Absent JSON body fields in DOCTOR_MS, other than `patientId`. The model takes these fields as strings. In the source an absent field is `undefined`, which Mongoose drops from a query filter, so the lookup ignores that field. Some consequences:
  - `/bookappointment` without `date` books in the doctor's first record, whatever its date.
  - `/registerdepartment` without `name` answers 400 once any department exists.
  - `/register` without `departmentName` passes the department lookup and fails on save with 500.
  - `/register` without `name` answers 400 when any doctor has that specialization.
  - `/checkin` without `doctorId` answers 404.
- JSON values of the wrong type (a number where a string is expected, a non-array `suggestions`).
- `createdAt: Date.now` on consults (a clock).
- The fixed `message` field of the /consult and /patient replies. The model returns the consult or the list itself.
- Login and registration in USER_MS and the Backend's backup login. These are built on bcrypt and JWT signing, which are foreign calls.
- Gateway middleware configuration: cors, helmet, compression, logging, rate limiting, metrics, and the "/" and "/api-docs" routes.
- Gateway.AuthFailover and Gateway.Dispatch forward the incoming headers as received. The Host rewrite that `changeOrigin: true` makes on every proxy (API_GATEWAY/app.js:106, 122, 140, 150, 159) and the proxy's own hop-by-hop and forwarding headers are not modelled.
- HTTP methods, and Express's case-insensitive mount matching. Mounts are matched case-sensitively.
- The health probe, JWT verification and `JSON.stringify` of the claims are inputs: a boolean, a verify oracle and a serialize function. The failover choice is recomputed for each request, so no health state is kept.
- Auth.Authenticate: the 503 branch of `auth.js` is not modelled. With string headers and a callback-style `jwt.verify` nothing in the `try` block throws.
- Hook failures inside the doctor post-save hook, which are logged and swallowed. The modelled hook cannot fail.
- `populate` options other than the plain path (field selection, match conditions) are not used by the source and are not modelled.
- The Backend reads the USER_MS patients and the DOCTOR_MS doctors and availability records. These are passed to the /consult handler as read-only values.
- Bootstrap and wiring (the services' `app.js`/`backend.js`, connection configs, the database initializer), Swagger comments, `profileRoute.js` and `getHistory.js`.

## Findings

| source | as written | input that shows it | evidently intended | confidence | as-written member | corrected member |
|---|---|---|---|---|---|---|
| APIs_Doctor_Patient_interaction/DOCTOR_MS/routes/book_appointment.js:2-3 | `Appointment` and `DoctorAvailability` both import the availability model. The booking's "appointment" is saved as a second availability record with no slots, dropping the time and patient, under the same doctor and date. | any successful booking, e.g. 10:00 on a freshly checked-in date | a separate appointment log holding doctorId, date, time and patient; availability keys stay unique. The read side shares the bug: `/myappointments` (line 306) queries the availability model on a `patient` path its schema lacks, so it never lists a booking. `MyAppointments` models the intended log | not executed | BookAppointment.BookAsWrittenDuplicatesRecord | BookAppointment.Book |
| APIs_Doctor_Patient_interaction/DOCTOR_MS/models/Doctor_model.js:15 | the post-save hook looks up the department by the doctor's `name` | departments "Cardiology" and "Neurology"; a doctor named "Cardiology" with departmentName "Neurology" | look up by `departmentName`, as the hook's own comment says | not executed | DoctorModel.HookAsWrittenFilesByDoctorName | DoctorModel.PostSaveHook |
