/**
 * Bookings: `GET /appointments/all` lists the caller's own bookings, and
 * `POST /appointments/create` books a doctor at a date for the calling patient
 * after checking the date, the doctor's weekly availability and that the slot
 * is still free.
 */
module Appointments {
  import opened Js
  import opened Types
  import opened Calendar
  import opened Tokens
  import opened Store
  import opened Utils

  /** A booking concerns the caller: doctors are matched on `doctorUserId`, everybody else on `patientUserId`. */
  predicate Involves(a: Appointment, identity: Claims)
  {
    if identity.role == DOCTOR then a.doctorUserId == identity.userId else a.patientUserId == identity.userId
  }

  /**
   * `GET /appointments/all`, which changes nothing. The caller must pass
   * `validateAuthentication`; the reply lists exactly the stored bookings that
   * concern the verified identity (each as often as it is stored), or is 404
   * APPOINTMENTS_NOT_FOUND when there is none.
   */
  function ListAppointments(header: Option<string>, jwt: Jwt, appointments: seq<Appointment>): (r: Reply)
    ensures ValidateAuthentication(header, jwt).Fail? ==> r == ErrorReply(ValidateAuthentication(header, jwt).error)
    ensures ValidateAuthentication(header, jwt).Pass? ==>
      var c := ValidateAuthentication(header, jwt).value;
      && (r.httpStatus == 200 <==> exists i :: 0 <= i < |appointments| && Involves(appointments[i], c))
      && (r.httpStatus == 200 ==>
            && r.body.status == 200 && r.body.message.AppointmentDocs?
            && forall a :: multiset(r.body.message.appointments)[a] == if Involves(a, c) then multiset(appointments)[a] else 0)
      && (r.httpStatus != 200 ==> r == ErrorReply(Error(404, APPOINTMENTS_NOT_FOUND)))
    ensures r.httpStatus in {200, 401, 403, 404}
  {
    match ValidateAuthentication(header, jwt)
    case Fail(e) => ErrorReply(e)
    case Pass(c) =>
      var mine := Filter(appointments, (a: Appointment) => Involves(a, c));
      if mine == [] then
        assert forall i :: 0 <= i < |appointments| ==> !Involves(appointments[i], c) by {
          forall i | 0 <= i < |appointments| ensures !Involves(appointments[i], c) {
            assert appointments[i] in appointments;
          }
        }
        ErrorReply(Error(404, APPOINTMENTS_NOT_FOUND))
      else
        assert mine[0] in appointments;
        Reply(200, GenerateResponse(Some(200), Some(AppointmentDocs(mine))))
  }

  // ---------------------------------------------------------------------------
  // POST /appointments/create

  /** The JSON body of a booking request. */
  datatype BookingBody = BookingBody(doctorUserId: Option<string>, date: Option<string>)

  /** `new Date(value)`: the empty string is an invalid date, any other string goes to the date parser. */
  function ParseDate(parse: string -> Option<Date>, s: string): (r: Option<Date>)
    ensures s == "" ==> r.None?
  {
    if s == "" then None else parse(s)
  }

  /** The custom date validator rejects the date: it parses and lies strictly before `now`. */
  predicate InPast(date: Option<string>, now: Date, parse: string -> Option<Date>)
  {
    date.Some? && ParseDate(parse, date.value).Some? && Earlier(ParseDate(parse, date.value).value, now)
  }

  /** Every check of the booking chain passes. */
  predicate BookingValid(body: BookingBody, now: Date, parse: string -> Option<Date>)
  {
    Present(body.date) && !InPast(body.date, now, parse) && Present(body.doctorUserId)
  }

  /**
   * The validation chain of `/create`, every validator run, in order: `date` not
   * empty; `date` not in the past (an unparsable date is accepted here);
   * `doctorUserId` not empty.
   */
  function BookingErrors(body: BookingBody, now: Date, parse: string -> Option<Date>): (errs: seq<FieldError>)
    ensures errs == [] <==> BookingValid(body, now, parse)
    ensures !Present(body.date) ==> FieldError("date", INVALID_VALUE) in errs
    ensures InPast(body.date, now, parse) ==> FieldError("date", INVALID_DATE) in errs
    ensures !Present(body.doctorUserId) ==> FieldError("doctorUserId", INVALID_VALUE) in errs
    ensures forall e :: e in errs ==> e.path in {"date", "doctorUserId"}
  {
    Check(Present(body.date), "date", INVALID_VALUE)
    + Check(!InPast(body.date, now, parse), "date", INVALID_DATE)
    + Check(Present(body.doctorUserId), "doctorUserId", INVALID_VALUE)
  }

  /**
   * The doctor's template offers the requested moment: some entry names the
   * weekday of the date and lists its hour. An unparsable date has the weekday
   * "Invalid Date" and a `NaN` hour, which no entry lists.
   */
  function Available(doctor: Doctor, parsed: Option<Date>): (r: bool)
    ensures r <==> parsed.Some? && exists i ::
                     && 0 <= i < |doctor.availability|
                     && doctor.availability[i].day == WeekdayName(parsed.value)
                     && parsed.value.hour in doctor.availability[i].hours
  {
    var day, hour := DayName(parsed), Hour(parsed);
    var entries := Filter(doctor.availability, (e: DayAvailability) => e.day == day && hour.Some? && hour.value in e.hours);
    if entries != [] then
      assert entries[0] in doctor.availability;
      true
    else
      assert forall i :: 0 <= i < |doctor.availability| ==>
        !(doctor.availability[i].day == day && hour.Some? && hour.value in doctor.availability[i].hours) by {
        forall i | 0 <= i < |doctor.availability|
          ensures !(doctor.availability[i].day == day && hour.Some? && hour.value in doctor.availability[i].hours)
        {
          assert doctor.availability[i] in doctor.availability;
        }
      }
      false
  }

  /** The doctor `/create` books: the first one stored with the requested `userId`. */
  function DoctorFor(doctors: seq<Doctor>, userId: string): (r: Option<Doctor>)
    ensures r.None? <==> forall i :: 0 <= i < |doctors| ==> doctors[i].userId != userId
    ensures r.Some? ==> r.value in doctors && r.value.userId == userId
  {
    First(doctors, (d: Doctor) => d.userId == userId)
  }

  /** The booking `/create` stores for a patient and a doctor. */
  function NewAppointment(patient: Claims, doctor: Doctor, doctorUserId: string, date: string, id: string, createdAt: string): Appointment
  {
    Appointment("APPOINTMENT_" + id, doctorUserId, patient.userId, date, patient.fullName, Some(patient.email),
                doctor.name, Some(doctor.email), Upcoming, createdAt)
  }

  /**
   * The decision of `POST /appointments/create`, in the order the source takes
   * it: authentication, the patient gate, the validation chain (400 with the
   * list), the doctor (404 DOCTOR_NOT_FOUND), the doctor's template (400
   * DOCTOR_NOT_AVAILABLE), an existing booking of that doctor at exactly the
   * same date string (400 APPOINTMENT_ALREADY_TAKEN); otherwise the new booking.
   */
  function Book(header: Option<string>, body: BookingBody, jwt: Jwt, users: seq<User>, doctors: seq<Doctor>,
                appointments: seq<Appointment>, now: Date, parse: string -> Option<Date>, id: string, createdAt: string)
    : (r: Outcome<Appointment>)
    ensures ValidateAuthentication(header, jwt).Fail? ==> r == Fail(ValidateAuthentication(header, jwt).error)
    ensures ValidateAuthentication(header, jwt).Pass? && ValidatePatient(header, jwt, users).Fail? ==>
      r == Fail(ValidatePatient(header, jwt, users).error)
    ensures ValidateAuthentication(header, jwt).Pass? && ValidatePatient(header, jwt, users).Pass? && !BookingValid(body, now, parse) ==>
      r == Fail(GenerateResponse(Some(400), Some(FieldErrors(BookingErrors(body, now, parse)))))
    ensures ValidateAuthentication(header, jwt).Pass? && ValidatePatient(header, jwt, users).Pass? && BookingValid(body, now, parse) ==>
      var doctor := DoctorFor(doctors, body.doctorUserId.value);
      && (doctor.None? ==> r == Fail(Error(404, DOCTOR_NOT_FOUND)))
      && (doctor.Some? && !Available(doctor.value, ParseDate(parse, body.date.value)) ==>
            r == Fail(Error(400, DOCTOR_NOT_AVAILABLE)))
      && (doctor.Some? && Available(doctor.value, ParseDate(parse, body.date.value))
          && Taken(appointments, body.doctorUserId.value, body.date.value) ==>
            r == Fail(Error(400, APPOINTMENT_ALREADY_TAKEN)))
    ensures InPast(body.date, now, parse) ==> r.Fail?
    ensures r.Pass? <==>
      && ValidateAuthentication(header, jwt).Pass?
      && ValidatePatient(header, jwt, users).Pass?
      && BookingValid(body, now, parse)
      && DoctorFor(doctors, body.doctorUserId.value).Some?
      && Available(DoctorFor(doctors, body.doctorUserId.value).value, ParseDate(parse, body.date.value))
      && !Taken(appointments, body.doctorUserId.value, body.date.value)
    ensures r.Pass? ==>
      var patient := ValidatePatient(header, jwt, users).value;
      var doctor := DoctorFor(doctors, body.doctorUserId.value).value;
      && r.value == NewAppointment(patient, doctor, body.doctorUserId.value, body.date.value, id, createdAt)
      && r.value.appointmentId[..12] == "APPOINTMENT_"
      && r.value.status == Upcoming
      && r.value.patientUserId == patient.userId && HasUserWithId(users, patient.userId)
      && r.value.doctorUserId == doctor.userId && doctor in doctors
      && ParseDate(parse, r.value.date).Some? && !Earlier(ParseDate(parse, r.value.date).value, now)
      && !Taken(appointments, r.value.doctorUserId, r.value.date)
    ensures r.Fail? ==> r.error.status in {400, 401, 403, 404, 500}
  {
    match ValidateAuthentication(header, jwt)
    case Fail(e) => Fail(e)
    case Pass(_) =>
      match ValidatePatient(header, jwt, users)
      case Fail(e) => Fail(e)
      case Pass(patient) =>
        var errors := BookingErrors(body, now, parse);
        if errors != [] then Fail(GenerateResponse(Some(400), Some(FieldErrors(errors))))
        else
          var doctorUserId, date := body.doctorUserId.value, body.date.value;
          match DoctorFor(doctors, doctorUserId)
          case None => Fail(Error(404, DOCTOR_NOT_FOUND))
          case Some(doctor) =>
            if !Available(doctor, ParseDate(parse, date)) then Fail(Error(400, DOCTOR_NOT_AVAILABLE))
            else if Taken(appointments, doctorUserId, date) then Fail(Error(400, APPOINTMENT_ALREADY_TAKEN))
            else
              var a := NewAppointment(patient, doctor, doctorUserId, date, id, createdAt);
              assert a.appointmentId[..12] == "APPOINTMENT_";
              Pass(a)
  }

  /**
   * `POST /appointments/create` on the store: a refused booking stores nothing
   * and sends the error; an accepted one is appended and sent back with HTTP
   * status 200 and envelope status 201. No two bookings of a doctor share a
   * date string, if none did before.
   */
  method CreateAppointment(db: Database, header: Option<string>, body: BookingBody, jwt: Jwt, now: Date,
                           parse: string -> Option<Date>, id: string, createdAt: string)
    returns (reply: Reply)
    modifies db
    ensures var o := Book(header, body, jwt, old(db.users), old(db.doctors), old(db.appointments), now, parse, id, createdAt);
      && (o.Fail? ==> reply == ErrorReply(o.error) && db.appointments == old(db.appointments))
      && (o.Pass? ==> && db.appointments == old(db.appointments) + [o.value]
                      && reply == Reply(200, GenerateResponse(Some(201), Some(AppointmentDoc(o.value)))))
    ensures db.users == old(db.users) && db.doctors == old(db.doctors)
    ensures SlotsUnique(old(db.appointments)) ==> SlotsUnique(db.appointments)
  {
    var outcome := Book(header, body, jwt, db.users, db.doctors, db.appointments, now, parse, id, createdAt);
    match outcome
    case Fail(e) =>
      reply := ErrorReply(e);
    case Pass(a) =>
      if SlotsUnique(db.appointments) {
        AppendFreeSlot(db.appointments, a);
      }
      db.AddAppointment(a);
      reply := Reply(200, GenerateResponse(Some(201), Some(AppointmentDoc(a))));
  }

  /**
   * Once a booking is stored, the same doctor and date string can be booked by
   * nobody; a caller who passes authentication and the patient gate is told
   * APPOINTMENT_ALREADY_TAKEN.
   */
  lemma RebookingRefused(header: Option<string>, other: Option<string>, body: BookingBody, jwt: Jwt, users: seq<User>,
                         doctors: seq<Doctor>, appointments: seq<Appointment>, now: Date, parse: string -> Option<Date>,
                         id: string, id2: string, createdAt: string, createdAt2: string)
    requires Book(header, body, jwt, users, doctors, appointments, now, parse, id, createdAt).Pass?
    ensures var a := Book(header, body, jwt, users, doctors, appointments, now, parse, id, createdAt).value;
      Book(other, body, jwt, users, doctors, appointments + [a], now, parse, id2, createdAt2).Fail?
    ensures var a := Book(header, body, jwt, users, doctors, appointments, now, parse, id, createdAt).value;
      ValidateAuthentication(other, jwt).Pass? && ValidatePatient(other, jwt, users).Pass? ==>
        Book(other, body, jwt, users, doctors, appointments + [a], now, parse, id2, createdAt2)
          == Fail(Error(400, APPOINTMENT_ALREADY_TAKEN))
  {
    var a := Book(header, body, jwt, users, doctors, appointments, now, parse, id, createdAt).value;
    var all := appointments + [a];
    assert all[|appointments|] == a;
    assert Taken(all, body.doctorUserId.value, body.date.value);
  }

  /**
   * A booking made with a token the server issued shows up in the listing of
   * the patient who made it, and in the listing of the booked doctor.
   */
  lemma BookingIsListed(jwt: Jwt, patient: Claims, doctor: Claims, body: BookingBody, users: seq<User>,
                        doctors: seq<Doctor>, appointments: seq<Appointment>, now: Date,
                        parse: string -> Option<Date>, id: string, createdAt: string)
    requires JwtSound(jwt)
    requires ' ' !in jwt.sign(patient) && ' ' !in jwt.sign(doctor)
    requires doctor.role == DOCTOR
    requires Book(Some("Bearer " + jwt.sign(patient)), body, jwt, users, doctors, appointments, now, parse, id, createdAt).Pass?
    requires doctor.userId == body.doctorUserId.value
    ensures var a := Book(Some("Bearer " + jwt.sign(patient)), body, jwt, users, doctors, appointments, now, parse, id, createdAt).value;
      && ListAppointments(Some("Bearer " + jwt.sign(patient)), jwt, appointments + [a]).httpStatus == 200
      && a in ListAppointments(Some("Bearer " + jwt.sign(patient)), jwt, appointments + [a]).body.message.appointments
      && ListAppointments(Some("Bearer " + jwt.sign(doctor)), jwt, appointments + [a]).httpStatus == 200
      && a in ListAppointments(Some("Bearer " + jwt.sign(doctor)), jwt, appointments + [a]).body.message.appointments
  {
    var header := Some("Bearer " + jwt.sign(patient));
    var a := Book(header, body, jwt, users, doctors, appointments, now, parse, id, createdAt).value;
    var all := appointments + [a];
    SignedTokenAuthenticates(jwt, patient);
    SignedTokenAuthenticates(jwt, doctor);
    assert ValidatePatient(header, jwt, users).value == patient;
    assert all[|appointments|] == a;
    assert Involves(a, patient) && Involves(a, doctor);
    assert multiset(all)[a] > 0;
  }
}
