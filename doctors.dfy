/**
 * The doctor directory: `GET /doctors/all` lists every stored doctor to an
 * authenticated patient.
 */
module Doctors {
  import opened Js
  import opened Types
  import opened Tokens
  import opened Store
  import opened Utils

  /**
   * `GET /doctors/all`, which changes nothing. The request must pass
   * `validateAuthentication` and then `validatePatient`; an empty collection
   * answers 404 DOCTOR_NOT_FOUND; otherwise 200 with every doctor, in store order.
   */
  function ListDoctors(header: Option<string>, jwt: Jwt, users: seq<User>, doctors: seq<Doctor>): (r: Reply)
    ensures ValidateAuthentication(header, jwt).Fail? ==> r == ErrorReply(ValidateAuthentication(header, jwt).error)
    ensures ValidateAuthentication(header, jwt).Pass? && ValidatePatient(header, jwt, users).Fail? ==>
      r == ErrorReply(ValidatePatient(header, jwt, users).error)
    ensures r.httpStatus == 200 <==>
      ValidateAuthentication(header, jwt).Pass? && ValidatePatient(header, jwt, users).Pass? && doctors != []
    ensures r.httpStatus == 200 ==> r.body == Envelope(200, DoctorDocs(doctors))
    ensures ValidateAuthentication(header, jwt).Pass? && ValidatePatient(header, jwt, users).Pass? && doctors == [] ==>
      r == ErrorReply(Error(404, DOCTOR_NOT_FOUND))
    ensures r.httpStatus in {200, 401, 403, 404, 500}
  {
    match ValidateAuthentication(header, jwt)
    case Fail(e) => ErrorReply(e)
    case Pass(_) =>
      match ValidatePatient(header, jwt, users)
      case Fail(e) => ErrorReply(e)
      case Pass(_) =>
        if doctors == [] then ErrorReply(Error(404, DOCTOR_NOT_FOUND))
        else Reply(200, GenerateResponse(Some(200), Some(DoctorDocs(doctors))))
  }

  /**
   * A patient who signed in with a token the server issued, and whose account
   * is stored, sees the whole directory as soon as it holds a doctor.
   */
  lemma SignedInPatientSeesDirectory(jwt: Jwt, c: Claims, users: seq<User>, doctors: seq<Doctor>)
    requires JwtSound(jwt)
    requires ' ' !in jwt.sign(c)
    requires c.role == PATIENT && HasUserWithId(users, c.userId)
    requires doctors != []
    ensures ListDoctors(Some("Bearer " + jwt.sign(c)), jwt, users, doctors) == Reply(200, Envelope(200, DoctorDocs(doctors)))
  {
    SignedTokenAuthenticates(jwt, c);
  }
}
