/**
 * The backend's constants: roles, appointment statuses, the weekday names, the
 * hours a doctor can offer, the lists the fixture generator draws from, and the
 * client-visible messages.
 */
module Types {

  const PATIENT: string := "PATIENT"
  const DOCTOR: string := "DOCTOR"

  /** The roles signup accepts, in the order its validator lists them. */
  const Roles: seq<string> := [PATIENT, DOCTOR]

  datatype Status = Upcoming | Completed | Canceled

  /** `Object.values(status)`, the statuses the fixture generator draws from. */
  const Statuses: seq<Status> := [Upcoming, Completed, Canceled]

  /** The weekdays of an availability template, Monday first. */
  const DaysOfWeek: seq<string> :=
    ["Monday", "Tuesday", "Wednesday", "Thursday", "Friday", "Saturday", "Sunday"]

  /** The hours of the day a doctor can offer. */
  const Hours: seq<int> := [9, 10, 11, 12, 13, 14, 15, 16, 17, 18, 19]

  const Specializations: seq<string> := [
    "Cardiologist", "Dermatologist", "Neurologist", "Pediatrician", "General Practitioner",
    "Orthopedic Surgeon", "Radiologist", "Psychiatrist", "Endocrinologist", "Ophthalmologist"
  ]

  const Qualifications: seq<string> := [
    "MD (Doctor of Medicine)",
    "DO (Doctor of Osteopathic Medicine)",
    "MBBS (Bachelor of Medicine, Bachelor of Surgery)",
    "FACS (Fellow of the American College of Surgeons)",
    "FACP (Fellow of the American College of Physicians)",
    "FRCP (Fellow of the Royal College of Physicians)",
    "Board Certified in Internal Medicine",
    "Board Certified in Pediatrics",
    "Board Certified in Psychiatry",
    "Board Certified in Surgery"
  ]

  // Client-visible messages.
  const PASSWORD_NOT_MATCH: string := "Password does not match"
  const EMAIL_NOT_FOUND: string := "E-mail not found"
  const EMAIL_ALREADY_IN_USE: string := "E-mail already in use"
  const USER_NOT_FOUND: string := "User not found"
  const PATIENT_NOT_FOUND: string := "Patient not found"
  const DOCTOR_NOT_FOUND: string := "Doctor not found"
  const DOCTOR_NOT_AVAILABLE: string := "Doctor not available"
  const APPOINTMENTS_NOT_FOUND: string := "No appointments found"
  const APPOINTMENT_ALREADY_TAKEN: string :=
    "Appointment already taken. Doctor not available on the selected date, try with another one"
  const INVALID_DATE: string := "Invalid date"
  const ROLE_VALIDATION_ERROR: string := "Role must be either PATIENT or DOCTOR"
  const PASSWORD_VALIDATION_ERROR: string :=
    "Password should be more stronger (use at least one uppercase character, one special symbol and one number)"

  /** The messages the middlewares and the framework produce themselves. */
  const UNAUTHORIZED: string := "Unauthorized"
  const TOKEN_EXPIRED: string := "Token expired"
  /** express-validator's default message for a failed built-in validator. */
  const INVALID_VALUE: string := "Invalid value"
  /** The TypeError raised when a property is read from the `null` that `jwt.decode` returns. */
  const NULL_ROLE_READ: string := "Cannot read properties of null (reading 'role')"
  /** The TypeError raised when `setHours` is called on `undefined`. */
  const UNDEFINED_SET_HOURS: string := "Cannot read properties of undefined (reading 'setHours')"
}
