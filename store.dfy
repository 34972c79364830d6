/**
 * The document store: the records of the collections `users`, `doctors` and
 * `appointments`, the equality queries the handlers run on them, and the store
 * itself as an object whose three collections grow by insertion only.
 */
module Store {
  import opened Js
  import opened Types

  /** An account; `password` holds the bcrypt hash, never the plaintext. */
  datatype User = User(email: string, password: string, role: string, userId: string, createdAt: string, fullName: string)

  /** One weekday of a doctor's weekly availability template. */
  datatype DayAvailability = DayAvailability(day: string, hours: seq<int>)

  datatype Review = Review(patient: string, date: string, rating: int, comment: string)

  datatype Doctor = Doctor(
    name: string,
    userId: string,
    email: string,
    avatar: string,
    specialty: string,
    experience: string,
    qualifications: seq<string>,
    reviews: seq<Review>,
    availability: seq<DayAvailability>)

  /**
   * A booking. `date` is the date string exactly as the client (or the fixture
   * generator) gave it; the fixture generator stores no e-mail addresses.
   */
  datatype Appointment = Appointment(
    appointmentId: string,
    doctorUserId: string,
    patientUserId: string,
    date: string,
    patientName: string,
    patientEmail: Option<string>,
    doctorName: string,
    doctorEmail: Option<string>,
    status: Status,
    createdAt: string)

  // ---------------------------------------------------------------------------
  // Queries: `collection.where(field, "==", value).get()` keeps store order.

  /** `r` is `s` with some elements left out, the others in their order in `s`. */
  ghost predicate Subsequence<T>(r: seq<T>, s: seq<T>)
    decreases |s|
  {
    |r| == 0 || (|s| > 0 && ((r[0] == s[0] && Subsequence(r[1..], s[1..])) || Subsequence(r, s[1..])))
  }

  /** The documents of `s` that satisfy `p`, in store order. */
  function Filter<T(!new)>(s: seq<T>, p: T -> bool): (r: seq<T>)
    ensures |r| <= |s|
    ensures Subsequence(r, s)
    ensures forall x :: x in r <==> x in s && p(x)
    ensures forall x :: multiset(r)[x] == if p(x) then multiset(s)[x] else 0
  {
    if s == [] then []
    else
      assert s == [s[0]] + s[1..];
      var rest := Filter(s[1..], p);
      if p(s[0]) then
        assert ([s[0]] + rest)[1..] == rest;
        [s[0]] + rest
      else rest
  }

  /**
   * A query over documents added in two batches lists the matches of the first
   * batch, then those of the second: results come in insertion order.
   */
  lemma {:induction false} FilterAppend<T(!new)>(s: seq<T>, t: seq<T>, p: T -> bool)
    ensures Filter(s + t, p) == Filter(s, p) + Filter(t, p)
    decreases |s|
  {
    if s != [] {
      var u := s + t;
      assert u[0] == s[0] && u[1..] == s[1..] + t;
      FilterAppend(s[1..], t, p);
      if p(s[0]) {
        assert Filter(u, p) == [s[0]] + Filter(u[1..], p);
        assert Filter(s, p) == [s[0]] + Filter(s[1..], p);
      } else {
        assert Filter(u, p) == Filter(u[1..], p);
        assert Filter(s, p) == Filter(s[1..], p);
      }
    } else {
      assert s + t == t;
    }
  }

  /** `snapshot.docs[0]`: the first document of `s` that satisfies `p`, if any. */
  function First<T>(s: seq<T>, p: T -> bool): (r: Option<T>)
    ensures r.None? <==> forall i :: 0 <= i < |s| ==> !p(s[i])
    ensures r.Some? ==> exists i :: 0 <= i < |s| && s[i] == r.value && p(s[i]) && forall j :: 0 <= j < i ==> !p(s[j])
  {
    if s == [] then None
    else if p(s[0]) then Some(s[0])
    else
      var r := First(s[1..], p);
      assert r.Some? ==> exists i :: 0 < i < |s| && s[i] == r.value && p(s[i]) && forall j :: 0 <= j < i ==> !p(s[j]) by {
        if r.Some? {
          var k :| 0 <= k < |s[1..]| && s[1..][k] == r.value && p(s[1..][k]) && forall j :: 0 <= j < k ==> !p(s[1..][j]);
          assert s[k + 1] == r.value && forall j :: 0 <= j < k + 1 ==> !p(s[j]);
        }
      }
      r
  }

  /** The first match is the head of the query's result. */
  lemma {:induction false} FirstIsHeadOfFilter<T(!new)>(s: seq<T>, p: T -> bool)
    ensures First(s, p) == if Filter(s, p) == [] then None else Some(Filter(s, p)[0])
  {
    if s != [] && !p(s[0]) {
      FirstIsHeadOfFilter(s[1..], p);
      assert Filter(s, p) == Filter(s[1..], p);
    }
  }

  predicate HasUserWithEmail(users: seq<User>, email: string)
  {
    exists i :: 0 <= i < |users| && users[i].email == email
  }

  predicate HasUserWithId(users: seq<User>, userId: string)
  {
    exists i :: 0 <= i < |users| && users[i].userId == userId
  }

  /** No two accounts share an e-mail address. */
  predicate EmailsUnique(users: seq<User>)
  {
    forall i, j :: 0 <= i < j < |users| ==> users[i].email != users[j].email
  }

  /** `appointments` already holds a booking of doctor `doctorUserId` at exactly `date`. */
  predicate Taken(appointments: seq<Appointment>, doctorUserId: string, date: string)
  {
    exists i :: 0 <= i < |appointments| && appointments[i].doctorUserId == doctorUserId && appointments[i].date == date
  }

  /** At most one booking per doctor and date string. */
  predicate SlotsUnique(appointments: seq<Appointment>)
  {
    forall i, j :: 0 <= i < j < |appointments| ==>
      !(appointments[i].doctorUserId == appointments[j].doctorUserId && appointments[i].date == appointments[j].date)
  }

  /** Appending a booking whose (doctor, date) pair is free keeps the pairs unique. */
  lemma AppendFreeSlot(appointments: seq<Appointment>, a: Appointment)
    requires SlotsUnique(appointments)
    requires !Taken(appointments, a.doctorUserId, a.date)
    ensures SlotsUnique(appointments + [a])
  {
    var s := appointments + [a];
    forall i, j | 0 <= i < j < |s|
      ensures !(s[i].doctorUserId == s[j].doctorUserId && s[i].date == s[j].date)
    {
      if j == |appointments| {
        assert s[i] == appointments[i];
      }
    }
  }

  // ---------------------------------------------------------------------------

  /** The store. Handlers only read the collections and append documents. */
  class Database {
    var users: seq<User>
    var doctors: seq<Doctor>
    var appointments: seq<Appointment>

    constructor (users: seq<User>, doctors: seq<Doctor>, appointments: seq<Appointment>)
      ensures this.users == users && this.doctors == doctors && this.appointments == appointments
    {
      this.users := users;
      this.doctors := doctors;
      this.appointments := appointments;
    }

    /** `db.collection("users").add(u)`. */
    method AddUser(u: User)
      modifies this
      ensures users == old(users) + [u]
      ensures doctors == old(doctors) && appointments == old(appointments)
    {
      users := users + [u];
    }

    /** `db.collection("doctors").add(d)`. */
    method AddDoctor(d: Doctor)
      modifies this
      ensures doctors == old(doctors) + [d]
      ensures users == old(users) && appointments == old(appointments)
    {
      doctors := doctors + [d];
    }

    /** `db.collection("appointments").add(a)`. */
    method AddAppointment(a: Appointment)
      modifies this
      ensures appointments == old(appointments) + [a]
      ensures users == old(users) && doctors == old(doctors)
    {
      appointments := appointments + [a];
    }
  }
}
