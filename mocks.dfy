/**
 * The fixture generator: `POST /mocks/add/doctor` creates a doctor with a random
 * profile and a random weekly availability template, and
 * `POST /mocks/add/appointments` creates up to five random bookings of a
 * patient with a doctor, on dates drawn from the doctor's template.
 *
 * Draws with a bounded range (counts, list elements, ratings, indices) are
 * nondeterministic choices: every statement below holds for every outcome of
 * the draws. Free-text draws (names, e-mail addresses, the avatar URL, review
 * texts, `nanoid()`) are supplied by the caller.
 */
module Mocks {
  import opened Js
  import opened Types
  import opened Calendar
  import opened Store
  import opened Utils
  import Auth

  /** The free-text draws of faker and nanoid. */
  datatype TextDraws = TextDraws(
    fullName: string,
    email: string,
    avatar: string,
    nanoid: nat -> string,
    firstName: nat -> string,
    pastDate: nat -> string,
    sentence: nat -> string)

  // ---------------------------------------------------------------------------
  // POST /mocks/add/doctor: validation

  datatype DoctorBody = DoctorBody(email: Option<string>)

  predicate HasDoctorWithEmail(doctors: seq<Doctor>, email: string)
  {
    exists i :: 0 <= i < |doctors| && doctors[i].email == email
  }

  /** The account the e-mail validator finds: the first DOCTOR-role account with that e-mail. */
  function DoctorAccount(users: seq<User>, email: string): (r: Option<User>)
    ensures r.None? <==> forall i :: 0 <= i < |users| ==> !(users[i].email == email && users[i].role == DOCTOR)
    ensures r.Some? ==> r.value in users && r.value.email == email && r.value.role == DOCTOR
  {
    First(users, (u: User) => u.email == email && u.role == DOCTOR)
  }

  /**
   * The custom `email` validator: a missing or empty e-mail is accepted; one
   * already used by a doctor is refused with EMAIL_ALREADY_IN_USE; one no
   * DOCTOR-role account has is refused with DOCTOR_NOT_FOUND.
   */
  function AddDoctorErrors(body: DoctorBody, users: seq<User>, doctors: seq<Doctor>): (errs: seq<FieldError>)
    ensures errs == [] <==>
      || !Present(body.email)
      || (!HasDoctorWithEmail(doctors, body.email.value) && DoctorAccount(users, body.email.value).Some?)
    ensures Present(body.email) && HasDoctorWithEmail(doctors, body.email.value) ==>
      errs == [FieldError("email", EMAIL_ALREADY_IN_USE)]
    ensures Present(body.email) && !HasDoctorWithEmail(doctors, body.email.value) && DoctorAccount(users, body.email.value).None? ==>
      errs == [FieldError("email", DOCTOR_NOT_FOUND)]
  {
    if !Present(body.email) then []
    else
      var email := body.email.value;
      var known := First(doctors, (d: Doctor) => d.email == email);
      if known.Some? then
        assert HasDoctorWithEmail(doctors, email) by {
          var i :| 0 <= i < |doctors| && doctors[i] == known.value && doctors[i].email == email;
        }
        [FieldError("email", EMAIL_ALREADY_IN_USE)]
      else if DoctorAccount(users, email).None? then [FieldError("email", DOCTOR_NOT_FOUND)]
      else []
  }

  // ---------------------------------------------------------------------------
  // Availability template

  /** No value occurs twice. */
  predicate Distinct(s: seq<int>)
  {
    forall i, j :: 0 <= i < j < |s| ==> s[i] != s[j]
  }

  /** In the order of the default `Array.prototype.sort()`: by the string form of each number. */
  predicate TextSorted(s: seq<int>)
  {
    forall i, j :: 0 <= i < j < |s| ==> TextLess(IntToString(s[i]), IntToString(s[j]))
  }

  /** The hours of one template entry: 1 to 11 distinct offered hours, in string order. */
  predicate OfferedHours(hours: seq<int>)
  {
    && 1 <= |hours| <= |Hours|
    && Distinct(hours)
    && (forall h :: h in hours ==> h in Hours)
    && TextSorted(hours)
  }

  /** `hours` as `sort()` orders them: "10" < "11" < ... < "19" < "9". */
  const HoursInTextOrder: seq<int> := [10, 11, 12, 13, 14, 15, 16, 17, 18, 19, 9]

  /** The decimal form of an offered hour: "9", or "1" followed by the last digit. */
  lemma HourText(h: int)
    requires 9 <= h <= 19
    ensures IntToString(h) == if h == 9 then "9" else ['1', DigitChar(h - 10)]
  {
    if h >= 10 {
      assert NatToString(h) == NatToString(h / 10) + [DigitChar(h % 10)];
    }
  }

  /** Two offered hours in string order: "10" < ... < "19" < "9". */
  lemma HourTextsOrdered(a: int, b: int)
    requires 10 <= a <= 19 && (b == 9 || a < b <= 19)
    ensures TextLess(IntToString(a), IntToString(b))
  {
    HourText(a);
    HourText(b);
    var x, y := IntToString(a), IntToString(b);
    if b != 9 {
      assert x[1..] == [DigitChar(a - 10)] && y[1..] == [DigitChar(b - 10)];
      assert TextLess(x[1..], y[1..]);
    }
  }

  /** Position `i` of `HoursInTextOrder` holds 10 + i, and the last one 9. */
  lemma HoursInTextOrderAt(i: int)
    requires 0 <= i < |HoursInTextOrder|
    ensures HoursInTextOrder[i] == if i < 10 then 10 + i else 9
  {
  }

  /** The opening hours in `sort()` order are sorted by their text. */
  lemma HoursInTextOrderTextSorted()
    ensures TextSorted(HoursInTextOrder)
  {
    var order := HoursInTextOrder;
    forall i, j | 0 <= i < j < |order| ensures TextLess(IntToString(order[i]), IntToString(order[j])) {
      HoursInTextOrderAt(i);
      HoursInTextOrderAt(j);
      HourTextsOrdered(order[i], order[j]);
    }
  }

  lemma HoursInTextOrderDistinct()
    ensures Distinct(HoursInTextOrder)
  {
    forall i, j | 0 <= i < j < |HoursInTextOrder| ensures HoursInTextOrder[i] != HoursInTextOrder[j] {
      HoursInTextOrderAt(i);
      HoursInTextOrderAt(j);
    }
  }

  lemma HoursInTextOrderSameHours()
    ensures forall h :: h in Hours <==> h in HoursInTextOrder
  {
    forall h ensures h in Hours <==> 9 <= h <= 19 {
      if h in Hours {
        var k :| 0 <= k < |Hours| && Hours[k] == h;
      }
    }
    forall h | 9 <= h <= 19 ensures h in Hours && h in HoursInTextOrder {
      assert Hours[h - 9] == h;
      if h == 9 {
        assert HoursInTextOrder[10] == h;
      } else {
        assert HoursInTextOrder[h - 10] == h;
      }
    }
    forall h | h in HoursInTextOrder ensures 9 <= h <= 19 {
      var k :| 0 <= k < |HoursInTextOrder| && HoursInTextOrder[k] == h;
      HoursInTextOrderAt(k);
    }
  }

  /** The opening hours in `sort()` order: sorted by their text, distinct, and exactly the opening hours. */
  lemma HoursInTextOrderSorted()
    ensures TextSorted(HoursInTextOrder)
    ensures Distinct(HoursInTextOrder)
    ensures forall h :: h in Hours <==> h in HoursInTextOrder
  {
    HoursInTextOrderTextSorted();
    HoursInTextOrderDistinct();
    HoursInTextOrderSameHours();
  }

  /** A sequence of distinct values holds each of them exactly once. */
  lemma {:induction false} DistinctOccursOnce(s: seq<int>, x: int)
    requires Distinct(s)
    ensures multiset(s)[x] == if x in s then 1 else 0
  {
    if s != [] {
      assert s == [s[0]] + s[1..];
      assert Distinct(s[1..]) by {
        forall i, j | 0 <= i < j < |s[1..]| ensures s[1..][i] != s[1..][j] {
          assert s[1..][i] == s[i + 1] && s[1..][j] == s[j + 1];
        }
      }
      DistinctOccursOnce(s[1..], x);
      assert s[0] !in s[1..] by {
        forall k | 0 <= k < |s[1..]| ensures s[1..][k] != s[0] {
          assert s[1..][k] == s[k + 1];
        }
      }
    }
  }

  /** Keeping the elements of a sequence that satisfy `p` keeps any pairwise order between them. */
  lemma {:induction false} FilterKeepsOrder(s: seq<int>, p: int -> bool, less: (int, int) -> bool)
    requires forall i, j :: 0 <= i < j < |s| ==> less(s[i], s[j])
    ensures forall i, j :: 0 <= i < j < |Filter(s, p)| ==> less(Filter(s, p)[i], Filter(s, p)[j])
  {
    if s != [] {
      var tail := s[1..];
      assert forall i, j :: 0 <= i < j < |tail| ==> less(tail[i], tail[j]) by {
        forall i, j | 0 <= i < j < |tail| ensures less(tail[i], tail[j]) {
          assert tail[i] == s[i + 1] && tail[j] == s[j + 1];
        }
      }
      FilterKeepsOrder(tail, p, less);
      var rt := Filter(tail, p);
      if p(s[0]) {
        forall y | y in rt ensures less(s[0], y) {
          var k :| 0 <= k < |tail| && tail[k] == y;
          assert s[k + 1] == y;
        }
        OrderedCons(s[0], rt, less);
      }
    }
  }

  lemma OrderedCons(x: int, r: seq<int>, less: (int, int) -> bool)
    requires forall y :: y in r ==> less(x, y)
    requires forall i, j :: 0 <= i < j < |r| ==> less(r[i], r[j])
    ensures forall i, j :: 0 <= i < j < |[x] + r| ==> less(([x] + r)[i], ([x] + r)[j])
  {
    var t := [x] + r;
    forall i, j | 0 <= i < j < |t| ensures less(t[i], t[j]) {
      assert t[j] == r[j - 1];
      if i > 0 {
        assert t[i] == r[i - 1];
      } else {
        assert r[j - 1] in r;
      }
    }
  }

  /** Selecting distinct hours from a string-ordered list of distinct values yields them all, in string order. */
  lemma SelectInTextOrder(order: seq<int>, picked: seq<int>, keep: int -> bool)
    requires TextSorted(order) && Distinct(order)
    requires Distinct(picked) && forall h :: h in picked ==> h in order
    requires forall h :: keep(h) <==> h in picked
    ensures multiset(Filter(order, keep)) == multiset(picked)
    ensures TextSorted(Filter(order, keep))
    ensures Distinct(Filter(order, keep))
  {
    var r := Filter(order, keep);
    var textLess := (a: int, b: int) => TextLess(IntToString(a), IntToString(b));
    FilterKeepsOrder(order, keep, textLess);
    assert TextSorted(r) by {
      forall i, j | 0 <= i < j < |r| ensures TextLess(IntToString(r[i]), IntToString(r[j])) {
        assert textLess(r[i], r[j]);
      }
    }
    var differ := (a: int, b: int) => a != b;
    FilterKeepsOrder(order, keep, differ);
    assert Distinct(r) by {
      forall i, j | 0 <= i < j < |r| ensures r[i] != r[j] {
        assert differ(r[i], r[j]);
      }
    }
    forall x ensures multiset(r)[x] == multiset(picked)[x] {
      DistinctOccursOnce(order, x);
      DistinctOccursOnce(picked, x);
    }
    assert multiset(r) == multiset(picked);
  }

  /**
   * `dayAvailability.hours.sort()` for distinct offered hours: the same hours, in
   * the string order of their decimal forms.
   */
  function SortHours(picked: seq<int>): (r: seq<int>)
    requires Distinct(picked) && forall h :: h in picked ==> h in Hours
    ensures multiset(r) == multiset(picked)
    ensures TextSorted(r) && Distinct(r)
  {
    var keep := (h: int) => h in picked;
    HoursInTextOrderSorted();
    SelectInTextOrder(HoursInTextOrder, picked, keep);
    Filter(HoursInTextOrder, keep)
  }

  /** The only string-ordered arrangement of 9 and 10 puts 10 first. */
  lemma TenBeforeNine(r: seq<int>)
    requires multiset(r) == multiset{9, 10}
    requires TextSorted(r)
    ensures r == [10, 9]
  {
    assert |r| == |multiset(r)| == 2;
    assert r[0] in multiset(r) && r[1] in multiset(r);
    HourText(9);
    HourText(10);
  }

  /** The default sort puts 10 before 9. */
  lemma SortPutsTenBeforeNine()
    ensures SortHours([9, 10]) == [10, 9]
  {
    TenBeforeNine(SortHours([9, 10]));
  }

  /** The elements of a sequence of distinct values are as many as its length. */
  lemma {:induction false} DistinctCardinality(s: seq<int>)
    requires Distinct(s)
    ensures |set x | x in s| == |s|
  {
    if s != [] {
      assert Distinct(s[1..]) by {
        forall i, j | 0 <= i < j < |s[1..]| ensures s[1..][i] != s[1..][j] {
          assert s[1..][i] == s[i + 1] && s[1..][j] == s[j + 1];
        }
      }
      DistinctCardinality(s[1..]);
      assert (set x | x in s) == {s[0]} + (set x | x in s[1..]);
      assert s[0] !in s[1..] by {
        forall k | 0 <= k < |s[1..]| ensures s[1..][k] != s[0] {
          assert s[1..][k] == s[k + 1];
        }
      }
    }
  }

  /** Fewer than eleven distinct hours leave an hour of `hours` unused: the redraw loop can stop. */
  lemma UnusedHourExists(picked: seq<int>)
    requires Distinct(picked) && |picked| < |Hours|
    requires forall h :: h in picked ==> h in Hours
    ensures exists h :: h in Hours && h !in picked
  {
    HoursInTextOrderSorted();
    var all := set x | x in HoursInTextOrder;
    var used := set x | x in picked;
    DistinctCardinality(HoursInTextOrder);
    DistinctCardinality(picked);
    assert |all - used| > 0 by {
      assert all == (all - used) + (all * used);
      assert used == (all * used) + (used - all);
    }
    var h :| h in all - used;
    assert h in Hours && h !in picked;
  }

  /**
   * One entry's hours: a count from 1 to 11, that many draws from `hours`, each
   * redrawn until it is not yet in the entry, then `sort()`.
   */
  method DrawHours() returns (hours: seq<int>)
    ensures OfferedHours(hours)
  {
    var count :| 1 <= count <= |Hours|;
    var picked: seq<int> := [];
    for i := 0 to count
      invariant |picked| == i
      invariant Distinct(picked) && forall h :: h in picked ==> h in Hours
    {
      UnusedHourExists(picked);
      var hour :| hour in Hours && hour !in picked;
      picked := picked + [hour];
    }
    hours := SortHours(picked);
    assert |hours| == |picked| by {
      assert |multiset(hours)| == |multiset(picked)|;
    }
  }

  /** A doctor's weekly template: one entry per weekday, Monday first, each with offered hours. */
  predicate WeeklyTemplate(availability: seq<DayAvailability>)
  {
    && |availability| == |DaysOfWeek|
    && forall i :: 0 <= i < |availability| ==> availability[i].day == DaysOfWeek[i] && OfferedHours(availability[i].hours)
  }

  /** `daysOfWeek.forEach(...)`: the template, day by day. */
  method DrawAvailability() returns (availability: seq<DayAvailability>)
    ensures WeeklyTemplate(availability)
  {
    availability := [];
    for i := 0 to |DaysOfWeek|
      invariant |availability| == i
      invariant forall k :: 0 <= k < i ==> availability[k].day == DaysOfWeek[k] && OfferedHours(availability[k].hours)
    {
      var hours := DrawHours();
      availability := availability + [DayAvailability(DaysOfWeek[i], hours)];
    }
  }

  // ---------------------------------------------------------------------------
  // POST /mocks/add/doctor: profile and handler

  /** `faker.number.int({min: 1, max: 5})` draws from `qualifications`, repeats allowed. */
  method DrawQualifications() returns (qualifications: seq<string>)
    ensures 1 <= |qualifications| <= 5
    ensures forall q :: q in qualifications ==> q in Qualifications
  {
    var count :| 1 <= count <= 5;
    qualifications := [];
    for i := 0 to count
      invariant |qualifications| == i
      invariant forall q :: q in qualifications ==> q in Qualifications
    {
      var k :| 0 <= k < |Qualifications|;
      qualifications := qualifications + [Qualifications[k]];
    }
  }

  /** 5 to 20 reviews, each rated 1 to 5; the texts of review `i` are the `i`-th text draws. */
  method DrawReviews(text: TextDraws) returns (reviews: seq<Review>)
    ensures 5 <= |reviews| <= 20
    ensures forall i :: 0 <= i < |reviews| ==>
      && 1 <= reviews[i].rating <= 5
      && reviews[i].patient == text.firstName(i)
      && reviews[i].date == text.pastDate(i)
      && reviews[i].comment == text.sentence(i)
  {
    var count :| 5 <= count <= 20;
    reviews := [];
    for i := 0 to count
      invariant |reviews| == i
      invariant forall k :: 0 <= k < i ==>
        && 1 <= reviews[k].rating <= 5
        && reviews[k].patient == text.firstName(k)
        && reviews[k].date == text.pastDate(k)
        && reviews[k].comment == text.sentence(k)
    {
      var rating :| 1 <= rating <= 5;
      reviews := reviews + [Review(text.firstName(i), text.pastDate(i), rating, text.sentence(i))];
    }
  }

  /** "`n` years" for some `n` from 1 to 40. */
  predicate ExperienceText(s: string)
  {
    exists years: nat :: 1 <= years <= 40 && s == NatToString(years) + " years"
  }

  /** What `/add/doctor` draws for every doctor it creates. */
  predicate GeneratedProfile(d: Doctor)
  {
    && d.specialty in Specializations
    && ExperienceText(d.experience)
    && 1 <= |d.qualifications| <= 5
    && (forall q :: q in d.qualifications ==> q in Qualifications)
    && 5 <= |d.reviews| <= 20
    && (forall i :: 0 <= i < |d.reviews| ==> 1 <= d.reviews[i].rating <= 5)
    && WeeklyTemplate(d.availability)
  }

  /** The doctor document: the given identity, and a randomly drawn profile and template. */
  method DrawDoctor(name: string, userId: string, email: string, text: TextDraws) returns (d: Doctor)
    ensures d.name == name && d.userId == userId && d.email == email && d.avatar == text.avatar
    ensures GeneratedProfile(d)
  {
    var k :| 0 <= k < |Specializations|;
    var specialty := Specializations[k];
    var years: nat :| 1 <= years <= 40;
    var availability := DrawAvailability();
    var qualifications := DrawQualifications();
    var reviews := DrawReviews(text);
    d := Doctor(name, userId, email, text.avatar, specialty, NatToString(years) + " years",
                qualifications, reviews, availability);
  }

  /** Every hour in every stored template is an hour of the day (0 to 23). */
  predicate HoursInDay(doctors: seq<Doctor>)
  {
    forall i, k :: 0 <= i < |doctors| && 0 <= k < |doctors[i].availability| ==>
      forall h :: h in doctors[i].availability[k].hours ==> 0 <= h < 24
  }

  /** A doctor with a generated template keeps the store's hours within the day. */
  lemma AppendGeneratedDoctor(doctors: seq<Doctor>, d: Doctor)
    requires HoursInDay(doctors)
    requires WeeklyTemplate(d.availability)
    ensures HoursInDay(doctors + [d])
  {
    var all := doctors + [d];
    forall i, k | 0 <= i < |all| && 0 <= k < |all[i].availability|
      ensures forall h :: h in all[i].availability[k].hours ==> 0 <= h < 24
    {
      if i == |doctors| {
        assert OfferedHours(d.availability[k].hours);
      } else {
        assert all[i] == doctors[i];
      }
    }
  }

  /**
   * `POST /mocks/add/doctor`. A refused e-mail answers 400 with the error and
   * stores nothing. Otherwise one doctor is appended and sent back (201): with an
   * e-mail, it takes that e-mail, the `userId` of the first account with it and
   * the name of the DOCTOR-role account (a drawn name when that is empty); without
   * one, a drawn e-mail and name and the id "DOCTOR_" + `nanoid()`.
   */
  method AddDoctor(db: Database, body: DoctorBody, text: TextDraws) returns (reply: Reply)
    modifies db
    ensures AddDoctorErrors(body, old(db.users), old(db.doctors)) != [] ==>
      && reply == ErrorReply(GenerateResponse(Some(400), Some(FieldErrors(AddDoctorErrors(body, old(db.users), old(db.doctors))))))
      && db.doctors == old(db.doctors)
    ensures AddDoctorErrors(body, old(db.users), old(db.doctors)) == [] ==>
      && |db.doctors| == |old(db.doctors)| + 1
      && db.doctors[..|old(db.doctors)|] == old(db.doctors)
      && var d := db.doctors[|old(db.doctors)|];
      && reply == Reply(201, GenerateResponse(Some(201), Some(DoctorDoc(d))))
      && GeneratedProfile(d) && d.avatar == text.avatar
      && (Present(body.email) ==>
            var account := DoctorAccount(old(db.users), body.email.value).value;
            && Auth.AccountFor(old(db.users), body.email.value).Some?
            && d.email == body.email.value
            && d.userId == Auth.AccountFor(old(db.users), body.email.value).value.userId
            && d.name == (if account.fullName != "" then account.fullName else text.fullName))
      && (!Present(body.email) ==>
            d.email == text.email && d.userId == "DOCTOR_" + text.nanoid(0) && d.name == text.fullName)
    ensures db.users == old(db.users) && db.appointments == old(db.appointments)
    ensures HoursInDay(old(db.doctors)) ==> HoursInDay(db.doctors)
  {
    var errors := AddDoctorErrors(body, db.users, db.doctors);
    if errors != [] {
      return ErrorReply(GenerateResponse(Some(400), Some(FieldErrors(errors))));
    }
    var userId := "DOCTOR_" + text.nanoid(0);
    var name, email := text.fullName, text.email;
    if Present(body.email) {
      email := body.email.value;
      var account := DoctorAccount(db.users, email).value;
      var first := Auth.AccountFor(db.users, email);
      assert first.Some? by {
        assert account in db.users;
        var i :| 0 <= i < |db.users| && db.users[i] == account;
      }
      userId := first.value.userId;
      if account.fullName != "" {
        name := account.fullName;
      }
    }
    var doctor := DrawDoctor(name, userId, email, text);
    ghost var before := db.doctors;
    if HoursInDay(before) {
      AppendGeneratedDoctor(before, doctor);
    }
    db.AddDoctor(doctor);
    assert db.doctors[..|before|] == before;
    reply := Reply(201, GenerateResponse(Some(201), Some(DoctorDoc(doctor))));
  }

  /** Once a doctor is created with an e-mail, a second request with it is refused as EMAIL_ALREADY_IN_USE. */
  lemma SecondDoctorWithEmailRefused(body: DoctorBody, users: seq<User>, doctors: seq<Doctor>, d: Doctor)
    requires Present(body.email) && d.email == body.email.value
    ensures AddDoctorErrors(body, users, doctors + [d]) == [FieldError("email", EMAIL_ALREADY_IN_USE)]
  {
    assert (doctors + [d])[|doctors|] == d;
  }

  // ---------------------------------------------------------------------------
  // POST /mocks/add/appointments

  datatype FixtureBody = FixtureBody(patientUserId: Option<string>, doctorUserId: Option<string>)

  /** One bookable hour of a doctor's template. */
  datatype Slot = Slot(name: string, doctorUserId: string, day: string, hour: int)

  /** The validation chain: `patientUserId` not empty, `doctorUserId` not empty. */
  function FixtureErrors(body: FixtureBody): (errs: seq<FieldError>)
    ensures errs == [] <==> Present(body.patientUserId) && Present(body.doctorUserId)
    ensures !Present(body.patientUserId) ==> FieldError("patientUserId", INVALID_VALUE) in errs
    ensures !Present(body.doctorUserId) ==> FieldError("doctorUserId", INVALID_VALUE) in errs
  {
    Check(Present(body.patientUserId), "patientUserId", INVALID_VALUE)
    + Check(Present(body.doctorUserId), "doctorUserId", INVALID_VALUE)
  }

  /** The slots of one template entry, hour by hour. */
  function HourSlots(d: Doctor, day: string, hours: seq<int>): seq<Slot>
  {
    if hours == [] then [] else HourSlots(d, day, hours[..|hours| - 1]) + [Slot(d.name, d.userId, day, hours[|hours| - 1])]
  }

  /** The slots of a doctor's template entries, entry by entry. */
  function DaySlots(d: Doctor, entries: seq<DayAvailability>): seq<Slot>
  {
    if entries == [] then []
    else DaySlots(d, entries[..|entries| - 1]) + HourSlots(d, entries[|entries| - 1].day, entries[|entries| - 1].hours)
  }

  /** The slots of the doctors' templates, doctor by doctor. */
  function SlotsOf(doctors: seq<Doctor>): seq<Slot>
  {
    if doctors == [] then []
    else SlotsOf(doctors[..|doctors| - 1]) + DaySlots(doctors[|doctors| - 1], doctors[|doctors| - 1].availability)
  }

  /** `s` is an hour of some entry of some doctor of `doctors`. */
  predicate SlotOf(s: Slot, doctors: seq<Doctor>)
  {
    exists i, k :: 0 <= i < |doctors| && 0 <= k < |doctors[i].availability|
      && s.name == doctors[i].name && s.doctorUserId == doctors[i].userId
      && s.day == doctors[i].availability[k].day && s.hour in doctors[i].availability[k].hours
  }

  lemma {:induction false} HourSlotsMembership(d: Doctor, day: string, hours: seq<int>, s: Slot)
    ensures s in HourSlots(d, day, hours) <==> s.name == d.name && s.doctorUserId == d.userId && s.day == day && s.hour in hours
  {
    if hours != [] {
      var init := hours[..|hours| - 1];
      HourSlotsMembership(d, day, init, s);
      assert hours == init + [hours[|hours| - 1]];
    }
  }

  lemma {:induction false} DaySlotsMembership(d: Doctor, entries: seq<DayAvailability>, s: Slot)
    ensures s in DaySlots(d, entries) <==>
      exists k :: 0 <= k < |entries| && s.name == d.name && s.doctorUserId == d.userId
        && s.day == entries[k].day && s.hour in entries[k].hours
  {
    if entries != [] {
      var n := |entries| - 1;
      var init := entries[..n];
      DaySlotsMembership(d, init, s);
      HourSlotsMembership(d, entries[n].day, entries[n].hours, s);
      forall k | 0 <= k < n ensures init[k] == entries[k] { }
    }
  }

  /** The flattened slots are exactly the hours of the doctors' template entries. */
  lemma {:induction false} SlotsOfMembership(doctors: seq<Doctor>, s: Slot)
    ensures s in SlotsOf(doctors) <==> SlotOf(s, doctors)
  {
    if doctors != [] {
      var n := |doctors| - 1;
      var init := doctors[..n];
      SlotsOfMembership(init, s);
      DaySlotsMembership(doctors[n], doctors[n].availability, s);
      forall i | 0 <= i < n ensures init[i] == doctors[i] { }
      if SlotOf(s, doctors) && !SlotOf(s, init) {
        var i, k :| 0 <= i < |doctors| && 0 <= k < |doctors[i].availability|
          && s.name == doctors[i].name && s.doctorUserId == doctors[i].userId
          && s.day == doctors[i].availability[k].day && s.hour in doctors[i].availability[k].hours;
        assert i == n;
      }
    }
  }

  /** The innermost `forEach`: one slot per hour of a template entry. */
  method CollectHourSlots(doctor: Doctor, day: string, hours: seq<int>) returns (slots: seq<Slot>)
    ensures slots == HourSlots(doctor, day, hours)
  {
    slots := [];
    for k := 0 to |hours|
      invariant slots == HourSlots(doctor, day, hours[..k])
    {
      assert hours[..k + 1][..k] == hours[..k];
      slots := slots + [Slot(doctor.name, doctor.userId, day, hours[k])];
    }
    assert hours[..|hours|] == hours;
  }

  /** The middle `forEach`: the slots of a doctor's template entries, entry by entry. */
  method CollectDaySlots(doctor: Doctor) returns (slots: seq<Slot>)
    ensures slots == DaySlots(doctor, doctor.availability)
  {
    var entries := doctor.availability;
    slots := [];
    for j := 0 to |entries|
      invariant slots == DaySlots(doctor, entries[..j])
    {
      var more := CollectHourSlots(doctor, entries[j].day, entries[j].hours);
      assert entries[..j + 1][..j] == entries[..j];
      slots := slots + more;
    }
    assert entries[..|entries|] == entries;
  }

  /** The outer `forEach` collecting `availableSlots`, doctor by doctor. */
  method FlattenSlots(doctors: seq<Doctor>) returns (slots: seq<Slot>)
    ensures slots == SlotsOf(doctors)
  {
    slots := [];
    for i := 0 to |doctors|
      invariant slots == SlotsOf(doctors[..i])
    {
      var more := CollectDaySlots(doctors[i]);
      assert doctors[..i + 1][..i] == doctors[..i];
      slots := slots + more;
    }
    assert doctors[..|doctors|] == doctors;
  }

  /**
   * `faker.helpers.shuffle(availableSlots).slice(0, 5)`: a Fisher-Yates shuffle
   * of a copy, then its first five slots (all of them when there are fewer).
   */
  method ChooseSlots(slots: seq<Slot>) returns (chosen: seq<Slot>)
    ensures |chosen| == if |slots| < 5 then |slots| else 5
    ensures multiset(chosen) <= multiset(slots)
  {
    var shuffled := slots;
    var i := |shuffled|;
    while i > 1
      invariant 0 <= i <= |shuffled| == |slots|
      invariant multiset(shuffled) == multiset(slots)
    {
      i := i - 1;
      var j :| 0 <= j <= i;
      shuffled := shuffled[i := shuffled[j]][j := shuffled[i]];
    }
    var count := if |shuffled| < 5 then |shuffled| else 5;
    chosen := shuffled[..count];
    assert shuffled == chosen + shuffled[count..];
  }

  // ---------------------------------------------------------------------------
  // The status of a fixture

  /**
   * `date > new Date()` as written: `date` is the ISO string of the drawn date,
   * which `>` converts to a number; the ':' in it makes that `NaN`, and any
   * comparison with `NaN` is false.
   */
  function IsoDateAfterNowAsWritten(date: Date, nowMillis: int): (r: bool)
    ensures !r
  {
    GreaterThan(ToNumber(ToIsoString(date)), Num(nowMillis))
  }

  /** The status as written: UPCOMING only when the comparison holds, which it never does. */
  function FixtureStatusAsWritten(date: Date, nowMillis: int, drawn: Status): (s: Status)
    ensures s == drawn
  {
    if IsoDateAfterNowAsWritten(date, nowMillis) then Upcoming else drawn
  }

  /**
   * A fixture of a Monday 09:00 slot drawn as 28 December 2026, while it is
   * 15 October 2026, gets a drawn status, COMPLETED for instance, under the
   * code as written, although its date lies in the future.
   */
  lemma FutureFixtureNotUpcomingAsWritten(slot: Slot)
    requires slot.day == "Monday" && slot.hour == 9
    ensures var future := DateTime(2026, 11, 28, 9, 0, 0, 0);
      && Valid(future)
      && FixtureDate(future, slot, 2026)
      && Earlier(DateTime(2026, 9, 15, 0, 0, 0, 0), future)
      && FixtureStatusAsWritten(future, 1792022400000, Completed) != Upcoming
  {
    var future := DateTime(2026, 11, 28, 9, 0, 0, 0);
    DaysInYear(2026);
    assert DaysBeforeMonth(2026, 11) == 334;
    assert NewYearWeekday(2026) == 4;
    assert DayOfWeek(2026, 11, 28) == 1;
    assert Fields(DateTime(2026, 9, 15, 0, 0, 0, 0))[1] < Fields(future)[1];
  }

  /**
   * The status as intended: UPCOMING for a date after `now`, the drawn status
   * otherwise. A status other than UPCOMING implies the date is not in the future.
   */
  function StatusFor(date: Date, now: Date, drawn: Status): (s: Status)
    ensures s == Upcoming || s == drawn
    ensures s != Upcoming ==> !Earlier(now, date)
    ensures drawn != Upcoming && !Earlier(now, date) ==> s == drawn
  {
    if Earlier(now, date) then Upcoming else drawn
  }

  /** Under the intended comparison a fixture dated after `now` is always UPCOMING, whatever was drawn. */
  lemma FutureFixtureIsUpcoming(date: Date, now: Date, drawn: Status)
    requires Earlier(now, date)
    ensures StatusFor(date, now, drawn) == Upcoming
  {
  }

  // ---------------------------------------------------------------------------
  // Building the fixtures

  /** A date `generateRandomDateByDay(slot.day, slot.hour)` can return in `year`. */
  predicate FixtureDate(t: Date, slot: Slot, year: int)
  {
    t.year == year && WeekdayName(t) == slot.day && t.hour == slot.hour && t.minute == 0 && t.second == 0 && t.millisecond == 0
  }

  /** `date` is the ISO form of a date `generateRandomDateByDay(slot.day, slot.hour)` can return in `year`. */
  ghost predicate DrawnDate(date: string, slot: Slot, year: int)
  {
    exists t: Date :: FixtureDate(t, slot, year) && date == ToIsoString(t)
  }

  /** What the fixture of a slot holds. */
  ghost predicate FixtureFor(a: Appointment, slot: Slot, patientUserId: string, patientName: string, now: Date, createdAt: string)
  {
    && a.doctorUserId == slot.doctorUserId && a.doctorName == slot.name
    && a.patientUserId == patientUserId && a.patientName == patientName
    && a.patientEmail.None? && a.doctorEmail.None?
    && a.createdAt == createdAt
    && |a.appointmentId| >= 12 && a.appointmentId[..12] == "APPOINTMENT_"
    && DrawnDate(a.date, slot, now.year)
    && (a.status != Upcoming ==> exists t: Date :: FixtureDate(t, slot, now.year) && !Earlier(now, t))
  }

  /**
   * The fixture of one slot: a date drawn for the status, a drawn status, and a
   * second date drawn for the stored `date`. `None` when the slot's day is no
   * weekday name, where `setHours` is called on `undefined`.
   */
  method BuildFixture(slot: Slot, patientUserId: string, patientName: string, now: Date, createdAt: string, id: string)
    returns (r: Option<Appointment>)
    requires 0 <= slot.hour < 24
    ensures r.None? <==> slot.day !in WeekdayNames
    ensures r.Some? ==> FixtureFor(r.value, slot, patientUserId, patientName, now, createdAt)
    ensures r.Some? ==> r.value.appointmentId == "APPOINTMENT_" + id
  {
    var compared := RandomDateByDay(slot.day, slot.hour, now.year);
    if compared.None? {
      return None;
    }
    var k :| 0 <= k < |Statuses|;
    var status := StatusFor(compared.value, now, Statuses[k]);
    var stored := RandomDateByDay(slot.day, slot.hour, now.year);
    var date := ToIsoString(stored.value);
    var a := Appointment("APPOINTMENT_" + id, slot.doctorUserId, patientUserId, date, patientName, None,
                         slot.name, None, status, createdAt);
    assert FixtureDate(stored.value, slot, now.year);
    assert status != Upcoming ==> FixtureDate(compared.value, slot, now.year) && !Earlier(now, compared.value);
    r := Some(a);
  }

  /** Appending the fixture of the next slot keeps every fixture matched with its slot. */
  lemma FixturesExtend(fixtures: seq<Appointment>, chosen: seq<Slot>, a: Appointment, patientUserId: string,
                       patientName: string, now: Date, createdAt: string)
    requires |fixtures| < |chosen|
    requires forall k :: 0 <= k < |fixtures| ==> FixtureFor(fixtures[k], chosen[k], patientUserId, patientName, now, createdAt)
    requires FixtureFor(a, chosen[|fixtures|], patientUserId, patientName, now, createdAt)
    ensures forall k :: 0 <= k <= |fixtures| ==> FixtureFor((fixtures + [a])[k], chosen[k], patientUserId, patientName, now, createdAt)
  {
  }

  /**
   * `selectedSlots.map(...)`: the fixture of each slot, in order. A slot whose
   * day is no weekday name crashes the handler, and no fixture is kept.
   */
  method BuildFixtures(chosen: seq<Slot>, patientUserId: string, patientName: string, now: Date, createdAt: string,
                       text: TextDraws) returns (r: Outcome<seq<Appointment>>)
    requires forall s :: s in chosen ==> 0 <= s.hour < 24
    ensures r.Fail? <==> exists i :: 0 <= i < |chosen| && chosen[i].day !in WeekdayNames
    ensures r.Fail? ==> r.error == Crash(UNDEFINED_SET_HOURS)
    ensures r.Pass? ==>
      && |r.value| == |chosen|
      && forall i :: 0 <= i < |chosen| ==> FixtureFor(r.value[i], chosen[i], patientUserId, patientName, now, createdAt)
  {
    var fixtures: seq<Appointment> := [];
    for i := 0 to |chosen|
      invariant |fixtures| == i
      invariant forall k :: 0 <= k < i ==> chosen[k].day in WeekdayNames
      invariant forall k :: 0 <= k < i ==> FixtureFor(fixtures[k], chosen[k], patientUserId, patientName, now, createdAt)
    {
      assert chosen[i] in chosen;
      var fixture := BuildFixture(chosen[i], patientUserId, patientName, now, createdAt, text.nanoid(i + 1));
      if fixture.None? {
        return Fail(Crash(UNDEFINED_SET_HOURS));
      }
      FixturesExtend(fixtures, chosen, fixture.value, patientUserId, patientName, now, createdAt);
      fixtures := fixtures + [fixture.value];
    }
    r := Pass(fixtures);
  }

  /** The doctors `/add/appointments` draws from: those stored with the requested `userId`. */
  function DoctorsWithId(doctors: seq<Doctor>, userId: string): (r: seq<Doctor>)
    ensures forall d :: d in r <==> d in doctors && d.userId == userId
    ensures r == [] <==> forall i :: 0 <= i < |doctors| ==> doctors[i].userId != userId
  {
    var r := Filter(doctors, (d: Doctor) => d.userId == userId);
    assert r != [] ==> r[0] in doctors;
    assert r == [] ==> forall i :: 0 <= i < |doctors| ==> doctors[i].userId != userId by {
      if r == [] {
        forall i | 0 <= i < |doctors| ensures doctors[i].userId != userId {
          assert doctors[i] in doctors;
        }
      }
    }
    r
  }

  /** The patient `/add/appointments` books for: the first account with the requested `userId`. */
  function PatientFor(users: seq<User>, userId: string): (r: Option<User>)
    ensures r.Some? <==> HasUserWithId(users, userId)
    ensures r.Some? ==> r.value in users && r.value.userId == userId
  {
    First(users, (u: User) => u.userId == userId)
  }

  /**
   * The slots of doctors whose templates `/add/doctor` generated all fall on
   * weekday names, so drawing dates for them never crashes.
   */
  lemma GeneratedSlotsHaveWeekdays(doctors: seq<Doctor>)
    requires forall d :: d in doctors ==> WeeklyTemplate(d.availability)
    ensures forall s :: s in SlotsOf(doctors) ==> s.day in WeekdayNames
  {
    forall s | s in SlotsOf(doctors) ensures s.day in WeekdayNames {
      SlotsOfMembership(doctors, s);
      var i, k :| 0 <= i < |doctors| && 0 <= k < |doctors[i].availability|
        && s.name == doctors[i].name && s.doctorUserId == doctors[i].userId
        && s.day == doctors[i].availability[k].day && s.hour in doctors[i].availability[k].hours;
      assert doctors[i] in doctors;
      assert s.day == DaysOfWeek[k];
    }
  }

  /** The slots of stored doctors are hours of the day. */
  lemma SlotsInDay(doctors: seq<Doctor>, selected: seq<Doctor>)
    requires HoursInDay(doctors)
    requires forall d :: d in selected ==> d in doctors
    ensures forall s :: s in SlotsOf(selected) ==> 0 <= s.hour < 24
  {
    forall s | s in SlotsOf(selected) ensures 0 <= s.hour < 24 {
      SlotsOfMembership(selected, s);
      var i, k :| 0 <= i < |selected| && 0 <= k < |selected[i].availability|
        && s.name == selected[i].name && s.doctorUserId == selected[i].userId
        && s.day == selected[i].availability[k].day && s.hour in selected[i].availability[k].hours;
      assert selected[i] in doctors;
      var j :| 0 <= j < |doctors| && doctors[j] == selected[i];
    }
  }

  /** Fixtures built from slots of doctors with one id name that doctor id and the patient. */
  lemma FixturesOfPair(fixtures: seq<Appointment>, chosen: seq<Slot>, doctors: seq<Doctor>, doctorUserId: string,
                       patientUserId: string, patientName: string, now: Date, createdAt: string)
    requires |fixtures| == |chosen|
    requires forall i :: 0 <= i < |chosen| ==> FixtureFor(fixtures[i], chosen[i], patientUserId, patientName, now, createdAt)
    requires forall s :: s in chosen ==> s in SlotsOf(doctors)
    requires forall d :: d in doctors ==> d.userId == doctorUserId
    ensures forall a :: a in fixtures ==>
      a.doctorUserId == doctorUserId && a.patientUserId == patientUserId && a.patientName == patientName
  {
    forall a | a in fixtures
      ensures a.doctorUserId == doctorUserId && a.patientUserId == patientUserId && a.patientName == patientName
    {
      var i :| 0 <= i < |fixtures| && fixtures[i] == a;
      assert chosen[i] in chosen;
      SlotsOfMembership(doctors, chosen[i]);
      var j, k :| 0 <= j < |doctors| && 0 <= k < |doctors[j].availability|
        && chosen[i].name == doctors[j].name && chosen[i].doctorUserId == doctors[j].userId
        && chosen[i].day == doctors[j].availability[k].day && chosen[i].hour in doctors[j].availability[k].hours;
      assert doctors[j] in doctors;
    }
  }

  /** `for (const appointment of appointments) await db.collection("appointments").add(appointment)`. */
  method AppendAll(db: Database, fixtures: seq<Appointment>)
    modifies db
    ensures db.appointments == old(db.appointments) + fixtures
    ensures db.users == old(db.users) && db.doctors == old(db.doctors)
  {
    for i := 0 to |fixtures|
      invariant db.appointments == old(db.appointments) + fixtures[..i]
      invariant db.users == old(db.users) && db.doctors == old(db.doctors)
    {
      db.AddAppointment(fixtures[i]);
      assert fixtures[..i + 1] == fixtures[..i] + [fixtures[i]];
    }
    assert fixtures[..|fixtures|] == fixtures;
  }

  /**
   * The second half of `POST /mocks/add/appointments`, once the doctor and the
   * patient are found: flatten the doctors' slots, choose up to five, build one
   * fixture per slot and append them all (201), or crash (500) and store nothing
   * when a slot's day is no weekday name.
   */
  method StoreFixtures(db: Database, doctorUserId: string, patientUserId: string, doctors: seq<Doctor>, patient: User,
                       now: Date, createdAt: string, text: TextDraws) returns (reply: Reply, ghost picked: seq<Slot>)
    requires HoursInDay(db.doctors)
    requires forall d :: d in doctors ==> d in db.doctors && d.userId == doctorUserId
    modifies db
    ensures (forall s :: s in SlotsOf(doctors) ==> s.day in WeekdayNames) ==> reply.httpStatus == 201
    ensures reply.httpStatus == 201 || reply.httpStatus == 500
    ensures reply.httpStatus != 201 ==> db.appointments == old(db.appointments)
    ensures reply.httpStatus == 201 ==>
      && |db.appointments| == |old(db.appointments)| + (if |SlotsOf(doctors)| < 5 then |SlotsOf(doctors)| else 5)
      && db.appointments[..|old(db.appointments)|] == old(db.appointments)
      && var added := db.appointments[|old(db.appointments)|..];
      && reply == Reply(201, GenerateResponse(Some(201), Some(AppointmentDocs(added))))
      && (forall a :: a in added ==>
            a.doctorUserId == doctorUserId && a.patientUserId == patientUserId && a.patientName == patient.fullName)
      && |picked| == |added| && multiset(picked) <= multiset(SlotsOf(doctors))
      && forall i :: 0 <= i < |added| ==> FixtureFor(added[i], picked[i], patientUserId, patient.fullName, now, createdAt)
    ensures db.users == old(db.users) && db.doctors == old(db.doctors)
  {
    var slots := FlattenSlots(doctors);
    var chosen := ChooseSlots(slots);
    picked := chosen;
    SlotsInDay(db.doctors, doctors);
    assert forall s :: s in chosen ==> s in slots by {
      forall s | s in chosen ensures s in slots {
        assert multiset(chosen)[s] > 0;
      }
    }
    var built := BuildFixtures(chosen, patientUserId, patient.fullName, now, createdAt, text);
    if built.Fail? {
      ghost var i :| 0 <= i < |chosen| && chosen[i].day !in WeekdayNames;
      assert chosen[i] in chosen;
      reply := ErrorReply(built.error);
      return;
    }
    var fixtures := built.value;
    FixturesOfPair(fixtures, chosen, doctors, doctorUserId, patientUserId, patient.fullName, now, createdAt);
    ghost var before := db.appointments;
    AppendAll(db, fixtures);
    assert db.appointments[|before|..] == fixtures;
    assert db.appointments[..|before|] == before;
    reply := Reply(201, GenerateResponse(Some(201), Some(AppointmentDocs(fixtures))));
  }

  /**
   * `POST /mocks/add/appointments`. A missing id answers 400 with the list, an
   * unknown doctor 404 DOCTOR_NOT_FOUND, an unknown patient 404
   * PATIENT_NOT_FOUND, a slot on an unknown weekday a crash (500); all of these
   * store nothing. Otherwise up to five fixtures are appended, one per chosen
   * slot of the doctor's templates, and sent back (201).
   */
  method AddAppointments(db: Database, body: FixtureBody, now: Date, createdAt: string, text: TextDraws)
    returns (reply: Reply, ghost picked: seq<Slot>)
    requires HoursInDay(db.doctors)
    modifies db
    ensures FixtureErrors(body) != [] ==>
      reply == ErrorReply(GenerateResponse(Some(400), Some(FieldErrors(FixtureErrors(body)))))
    ensures FixtureErrors(body) == [] && DoctorsWithId(old(db.doctors), body.doctorUserId.value) == [] ==>
      reply == ErrorReply(Error(404, DOCTOR_NOT_FOUND))
    ensures FixtureErrors(body) == [] && DoctorsWithId(old(db.doctors), body.doctorUserId.value) != []
            && !HasUserWithId(old(db.users), body.patientUserId.value) ==>
      reply == ErrorReply(Error(404, PATIENT_NOT_FOUND))
    ensures FixtureErrors(body) == [] && DoctorsWithId(old(db.doctors), body.doctorUserId.value) != []
            && HasUserWithId(old(db.users), body.patientUserId.value)
            && (forall s :: s in SlotsOf(DoctorsWithId(old(db.doctors), body.doctorUserId.value)) ==> s.day in WeekdayNames) ==>
      reply.httpStatus == 201
    ensures reply.httpStatus in {201, 400, 404, 500}
    ensures reply.httpStatus != 201 ==> db.appointments == old(db.appointments)
    ensures reply.httpStatus == 201 ==>
      && FixtureErrors(body) == []
      && |old(db.appointments)| <= |db.appointments| <= |old(db.appointments)| + 5
      && db.appointments[..|old(db.appointments)|] == old(db.appointments)
      && var added := db.appointments[|old(db.appointments)|..];
      && reply == Reply(201, GenerateResponse(Some(201), Some(AppointmentDocs(added))))
      && PatientFor(old(db.users), body.patientUserId.value).Some?
      && |added| == (if |SlotsOf(DoctorsWithId(old(db.doctors), body.doctorUserId.value))| < 5
                     then |SlotsOf(DoctorsWithId(old(db.doctors), body.doctorUserId.value))| else 5)
      && (forall a :: a in added ==>
            && a.doctorUserId == body.doctorUserId.value
            && a.patientUserId == body.patientUserId.value
            && a.patientName == PatientFor(old(db.users), body.patientUserId.value).value.fullName)
      && |picked| == |added|
      && multiset(picked) <= multiset(SlotsOf(DoctorsWithId(old(db.doctors), body.doctorUserId.value)))
      && forall i :: 0 <= i < |added| ==>
           FixtureFor(added[i], picked[i], body.patientUserId.value,
                      PatientFor(old(db.users), body.patientUserId.value).value.fullName, now, createdAt)
    ensures db.users == old(db.users) && db.doctors == old(db.doctors)
  {
    picked := [];
    var errors := FixtureErrors(body);
    if errors != [] {
      reply := ErrorReply(GenerateResponse(Some(400), Some(FieldErrors(errors))));
      return;
    }
    var doctorUserId, patientUserId := body.doctorUserId.value, body.patientUserId.value;
    var doctors := DoctorsWithId(db.doctors, doctorUserId);
    if doctors == [] {
      reply := ErrorReply(Error(404, DOCTOR_NOT_FOUND));
      return;
    }
    var patient := PatientFor(db.users, patientUserId);
    if patient.None? {
      reply := ErrorReply(Error(404, PATIENT_NOT_FOUND));
      return;
    }
    reply, picked := StoreFixtures(db, doctorUserId, patientUserId, doctors, patient.value, now, createdAt, text);
  }
}
