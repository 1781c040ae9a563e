/** Recording a donation (app/api/admin/complete-donation/route.ts): the donor's earliest open
    appointment is marked completed, or a walk-in completed appointment is added, and the
    donor's last donation date and eligibility text are refreshed for the 90-day gap. */
module CompleteDonationRoute {

  import opened Wrappers
  import opened Query
  import opened Schema
  import opened Database

  /** The days that must pass between two donations. */
  const GapDays := 90

  /** `where: { donor_id, status: { in: ['APPROVED', 'PENDING'] } }`. */
  predicate IsOpen(a: Appointment, donorId: int)
  {
    a.donorId == donorId && (a.status == Approved || a.status == Pending)
  }

  /** `findFirst` with `orderBy: { date: 'asc' }`: the open appointment of the donor with the
      earliest date, the first in table order among equal dates. */
  function Earliest(rows: seq<Appointment>, donorId: int): (r: Option<nat>)
    ensures r.None? <==> forall i :: 0 <= i < |rows| ==> !IsOpen(rows[i], donorId)
    ensures r.Some? ==> r.value < |rows| && IsOpen(rows[r.value], donorId)
    ensures r.Some? ==> forall i :: 0 <= i < |rows| && IsOpen(rows[i], donorId) ==>
                          rows[r.value].date <= rows[i].date
    ensures r.Some? ==> forall i :: 0 <= i < r.value && IsOpen(rows[i], donorId) ==>
                          rows[r.value].date < rows[i].date
  {
    if |rows| == 0 then None
    else
      var n := |rows| - 1;
      var rest := Earliest(rows[..n], donorId);
      assert forall i :: 0 <= i < n ==> rows[..n][i] == rows[i];
      if !IsOpen(rows[n], donorId) then rest
      else if rest.None? || rows[n].date < rows[rest.value].date then Some(n)
      else rest
  }

  /** `donor_id = donorId AND status = 'COMPLETED'`. */
  function CompletedBy(donorId: int): Appointment -> bool
  {
    (a: Appointment) => a.donorId == donorId && a.status == Completed
  }

  function HasDonorId(id: int): Donor -> bool
  {
    (d: Donor) => d.id == id
  }

  /** The eligibility text stored after a donation: the first day of the next window,
      formatted by `format` (the `toLocaleDateString('en-IN')` of the runtime). */
  function EligibleFrom(format: int -> string, now: int): (s: string)
    ensures |s| >= 14 && s[..14] == "Eligible from " && s[14..] == format(now + GapDays * DayMs)
    // The text replaces, and is never mistaken for, one the registration rule stores.
    ensures s != "Eligible!!" && s != "Not Eligible!" && s != "Pending"
  {
    "Eligible from " + format(now + GapDays * DayMs)
  }

  /** The walk-in appointment added when the donor has no open one: dated now, completed,
      with no donation type or units. */
  function WalkIn(id: int, donorId: int, now: int): Appointment
  {
    Appointment(id, donorId, now, Completed, None, None, now)
  }

  /** `POST /api/admin/complete-donation` with body { donorId }, at time `now`. */
  method Complete(db: Db, session: Option<Session>, donorId: Option<int>, now: int,
                  format: int -> string) returns (r: Reply<bool>)
    requires db.Valid()
    modifies db`appointments, db`nextAppointmentId, db`donors
    ensures db.Valid()
    ensures !IsAdmin(session) ==>
              r == Fail(401, "Unauthorized") && db.appointments == old(db.appointments) &&
              db.donors == old(db.donors) && db.nextAppointmentId == old(db.nextAppointmentId)
    ensures IsAdmin(session) && Falsy(donorId) ==>
              r == Fail(400, "Missing donorId") && db.appointments == old(db.appointments) &&
              db.donors == old(db.donors) && db.nextAppointmentId == old(db.nextAppointmentId)
    // An open appointment exists: exactly the earliest one becomes completed.
    ensures IsAdmin(session) && !Falsy(donorId) && Earliest(old(db.appointments), donorId.value).Some? ==>
              var k := Earliest(old(db.appointments), donorId.value).value;
              r == Ok(200, true) &&
              db.appointments == old(db.appointments)[k := old(db.appointments)[k].(status := Completed)] &&
              db.nextAppointmentId == old(db.nextAppointmentId)
    // No open appointment: one walk-in completed record is appended for a registered donor.
    ensures IsAdmin(session) && !Falsy(donorId) && Earliest(old(db.appointments), donorId.value).None? &&
            DonorExists(old(db.donors), donorId.value) ==>
              r == Ok(200, true) &&
              db.appointments == old(db.appointments) + [WalkIn(old(db.nextAppointmentId), donorId.value, now)] &&
              db.nextAppointmentId == old(db.nextAppointmentId) + 1
    // The walk-in insert for an unknown donor breaks the foreign key and nothing is written.
    ensures IsAdmin(session) && !Falsy(donorId) && Earliest(old(db.appointments), donorId.value).None? &&
            !DonorExists(old(db.donors), donorId.value) ==>
              r == Fail(500, "Internal Server Error") && db.appointments == old(db.appointments) &&
              db.donors == old(db.donors) && db.nextAppointmentId == old(db.nextAppointmentId)
    // On success the donor row carries the new donation date and eligibility, nothing else.
    ensures r.Ok? ==>
              FindFirst(old(db.donors), HasDonorId(donorId.value)).Some? &&
              var j := FindFirst(old(db.donors), HasDonorId(donorId.value)).value;
              db.donors == old(db.donors)[j := old(db.donors)[j].(lastDonation := Some(now),
                                                  eligibility := EligibleFrom(format, now))]
    // On success the donor has exactly one more completed appointment.
    ensures r.Ok? ==>
              Count(db.appointments, CompletedBy(donorId.value)) ==
              Count(old(db.appointments), CompletedBy(donorId.value)) + 1
  {
    if !IsAdmin(session) {
      return Fail(401, "Unauthorized");
    }
    if Falsy(donorId) {
      return Fail(400, "Missing donorId");
    }
    r := CompleteFor(db, donorId.value, now, format);
  }

  /** The handler past its guards, for the donor id d. */
  method CompleteFor(db: Db, d: int, now: int, format: int -> string) returns (r: Reply<bool>)
    requires db.Valid()
    modifies db`appointments, db`nextAppointmentId, db`donors
    ensures db.Valid()
    ensures Earliest(old(db.appointments), d).Some? ==>
              var k := Earliest(old(db.appointments), d).value;
              r == Ok(200, true) &&
              db.appointments == old(db.appointments)[k := old(db.appointments)[k].(status := Completed)] &&
              db.nextAppointmentId == old(db.nextAppointmentId)
    ensures Earliest(old(db.appointments), d).None? && DonorExists(old(db.donors), d) ==>
              r == Ok(200, true) &&
              db.appointments == old(db.appointments) + [WalkIn(old(db.nextAppointmentId), d, now)] &&
              db.nextAppointmentId == old(db.nextAppointmentId) + 1
    ensures Earliest(old(db.appointments), d).None? && !DonorExists(old(db.donors), d) ==>
              r == Fail(500, "Internal Server Error") && db.appointments == old(db.appointments) &&
              db.donors == old(db.donors) && db.nextAppointmentId == old(db.nextAppointmentId)
    ensures r.Ok? ==>
              FindFirst(old(db.donors), HasDonorId(d)).Some? &&
              var j := FindFirst(old(db.donors), HasDonorId(d)).value;
              db.donors == old(db.donors)[j := old(db.donors)[j].(lastDonation := Some(now),
                                                  eligibility := EligibleFrom(format, now))]
    ensures r.Ok? ==>
              Count(db.appointments, CompletedBy(d)) == Count(old(db.appointments), CompletedBy(d)) + 1
  {
    var open := Earliest(db.appointments, d);
    ghost var named: nat;
    if open.Some? {
      MarkCompleted(db, open.value);
      named := open.value;
    } else {
      if !DonorExists(db.donors, d) {
        return Fail(500, "Internal Server Error");
      }
      AddWalkIn(db, d, now);
      named := |db.appointments| - 1;
    }
    RecordDonation(db, d, now, format, named);
    r := Ok(200, true);
  }

  /** `appointment.update` of the row at k to status COMPLETED. */
  method MarkCompleted(db: Db, k: nat)
    requires db.Valid() && k < |db.appointments|
    modifies db`appointments
    ensures db.Valid()
    ensures db.appointments == old(db.appointments)[k := old(db.appointments)[k].(status := Completed)]
    ensures old(db.appointments)[k].status != Completed ==>
              Count(db.appointments, CompletedBy(old(db.appointments)[k].donorId)) ==
              Count(old(db.appointments), CompletedBy(old(db.appointments)[k].donorId)) + 1
  {
    var row := db.appointments[k].(status := Completed);
    UpdateKeepsKeys(db.appointments, k, row, AppointmentIdOf);
    CountUpdate(db.appointments, k, row, CompletedBy(row.donorId));
    db.appointments := db.appointments[k := row];
  }

  /** `appointment.create` of a walk-in record for a registered donor. */
  method AddWalkIn(db: Db, donorId: int, now: int)
    requires db.Valid() && DonorExists(db.donors, donorId)
    modifies db`appointments, db`nextAppointmentId
    ensures db.Valid()
    ensures db.appointments == old(db.appointments) + [WalkIn(old(db.nextAppointmentId), donorId, now)]
    ensures db.nextAppointmentId == old(db.nextAppointmentId) + 1
    ensures Count(db.appointments, CompletedBy(donorId)) ==
            Count(old(db.appointments), CompletedBy(donorId)) + 1
  {
    var row := WalkIn(db.nextAppointmentId, donorId, now);
    AppendBelow(db.appointments, row, AppointmentIdOf, db.nextAppointmentId);
    CounterIsFresh(db.appointments, AppointmentIdOf, db.nextAppointmentId);
    AppendDistinct(db.appointments, row, AppointmentIdOf);
    CountAppend(db.appointments, [row], CompletedBy(donorId));
    db.appointments, db.nextAppointmentId := db.appointments + [row], db.nextAppointmentId + 1;
  }

  /** `donor.update` of `last_donation` and `eligibility`, for a donor some appointment names. */
  method RecordDonation(db: Db, donorId: int, now: int, format: int -> string, ghost i: nat)
    requires db.Valid()
    requires i < |db.appointments| && db.appointments[i].donorId == donorId
    modifies db`donors
    ensures db.Valid()
    ensures FindFirst(old(db.donors), HasDonorId(donorId)).Some?
    ensures var j := FindFirst(old(db.donors), HasDonorId(donorId)).value;
            db.donors == old(db.donors)[j := old(db.donors)[j].(lastDonation := Some(now),
                                               eligibility := EligibleFrom(format, now))]
  {
    assert DonorExists(db.donors, donorId);
    var w :| 0 <= w < |db.donors| && db.donors[w].id == donorId;
    assert HasDonorId(donorId)(db.donors[w]);
    var j := FindFirst(db.donors, HasDonorId(donorId)).value;
    var donor := db.donors[j].(lastDonation := Some(now), eligibility := EligibleFrom(format, now));
    UpdateKeepsKeys(db.donors, j, donor, DonorIdOf);
    UpdateKeepsKeys(db.donors, j, donor, DonorPhoneOf);
    UpdateKeepsKeys(db.donors, j, donor, DonorEmailOf);
    SameIdsKeepAppointments(db.appointments, db.nextAppointmentId, db.donors, db.donors[j := donor]);
    db.donors := db.donors[j := donor];
  }
}
