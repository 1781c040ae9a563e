/** Donation appointments (app/api/appointments/route.ts): a donor books a pending slot, an
    administrator moves it to approved, rejected or completed (mailing the donor on the first
    two), and each side lists the appointments it may see. */
module AppointmentsRoute {

  import opened Wrappers
  import opened Query
  import opened Schema
  import opened Database

  const DefaultDonationType := "Whole Blood"

  /** `POST /api/appointments` at time `now`. `date` is the parsed booking date (None when the
      body had none or it did not parse); `units` is the optional number of units. */
  method Book(db: Db, session: Option<Session>, date: Option<int>, donationType: Option<string>,
              units: Option<int>, now: int) returns (r: Reply<Appointment>)
    requires db.Valid()
    modifies db`appointments, db`nextAppointmentId
    ensures db.Valid()
    ensures r.Fail? ==> db.appointments == old(db.appointments) &&
                        db.nextAppointmentId == old(db.nextAppointmentId)
    ensures !IsDonor(session) ==> r == Fail(401, "Unauthorized")
    // A missing date, units outside 1..3, or a caller with no donor row is refused.
    ensures IsDonor(session) &&
            (date.None? || (units.Some? && !(1 <= units.value <= 3)) ||
             !DonorExists(old(db.donors), session.value.userId)) ==>
              r == Fail(400, "Invalid Request")
    ensures IsDonor(session) && date.Some? && (units.None? || 1 <= units.value <= 3) &&
            DonorExists(old(db.donors), session.value.userId) ==>
              var row := Appointment(old(db.nextAppointmentId), session.value.userId, date.value,
                                     Pending, Some(OrElse(donationType, DefaultDonationType)),
                                     Some(units.GetOr(1)), now);
              r == Ok(201, row) && db.appointments == old(db.appointments) + [row] &&
              db.nextAppointmentId == old(db.nextAppointmentId) + 1
    // Every booking is pending, belongs to the caller, and books one to three units.
    ensures r.Ok? ==> r.body.status == Pending && r.body.donorId == session.value.userId &&
                      1 <= r.body.units.value <= 3
  {
    if !IsDonor(session) {
      return Fail(401, "Unauthorized");
    }
    if date.None? || (units.Some? && !(1 <= units.value <= 3)) {
      return Fail(400, "Invalid Request");
    }
    var count := units.GetOr(1);
    var kind := OrElse(donationType, DefaultDonationType);
    var donor := session.value.userId;
    if !DonorExists(db.donors, donor) {
      return Fail(400, "Invalid Request");
    }
    var row := Appointment(db.nextAppointmentId, donor, date.value, Pending, Some(kind),
                           Some(count), now);
    AppendBelow(db.appointments, row, AppointmentIdOf, db.nextAppointmentId);
    CounterIsFresh(db.appointments, AppointmentIdOf, db.nextAppointmentId);
    AppendDistinct(db.appointments, row, AppointmentIdOf);
    db.appointments, db.nextAppointmentId := db.appointments + [row], db.nextAppointmentId + 1;
    r := Ok(201, row);
  }

  /** The statuses the administrator may set: `['APPROVED', 'REJECTED', 'COMPLETED']`. */
  function Target(status: Option<string>): (t: Option<AppointmentStatus>)
    ensures t.Some? ==> t.value != Pending
    ensures t.Some? <==> status == Some("APPROVED") || status == Some("REJECTED") ||
                         status == Some("COMPLETED")
  {
    if status == Some("APPROVED") then Some(Approved)
    else if status == Some("REJECTED") then Some(Rejected)
    else if status == Some("COMPLETED") then Some(Completed)
    else None
  }

  function HasId(id: int): Appointment -> bool
  {
    (a: Appointment) => a.id == id
  }

  function HasDonorId(id: int): Donor -> bool
  {
    (d: Donor) => d.id == id
  }

  /** The notice for a status change: an approval and a rejection are mailed to a donor with a
      non-empty email and name; a completion is not mailed. */
  function Notice(status: AppointmentStatus, donor: Donor): (mail: seq<Email>)
    ensures |mail| <= 1
    ensures status == Completed || status == Pending ==> mail == []
    ensures mail != [] ==> mail[0].to == donor.email
    // A donor without an email or a name is never mailed ...
    ensures donor.email == "" || donor.name == "" ==> mail == []
    // ... and one with both always receives the notice for an approval or a rejection.
    ensures donor.email != "" && donor.name != "" && status == Approved ==>
              mail == [Email(donor.email, "Appointment Approved - BloodBank")]
    ensures donor.email != "" && donor.name != "" && status == Rejected ==>
              mail == [Email(donor.email, "Appointment Update - BloodBank")]
  {
    if donor.email == "" || donor.name == "" then []
    else if status == Approved then [Email(donor.email, "Appointment Approved - BloodBank")]
    else if status == Rejected then [Email(donor.email, "Appointment Update - BloodBank")]
    else []
  }

  /** `PATCH /api/appointments` with body { id, status }. */
  method SetStatus(db: Db, session: Option<Session>, id: Option<int>, status: Option<string>)
    returns (r: Reply<Appointment>, mail: seq<Email>)
    requires db.Valid()
    modifies db`appointments
    ensures db.Valid()
    ensures r.Fail? ==> db.appointments == old(db.appointments) && mail == []
    ensures !IsAdmin(session) ==> r == Fail(401, "Unauthorized")
    ensures IsAdmin(session) && (Falsy(id) || Target(status).None?) ==> r == Fail(400, "Invalid data")
    ensures IsAdmin(session) && !Falsy(id) && Target(status).Some? &&
            FindFirst(old(db.appointments), HasId(id.value)).None? ==>
              r == Fail(500, "Update failed")
    // The row takes exactly the target status, whatever it was before; nothing else changes.
    ensures IsAdmin(session) && !Falsy(id) && Target(status).Some? &&
            FindFirst(old(db.appointments), HasId(id.value)).Some? ==>
              var k := FindFirst(old(db.appointments), HasId(id.value)).value;
              var row := old(db.appointments)[k].(status := Target(status).value);
              r == Ok(200, row) && db.appointments == old(db.appointments)[k := row] &&
              FindFirst(db.donors, HasDonorId(row.donorId)).Some? &&
              mail == Notice(row.status, db.donors[FindFirst(db.donors, HasDonorId(row.donorId)).value])
    ensures r.Ok? ==> r.body.status != Pending
  {
    mail := [];
    if !IsAdmin(session) {
      return Fail(401, "Unauthorized"), mail;
    }
    if Falsy(id) || Target(status).None? {
      return Fail(400, "Invalid data"), mail;
    }
    var found := FindFirst(db.appointments, HasId(id.value));
    if found.None? {
      return Fail(500, "Update failed"), mail;
    }
    var k := found.value;
    var target := Target(status).value;
    UpdateStatus(db, k, target);
    var row := db.appointments[k];
    DonorFound(db.appointments, db.nextAppointmentId, db.donors, k);
    var donor := db.donors[FindFirst(db.donors, HasDonorId(row.donorId)).value];
    if target == Approved {
      if donor.email != "" && donor.name != "" {
        mail := [Email(donor.email, "Appointment Approved - BloodBank")];
      }
    } else if target == Rejected {
      if donor.email != "" && donor.name != "" {
        mail := [Email(donor.email, "Appointment Update - BloodBank")];
      }
    }
    r := Ok(200, row);
  }

  /** `appointment.update({ where: { id }, data: { status } })` of the row at k. */
  method UpdateStatus(db: Db, k: nat, status: AppointmentStatus)
    requires db.Valid() && k < |db.appointments|
    modifies db`appointments
    ensures db.Valid()
    ensures db.appointments == old(db.appointments)[k := old(db.appointments)[k].(status := status)]
  {
    var row := db.appointments[k].(status := status);
    UpdateKeepsKeys(db.appointments, k, row, AppointmentIdOf);
    db.appointments := db.appointments[k := row];
  }

  /** Every appointment's donor row is found by its id. */
  lemma DonorFound(rows: seq<Appointment>, next: int, donors: seq<Donor>, k: nat)
    requires AppointmentsValid(rows, next, donors) && k < |rows|
    ensures FindFirst(donors, HasDonorId(rows[k].donorId)).Some?
  {
    assert DonorExists(donors, rows[k].donorId);
    var w :| 0 <= w < |donors| && donors[w].id == rows[k].donorId;
    assert HasDonorId(rows[k].donorId)(donors[w]);
  }

  predicate EarlierFirst(a: Appointment, b: Appointment)
  {
    a.date <= b.date
  }

  predicate LaterFirst(a: Appointment, b: Appointment)
  {
    a.date >= b.date
  }

  function OwnedBy(donorId: int): Appointment -> bool
  {
    (a: Appointment) => a.donorId == donorId
  }

  /** `GET /api/appointments`: an administrator sees every appointment, earliest date first;
      any other session sees its own, latest date first. */
  function List(session: Option<Session>, rows: seq<Appointment>): (r: Reply<seq<Appointment>>)
    ensures session.None? <==> r == Fail(401, "Unauthorized")
    ensures IsAdmin(session) ==>
              r.Ok? && multiset(r.body) == multiset(rows) && Sorted(r.body, EarlierFirst)
    ensures session.Some? && !IsAdmin(session) ==>
              r.Ok? && multiset(r.body) == multiset(Filter(rows, OwnedBy(session.value.userId))) &&
              Sorted(r.body, LaterFirst) &&
              forall i :: 0 <= i < |r.body| ==> r.body[i].donorId == session.value.userId
  {
    if session.None? then Fail(401, "Unauthorized")
    else if IsAdmin(session) then
      SortBySorted(rows, EarlierFirst);
      Ok(200, SortBy(rows, EarlierFirst))
    else
      var own := Filter(rows, OwnedBy(session.value.userId));
      var sorted := SortBy(own, LaterFirst);
      SortBySorted(own, LaterFirst);
      assert forall i :: 0 <= i < |sorted| ==> sorted[i] in multiset(own);
      Ok(200, sorted)
  }
}
