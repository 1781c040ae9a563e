/** A donor's own profile (app/api/donor/profile/route.ts): reading it without the password,
    and changing the six fields the profile form offers. */
module ProfileRoute {

  import opened Wrappers
  import opened Text
  import opened Query
  import opened Schema
  import opened Database

  function HasId(id: int): Donor -> bool
  {
    (d: Donor) => d.id == id
  }

  /** `GET /api/donor/profile`: the caller's own row, every column but the password. */
  function Get(session: Option<Session>, donors: seq<Donor>): (r: Reply<DonorProfile>)
    ensures !IsDonor(session) ==> r == Fail(401, "Unauthorized")
    ensures IsDonor(session) ==>
              (r == Fail(404, "Donor not found") <==>
               forall i :: 0 <= i < |donors| ==> donors[i].id != session.value.userId)
    ensures r.Ok? ==> r.status == 200 && r.body.id == session.value.userId &&
                      exists i :: 0 <= i < |donors| && r.body == ProfileOf(donors[i])
  {
    if !IsDonor(session) then Fail(401, "Unauthorized")
    else
      var found := FindFirst(donors, HasId(session.value.userId));
      if found.None? then Fail(404, "Donor not found")
      else Ok(200, ProfileOf(donors[found.value]))
  }

  /** The fields `profileSchema` keeps from the body; address and diseases may be absent. */
  datatype ProfileForm = ProfileForm(
    phone: string, weight: int, address: Option<string>, diseases: Option<string>,
    bloodGroup: string, age: int)

  /** `profileSchema`. */
  predicate FormValid(f: ProfileForm)
  {
    IsTenDigits(f.phone) && f.weight >= 45 &&
    (f.address.None? || |f.address.value| <= 100) &&
    |f.bloodGroup| >= 1 && 18 <= f.age <= 65
  }

  /** `donor.update` with the parsed object as data: an absent field is left as it was. */
  function Apply(d: Donor, f: ProfileForm): (e: Donor)
    ensures e.phone == f.phone && e.weight == Some(f.weight) && e.bloodGroup == f.bloodGroup
    ensures e.age == f.age
    ensures e.address == if f.address.Some? then f.address else d.address
    ensures e.diseases == if f.diseases.Some? then f.diseases else d.diseases
    // Identity, health snapshot, donation history and credentials are never touched.
    ensures e.id == d.id && e.name == d.name && e.email == d.email && e.sex == d.sex
    ensures e.haemoglobin == d.haemoglobin && e.sugar == d.sugar && e.pressure == d.pressure
    ensures e.lastDonation == d.lastDonation && e.eligibility == d.eligibility
    ensures e.registeredAt == d.registeredAt && e.passwordHash == d.passwordHash
  {
    d.(phone := f.phone, weight := Some(f.weight), bloodGroup := f.bloodGroup, age := f.age,
       address := if f.address.Some? then f.address else d.address,
       diseases := if f.diseases.Some? then f.diseases else d.diseases)
  }

  /** Another donor (not the row at k) already has the phone number. */
  predicate PhoneTaken(donors: seq<Donor>, k: nat, phone: string)
  {
    exists i :: 0 <= i < |donors| && i != k && donors[i].phone == phone
  }

  /** `PATCH /api/donor/profile`. The answer is the whole updated row, as `update` returns it. */
  method Patch(db: Db, session: Option<Session>, f: ProfileForm) returns (r: Reply<Donor>)
    requires db.Valid()
    modifies db`donors
    ensures db.Valid()
    ensures r.Fail? ==> db.donors == old(db.donors)
    ensures !IsDonor(session) ==> r == Fail(401, "Unauthorized")
    ensures IsDonor(session) && !FormValid(f) ==> r == Fail(400, ValidationFailed)
    // No row for the caller, or a phone number another donor holds: the update fails.
    ensures IsDonor(session) && FormValid(f) && FindFirst(old(db.donors), HasId(session.value.userId)).None? ==>
              r == Fail(500, "Update failed")
    ensures IsDonor(session) && FormValid(f) && FindFirst(old(db.donors), HasId(session.value.userId)).Some? &&
            PhoneTaken(old(db.donors), FindFirst(old(db.donors), HasId(session.value.userId)).value, f.phone) ==>
              r == Fail(500, "Update failed")
    // Otherwise only the caller's row changes, and only in the fields of the form.
    ensures IsDonor(session) && FormValid(f) && FindFirst(old(db.donors), HasId(session.value.userId)).Some? &&
            !PhoneTaken(old(db.donors), FindFirst(old(db.donors), HasId(session.value.userId)).value, f.phone) ==>
              var k := FindFirst(old(db.donors), HasId(session.value.userId)).value;
              r == Ok(200, Apply(old(db.donors)[k], f)) &&
              db.donors == old(db.donors)[k := Apply(old(db.donors)[k], f)]
    ensures r.Ok? ==> r.body.id == session.value.userId
  {
    if !IsDonor(session) {
      return Fail(401, "Unauthorized");
    }
    if !FormValid(f) {
      return Fail(400, ValidationFailed);
    }
    var found := FindFirst(db.donors, HasId(session.value.userId));
    if found.None? {
      return Fail(500, "Update failed");
    }
    var k := found.value;
    if PhoneTaken(db.donors, k, f.phone) {
      return Fail(500, "Update failed");
    }
    var row := Apply(db.donors[k], f);
    UpdateDonor(db, k, row);
    r := Ok(200, row);
  }

  /** Replacing the row at k by one with the same id, email and a phone no other row has. */
  method UpdateDonor(db: Db, k: nat, row: Donor)
    requires db.Valid() && k < |db.donors|
    requires row.id == db.donors[k].id && row.email == db.donors[k].email
    requires !PhoneTaken(db.donors, k, row.phone)
    modifies db`donors
    ensures db.Valid()
    ensures db.donors == old(db.donors)[k := row]
  {
    var updated := db.donors[k := row];
    UpdateKeepsKeys(db.donors, k, row, DonorIdOf);
    UpdateKeepsKeys(db.donors, k, row, DonorEmailOf);
    forall i, j | 0 <= i < j < |updated|
      ensures DonorPhoneOf(updated[i]) != DonorPhoneOf(updated[j])
    {
      if i != k && j != k {
        assert updated[i] == db.donors[i] && updated[j] == db.donors[j];
      }
    }
    SameIdsKeepAppointments(db.appointments, db.nextAppointmentId, db.donors, updated);
    db.donors := updated;
  }
}
