/** The donor registry (app/api/donors/route.ts): registration behind a verified-email token
    with phone and email kept unique, the administrator's listing, and deletion of a donor
    together with the donor's appointments. */
module DonorsRoute {

  import opened Wrappers
  import opened Text
  import opened Query
  import opened Schema
  import opened Database
  import opened RegistrationTokens

  /** The fields `donorSchema` keeps from the body. */
  datatype DonorForm = DonorForm(
    name: string, age: int, sex: string, phone: string, bloodGroup: string,
    weight: Option<int>, email: string, address: Option<string>, lastDonation: Option<int>,
    diseases: Option<string>, haemoglobin: Option<string>, sugar: Option<string>,
    pressure: Option<string>, password: string, verificationToken: string)

  /** `donorSchema`; `isEmail` is the address syntax check of the schema library. */
  predicate FormValid(f: DonorForm, isEmail: string -> bool)
  {
    && |f.name| >= 2
    && 18 <= f.age <= 65
    && (f.sex == "Male" || f.sex == "Female" || f.sex == "Other")
    && IsTenDigits(f.phone)
    && |f.bloodGroup| >= 1
    && (f.weight.None? || f.weight.value >= 45)
    && isEmail(f.email)
    && (f.address.None? || |f.address.value| <= 100)
    && |f.password| >= 6
    && |f.verificationToken| >= 1
  }

  const EligibleText := "Eligible!!"
  const NotEligibleText := "Not Eligible!"

  /** The initial eligibility: all three health readings "normal", or not. */
  function InitialEligibility(haemoglobin: Option<string>, pressure: Option<string>,
                              sugar: Option<string>): (e: string)
    ensures e == EligibleText <==>
              haemoglobin == Some("normal") && pressure == Some("normal") && sugar == Some("normal")
    ensures e == EligibleText || e == NotEligibleText
    ensures e != "Pending"
  {
    if haemoglobin == Some("normal") && pressure == Some("normal") && sugar == Some("normal")
    then EligibleText else NotEligibleText
  }

  /** The columns the creation answers with (the password is never selected). */
  datatype DonorCard = DonorCard(
    id: int, name: string, email: string, phone: string, bloodGroup: string, sex: string,
    age: int, address: Option<string>, eligibility: string, registeredAt: int)

  function CardOf(d: Donor): (c: DonorCard)
    ensures c.id == d.id && c.email == d.email && c.phone == d.phone
    ensures c.eligibility == d.eligibility
  {
    DonorCard(d.id, d.name, d.email, d.phone, d.bloodGroup, d.sex, d.age, d.address,
              d.eligibility, d.registeredAt)
  }

  /** The `OR: [{ D_phno }, { D_email }]` test. */
  function Clashes(phone: string, email: string): Donor -> bool
  {
    (d: Donor) => d.phone == phone || d.email == email
  }

  /** The row `donor.create` stores: the form without the password and token, the hashed
      password, the registration time and the initial eligibility. */
  function NewDonor(id: int, f: DonorForm, passwordHash: string, now: int): (d: Donor)
    ensures d.passwordHash == Some(passwordHash)
    ensures d.eligibility == InitialEligibility(f.haemoglobin, f.pressure, f.sugar)
  {
    Donor(id, f.name, f.age, f.sex, f.phone, f.bloodGroup, f.weight, f.email, f.address,
          f.haemoglobin, f.sugar, f.pressure, f.diseases, now, f.lastDonation,
          InitialEligibility(f.haemoglobin, f.pressure, f.sugar), Some(passwordHash))
  }

  /** `POST /api/donors` at time `now`. `decode` is `verifyRegistrationToken` (None for a bad
      signature) and `hash` the password hash. */
  method Register(db: Db, f: DonorForm, now: int, isEmail: string -> bool,
                  decode: string -> Option<RegistrationToken>, hash: string -> string)
    returns (r: Reply<DonorCard>)
    requires db.Valid()
    modifies db`donors, db`nextDonorId
    ensures db.Valid()
    ensures r.Fail? ==> db.donors == old(db.donors) && db.nextDonorId == old(db.nextDonorId)
    ensures !FormValid(f, isEmail) ==> r == Fail(400, ValidationFailed)
    // The token must decode, be unexpired, and name the address being registered.
    ensures FormValid(f, isEmail) && !Accepts(decode(f.verificationToken), f.email, now) ==>
              r == Fail(400, "Invalid or expired verification token")
    ensures FormValid(f, isEmail) && Accepts(decode(f.verificationToken), f.email, now) &&
            FindFirst(old(db.donors), Clashes(f.phone, f.email)).Some? ==>
              r == Fail(400, "Donor with this phone or email already exists")
    ensures FormValid(f, isEmail) && Accepts(decode(f.verificationToken), f.email, now) &&
            FindFirst(old(db.donors), Clashes(f.phone, f.email)).None? ==>
              var row := NewDonor(old(db.nextDonorId), f, hash(f.password), now);
              r == Ok(201, CardOf(row)) && db.donors == old(db.donors) + [row] &&
              db.nextDonorId == old(db.nextDonorId) + 1
    // A new donor shares neither phone nor email with any earlier donor.
    ensures r.Ok? ==> forall i :: 0 <= i < |old(db.donors)| ==>
              old(db.donors)[i].phone != f.phone && old(db.donors)[i].email != f.email
  {
    if !FormValid(f, isEmail) {
      return Fail(400, ValidationFailed);
    }
    var decoded := decode(f.verificationToken);
    if decoded.None? || !(Seconds(now) < decoded.value.expiresAt) || decoded.value.email != f.email {
      return Fail(400, "Invalid or expired verification token");
    }
    var existing := FindFirst(db.donors, Clashes(f.phone, f.email));
    if existing.Some? {
      return Fail(400, "Donor with this phone or email already exists");
    }
    var hashed := hash(f.password);
    var eligibility := "Pending";
    if f.haemoglobin == Some("normal") && f.pressure == Some("normal") && f.sugar == Some("normal") {
      eligibility := EligibleText;
    } else {
      eligibility := NotEligibleText;
    }
    var row := Donor(db.nextDonorId, f.name, f.age, f.sex, f.phone, f.bloodGroup, f.weight,
                     f.email, f.address, f.haemoglobin, f.sugar, f.pressure, f.diseases, now,
                     f.lastDonation, eligibility, Some(hashed));
    assert row == NewDonor(db.nextDonorId, f, hashed, now);
    assert forall i :: 0 <= i < |db.donors| ==> !Clashes(f.phone, f.email)(db.donors[i]);
    db.InsertDonor(row);
    r := Ok(201, CardOf(row));
  }

  /** The columns of the administrator's listing. */
  datatype DonorSummary = DonorSummary(
    id: int, name: string, email: string, phone: string, bloodGroup: string, sex: string,
    age: int, address: Option<string>, lastDonation: Option<int>, eligibility: string)

  function SummaryOf(d: Donor): DonorSummary
  {
    DonorSummary(d.id, d.name, d.email, d.phone, d.bloodGroup, d.sex, d.age, d.address,
                 d.lastDonation, d.eligibility)
  }

  /** `orderBy: { D_id: 'desc' }`. */
  predicate HigherIdFirst(a: Donor, b: Donor)
  {
    a.id >= b.id
  }

  /** `GET /api/donors`: administrators only, every donor without the password, highest id first. */
  function List(session: Option<Session>, rows: seq<Donor>): (r: Reply<seq<DonorSummary>>)
    ensures !IsAdmin(session) <==> r == Fail(401, "Unauthorized")
    ensures r.Ok? ==> r.status == 200 && |r.body| == |rows|
    ensures r.Ok? ==> forall i, j :: 0 <= i < j < |r.body| ==> r.body[i].id >= r.body[j].id
    ensures r.Ok? ==> forall d :: d in rows ==> SummaryOf(d) in r.body
  {
    if !IsAdmin(session) then Fail(401, "Unauthorized")
    else
      var sorted := SortBy(rows, HigherIdFirst);
      SortBySorted(rows, HigherIdFirst);
      var body := seq(|sorted|, i requires 0 <= i < |sorted| => SummaryOf(sorted[i]));
      assert forall d :: d in rows ==> d in multiset(sorted);
      assert forall i :: 0 <= i < |sorted| ==> body[i] == SummaryOf(sorted[i]);
      Ok(200, body)
  }

  function OwnedBy(donorId: int): Appointment -> bool
  {
    (a: Appointment) => a.donorId == donorId
  }

  function NotOwnedBy(donorId: int): Appointment -> bool
  {
    (a: Appointment) => a.donorId != donorId
  }

  function HasDonorId(id: int): Donor -> bool
  {
    (d: Donor) => d.id == id
  }

  /** `DELETE /api/donors` with body { id }. */
  method Delete(db: Db, session: Option<Session>, id: Option<int>) returns (r: Reply<string>)
    requires db.Valid()
    modifies db`appointments, db`donors
    ensures db.Valid()
    ensures !IsAdmin(session) ==>
              r == Fail(401, "Unauthorized") &&
              db.appointments == old(db.appointments) && db.donors == old(db.donors)
    ensures IsAdmin(session) && Falsy(id) ==>
              r == Fail(400, "ID required") &&
              db.appointments == old(db.appointments) && db.donors == old(db.donors)
    // An id no donor holds: the donor delete fails, and there were no appointments to remove.
    ensures IsAdmin(session) && !Falsy(id) && FindFirst(old(db.donors), HasDonorId(id.value)).None? ==>
              r == Fail(500, "Delete failed") &&
              db.appointments == old(db.appointments) && db.donors == old(db.donors)
    // Otherwise the donor's appointments go first, then the donor.
    ensures IsAdmin(session) && !Falsy(id) && FindFirst(old(db.donors), HasDonorId(id.value)).Some? ==>
              r == Ok(200, "Donor deleted") &&
              db.appointments == Filter(old(db.appointments), NotOwnedBy(id.value)) &&
              db.donors == RemoveAt(old(db.donors), FindFirst(old(db.donors), HasDonorId(id.value)).value)
    // Every other donor keeps exactly the appointments they had.
    ensures forall d :: !(r.Ok? && d == id.value) ==>
              Filter(db.appointments, OwnedBy(d)) == Filter(old(db.appointments), OwnedBy(d))
  {
    if !IsAdmin(session) {
      return Fail(401, "Unauthorized");
    }
    if Falsy(id) {
      return Fail(400, "ID required");
    }
    var d := id.value;
    var found := FindFirst(db.donors, HasDonorId(d));
    RemoveAppointmentsOf(db, d);
    if found.None? {
      return Fail(500, "Delete failed");
    }
    RemoveDonor(db, found.value);
    r := Ok(200, "Donor deleted");
  }

  /** `appointment.deleteMany({ where: { donor_id } })`. Without such a donor there is nothing
      to delete, since every appointment names an existing donor. */
  method RemoveAppointmentsOf(db: Db, donorId: int)
    requires db.Valid()
    modifies db`appointments
    ensures db.Valid()
    ensures db.appointments == Filter(old(db.appointments), NotOwnedBy(donorId))
    ensures forall i :: 0 <= i < |db.appointments| ==> db.appointments[i].donorId != donorId
    ensures FindFirst(db.donors, HasDonorId(donorId)).None? ==> db.appointments == old(db.appointments)
    ensures forall d :: d != donorId ==>
              Filter(db.appointments, OwnedBy(d)) == Filter(old(db.appointments), OwnedBy(d))
  {
    var kept := Filter(db.appointments, NotOwnedBy(donorId));
    if FindFirst(db.donors, HasDonorId(donorId)).None? {
      forall x | x in db.appointments
        ensures NotOwnedBy(donorId)(x)
      {
        var i :| 0 <= i < |db.appointments| && db.appointments[i] == x;
        assert DonorExists(db.donors, x.donorId);
      }
      FilterAll(db.appointments, NotOwnedBy(donorId));
    }
    forall d | d != donorId
      ensures Filter(kept, OwnedBy(d)) == Filter(db.appointments, OwnedBy(d))
    {
      FilterFilter(db.appointments, NotOwnedBy(donorId), OwnedBy(d));
    }
    FilterKeepsKeysDistinct(db.appointments, NotOwnedBy(donorId), AppointmentIdOf);
    FilterKeepsBelow(db.appointments, NotOwnedBy(donorId), AppointmentIdOf, db.nextAppointmentId);
    forall i | 0 <= i < |kept|
      ensures DonorExists(db.donors, kept[i].donorId)
    {
      assert kept[i] in db.appointments;
    }
    db.appointments := kept;
  }

  /** `donor.delete` of the row at k, once none of the donor's appointments is left. */
  method RemoveDonor(db: Db, k: nat)
    requires db.Valid() && k < |db.donors|
    requires forall i :: 0 <= i < |db.appointments| ==> db.appointments[i].donorId != db.donors[k].id
    modifies db`donors
    ensures db.Valid()
    ensures db.donors == RemoveAt(old(db.donors), k)
  {
    var rest := RemoveAt(db.donors, k);
    RemoveKeepsKeys(db.donors, k, DonorIdOf, DonorIdOf, db.nextDonorId);
    RemoveKeepsDistinct(db.donors, k, DonorPhoneOf);
    RemoveKeepsDistinct(db.donors, k, DonorEmailOf);
    forall i | 0 <= i < |db.appointments|
      ensures DonorExists(rest, db.appointments[i].donorId)
    {
      var j :| 0 <= j < |db.donors| && db.donors[j].id == db.appointments[i].donorId;
      assert j != k;
      if j < k {
        assert rest[j] == db.donors[j];
      } else {
        assert rest[j - 1] == db.donors[j];
      }
    }
    db.donors := rest;
  }
}
