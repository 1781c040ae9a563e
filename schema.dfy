/** The rows of the relational store the handlers read and write (after types/index.ts and the
    columns the handlers name), the caller's session, and the constraints each table keeps:
    primary keys from an autoincrement counter, the unique columns, and the appointment's
    foreign key to its donor. Dates and times are integer milliseconds. */
module Schema {

  import opened Wrappers
  import opened Query

  /** Milliseconds in a day, the unit of every date difference the handlers take. */
  const DayMs := 86400000

  /** The two roles a session can carry. */
  datatype Role = AdminRole | DonorRole

  /** The session the authentication layer hands to a handler: a role (absent when the token
      carried none) and the numeric user id that `parseInt(session.user.id)` yields. */
  datatype Session = Session(role: Option<Role>, userId: int)

  /** `!session || session.user.role !== 'admin'` is false. */
  predicate IsAdmin(s: Option<Session>)
  {
    s.Some? && s.value.role == Some(AdminRole)
  }

  /** `!session || session.user.role !== 'donor'` is false. */
  predicate IsDonor(s: Option<Session>)
  {
    s.Some? && s.value.role == Some(DonorRole)
  }

  /** blood_stock: stockid, b_grp, B_qnty (nullable). */
  datatype StockRow = StockRow(stockId: int, bloodGroup: string, quantity: Option<int>)

  /** blood_request: id, reci_name, reci_id, reci_bgrp, reci_bqnty, urgency, purpose, hospital, status. */
  datatype BloodRequest = BloodRequest(
    id: int, recipientName: string, recipientId: int, bloodGroup: string, units: int,
    urgency: Option<string>, purpose: Option<string>, hospital: Option<string>,
    status: Option<string>)

  /** recipient: reci_id, reci_name, reci_age, reci_sex, reci_phno, reci_bgrp, reci_hospital,
      reci_doctor, reci_address, reci_urgency, reci_purpose, reci_reg_date. */
  datatype Recipient = Recipient(
    id: int, name: string, age: int, sex: string, phone: string, bloodGroup: string,
    hospital: Option<string>, doctor: Option<string>, address: Option<string>,
    urgency: string, purpose: Option<string>, registeredAt: int)

  /** donor: D_id, D_name, D_age, D_sex, D_phno, D_bgrp, D_weight, D_email, D_address, HLevel,
      BS, BP, diseases, rdate, last_donation, eligibility, password (a hash). */
  datatype Donor = Donor(
    id: int, name: string, age: int, sex: string, phone: string, bloodGroup: string,
    weight: Option<int>, email: string, address: Option<string>,
    haemoglobin: Option<string>, sugar: Option<string>, pressure: Option<string>,
    diseases: Option<string>, registeredAt: int, lastDonation: Option<int>,
    eligibility: string, passwordHash: Option<string>)

  /** A notification handed to the mail transport; only the recipient and the subject are kept. */
  datatype Email = Email(to: string, subject: string)

  /** The message a failed schema validation answers with (the handlers send the issue list). */
  const ValidationFailed := "Invalid input"

  datatype AppointmentStatus = Pending | Approved | Rejected | Completed

  /** appointment: id, donor_id, date, status, donation_type, units, created_at. */
  datatype Appointment = Appointment(
    id: int, donorId: int, date: int, status: AppointmentStatus,
    donationType: Option<string>, units: Option<int>, createdAt: int)

  /** verification_token: identifier (an email), token (the code), expires. */
  datatype VerificationToken = VerificationToken(identifier: string, token: string, expires: int)

  /** users (administrators): id, name, email, phone, password (a hash). */
  datatype AdminUser = AdminUser(id: int, name: string, email: string, phone: string,
                                 passwordHash: Option<string>)

  /** The donor columns every donor-facing `select` returns: all but the password. */
  datatype DonorProfile = DonorProfile(
    id: int, name: string, email: string, phone: string, bloodGroup: string, sex: string,
    age: int, weight: Option<int>, address: Option<string>, diseases: Option<string>,
    haemoglobin: Option<string>, sugar: Option<string>, pressure: Option<string>,
    lastDonation: Option<int>, eligibility: string, registeredAt: int)

  function ProfileOf(d: Donor): (p: DonorProfile)
    ensures p.id == d.id && p.email == d.email && p.phone == d.phone && p.name == d.name
    ensures p.eligibility == d.eligibility && p.lastDonation == d.lastDonation
  {
    DonorProfile(d.id, d.name, d.email, d.phone, d.bloodGroup, d.sex, d.age, d.weight,
                 d.address, d.diseases, d.haemoglobin, d.sugar, d.pressure, d.lastDonation,
                 d.eligibility, d.registeredAt)
  }

  // Keys of each table, as named functions so that invariants can share them.

  function StockIdOf(r: StockRow): int { r.stockId }
  function StockGroupOf(r: StockRow): string { r.bloodGroup }
  function RequestIdOf(r: BloodRequest): int { r.id }
  function RecipientIdOf(r: Recipient): int { r.id }
  function RecipientPhoneOf(r: Recipient): string { r.phone }
  function DonorIdOf(d: Donor): int { d.id }
  function DonorPhoneOf(d: Donor): string { d.phone }
  function DonorEmailOf(d: Donor): string { d.email }
  function AppointmentIdOf(a: Appointment): int { a.id }
  function TokenKeyOf(t: VerificationToken): (string, string) { (t.identifier, t.token) }
  function UserIdOf(u: AdminUser): int { u.id }

  /** One row per blood group, each with its own stock id. */
  ghost predicate StockValid(rows: seq<StockRow>, next: int)
  {
    KeysBelow(rows, StockIdOf, next) && KeysDistinct(rows, StockIdOf) &&
    KeysDistinct(rows, StockGroupOf)
  }

  /** Request ids are keys, and every request asks for at least one unit (the request form and
      the seed both insist on it). */
  ghost predicate RequestsValid(rows: seq<BloodRequest>, next: int)
  {
    KeysBelow(rows, RequestIdOf, next) && KeysDistinct(rows, RequestIdOf) &&
    forall i :: 0 <= i < |rows| ==> rows[i].units >= 1
  }

  /** Recipient ids are keys and phone numbers are unique. */
  ghost predicate RecipientsValid(rows: seq<Recipient>, next: int)
  {
    KeysBelow(rows, RecipientIdOf, next) && KeysDistinct(rows, RecipientIdOf) &&
    KeysDistinct(rows, RecipientPhoneOf)
  }

  /** Donor ids are keys; phone numbers and emails are each unique among donors. */
  ghost predicate DonorsValid(rows: seq<Donor>, next: int)
  {
    KeysBelow(rows, DonorIdOf, next) && KeysDistinct(rows, DonorIdOf) &&
    KeysDistinct(rows, DonorPhoneOf) && KeysDistinct(rows, DonorEmailOf)
  }

  predicate DonorExists(donors: seq<Donor>, id: int)
  {
    exists j :: 0 <= j < |donors| && donors[j].id == id
  }

  /** Appointment ids are keys and every appointment belongs to an existing donor. */
  ghost predicate AppointmentsValid(rows: seq<Appointment>, next: int, donors: seq<Donor>)
  {
    KeysBelow(rows, AppointmentIdOf, next) && KeysDistinct(rows, AppointmentIdOf) &&
    forall i :: 0 <= i < |rows| ==> DonorExists(donors, rows[i].donorId)
  }

  /** (identifier, token) is the composite key of verification_token. */
  ghost predicate TokensValid(rows: seq<VerificationToken>)
  {
    KeysDistinct(rows, TokenKeyOf)
  }

  ghost predicate UsersValid(rows: seq<AdminUser>, next: int)
  {
    KeysBelow(rows, UserIdOf, next) && KeysDistinct(rows, UserIdOf)
  }

  /** Appending a row whose key is the counter keeps the keys below the next counter value. */
  lemma AppendBelow<T>(rows: seq<T>, x: T, key: T -> int, next: int)
    requires KeysBelow(rows, key, next) && key(x) == next && 1 <= next
    ensures KeysBelow(rows + [x], key, next + 1)
  {
  }

  /** Appending a row whose key no row has keeps the keys distinct. */
  lemma AppendDistinct<T, K>(rows: seq<T>, x: T, key: T -> K)
    requires KeysDistinct(rows, key)
    requires forall i :: 0 <= i < |rows| ==> key(rows[i]) != key(x)
    ensures KeysDistinct(rows + [x], key)
  {
    var r := rows + [x];
    forall i, j | 0 <= i < j < |r|
      ensures key(r[i]) != key(r[j])
    {
      assert r[i] == rows[i];
      if j < |rows| {
        assert r[j] == rows[j];
      }
    }
  }

  /** A fresh autoincrement key is not held by any row. */
  lemma CounterIsFresh<T>(rows: seq<T>, key: T -> int, next: int)
    requires KeysBelow(rows, key, next)
    ensures forall i :: 0 <= i < |rows| ==> key(rows[i]) != next
  {
  }

  /** Deleting a row keeps the other rows' keys distinct. */
  lemma RemoveKeepsDistinct<T, K>(rows: seq<T>, k: nat, key: T -> K)
    requires k < |rows| && KeysDistinct(rows, key)
    ensures KeysDistinct(RemoveAt(rows, k), key)
  {
    var r := RemoveAt(rows, k);
    forall i, j | 0 <= i < j < |r|
      ensures key(r[i]) != key(r[j])
    {
      var i' := if i < k then i else i + 1;
      var j' := if j < k then j else j + 1;
      assert r[i] == rows[i'] && r[j] == rows[j'];
    }
  }

  /** Deleting a row keeps a table's keys distinct and below its counter. */
  lemma RemoveKeepsKeys<T, K>(rows: seq<T>, k: nat, key: T -> K, below: T -> int, next: int)
    requires k < |rows|
    requires KeysDistinct(rows, key) && KeysBelow(rows, below, next)
    ensures KeysDistinct(RemoveAt(rows, k), key) && KeysBelow(RemoveAt(rows, k), below, next)
  {
    RemoveKeepsDistinct(rows, k, key);
  }

  /** Overwriting a row with one that keeps the row's key keeps the keys. */
  lemma UpdateKeepsKeys<T, K>(rows: seq<T>, k: nat, x: T, key: T -> K)
    requires k < |rows| && key(x) == key(rows[k])
    requires KeysDistinct(rows, key)
    ensures KeysDistinct(rows[k := x], key)
  {
    var r := rows[k := x];
    forall i, j | 0 <= i < j < |r|
      ensures key(r[i]) != key(r[j])
    {
      assert key(r[i]) == key(rows[i]) && key(r[j]) == key(rows[j]);
    }
  }

  /** With distinct keys, the row holding a key is the only one. */
  lemma KeyedRowUnique<T, K>(rows: seq<T>, key: T -> K, k: nat, m: nat)
    requires KeysDistinct(rows, key)
    requires k < |rows| && m < |rows| && key(rows[k]) == key(rows[m])
    ensures k == m
  {
  }

  /** Adding a donor keeps every appointment's donor. */
  lemma AppendDonorKeepsAppointments(rows: seq<Appointment>, next: int, donors: seq<Donor>, d: Donor)
    requires AppointmentsValid(rows, next, donors)
    ensures AppointmentsValid(rows, next, donors + [d])
  {
    forall i | 0 <= i < |rows|
      ensures DonorExists(donors + [d], rows[i].donorId)
    {
      var j :| 0 <= j < |donors| && donors[j].id == rows[i].donorId;
      assert (donors + [d])[j] == donors[j];
    }
  }

  /** Rewriting donor rows without changing their ids keeps every appointment's donor. */
  lemma SameIdsKeepAppointments(rows: seq<Appointment>, next: int, donors: seq<Donor>,
                                donors': seq<Donor>)
    requires AppointmentsValid(rows, next, donors)
    requires |donors'| == |donors|
    requires forall j :: 0 <= j < |donors| ==> donors'[j].id == donors[j].id
    ensures AppointmentsValid(rows, next, donors')
  {
    forall i | 0 <= i < |rows|
      ensures DonorExists(donors', rows[i].donorId)
    {
      var j :| 0 <= j < |donors| && donors[j].id == rows[i].donorId;
      assert donors'[j].id == rows[i].donorId;
    }
  }
}
