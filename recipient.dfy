/** The recipient registry (app/api/recipient/route.ts): public registration with one
    recipient per phone number, and the administrator's listing. */
module RecipientRoute {

  import opened Wrappers
  import opened Text
  import opened Query
  import opened Schema
  import opened Database

  /** The fields `recipientSchema` keeps from the body. */
  datatype RecipientForm = RecipientForm(
    name: string, age: int, sex: string, phone: string, bloodGroup: string,
    hospital: Option<string>, doctor: Option<string>, address: Option<string>,
    urgency: Option<string>, purpose: Option<string>)

  /** `recipientSchema`. */
  predicate FormValid(f: RecipientForm)
  {
    && |f.name| >= 2
    && 1 <= f.age <= 120
    && (f.sex == "Male" || f.sex == "Female" || f.sex == "Other")
    && IsTenDigits(f.phone)
    && |f.bloodGroup| >= 1
    && (f.hospital.None? || |f.hospital.value| >= 2)
  }

  const DefaultUrgency := "Normal"

  /** The row `recipient.create` stores: empty optional texts become NULL and a missing
      urgency becomes "Normal". */
  function NewRecipient(id: int, f: RecipientForm, now: int): (r: Recipient)
    ensures r.hospital.None? <==> Blank(f.hospital)
    ensures r.doctor.None? <==> Blank(f.doctor)
    ensures r.address.None? <==> Blank(f.address)
    ensures r.purpose.None? <==> Blank(f.purpose)
    ensures !Blank(f.hospital) ==> r.hospital == f.hospital
    ensures !Blank(f.doctor) ==> r.doctor == f.doctor
    ensures !Blank(f.address) ==> r.address == f.address
    ensures !Blank(f.purpose) ==> r.purpose == f.purpose
    ensures Blank(f.urgency) ==> r.urgency == DefaultUrgency
    ensures !Blank(f.urgency) ==> r.urgency == f.urgency.value
    ensures r.name == f.name && r.age == f.age && r.sex == f.sex && r.bloodGroup == f.bloodGroup
    ensures r.phone == f.phone && r.id == id && r.registeredAt == now
  {
    Recipient(id, f.name, f.age, f.sex, f.phone, f.bloodGroup, OrNull(f.hospital),
              OrNull(f.doctor), OrNull(f.address), OrElse(f.urgency, DefaultUrgency),
              OrNull(f.purpose), now)
  }

  function HasPhone(phone: string): Recipient -> bool
  {
    (r: Recipient) => r.phone == phone
  }

  /** `POST /api/recipient` at time `now`. A 409 answer also carries the id of the recipient
      already holding the phone number, returned in `existingId`. */
  method Register(db: Db, f: RecipientForm, now: int)
    returns (r: Reply<Recipient>, existingId: Option<int>)
    requires db.Valid()
    modifies db`recipients, db`nextRecipientId
    ensures db.Valid()
    ensures r.Fail? ==> db.recipients == old(db.recipients) &&
                        db.nextRecipientId == old(db.nextRecipientId)
    ensures !FormValid(f) ==> r == Fail(400, ValidationFailed) && existingId.None?
    // A phone number already registered: 409 with that recipient's id, nothing inserted.
    ensures FormValid(f) && FindFirst(old(db.recipients), HasPhone(f.phone)).Some? ==>
              r == Fail(409, "A recipient with this phone number is already registered") &&
              existingId == Some(old(db.recipients)[FindFirst(old(db.recipients), HasPhone(f.phone)).value].id) &&
              existingId.value in set i | 0 <= i < |old(db.recipients)| && old(db.recipients)[i].phone == f.phone :: old(db.recipients)[i].id
    ensures FormValid(f) && FindFirst(old(db.recipients), HasPhone(f.phone)).None? ==>
              var row := NewRecipient(old(db.nextRecipientId), f, now);
              r == Ok(201, row) && existingId.None? &&
              db.recipients == old(db.recipients) + [row] &&
              db.nextRecipientId == old(db.nextRecipientId) + 1
  {
    existingId := None;
    if !FormValid(f) {
      return Fail(400, ValidationFailed), existingId;
    }
    var existing := FindFirst(db.recipients, HasPhone(f.phone));
    if existing.Some? {
      existingId := Some(db.recipients[existing.value].id);
      return Fail(409, "A recipient with this phone number is already registered"), existingId;
    }
    var row := NewRecipient(db.nextRecipientId, f, now);
    AppendBelow(db.recipients, row, RecipientIdOf, db.nextRecipientId);
    CounterIsFresh(db.recipients, RecipientIdOf, db.nextRecipientId);
    AppendDistinct(db.recipients, row, RecipientIdOf);
    assert forall i :: 0 <= i < |db.recipients| ==> !HasPhone(f.phone)(db.recipients[i]);
    AppendDistinct(db.recipients, row, RecipientPhoneOf);
    db.recipients, db.nextRecipientId := db.recipients + [row], db.nextRecipientId + 1;
    r := Ok(201, row);
  }

  /** `orderBy: { reci_id: 'desc' }`. */
  predicate HigherIdFirst(a: Recipient, b: Recipient)
  {
    a.id >= b.id
  }

  /** `GET /api/recipient`: administrators only, every recipient, highest id first. */
  function List(session: Option<Session>, rows: seq<Recipient>): (r: Reply<seq<Recipient>>)
    ensures !IsAdmin(session) <==> r == Fail(401, "Unauthorized")
    ensures r.Ok? ==> r.status == 200 && multiset(r.body) == multiset(rows) &&
                      Sorted(r.body, HigherIdFirst)
  {
    if !IsAdmin(session) then Fail(401, "Unauthorized")
    else
      SortBySorted(rows, HigherIdFirst);
      Ok(200, SortBy(rows, HigherIdFirst))
  }
}
