/** The blood request reconciler (app/api/requests/route.ts): a request is accepted only for a
    registered (id, name) recipient pair; an administrator approves it against the stock of
    its blood group, which is then decremented, or rejects it. Either way the request row is
    deleted: the code keeps no resolved requests. */
module RequestsRoute {

  import opened Wrappers
  import opened Query
  import opened Schema
  import opened Database
  import StockRoute

  /** The fields `requestSchema` keeps from the body (it strips every other key). */
  datatype RequestForm = RequestForm(recipientName: string, bloodGroup: string, units: int,
                                     recipientId: int)

  /** `requestSchema`: name of at least 2 characters, a non-empty group, units and id at least 1. */
  predicate FormValid(f: RequestForm)
  {
    |f.recipientName| >= 2 && |f.bloodGroup| >= 1 && f.units >= 1 && f.recipientId >= 1
  }

  /** The composite unique key `reci_id_reci_name`. */
  function IsRecipient(id: int, name: string): Recipient -> bool
  {
    (r: Recipient) => r.id == id && r.name == name
  }

  function HasId(id: int): BloodRequest -> bool
  {
    (r: BloodRequest) => r.id == id
  }

  const AdminFallback := "admin@bloodbank.com"

  /** `POST /api/requests` (no session is required). `adminEmail` is the ADMIN_EMAIL setting. */
  method Submit(db: Db, form: RequestForm, adminEmail: Option<string>)
    returns (r: Reply<BloodRequest>, mail: seq<Email>)
    requires db.Valid()
    modifies db`requests, db`nextRequestId
    ensures db.Valid()
    ensures !FormValid(form) ==>
              r == Fail(400, ValidationFailed) && mail == [] &&
              db.requests == old(db.requests) && db.nextRequestId == old(db.nextRequestId)
    // Without a recipient holding exactly this (id, name) pair nothing is inserted.
    ensures FormValid(form) && FindFirst(db.recipients, IsRecipient(form.recipientId, form.recipientName)).None? ==>
              r == Fail(400, "Invalid Recipient ID or Name") && mail == [] &&
              db.requests == old(db.requests) && db.nextRequestId == old(db.nextRequestId)
    ensures FormValid(form) && FindFirst(db.recipients, IsRecipient(form.recipientId, form.recipientName)).Some? ==>
              var row := BloodRequest(old(db.nextRequestId), form.recipientName, form.recipientId,
                                      form.bloodGroup, form.units, None, None, None, None);
              r == Ok(201, row) && db.requests == old(db.requests) + [row] &&
              db.nextRequestId == old(db.nextRequestId) + 1 &&
              mail == [Email(OrElse(adminEmail, AdminFallback), "New Blood Request Received")]
    // Every accepted request did pass the schema.
    ensures r.Ok? ==>
              FormValid(form) &&
              exists i :: 0 <= i < |db.recipients| && db.recipients[i].id == r.body.recipientId &&
                          db.recipients[i].name == r.body.recipientName
  {
    mail := [];
    if !FormValid(form) {
      return Fail(400, ValidationFailed), mail;
    }
    var recipient := FindFirst(db.recipients, IsRecipient(form.recipientId, form.recipientName));
    if recipient.None? {
      return Fail(400, "Invalid Recipient ID or Name"), mail;
    }
    var row := BloodRequest(db.nextRequestId, form.recipientName, form.recipientId,
                            form.bloodGroup, form.units, None, None, None, None);
    AppendBelow(db.requests, row, RequestIdOf, db.nextRequestId);
    AppendDistinct(db.requests, row, RequestIdOf);
    db.requests, db.nextRequestId := db.requests + [row], db.nextRequestId + 1;
    mail := [Email(OrElse(adminEmail, AdminFallback), "New Blood Request Received")];
    assert IsRecipient(form.recipientId, form.recipientName)(db.recipients[recipient.value]);
    r := Ok(201, row);
  }

  /** Prisma's `{ decrement: n }`: a NULL column stays NULL. */
  function Decrement(q: Option<int>, n: int): (r: Option<int>)
    ensures r.None? <==> q.None?
    // Adding the units back restores the old value, so a positive decrement always lowers it.
    ensures r.Some? ==> r.value + n == q.value
    ensures r.Some? && n >= 1 ==> r.value < q.value
  {
    match q
    case None => None
    case Some(v) => Some(v - n)
  }

  /** The approval test: a stock row exists and its quantity (null read as 0) covers the units. */
  predicate Sufficient(stock: seq<StockRow>, req: BloodRequest)
  {
    var s := FindFirst(stock, StockRoute.HasGroup(req.bloodGroup));
    s.Some? && stock[s.value].quantity.GetOr(0) >= req.units
  }

  /** The stock table after a sufficient approval: its group's row lowered by the units. */
  function Deducted(stock: seq<StockRow>, req: BloodRequest): (r: seq<StockRow>)
    requires Sufficient(stock, req)
    ensures |r| == |stock|
  {
    var k := FindFirst(stock, StockRoute.HasGroup(req.bloodGroup)).value;
    stock[k := stock[k].(quantity := Decrement(stock[k].quantity, req.units))]
  }

  /** A sufficient approval lowers exactly its group's row, by exactly the units, never below 0. */
  lemma DeductedExactly(stock: seq<StockRow>, req: BloodRequest)
    requires Sufficient(stock, req)
    requires req.units >= 1
    ensures var k := FindFirst(stock, StockRoute.HasGroup(req.bloodGroup)).value;
            && stock[k].quantity.Some?
            && Deducted(stock, req)[k].quantity == Some(stock[k].quantity.value - req.units)
            && Deducted(stock, req)[k].quantity.value >= 0
            && forall j :: 0 <= j < |stock| && j != k ==> Deducted(stock, req)[j] == stock[j]
  {
    DeductedRow(stock, req);
    DeductedOthers(stock, req);
  }

  lemma DeductedRow(stock: seq<StockRow>, req: BloodRequest)
    requires Sufficient(stock, req)
    requires req.units >= 1
    ensures var k := FindFirst(stock, StockRoute.HasGroup(req.bloodGroup)).value;
            && stock[k].quantity.Some?
            && Deducted(stock, req)[k].quantity == Some(stock[k].quantity.value - req.units)
            && Deducted(stock, req)[k].quantity.value >= 0
  {
  }

  lemma DeductedOthers(stock: seq<StockRow>, req: BloodRequest)
    requires Sufficient(stock, req)
    ensures var k := FindFirst(stock, StockRoute.HasGroup(req.bloodGroup)).value;
            forall j :: 0 <= j < |stock| && j != k ==> Deducted(stock, req)[j] == stock[j]
  {
  }

  /** `PATCH /api/requests` with body { id, action }. */
  method Resolve(db: Db, session: Option<Session>, id: Option<int>, action: Option<string>)
    returns (r: Reply<string>)
    requires db.Valid()
    modifies db`requests, db`stock
    ensures db.Valid()
    ensures !IsAdmin(session) ==>
              r == Fail(401, "Unauthorized") &&
              db.requests == old(db.requests) && db.stock == old(db.stock)
    // A missing id or an unknown action is refused before any lookup.
    ensures IsAdmin(session) && (Falsy(id) || (action != Some("approve") && action != Some("reject"))) ==>
              r == Fail(400, "Invalid action") &&
              db.requests == old(db.requests) && db.stock == old(db.stock)
    // An id no request holds.
    ensures IsAdmin(session) && !Falsy(id) && (action == Some("approve") || action == Some("reject")) &&
            FindFirst(old(db.requests), HasId(id.value)).None? ==>
              r == Fail(404, "Request not found") &&
              db.requests == old(db.requests) && db.stock == old(db.stock)
    // A rejection deletes the request and leaves the stock alone.
    ensures IsAdmin(session) && !Falsy(id) && action == Some("reject") &&
            FindFirst(old(db.requests), HasId(id.value)).Some? ==>
              r == Ok(200, "Request Rejected") && db.stock == old(db.stock) &&
              db.requests == RemoveAt(old(db.requests), FindFirst(old(db.requests), HasId(id.value)).value)
    // An approval the stock cannot cover changes nothing.
    ensures IsAdmin(session) && !Falsy(id) && action == Some("approve") &&
            FindFirst(old(db.requests), HasId(id.value)).Some? &&
            !Sufficient(old(db.stock), old(db.requests)[FindFirst(old(db.requests), HasId(id.value)).value]) ==>
              r == Fail(400, "Insufficient Stock") &&
              db.requests == old(db.requests) && db.stock == old(db.stock)
    // A covered approval deducts the units from the group's row and deletes the request.
    ensures IsAdmin(session) && !Falsy(id) && action == Some("approve") &&
            FindFirst(old(db.requests), HasId(id.value)).Some? &&
            Sufficient(old(db.stock), old(db.requests)[FindFirst(old(db.requests), HasId(id.value)).value]) ==>
              r == Ok(200, "Approved and Stock Deducted") &&
              db.requests == RemoveAt(old(db.requests), FindFirst(old(db.requests), HasId(id.value)).value) &&
              db.stock == Deducted(old(db.stock), old(db.requests)[FindFirst(old(db.requests), HasId(id.value)).value])
    // Whatever resolved the request, no row with its id is left to resolve again.
    ensures r.Ok? ==> forall j :: 0 <= j < |db.requests| ==> db.requests[j].id != id.value
  {
    if !IsAdmin(session) {
      return Fail(401, "Unauthorized");
    }
    if Falsy(id) || (action != Some("approve") && action != Some("reject")) {
      return Fail(400, "Invalid action");
    }
    var found := FindFirst(db.requests, HasId(id.value));
    if found.None? {
      return Fail(404, "Request not found");
    }
    var k := found.value;
    var req := db.requests[k];
    forall j | 0 <= j < |db.requests| && j != k
      ensures db.requests[j].id != id.value
    {
      assert RequestIdOf(db.requests[k]) == id.value;
    }
    if action == Some("approve") {
      if !Sufficient(db.stock, req) {
        return Fail(400, "Insufficient Stock");
      }
      DeductStock(db, req);
      RemoveRequest(db, k);
      r := Ok(200, "Approved and Stock Deducted");
    } else {
      RemoveRequest(db, k);
      r := Ok(200, "Request Rejected");
    }
  }

  /** `blood_request.delete` of the row at k. */
  method RemoveRequest(db: Db, k: nat)
    requires db.Valid() && k < |db.requests|
    modifies db`requests
    ensures db.Valid() && db.requests == RemoveAt(old(db.requests), k)
  {
    RemoveKeepsKeys(db.requests, k, RequestIdOf, RequestIdOf, db.nextRequestId);
    db.requests := RemoveAt(db.requests, k);
  }

  /** `blood_stock.update` with `{ decrement: units }` on the request's group. */
  method DeductStock(db: Db, req: BloodRequest)
    requires db.Valid() && Sufficient(db.stock, req)
    modifies db`stock
    ensures db.Valid() && db.stock == Deducted(old(db.stock), req)
  {
    var s := FindFirst(db.stock, StockRoute.HasGroup(req.bloodGroup)).value;
    var row := db.stock[s].(quantity := Decrement(db.stock[s].quantity, req.units));
    db.OverwriteStock(s, row);
  }

  /** Resolving the same id twice: the second call finds no row, so stock moves at most once. */
  method ResolveTwice(db: Db, session: Option<Session>, id: Option<int>, action: Option<string>)
    returns (first: Reply<string>, second: Reply<string>, ghost afterFirst: seq<StockRow>)
    requires db.Valid()
    modifies db`requests, db`stock
    ensures db.Valid()
    ensures first.Ok? ==> second == Fail(404, "Request not found") && db.stock == afterFirst
  {
    first := Resolve(db, session, id, action);
    afterFirst := db.stock;
    second := Resolve(db, session, id, action);
  }

  /** `orderBy: { id: 'desc' }`. */
  predicate NewestFirst(a: BloodRequest, b: BloodRequest)
  {
    a.id >= b.id
  }

  /** `GET /api/requests`: administrators only, every request, highest id first. */
  function List(session: Option<Session>, rows: seq<BloodRequest>): (r: Reply<seq<BloodRequest>>)
    ensures !IsAdmin(session) <==> r == Fail(401, "Unauthorized")
    ensures r.Ok? ==> r.status == 200 && multiset(r.body) == multiset(rows) && Sorted(r.body, NewestFirst)
  {
    if !IsAdmin(session) then Fail(401, "Unauthorized")
    else
      SortBySorted(rows, NewestFirst);
      Ok(200, SortBy(rows, NewestFirst))
  }
}
