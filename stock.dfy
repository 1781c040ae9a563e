/** The blood stock ledger (app/api/stock/route.ts): one quantity per blood group, changed by
    an administrator with `add`, `subtract` or `set`, floored at zero; and the public listing. */
module StockRoute {

  import opened Wrappers
  import opened Text
  import opened Query
  import opened Schema
  import opened Database

  /** The `where: { b_grp }` test. */
  function HasGroup(g: string): StockRow -> bool
  {
    (r: StockRow) => r.bloodGroup == g
  }

  /** The quantity the update path computes before the floor, for a body quantity `q` that is a
      number or JSON null (None): the stored quantity (NULL read as 0) plus q for `add`, minus
      q for `subtract`, where a null q counts as 0 (`n + null` is `n`); and q itself for any
      other operation, so a null q stays null. */
  function Combined(current: Option<int>, operation: Option<string>, q: Option<int>): Option<int>
  {
    if operation == Some("add") then Some(current.GetOr(0) + q.GetOr(0))
    else if operation == Some("subtract") then Some(current.GetOr(0) - q.GetOr(0))
    else q
  }

  /** The quantity the update path stores: the combined quantity, or 0 if that is negative;
      a null one is stored as NULL (`null < 0` is false). */
  function Stored(current: Option<int>, operation: Option<string>, q: Option<int>): (n: Option<int>)
    ensures n.None? <==> Combined(current, operation, q).None?
    ensures n.Some? ==> n.value >= 0 && n.value >= Combined(current, operation, q).value
    ensures n.Some? ==> n.value == Combined(current, operation, q).value || n.value == 0
  {
    var c := Combined(current, operation, q);
    if c.Some? && c.value < 0 then Some(0) else c
  }

  /** The three operations, and the fall-back to `set`, stated on numbers. */
  lemma StoredCases(current: Option<int>, operation: Option<string>, q: Option<int>)
    ensures operation == Some("add") ==>
              Stored(current, operation, q) == Some(Max0(current.GetOr(0) + q.GetOr(0)))
    ensures operation == Some("subtract") ==>
              Stored(current, operation, q) == Some(Max0(current.GetOr(0) - q.GetOr(0)))
    ensures operation != Some("add") && operation != Some("subtract") ==>
              Stored(current, operation, q) == if q.None? then None else Some(Max0(q.value))
    ensures current == None ==> Stored(current, operation, q) == Stored(Some(0), operation, q)
    // A null quantity leaves the number as it was for `add` and `subtract`, and clears it
    // to NULL for anything else.
    ensures q.None? && (operation == Some("add") || operation == Some("subtract")) ==>
              Stored(current, operation, q) == Some(Max0(current.GetOr(0)))
    ensures q.None? && operation != Some("add") && operation != Some("subtract") ==>
              Stored(current, operation, q).None?
  {
  }

  function Max0(n: int): int { if n < 0 then 0 else n }

  /** A subtraction larger than the stock loses the excess: the stock becomes 0, not negative. */
  lemma SubtractFloorsAtZero(current: int, q: int)
    requires q > current
    ensures Stored(Some(current), Some("subtract"), Some(q)) == Some(0)
  {
  }

  /** `POST /api/stock`. */
  /** `quantity` is None when the body has no such key (`undefined`), Some(None) when it is
      JSON null, and Some(Some(n)) for a number n. */
  method Post(db: Db, session: Option<Session>, group: Option<string>, quantity: Option<Option<int>>,
              operation: Option<string>) returns (r: Reply<StockRow>)
    requires db.Valid()
    modifies db`stock, db`nextStockId
    ensures db.Valid()
    // Only an administrator may change the ledger.
    ensures !IsAdmin(session) ==>
              r == Fail(401, "Unauthorized") && db.stock == old(db.stock) &&
              db.nextStockId == old(db.nextStockId)
    // A missing blood group or an absent quantity is refused before the table is read; a
    // null quantity passes this test.
    ensures IsAdmin(session) && (Blank(group) || quantity.None?) ==>
              r == Fail(400, "Missing required fields") && db.stock == old(db.stock) &&
              db.nextStockId == old(db.nextStockId)
    // No row for the group: a row holding exactly the quantity (NULL for a null one) is
    // created, whatever the operation and even when it is negative.
    ensures IsAdmin(session) && !Blank(group) && quantity.Some? &&
            FindFirst(old(db.stock), HasGroup(group.value)).None? ==>
              var row := StockRow(old(db.nextStockId), group.value, quantity.value);
              r == Ok(200, row) && db.stock == old(db.stock) + [row] &&
              db.nextStockId == old(db.nextStockId) + 1
    // The group's row: its quantity becomes the floored result; every other row is untouched.
    ensures IsAdmin(session) && !Blank(group) && quantity.Some? &&
            FindFirst(old(db.stock), HasGroup(group.value)).Some? ==>
              var k := FindFirst(old(db.stock), HasGroup(group.value)).value;
              var row := old(db.stock)[k].(quantity :=
                           Stored(old(db.stock)[k].quantity, operation, quantity.value));
              r == Ok(200, row) && db.stock == old(db.stock)[k := row] &&
              db.nextStockId == old(db.nextStockId) &&
              (row.quantity.Some? ==> row.quantity.value >= 0) &&
              (forall j :: 0 <= j < |db.stock| && j != k ==> db.stock[j] == old(db.stock)[j]) &&
              (forall j :: 0 <= j < |db.stock| && j != k ==> db.stock[j].bloodGroup != group.value)
  {
    if !IsAdmin(session) {
      return Fail(401, "Unauthorized");
    }
    if Blank(group) || quantity.None? {
      return Fail(400, "Missing required fields");
    }
    var g, q := group.value, quantity.value;
    var existing := FindFirst(db.stock, HasGroup(g));
    if existing.None? {
      var row := StockRow(db.nextStockId, g, q);
      assert forall i :: 0 <= i < |db.stock| ==> !HasGroup(g)(db.stock[i]);
      db.InsertStock(row);
      return Ok(200, row);
    }
    var k := existing.value;
    var newQuantity := Some(db.stock[k].quantity.GetOr(0));
    if operation == Some("add") {
      newQuantity := Some(newQuantity.value + q.GetOr(0));
    } else if operation == Some("subtract") {
      newQuantity := Some(newQuantity.value - q.GetOr(0));
    } else {
      newQuantity := q;
    }
    if newQuantity.Some? && newQuantity.value < 0 {
      newQuantity := Some(0);
    }
    var row := db.stock[k].(quantity := newQuantity);
    db.OverwriteStock(k, row);
    r := Ok(200, row);
  }

  /** `orderBy: { b_grp: 'asc' }`. */
  predicate ByGroup(a: StockRow, b: StockRow)
  {
    StrLe(a.bloodGroup, b.bloodGroup)
  }

  lemma ByGroupIsTotalPreorder()
    ensures TotalPreorder(ByGroup)
  {
    forall a: StockRow, b: StockRow
      ensures ByGroup(a, b) || ByGroup(b, a)
    {
      StrLeTotal(a.bloodGroup, b.bloodGroup);
    }
    forall a: StockRow, b: StockRow, c: StockRow | ByGroup(a, b) && ByGroup(b, c)
      ensures ByGroup(a, c)
    {
      StrLeTransitive(a.bloodGroup, b.bloodGroup, c.bloodGroup);
    }
  }

  /** `GET /api/stock` (no session is required): every row, ordered by blood group. */
  function List(rows: seq<StockRow>): (r: seq<StockRow>)
    ensures multiset(r) == multiset(rows)
    ensures Sorted(r, ByGroup)
  {
    ByGroupIsTotalPreorder();
    SortBySorted(rows, ByGroup);
    SortBy(rows, ByGroup)
  }
}
