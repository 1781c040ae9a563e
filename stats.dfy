/** The administrator's dashboard figures (app/api/admin/stats/route.ts): table counts, the
    total of the stock, the groups running low and the latest approved or completed
    appointments. The handler writes nothing. */
module StatsRoute {

  import opened Wrappers
  import opened Query
  import opened Schema
  import StockRoute

  /** The JSON body of a successful call. */
  datatype Stats = Stats(
    totalDonors: nat, totalRequests: nat, totalStock: int, totalRecipients: nat,
    stockByGroup: seq<StockRow>, pendingAppointments: nat, lowStock: seq<StockRow>,
    recentActivity: seq<Appointment>)

  /** The `_sum` of `B_qnty`: as in SQL, NULL quantities are skipped and the sum of no
      quantity at all is NULL. */
  function QuantitySum(rows: seq<StockRow>): (r: Option<int>)
    ensures r.None? <==> forall i :: 0 <= i < |rows| ==> rows[i].quantity.None?
  {
    if rows == [] then None
    else
      var rest := QuantitySum(rows[1..]);
      assert forall i :: 1 <= i < |rows| ==> rows[i] == rows[1..][i - 1];
      match (rows[0].quantity, rest)
      case (None, _) => rest
      case (Some(q), None) => Some(q)
      case (Some(q), Some(t)) => Some(q + t)
  }

  /** The stock in units with a NULL quantity read as 0: the figure the dashboard promises. */
  function Units(rows: seq<StockRow>): int
  {
    if rows == [] then 0 else rows[0].quantity.GetOr(0) + Units(rows[1..])
  }

  /** `totalStock: _sum.B_qnty || 0` is the total of every quantity, NULL counted as 0. */
  lemma {:induction false} TotalStockIsUnits(rows: seq<StockRow>)
    ensures QuantitySum(rows).GetOr(0) == Units(rows)
  {
    if rows != [] {
      TotalStockIsUnits(rows[1..]);
    }
  }

  /** `(s.B_qnty || 0) <= 5`. */
  predicate Low(s: StockRow)
  {
    s.quantity.GetOr(0) <= 5
  }

  /** `status: { in: ['APPROVED', 'COMPLETED'] }`. */
  predicate Active(a: Appointment)
  {
    a.status == Approved || a.status == Completed
  }

  predicate IsPending(a: Appointment)
  {
    a.status == Pending
  }

  /** `orderBy: { created_at: 'desc' }`. */
  predicate NewerFirst(a: Appointment, b: Appointment)
  {
    a.createdAt >= b.createdAt
  }

  const RecentCount := 5

  /** The rows at or below five units, in the order of the listing by group. */
  function LowStock(stock: seq<StockRow>): (r: seq<StockRow>)
    ensures forall x :: x in r <==> x in stock && Low(x)
    ensures Sorted(r, StockRoute.ByGroup)
    ensures IsSubsequence(r, StockRoute.List(stock))
  {
    var byGroup := StockRoute.List(stock);
    assert forall x :: x in byGroup <==> x in multiset(stock);
    FilterKeepsSorted(byGroup, Low, StockRoute.ByGroup);
    FilterIsSubsequence(byGroup, Low);
    Filter(byGroup, Low)
  }

  /** The newest five approved or completed appointments, newest first. */
  function RecentActivity(appointments: seq<Appointment>): (r: seq<Appointment>)
    ensures |r| == if Count(appointments, Active) < RecentCount then Count(appointments, Active)
                   else RecentCount
    ensures forall i :: 0 <= i < |r| ==> Active(r[i]) && r[i] in appointments
    ensures Sorted(r, NewerFirst)
    // Every active appointment left out is no newer than any shown.
    ensures forall x, i :: x in appointments && Active(x) && x !in r && 0 <= i < |r| ==>
              r[i].createdAt >= x.createdAt
  {
    var active := Filter(appointments, Active);
    var sorted := SortBy(active, NewerFirst);
    RecentIsNewest(appointments, active, sorted);
    Take(sorted, RecentCount)
  }

  lemma RecentIsNewest(appointments: seq<Appointment>, active: seq<Appointment>, sorted: seq<Appointment>)
    requires active == Filter(appointments, Active) && sorted == SortBy(active, NewerFirst)
    ensures |Take(sorted, RecentCount)| ==
            if Count(appointments, Active) < RecentCount then Count(appointments, Active) else RecentCount
    ensures Sorted(Take(sorted, RecentCount), NewerFirst)
    ensures forall i :: 0 <= i < |Take(sorted, RecentCount)| ==>
              Active(Take(sorted, RecentCount)[i]) && Take(sorted, RecentCount)[i] in appointments
    ensures forall x, i ::
              x in appointments && Active(x) && x !in Take(sorted, RecentCount) &&
              0 <= i < |Take(sorted, RecentCount)| ==>
                Take(sorted, RecentCount)[i].createdAt >= x.createdAt
  {
    SortBySorted(active, NewerFirst);
    CountIsFilterLength(appointments, Active);
    var r := Take(sorted, RecentCount);
    forall i | 0 <= i < |r|
      ensures Active(r[i]) && r[i] in appointments
    {
      assert r[i] == sorted[i];
      assert sorted[i] in multiset(active);
    }
    forall x, i | x in appointments && Active(x) && x !in r && 0 <= i < |r|
      ensures r[i].createdAt >= x.createdAt
    {
      assert x in multiset(sorted);
      TakeSortedFirst(sorted, RecentCount, NewerFirst, x);
    }
  }

  /** `GET /api/admin/stats`, over the tables as they stand. */
  function Get(session: Option<Session>, stock: seq<StockRow>, requests: seq<BloodRequest>,
               recipients: seq<Recipient>, donors: seq<Donor>, appointments: seq<Appointment>)
    : (r: Reply<Stats>)
    ensures !IsAdmin(session) <==> r == Fail(401, "Unauthorized")
    ensures r.Ok? ==>
              && r.status == 200
              && r.body.totalDonors == |donors| && r.body.totalRequests == |requests|
              && r.body.totalRecipients == |recipients|
              && r.body.totalStock == Units(stock)
              && r.body.pendingAppointments == Count(appointments, IsPending)
              && r.body.stockByGroup == StockRoute.List(stock)
              && r.body.lowStock == LowStock(stock)
              && r.body.recentActivity == RecentActivity(appointments)
  {
    if !IsAdmin(session) then Fail(401, "Unauthorized")
    else
      TotalStockIsUnits(stock);
      Ok(200, Stats(|donors|, |requests|, QuantitySum(stock).GetOr(0), |recipients|,
                    StockRoute.List(stock), Count(appointments, IsPending), LowStock(stock),
                    RecentActivity(appointments)))
  }
}
