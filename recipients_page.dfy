/** The administrator's recipient list (app/admin/recipients/page.tsx): a text search over
    name, phone, hospital and blood group, an urgency filter, and the count of critical
    recipients shown beside the title. The page works on the JSON rows the listing returns,
    in which the nullable columns may be null. */
module RecipientsPage {

  import opened Wrappers
  import opened Text
  import opened Query
  import Schema

  /** The page's `Recipient` interface, restricted to the columns the filter reads. */
  datatype Row = Row(id: int, name: string, phone: Option<string>, bloodGroup: Option<string>,
                     hospital: Option<string>, urgency: Option<string>)

  /** A stored recipient as the listing's JSON presents it. */
  function RowOf(r: Schema.Recipient): (v: Row)
    ensures v.id == r.id && v.name == r.name && v.phone == Some(r.phone)
    ensures v.urgency == Some(r.urgency) && v.hospital == r.hospital
  {
    Row(r.id, r.name, Some(r.phone), Some(r.bloodGroup), r.hospital, Some(r.urgency))
  }

  /** `matchSearch`: an empty search matches; otherwise the lower-cased search must occur in
      the lower-cased name, hospital or blood group, or the raw search in the raw phone. */
  predicate SearchMatches(r: Row, search: string)
  {
    || search == ""
    || Contains(ToLower(r.name), ToLower(search))
    || Contains(OrElse(r.phone, ""), search)
    || Contains(ToLower(OrElse(r.hospital, "")), ToLower(search))
    || Contains(ToLower(OrElse(r.bloodGroup, "")), ToLower(search))
  }

  /** `matchUrgency`: "all", or the urgency with null and "" read as "Normal". */
  predicate UrgencyMatches(r: Row, urgencyFilter: string)
  {
    urgencyFilter == "all" || OrElse(r.urgency, "Normal") == urgencyFilter
  }

  function Shown(search: string, urgencyFilter: string): Row -> bool
  {
    (r: Row) => SearchMatches(r, search) && UrgencyMatches(r, urgencyFilter)
  }

  /** `filtered`: the rows both tests accept, in the order the listing gave them. */
  function Filtered(rows: seq<Row>, search: string, urgencyFilter: string): (r: seq<Row>)
    ensures IsSubsequence(r, rows)
    ensures forall x :: x in r <==> x in rows && SearchMatches(x, search) && UrgencyMatches(x, urgencyFilter)
  {
    FilterIsSubsequence(rows, Shown(search, urgencyFilter));
    Filter(rows, Shown(search, urgencyFilter))
  }

  /** With an empty search and "all" urgencies the page lists every recipient. */
  lemma EmptySearchShowsAll(rows: seq<Row>)
    ensures Filtered(rows, "", "all") == rows
  {
    FilterAll(rows, Shown("", "all"));
  }

  /** A recipient with no urgency is filed under "Normal". */
  lemma NullUrgencyIsNormal(r: Row, urgencyFilter: string)
    requires r.urgency.None?
    ensures UrgencyMatches(r, urgencyFilter) <==> urgencyFilter == "all" || urgencyFilter == "Normal"
  {
  }

  /** The name is matched after lower-casing both sides, the phone raw: a search "AB" finds
      the name "ab", while a phone "ab" is found by "ab" and not by "AB". */
  lemma SearchCase()
    ensures SearchMatches(Row(1, "ab", None, None, None, None), "AB")
    ensures SearchMatches(Row(1, "x", Some("ab"), None, None, None), "ab")
    ensures !SearchMatches(Row(1, "x", Some("ab"), None, None, None), "AB")
  {
    assert ToLower("AB") == "ab" && ToLower("ab") == "ab" && ToLower("x") == "x" && ToLower("") == "";
    assert StartsWith("ab", "ab");
    assert !StartsWith("ab", "AB") by { assert "ab"[..2] != "AB"; }
    assert !StartsWith("x", "ab") && !StartsWith("", "ab");
    assert !StartsWith("b", "AB") && !StartsWith("", "AB");
    assert "ab"[1..] == "b" && "b"[1..] == "" && "x"[1..] == "";
  }

  predicate IsCritical(r: Row)
  {
    r.urgency == Some("Critical")
  }

  /** `criticalCount`: the rows whose urgency is exactly "Critical". */
  function CriticalCount(rows: seq<Row>): (n: nat)
    ensures n == |Filter(rows, IsCritical)|
    ensures n <= |rows|
    ensures n == 0 <==> forall i :: 0 <= i < |rows| ==> !IsCritical(rows[i])
  {
    CountIsFilterLength(rows, IsCritical);
    CountZero(rows, IsCritical);
    Count(rows, IsCritical)
  }
}
