/**
 * The leases page: the `Lease` record, the day arithmetic behind "Days Left"
 * and "Expiring Soon", the tab and search filters, the row shown per lease,
 * and the page controller whose handlers change its state.
 * Times are whole milliseconds since the epoch; `now` is an input.
 */
module Leases {
  import opened Wrappers
  import opened JsText
  import opened ListPipeline

  /** The tenant fragment the API embeds in each lease. */
  datatype LeaseTenant = LeaseTenant(name: Option<string>, firstName: string, lastName: string, email: Option<string>)

  datatype Lease = Lease(
    id: string,
    tenantId: string,
    propertyId: string,
    unitNumber: Option<string>,
    startDate: int,          // ms
    endDate: int,            // ms
    monthlyRent: real,
    securityDeposit: real,
    status: string,
    createdAt: string,
    tenants: Option<LeaseTenant>)

  const MsPerDay: int := 1000 * 60 * 60 * 24

  /** The "Expiring Soon" horizon: 30 days after now. */
  const ExpiryWindow: int := 30 * MsPerDay

  // ---------------------------------------------------------------- days left

  /** `Math.ceil((end - now) / 86400000)`: the number of started days until `endDate`. */
  function DaysLeft(endDate: int, now: int): (d: int)
    ensures (d - 1) * MsPerDay < endDate - now <= d * MsPerDay
  {
    var q := (now - endDate) / MsPerDay;
    assert q * MsPerDay <= now - endDate < q * MsPerDay + MsPerDay;
    -q
  }

  /** The bracket in DaysLeft's contract has exactly one solution: DaysLeft is the ceiling. */
  lemma DaysLeftIsCeiling(endDate: int, now: int, d: int)
    requires (d - 1) * MsPerDay < endDate - now <= d * MsPerDay
    ensures d == DaysLeft(endDate, now)
  {
  }

  /** A lease ending now has 0 days left; one ending exactly 30 days from now has 30. */
  lemma DaysLeftBoundaries(now: int)
    ensures DaysLeft(now, now) == 0
    ensures DaysLeft(now + ExpiryWindow, now) == 30
    ensures DaysLeft(now + 1, now) == 1
  {
    DaysLeftIsCeiling(now, now, 0);
    DaysLeftIsCeiling(now + ExpiryWindow, now, 30);
    DaysLeftIsCeiling(now + 1, now, 1);
  }

  /** Days left is positive exactly when the end lies in the future, and at most 30 exactly within the window. */
  lemma DaysLeftThresholds(endDate: int, now: int)
    ensures DaysLeft(endDate, now) > 0 <==> endDate > now
    ensures DaysLeft(endDate, now) <= 30 <==> endDate <= now + ExpiryWindow
  {
    var d := DaysLeft(endDate, now);
    if d > 30 {
      assert 30 * MsPerDay <= (d - 1) * MsPerDay;
    }
    if d <= 0 {
      assert d * MsPerDay <= 0;
    }
    if d < 30 {
      assert d * MsPerDay <= 29 * MsPerDay;
    }
  }

  // ---------------------------------------------------------------- tabs

  predicate IsActiveLease(l: Lease) {
    l.status == "active"
  }

  /** The "Expiring Soon" tab's test: active and ending no later than 30 days from now (no lower bound). */
  predicate InExpiringTab(l: Lease, now: int) {
    l.endDate <= now + ExpiryWindow && IsActiveLease(l)
  }

  /** The "Expiring Soon" test at a given instant, as the callback `filter` is given. */
  function ExpiringTabTest(now: int): Lease -> bool {
    (l: Lease) => InExpiringTab(l, now)
  }

  /** What tab `index` keeps: 1 "Active", 2 "Expiring Soon", 0 and any other index everything. */
  predicate TabKeeps(index: int, l: Lease, now: int) {
    if index == 1 then IsActiveLease(l)
    else if index == 2 then InExpiringTab(l, now)
    else true
  }

  /** The list `handleTabChange(index)` puts in `filtered`, always computed from the full list. */
  function TabFilter(leases: seq<Lease>, index: int, now: int): (r: seq<Lease>)
    ensures IsSubsequence(r, leases)
    ensures forall i :: 0 <= i < |r| ==> r[i] in leases && TabKeeps(index, r[i], now)
    ensures forall i :: 0 <= i < |leases| && TabKeeps(index, leases[i], now) ==> leases[i] in r
    ensures index != 1 && index != 2 ==> r == leases
    ensures forall x :: multiset(r)[x] == if TabKeeps(index, x, now) then multiset(leases)[x] else 0
  {
    if index == 0 then
      SubsequenceRefl(leases);
      leases
    else if index == 1 then
      FilterIsSubsequence(leases, IsActiveLease);
      FilterMultiplicity(leases, IsActiveLease);
      Filter(leases, IsActiveLease)
    else if index == 2 then
      FilterIsSubsequence(leases, ExpiringTabTest(now));
      FilterMultiplicity(leases, ExpiringTabTest(now));
      Filter(leases, ExpiringTabTest(now))
    else
      SubsequenceRefl(leases);
      leases
  }

  /** Applying a tab's filter to its own result changes nothing. */
  lemma TabFilterIdempotent(leases: seq<Lease>, index: int, now: int)
    ensures TabFilter(TabFilter(leases, index, now), index, now) == TabFilter(leases, index, now)
  {
    if index == 1 {
      FilterIdempotent(leases, IsActiveLease);
    } else if index == 2 {
      FilterIdempotent(leases, ExpiringTabTest(now));
    }
  }

  /**
   * Three leases — active ending in 10 days, active ending in 45 days,
   * completed ending in 5 days: "Expiring Soon" shows only the first.
   */
  lemma ExpiringTabScenario(now: int, a: Lease, b: Lease, c: Lease)
    requires a.status == "active" && a.endDate == now + 10 * MsPerDay
    requires b.status == "active" && b.endDate == now + 45 * MsPerDay
    requires c.status == "completed" && c.endDate == now + 5 * MsPerDay
    ensures TabFilter([a, b, c], 2, now) == [a]
  {
    assert InExpiringTab(a, now) && !InExpiringTab(b, now) && !InExpiringTab(c, now);
    var p := ExpiringTabTest(now);
    assert [a, b, c][1..] == [b, c];
    assert [b, c][1..] == [c];
    assert Filter([c], p) == [];
    assert Filter([b, c], p) == [];
    assert Filter([a, b, c], p) == [a];
  }

  // ---------------------------------------------------------------- row flags

  /**
   * The row's `isExpiringSoon`, taken on the day count: an active lease
   * with 1 to 30 days left, that is, ending after now and at most 30 days
   * from now.
   */
  predicate IsExpiringSoon(l: Lease, now: int)
    ensures IsExpiringSoon(l, now) <==> IsActiveLease(l) && now < l.endDate <= now + ExpiryWindow
  {
    DaysLeftThresholds(l.endDate, now);
    var d := DaysLeft(l.endDate, now);
    d <= 30 && d > 0 && IsActiveLease(l)
  }

  /**
   * The row flag is the tab test plus a lower bound: the two agree on every
   * lease ending in the future, and part on active leases already past their end.
   */
  lemma ExpiringSoonVersusTab(l: Lease, now: int)
    ensures IsExpiringSoon(l, now) <==> InExpiringTab(l, now) && l.endDate > now
    ensures l.endDate > now ==> (IsExpiringSoon(l, now) <==> InExpiringTab(l, now))
    ensures IsActiveLease(l) && l.endDate <= now ==> InExpiringTab(l, now) && !IsExpiringSoon(l, now)
  {
    DaysLeftThresholds(l.endDate, now);
  }

  /**
   * The "Days Left" cell: "Expired" exactly when no day is left, and
   * otherwise the count's decimal digits, without leading zeros, followed by
   * " days".
   */
  function DaysLeftText(daysLeft: int): (t: string)
    ensures t == "Expired" <==> daysLeft <= 0
    ensures daysLeft > 0 ==>
      |t| > 5 && t[|t| - 5..] == " days" && t[0] != '0' &&
      (forall i :: 0 <= i < |t| - 5 ==> IsDigit(t[i])) &&
      DigitsValue(t[..|t| - 5]) == daysLeft
  {
    if daysLeft > 0 then
      var t := Decimal(daysLeft) + " days";
      assert t[..|t| - 5] == Decimal(daysLeft);
      assert t[|t| - 5..] == " days";
      DecimalRoundTrip(daysLeft);
      assert IsDigit(t[0]) && !IsDigit("Expired"[0]);
      t
    else "Expired"
  }

  datatype Badge = Badge(colorClass: string, text: string)

  const YellowBadge: string := "bg-yellow-500/10 text-yellow-700"
  const GreenBadge: string := "bg-green-500/10 text-green-700"
  const GrayBadge: string := "bg-gray-500/10 text-gray-700"

  /**
   * The status badge of a lease row: yellow "Expiring Soon" for an active
   * lease ending within the next 30 days, green "Active" for any other
   * active lease, and the raw status in gray for every other lease.
   */
  function StatusBadge(l: Lease, now: int): (b: Badge)
    ensures b == Badge(YellowBadge, "Expiring Soon") <==> IsActiveLease(l) && now < l.endDate <= now + ExpiryWindow
    ensures b == Badge(GreenBadge, "Active") <==> IsActiveLease(l) && !(now < l.endDate <= now + ExpiryWindow)
    ensures b.colorClass == GrayBadge <==> !IsActiveLease(l)
    ensures !IsActiveLease(l) ==> b.text == l.status
  {
    if IsActiveLease(l) then
      if IsExpiringSoon(l, now) then Badge(YellowBadge, "Expiring Soon") else Badge(GreenBadge, "Active")
    else Badge(GrayBadge, l.status)
  }

  // ---------------------------------------------------------------- search and rows

  /** The tenant name shown and searched: "first last", or "Unknown Tenant" without a tenant fragment. */
  function TenantName(l: Lease): string {
    if l.tenants.Some? then l.tenants.value.firstName + " " + l.tenants.value.lastName else "Unknown Tenant"
  }

  /** The search callback for a given term. */
  function SearchTest(term: string): Lease -> bool {
    (l: Lease) => MatchesSearch(l, term)
  }

  /** The search test: name case-insensitively, unit number case-sensitively. */
  predicate MatchesSearch(l: Lease, term: string) {
    Includes(Lower(TenantName(l)), Lower(term)) || (Truthy(l.unitNumber) && Includes(l.unitNumber.value, term))
  }

  /** `searchFiltered`: the leases of `filtered` that match the term, in order. */
  function Search(filtered: seq<Lease>, term: string): (r: seq<Lease>)
    ensures IsSubsequence(r, filtered)
    ensures forall i :: 0 <= i < |r| ==> r[i] in filtered && MatchesSearch(r[i], term)
    ensures forall i :: 0 <= i < |filtered| && MatchesSearch(filtered[i], term) ==> filtered[i] in r
    ensures term == "" ==> r == filtered
    ensures forall x :: multiset(r)[x] == if MatchesSearch(x, term) then multiset(filtered)[x] else 0
  {
    FilterIsSubsequence(filtered, SearchTest(term));
    FilterMultiplicity(filtered, SearchTest(term));
    if term == "" then
      forall l: Lease ensures MatchesSearch(l, term) {
        IncludesEmpty(Lower(TenantName(l)));
      }
      FilterKeepsAll(filtered, SearchTest(term));
      Filter(filtered, SearchTest(term))
    else
      Filter(filtered, SearchTest(term))
  }

  /** The unit number is compared as typed: unit "B" is found by "B" but not by "b". */
  lemma UnitSearchIsCaseSensitive(l: Lease)
    requires l.unitNumber == Some("B")
    requires l.tenants.Some? && l.tenants.value.firstName == "" && l.tenants.value.lastName == ""
    ensures MatchesSearch(l, "B")
    ensures !MatchesSearch(l, "b")
  {
    assert TenantName(l) == " ";
    LowerKeepsLowercase(" ");
    LowerKeepsLowercase("b");
    assert Lower("B") == "b";
    assert StartsWith("B", "B");
    NotIncludes(" ", "b");
    NotIncludes("B", "b");
  }

  datatype LeaseRow = LeaseRow(tenant: string, unit: string, daysLeft: string, warningIcon: bool, badge: Badge)

  /**
   * The table row of one lease (dates are shown through `toLocaleDateString`,
   * not modelled). The warning icon appears exactly for an active lease
   * ending within the window, beside the yellow badge; the badge is gray
   * exactly for a lease that is not active; the days cell reads "Expired"
   * exactly for a lease whose end is not after now; the tenant column is the
   * searched tenant name and the unit falls back to "N/A".
   */
  function RowOf(l: Lease, now: int): (row: LeaseRow)
    ensures row.warningIcon <==> IsActiveLease(l) && now < l.endDate <= now + ExpiryWindow
    ensures row.warningIcon <==> row.badge.colorClass == YellowBadge
    ensures row.warningIcon ==> row.badge.text == "Expiring Soon" && row.daysLeft != "Expired"
    ensures row.badge.colorClass == GrayBadge <==> !IsActiveLease(l)
    ensures !IsActiveLease(l) ==> row.badge.text == l.status
    ensures row.tenant == TenantName(l)
    ensures row.badge == StatusBadge(l, now)
    ensures row.daysLeft == DaysLeftText(DaysLeft(l.endDate, now))
    ensures row.daysLeft == "Expired" <==> l.endDate <= now
    ensures row.unit == "N/A" <==> !Truthy(l.unitNumber) || l.unitNumber.value == "N/A"
    ensures Truthy(l.unitNumber) ==> row.unit == l.unitNumber.value
  {
    DaysLeftThresholds(l.endDate, now);
    OrElseShowsValueOrFallback(l.unitNumber, "N/A");
    LeaseRow(TenantName(l), OrElse(l.unitNumber, "N/A"), DaysLeftText(DaysLeft(l.endDate, now)),
             IsExpiringSoon(l, now), StatusBadge(l, now))
  }

  const LeaseDeleteAlerts: DeleteAlerts :=
    DeleteAlerts("Failed to delete lease: ", "Lease deleted successfully", "An error occurred while deleting the lease")

  /**
   * A successful refetch after a delete puts the fresh data itself into
   * `filtered`, whatever tab is selected; with an inactive lease in the data
   * that is not what the "Active" tab would show.
   */
  lemma RefetchIgnoresActiveTab(data: seq<Lease>, current: seq<Lease>, now: int)
    ensures ListAfterDelete(true, Deleted(None), Response(Some(data), None), current) == data
    ensures (exists i :: 0 <= i < |data| && !IsActiveLease(data[i])) ==> TabFilter(data, 1, now) != data
  {
    if exists i :: 0 <= i < |data| && !IsActiveLease(data[i]) {
      var i :| 0 <= i < |data| && !IsActiveLease(data[i]);
      assert data[i] !in TabFilter(data, 1, now);
    }
  }

  // ---------------------------------------------------------------- the page

  /** The state of the leases page component and its handlers. */
  class LeasesPage {
    var leases: seq<Lease>
    var loading: bool
    var error: Option<string>
    var searchTerm: string
    var filtered: seq<Lease>
    var activeTab: int

    /** `filtered` only ever holds leases of the full list, in its order. */
    ghost predicate Valid()
      reads this
    {
      IsSubsequence(filtered, leases)
    }

    constructor ()
      ensures Valid()
      ensures leases == [] && filtered == [] && loading && error == None && searchTerm == "" && activeTab == 0
    {
      leases, filtered := [], [];
      loading, error := true, None;
      searchTerm, activeTab := "", 0;
      SubsequenceRefl<Lease>([]);
    }

    /** The mount effect: fetch all leases when a user is signed in. */
    method FetchLeases(userPresent: bool, response: ListResponse<Lease>)
      requires Valid()
      modifies this
      ensures Valid()
      ensures !userPresent ==> unchanged(this)
      ensures userPresent ==> !loading
      ensures userPresent ==> leases == ListAfterFetch(response, old(leases))
      ensures userPresent ==> filtered == ListAfterFetch(response, old(filtered))
      ensures userPresent ==> error == ErrorAfterFetch(response, old(error))
      ensures searchTerm == old(searchTerm) && activeTab == old(activeTab)
    {
      if !userPresent {
        return;
      }
      loading := true;
      match response {
        case Response(data, e) =>
          if Truthy(e) {
            error := e;
          } else {
            var list := if data.Some? then data.value else [];
            leases := list;
            filtered := list;
            SubsequenceRefl(list);
          }
        case Thrown(m) =>
          error := Some(ThrownMessage(m));
      }
      loading := false;
    }

    /** `handleTabChange`: null is ignored; any other index selects that tab and refilters the full list. */
    method HandleTabChange(index: Option<int>, now: int)
      requires Valid()
      modifies this
      ensures Valid()
      ensures index.None? ==> unchanged(this)
      ensures index.Some? ==> activeTab == index.value && filtered == TabFilter(leases, index.value, now)
      ensures leases == old(leases) && loading == old(loading) && error == old(error) && searchTerm == old(searchTerm)
    {
      if index.None? {
        return;
      }
      activeTab := index.value;
      filtered := TabFilter(leases, index.value, now);
    }

    /** The search box's `onChange`. */
    method SetSearchTerm(term: string)
      requires Valid()
      modifies this
      ensures Valid()
      ensures searchTerm == term
      ensures leases == old(leases) && filtered == old(filtered) && loading == old(loading)
      ensures error == old(error) && activeTab == old(activeTab)
    {
      searchTerm := term;
    }

    /**
     * `handleDeleteLease`: `confirmed` is the user's answer, `deletion` and
     * `refetch` what the API calls settle to; returns the alert raised.
     */
    method HandleDeleteLease(confirmed: bool, deletion: DeleteResponse, refetch: ListResponse<Lease>)
      returns (alert: Option<string>)
      requires Valid()
      modifies this
      ensures Valid()
      ensures leases == ListAfterDelete(confirmed, deletion, refetch, old(leases))
      ensures filtered == ListAfterDelete(confirmed, deletion, refetch, old(filtered))
      ensures error == ErrorAfterDelete(confirmed, deletion, refetch, old(error))
      ensures alert == DeleteAlert(LeaseDeleteAlerts, confirmed, deletion, refetch)
      ensures loading == old(loading) && searchTerm == old(searchTerm) && activeTab == old(activeTab)
    {
      if !confirmed {
        return None;
      }
      match deletion {
        case DeleteThrown =>
          alert := Some(LeaseDeleteAlerts.fault);
        case Deleted(e) =>
          if Truthy(e) {
            alert := Some(LeaseDeleteAlerts.failedPrefix + e.value);
          } else {
            match refetch {
              case Thrown(_) =>
                alert := Some(LeaseDeleteAlerts.fault);
              case Response(data, fe) =>
                if Truthy(fe) {
                  error := fe;
                } else {
                  var list := if data.Some? then data.value else [];
                  leases := list;
                  filtered := list;
                  SubsequenceRefl(list);
                }
                alert := Some(LeaseDeleteAlerts.success);
            }
          }
      }
    }

    /** `searchFiltered`, derived on every render. */
    function SearchFiltered(): (r: seq<Lease>)
      reads this
      requires Valid()
      ensures IsSubsequence(r, filtered) && IsSubsequence(r, leases)
      ensures searchTerm == "" ==> r == filtered
    {
      var r := Search(filtered, searchTerm);
      SubsequenceTrans(r, filtered, leases);
      r
    }

    /** The result card: spinner, then error, then "No leases found", else one row per search result in order. */
    function View(now: int): (v: ListView<LeaseRow>)
      reads this
      requires Valid()
      ensures v.Spinner? <==> loading
      ensures v.Failed? <==> !loading && Truthy(error)
      ensures v.Failed? ==> Truthy(error) && v.message == error.value
      ensures v.NoneFound? <==> !loading && !Truthy(error) && |SearchFiltered()| == 0
      ensures v.Table? ==> |v.rows| == |SearchFiltered()| &&
                           forall i :: 0 <= i < |v.rows| ==> v.rows[i] == RowOf(SearchFiltered()[i], now)
    {
      var shown := SearchFiltered();
      ChooseView(loading, error, seq(|shown|, i requires 0 <= i < |shown| => RowOf(shown[i], now)))
    }
  }

  /** Selecting the same tab twice at the same instant gives the view selecting it once gave. */
  method SelectTabTwice(page: LeasesPage, index: int, now: int)
    requires page.Valid()
    modifies page
    ensures page.Valid()
    ensures page.filtered == TabFilter(old(page.leases), index, now) && page.activeTab == index
  {
    page.HandleTabChange(Some(index), now);
    ghost var once := page.filtered;
    page.HandleTabChange(Some(index), now);
    assert page.filtered == once;
  }

  /**
   * Deleting a lease while the "Active" tab is selected: after a successful
   * refetch the page lists the fresh data in full, and "Active" stays the
   * selected tab.
   */
  method DeleteWhileOnActiveTab(page: LeasesPage, data: seq<Lease>) returns (alert: Option<string>)
    requires page.Valid() && page.activeTab == 1
    modifies page
    ensures page.Valid()
    ensures page.leases == data && page.filtered == data && page.activeTab == 1
    ensures alert == Some(LeaseDeleteAlerts.success)
  {
    alert := page.HandleDeleteLease(true, Deleted(None), Response(Some(data), None));
  }
}
