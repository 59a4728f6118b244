/**
 * The maintenance page: the `MaintenanceRequest` record, the status tabs,
 * the four-field search, the priority and status badges, the row shown per
 * request, and the page controller whose handlers change its state.
 */
module Maintenance {
  import opened Wrappers
  import opened JsText
  import opened ListPipeline

  /** The tenant fragment the API may embed in a request. */
  datatype RequestTenant = RequestTenant(firstName: string, lastName: string, email: Option<string>)

  /**
   * A maintenance request. `unitNumber` is not declared by the page's record
   * type, yet the search reads it; it is None unless the API sends one.
   */
  datatype MaintenanceRequest = MaintenanceRequest(
    id: string,
    propertyId: string,
    tenantId: Option<string>,
    title: string,
    description: Option<string>,
    category: string,
    priority: string,
    status: string,
    scheduledDate: Option<string>,
    estimatedCost: Option<real>,
    actualCost: Option<real>,
    createdAt: string,
    tenants: Option<RequestTenant>,
    unitNumber: Option<string>)

  // ---------------------------------------------------------------- tabs

  /** What tab `index` keeps: 1 "open", 2 "in_progress", 3 "completed"; 0 and any other index everything. */
  predicate TabKeeps(index: int, r: MaintenanceRequest) {
    if index == 1 then r.status == "open"
    else if index == 2 then r.status == "in_progress"
    else if index == 3 then r.status == "completed"
    else true
  }

  /** The status a tab selects, as the callback `filter` is given. */
  function StatusIs(status: string): MaintenanceRequest -> bool {
    (r: MaintenanceRequest) => r.status == status
  }

  /** The list `handleTabChange(index)` puts in `filtered`, always computed from the full list. */
  function TabFilter(requests: seq<MaintenanceRequest>, index: int): (r: seq<MaintenanceRequest>)
    ensures IsSubsequence(r, requests)
    ensures forall i :: 0 <= i < |r| ==> r[i] in requests && TabKeeps(index, r[i])
    ensures forall i :: 0 <= i < |requests| && TabKeeps(index, requests[i]) ==> requests[i] in r
    ensures !(1 <= index <= 3) ==> r == requests
    ensures forall x :: multiset(r)[x] == if TabKeeps(index, x) then multiset(requests)[x] else 0
  {
    if index == 0 then
      SubsequenceRefl(requests);
      requests
    else if index == 1 then
      FilterIsSubsequence(requests, StatusIs("open"));
      FilterMultiplicity(requests, StatusIs("open"));
      Filter(requests, StatusIs("open"))
    else if index == 2 then
      FilterIsSubsequence(requests, StatusIs("in_progress"));
      FilterMultiplicity(requests, StatusIs("in_progress"));
      Filter(requests, StatusIs("in_progress"))
    else if index == 3 then
      FilterIsSubsequence(requests, StatusIs("completed"));
      FilterMultiplicity(requests, StatusIs("completed"));
      Filter(requests, StatusIs("completed"))
    else
      SubsequenceRefl(requests);
      requests
  }

  /** Applying a tab's filter to its own result changes nothing. */
  lemma TabFilterIdempotent(requests: seq<MaintenanceRequest>, index: int)
    ensures TabFilter(TabFilter(requests, index), index) == TabFilter(requests, index)
  {
    if index == 1 {
      FilterIdempotent(requests, StatusIs("open"));
    } else if index == 2 {
      FilterIdempotent(requests, StatusIs("in_progress"));
    } else if index == 3 {
      FilterIdempotent(requests, StatusIs("completed"));
    }
  }

  /** The three status tabs never share a request. */
  lemma StatusTabsAreDisjoint(requests: seq<MaintenanceRequest>, i: int, j: int)
    requires 1 <= i <= 3 && 1 <= j <= 3 && i != j
    ensures forall k :: 0 <= k < |TabFilter(requests, i)| ==> TabFilter(requests, i)[k] !in TabFilter(requests, j)
  {
    var a, b := TabFilter(requests, i), TabFilter(requests, j);
    forall k | 0 <= k < |a| ensures a[k] !in b {
      assert TabKeeps(i, a[k]) && !TabKeeps(j, a[k]);
    }
  }

  // ---------------------------------------------------------------- search

  /** The tenant name searched: "first last", or "No Tenant Assigned" without a tenant fragment. */
  function SearchedTenantName(r: MaintenanceRequest): string {
    if r.tenants.Some? then r.tenants.value.firstName + " " + r.tenants.value.lastName else "No Tenant Assigned"
  }

  /** The tenant name shown in the row: "first last", or "N/A". */
  function ShownTenantName(r: MaintenanceRequest): string {
    if r.tenants.Some? then r.tenants.value.firstName + " " + r.tenants.value.lastName else "N/A"
  }

  /** The search test: title, tenant name, unit number or category contains the term, ignoring case. */
  predicate MatchesSearch(r: MaintenanceRequest, term: string) {
    var q := Lower(term);
    Includes(Lower(r.title), q) ||
    Includes(Lower(SearchedTenantName(r)), q) ||
    (r.unitNumber.Some? && Includes(Lower(r.unitNumber.value), q)) ||
    Includes(Lower(r.category), q)
  }

  function SearchTest(term: string): MaintenanceRequest -> bool {
    (r: MaintenanceRequest) => MatchesSearch(r, term)
  }

  /** `searchFiltered`: the requests of `filtered` that match the term, in order. */
  function Search(filtered: seq<MaintenanceRequest>, term: string): (r: seq<MaintenanceRequest>)
    ensures IsSubsequence(r, filtered)
    ensures forall i :: 0 <= i < |r| ==> r[i] in filtered && MatchesSearch(r[i], term)
    ensures forall i :: 0 <= i < |filtered| && MatchesSearch(filtered[i], term) ==> filtered[i] in r
    ensures term == "" ==> r == filtered
    ensures forall x :: multiset(r)[x] == if MatchesSearch(x, term) then multiset(filtered)[x] else 0
  {
    FilterIsSubsequence(filtered, SearchTest(term));
    FilterMultiplicity(filtered, SearchTest(term));
    if term == "" then
      forall x: MaintenanceRequest ensures MatchesSearch(x, term) {
        IncludesEmpty(Lower(x.title));
      }
      FilterKeepsAll(filtered, SearchTest(term));
      Filter(filtered, SearchTest(term))
    else
      Filter(filtered, SearchTest(term))
  }

  /** The search ignores the case of the term. */
  lemma SearchIgnoresTermCase(r: MaintenanceRequest, term: string)
    ensures MatchesSearch(r, term) <==> MatchesSearch(r, Lower(term))
  {
    LowerIdempotent(term);
  }

  /** A request without a tenant is searched as "No Tenant Assigned", so "tenant" finds it, yet it shows "N/A". */
  lemma UnassignedRequestMatchesTenant(r: MaintenanceRequest)
    requires r.tenants.None?
    ensures MatchesSearch(r, "tenant")
    ensures ShownTenantName(r) == "N/A"
  {
    var name := "No Tenant Assigned";
    LowerSlice(name, 3, 9);
    assert name[3..9] == "Tenant";
    assert Lower("Tenant") == "tenant";
    LowerKeepsLowercase("tenant");
    assert OccursAt(Lower(name), "tenant", 3);
    assert Includes(Lower(name), "tenant");
  }

  /** "plumb" finds the request whose category is "plumbing"; the empty term finds both. */
  lemma PlumbingSearchScenario(a: MaintenanceRequest, b: MaintenanceRequest)
    requires a.title == "Leaky faucet" && a.category == "plumbing"
    requires b.title == "Broken window" && b.category == "structural"
    requires b.tenants.None? && b.unitNumber.None?
    ensures Search([a, b], "plumb") == [a]
    ensures Search([a, b], "") == [a, b]
  {
    PlumbingMatches(a);
    BrokenWindowMisses(b);
    assert [a, b][1..] == [b];
    assert Filter([b], SearchTest("plumb")) == [];
  }

  lemma PlumbingMatches(a: MaintenanceRequest)
    requires a.category == "plumbing"
    ensures MatchesSearch(a, "plumb")
  {
    LowerKeepsLowercase("plumb");
    LowerKeepsLowercase("plumbing");
    assert StartsWith("plumbing", "plumb");
  }

  lemma BrokenWindowMisses(b: MaintenanceRequest)
    requires b.title == "Broken window" && b.category == "structural"
    requires b.tenants.None? && b.unitNumber.None?
    ensures !MatchesSearch(b, "plumb")
  {
    LowerKeepsLowercase("plumb");
    LowerLacks("Broken window", 'p');
    LowerLacks("structural", 'p');
    LowerLacks("No Tenant Assigned", 'p');
    NotIncludes(Lower("Broken window"), "plumb");
    NotIncludes(Lower("structural"), "plumb");
    NotIncludes(Lower("No Tenant Assigned"), "plumb");
  }

  // ---------------------------------------------------------------- badges

  const RedBadge: string := "bg-red-500/10 text-red-700"
  const YellowBadge: string := "bg-yellow-500/10 text-yellow-700"
  const GreenBadge: string := "bg-green-500/10 text-green-700"
  const BlueBadge: string := "bg-blue-500/10 text-blue-700"
  const GrayBadge: string := "bg-gray-500/10 text-gray-700"

  /** `getPriorityColor`: red for urgent and high, yellow for medium, green for low, gray for anything else. */
  function PriorityColor(priority: string): (c: string)
    ensures c == RedBadge <==> priority == "urgent" || priority == "high"
    ensures c == YellowBadge <==> priority == "medium"
    ensures c == GreenBadge <==> priority == "low"
    ensures c == GrayBadge <==> priority !in {"urgent", "high", "medium", "low"}
  {
    match priority
    case "urgent" => RedBadge
    case "high" => RedBadge
    case "medium" => YellowBadge
    case "low" => GreenBadge
    case _ => GrayBadge
  }

  /**
   * The status badge's text, `status.replace('_', ' ')`: as long as the
   * status, equal to it when it has no underscore, and otherwise the status
   * with exactly its first underscore read as a space.
   */
  function StatusLabel(status: string): (shown: string)
    ensures |shown| == |status|
    ensures '_' !in status ==> shown == status
    ensures forall i :: 0 <= i < |status| ==>
              shown[i] == if status[i] == '_' && '_' !in status[..i] then ' ' else status[i]
  {
    ReplaceFirst(status, '_', ' ')
  }

  /** Only the first underscore becomes a space: "<p>_<q>" reads "<p> <q>" even when q holds more underscores. */
  lemma StatusLabelReplacesFirstUnderscore(p: string, q: string)
    requires '_' !in p
    ensures StatusLabel(p + "_" + q) == p + " " + q
  {
    ReplaceFirstSplit(p, '_', q, ' ');
  }

  /** "in_progress" is shown as "in progress". */
  lemma InProgressLabel()
    ensures StatusLabel("in_progress") == "in progress"
  {
    var status := "in" + "_" + "progress";
    assert status == "in_progress";
    StatusLabelReplacesFirstUnderscore("in", "progress");
  }

  /** The status badge's colour: green exactly for "completed", blue exactly for "in_progress", gray otherwise. */
  function StatusColor(status: string): (c: string)
    ensures c == GreenBadge <==> status == "completed"
    ensures c == BlueBadge <==> status == "in_progress"
    ensures c == GrayBadge <==> status != "completed" && status != "in_progress"
  {
    if status == "completed" then GreenBadge
    else if status == "in_progress" then BlueBadge
    else GrayBadge
  }

  /** The icon beside the status badge. */
  datatype StatusIcon = CheckCircle | ClockIcon

  /** The check icon exactly for "completed", the clock for every other status. */
  function StatusIconOf(status: string): (icon: StatusIcon)
    ensures icon == CheckCircle <==> status == "completed"
  {
    if status == "completed" then CheckCircle else ClockIcon
  }

  datatype RequestRow = RequestRow(
    title: string, tenant: string, priority: string, priorityColor: string,
    statusIcon: StatusIcon, statusLabel: string, statusColor: string)

  /**
   * The table row of one request (the reported date goes through
   * `toLocaleDateString`, not modelled). The title and priority are the
   * request's own; the check icon and the green badge mark exactly a
   * completed request, the blue badge exactly one in progress; the label is
   * the status with its first underscore read as a space; and the tenant
   * shown differs from the tenant searched exactly for an unassigned request.
   */
  function RowOf(r: MaintenanceRequest): (row: RequestRow)
    ensures row.title == r.title && row.priority == r.priority
    ensures row.statusIcon == CheckCircle <==> r.status == "completed"
    ensures row.statusColor == GreenBadge <==> r.status == "completed"
    ensures row.statusColor == BlueBadge <==> r.status == "in_progress"
    ensures row.tenant != SearchedTenantName(r) <==> r.tenants.None?
    ensures r.tenants.None? ==> row.tenant == "N/A"
    ensures |row.statusLabel| == |r.status|
    ensures '_' !in r.status ==> row.statusLabel == r.status
    ensures row.statusLabel == StatusLabel(r.status)
    ensures row.statusColor == GrayBadge <==> r.status != "completed" && r.status != "in_progress"
    ensures row.priorityColor == RedBadge <==> r.priority == "urgent" || r.priority == "high"
    ensures row.priorityColor == YellowBadge <==> r.priority == "medium"
    ensures row.priorityColor == GreenBadge <==> r.priority == "low"
    ensures row.priorityColor == GrayBadge <==> r.priority !in {"urgent", "high", "medium", "low"}
  {
    RequestRow(r.title, ShownTenantName(r), r.priority, PriorityColor(r.priority),
               StatusIconOf(r.status), StatusLabel(r.status), StatusColor(r.status))
  }

  const MaintenanceDeleteAlerts: DeleteAlerts :=
    DeleteAlerts("Failed to delete maintenance request: ", "Maintenance request deleted successfully",
                 "An error occurred while deleting the maintenance request")

  // ---------------------------------------------------------------- the page

  /** The state of the maintenance page component and its handlers. */
  class MaintenancePage {
    var maintenanceRequests: seq<MaintenanceRequest>
    var loading: bool
    var error: Option<string>
    var searchTerm: string
    var filtered: seq<MaintenanceRequest>
    var activeTab: int

    /** `filtered` only ever holds requests of the full list, in its order. */
    ghost predicate Valid()
      reads this
    {
      IsSubsequence(filtered, maintenanceRequests)
    }

    constructor ()
      ensures Valid()
      ensures maintenanceRequests == [] && filtered == [] && loading && error == None
      ensures searchTerm == "" && activeTab == 0
    {
      maintenanceRequests, filtered := [], [];
      loading, error := true, None;
      searchTerm, activeTab := "", 0;
      SubsequenceRefl<MaintenanceRequest>([]);
    }

    /** The mount effect: fetch all requests when a user is signed in. */
    method FetchMaintenanceRequests(userPresent: bool, response: ListResponse<MaintenanceRequest>)
      requires Valid()
      modifies this
      ensures Valid()
      ensures !userPresent ==> unchanged(this)
      ensures userPresent ==> !loading
      ensures userPresent ==> maintenanceRequests == ListAfterFetch(response, old(maintenanceRequests))
      ensures userPresent ==> filtered == ListAfterFetch(response, old(filtered))
      ensures userPresent ==> error == ErrorAfterFetch(response, old(error))
      ensures searchTerm == old(searchTerm) && activeTab == old(activeTab)
    {
      if !userPresent {
        return;
      }
      loading := true;
      match response {
        case Response(data, e) =>
          if Truthy(e) {
            error := e;
          } else {
            var list := if data.Some? then data.value else [];
            maintenanceRequests := list;
            filtered := list;
            SubsequenceRefl(list);
          }
        case Thrown(m) =>
          error := Some(ThrownMessage(m));
      }
      loading := false;
    }

    /** `handleTabChange`: null is ignored; any other index selects that tab and refilters the full list. */
    method HandleTabChange(index: Option<int>)
      requires Valid()
      modifies this
      ensures Valid()
      ensures index.None? ==> unchanged(this)
      ensures index.Some? ==> activeTab == index.value && filtered == TabFilter(maintenanceRequests, index.value)
      ensures maintenanceRequests == old(maintenanceRequests) && loading == old(loading)
      ensures error == old(error) && searchTerm == old(searchTerm)
    {
      if index.None? {
        return;
      }
      activeTab := index.value;
      filtered := TabFilter(maintenanceRequests, index.value);
    }

    /** The search box's `onChange`. */
    method SetSearchTerm(term: string)
      requires Valid()
      modifies this
      ensures Valid()
      ensures searchTerm == term
      ensures maintenanceRequests == old(maintenanceRequests) && filtered == old(filtered)
      ensures loading == old(loading) && error == old(error) && activeTab == old(activeTab)
    {
      searchTerm := term;
    }

    /** `handleDeleteMaintenance`: the user's answer and the API outcomes are inputs; returns the alert raised. */
    method HandleDeleteMaintenance(confirmed: bool, deletion: DeleteResponse, refetch: ListResponse<MaintenanceRequest>)
      returns (alert: Option<string>)
      requires Valid()
      modifies this
      ensures Valid()
      ensures maintenanceRequests == ListAfterDelete(confirmed, deletion, refetch, old(maintenanceRequests))
      ensures filtered == ListAfterDelete(confirmed, deletion, refetch, old(filtered))
      ensures error == ErrorAfterDelete(confirmed, deletion, refetch, old(error))
      ensures alert == DeleteAlert(MaintenanceDeleteAlerts, confirmed, deletion, refetch)
      ensures loading == old(loading) && searchTerm == old(searchTerm) && activeTab == old(activeTab)
    {
      if !confirmed {
        return None;
      }
      match deletion {
        case DeleteThrown =>
          alert := Some(MaintenanceDeleteAlerts.fault);
        case Deleted(e) =>
          if Truthy(e) {
            alert := Some(MaintenanceDeleteAlerts.failedPrefix + e.value);
          } else {
            match refetch {
              case Thrown(_) =>
                alert := Some(MaintenanceDeleteAlerts.fault);
              case Response(data, fe) =>
                if Truthy(fe) {
                  error := fe;
                } else {
                  var list := if data.Some? then data.value else [];
                  maintenanceRequests := list;
                  filtered := list;
                  SubsequenceRefl(list);
                }
                alert := Some(MaintenanceDeleteAlerts.success);
            }
          }
      }
    }

    /** `searchFiltered`, derived on every render. */
    function SearchFiltered(): (r: seq<MaintenanceRequest>)
      reads this
      requires Valid()
      ensures IsSubsequence(r, filtered) && IsSubsequence(r, maintenanceRequests)
      ensures searchTerm == "" ==> r == filtered
    {
      var r := Search(filtered, searchTerm);
      SubsequenceTrans(r, filtered, maintenanceRequests);
      r
    }

    /** The result card: spinner, then error, then "No maintenance requests found", else one row per search result. */
    function View(): (v: ListView<RequestRow>)
      reads this
      requires Valid()
      ensures v.Spinner? <==> loading
      ensures v.Failed? <==> !loading && Truthy(error)
      ensures v.Failed? ==> Truthy(error) && v.message == error.value
      ensures v.NoneFound? <==> !loading && !Truthy(error) && |SearchFiltered()| == 0
      ensures v.Table? ==> |v.rows| == |SearchFiltered()| &&
                           forall i :: 0 <= i < |v.rows| ==> v.rows[i] == RowOf(SearchFiltered()[i])
    {
      var shown := SearchFiltered();
      ChooseView(loading, error, seq(|shown|, i requires 0 <= i < |shown| => RowOf(shown[i])))
    }
  }
}
