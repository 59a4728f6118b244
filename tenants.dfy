/**
 * The tenants page: the `Tenant` record, the tabs (whose "Active" tab has no
 * predicate yet), the name-or-email search, the row fallbacks, and the page
 * controller whose handlers change its state.
 */
module Tenants {
  import opened Wrappers
  import opened JsText
  import opened ListPipeline

  datatype Tenant = Tenant(
    id: string,
    firstName: string,
    lastName: string,
    email: Option<string>,
    phone: Option<string>,
    currentAddress: Option<string>,
    employmentStatus: Option<string>,
    createdAt: string)

  // ---------------------------------------------------------------- tabs

  /**
   * The "Inactive" tab's test: neither email nor phone (an empty string
   * counts as missing); such a tenant's row reads "N/A" in both columns.
   */
  predicate LacksContact(t: Tenant)
    ensures LacksContact(t) ==> RowOf(t).email == "N/A" && RowOf(t).phone == "N/A"
  {
    !Truthy(t.email) && !Truthy(t.phone)
  }

  /** What tab `index` keeps: 2 "Inactive" keeps tenants without contact fields; every other index keeps all. */
  predicate TabKeeps(index: int, t: Tenant) {
    index == 2 ==> LacksContact(t)
  }

  /** The list `handleTabChange(index)` puts in `filtered`, always computed from the full list. */
  function TabFilter(tenants: seq<Tenant>, index: int): (r: seq<Tenant>)
    ensures IsSubsequence(r, tenants)
    ensures forall i :: 0 <= i < |r| ==> r[i] in tenants && TabKeeps(index, r[i])
    ensures forall i :: 0 <= i < |tenants| && TabKeeps(index, tenants[i]) ==> tenants[i] in r
    ensures index != 2 ==> r == tenants
    ensures forall x :: multiset(r)[x] == if TabKeeps(index, x) then multiset(tenants)[x] else 0
  {
    if index == 0 then
      SubsequenceRefl(tenants);
      tenants
    else if index == 1 then
      SubsequenceRefl(tenants);
      tenants
    else if index == 2 then
      FilterIsSubsequence(tenants, LacksContact);
      FilterMultiplicity(tenants, LacksContact);
      Filter(tenants, LacksContact)
    else
      SubsequenceRefl(tenants);
      tenants
  }

  /** Applying a tab's filter to its own result changes nothing. */
  lemma TabFilterIdempotent(tenants: seq<Tenant>, index: int)
    ensures TabFilter(TabFilter(tenants, index), index) == TabFilter(tenants, index)
  {
    if index == 2 {
      FilterIdempotent(tenants, LacksContact);
    }
  }

  /** "All Tenants" and "Active" show the same list. */
  lemma ActiveTabIsAll(tenants: seq<Tenant>)
    ensures TabFilter(tenants, 1) == TabFilter(tenants, 0) == tenants
  {
  }

  // ---------------------------------------------------------------- search

  function FullName(t: Tenant): string {
    t.firstName + " " + t.lastName
  }

  /** The search test: the name, or a non-empty email, contains the term, ignoring case. */
  predicate MatchesSearch(t: Tenant, term: string) {
    Includes(Lower(FullName(t)), Lower(term)) ||
    (Truthy(t.email) && Includes(Lower(t.email.value), Lower(term)))
  }

  function SearchTest(term: string): Tenant -> bool {
    (t: Tenant) => MatchesSearch(t, term)
  }

  /** `searchFiltered`: the tenants of `filtered` that match the term, in order. */
  function Search(filtered: seq<Tenant>, term: string): (r: seq<Tenant>)
    ensures IsSubsequence(r, filtered)
    ensures forall i :: 0 <= i < |r| ==> r[i] in filtered && MatchesSearch(r[i], term)
    ensures forall i :: 0 <= i < |filtered| && MatchesSearch(filtered[i], term) ==> filtered[i] in r
    ensures term == "" ==> r == filtered
    ensures forall x :: multiset(r)[x] == if MatchesSearch(x, term) then multiset(filtered)[x] else 0
  {
    FilterIsSubsequence(filtered, SearchTest(term));
    FilterMultiplicity(filtered, SearchTest(term));
    if term == "" then
      forall t: Tenant ensures MatchesSearch(t, term) {
        IncludesEmpty(Lower(FullName(t)));
      }
      FilterKeepsAll(filtered, SearchTest(term));
      Filter(filtered, SearchTest(term))
    else
      Filter(filtered, SearchTest(term))
  }

  /** A tenant without an email is found by name alone. */
  lemma NoEmailMatchesByNameOnly(t: Tenant, term: string)
    requires !Truthy(t.email)
    ensures MatchesSearch(t, term) <==> Includes(Lower(FullName(t)), Lower(term))
  {
  }

  /** The search ignores the case of the term. */
  lemma SearchIgnoresTermCase(t: Tenant, term: string)
    ensures MatchesSearch(t, term) <==> MatchesSearch(t, Lower(term))
  {
    LowerIdempotent(term);
  }

  // ---------------------------------------------------------------- rows

  datatype TenantRow = TenantRow(name: string, email: string, phone: string, address: string, status: string)

  /**
   * The table row of one tenant: a missing or empty contact field reads
   * "N/A", a present one is shown as is, and the status always reads "Active".
   */
  function RowOf(t: Tenant): (row: TenantRow)
    ensures row.name == t.firstName + " " + t.lastName
    ensures row.status == "Active"
    ensures !Truthy(t.email) ==> row.email == "N/A"
    ensures !Truthy(t.phone) ==> row.phone == "N/A"
    ensures !Truthy(t.currentAddress) ==> row.address == "N/A"
    ensures Truthy(t.email) ==> row.email == t.email.value
    ensures Truthy(t.phone) ==> row.phone == t.phone.value
    ensures Truthy(t.currentAddress) ==> row.address == t.currentAddress.value
  {
    TenantRow(FullName(t), OrElse(t.email, "N/A"), OrElse(t.phone, "N/A"), OrElse(t.currentAddress, "N/A"), "Active")
  }

  const TenantDeleteAlerts: DeleteAlerts :=
    DeleteAlerts("Failed to delete tenant: ", "Tenant deleted successfully", "An error occurred while deleting the tenant")

  // ---------------------------------------------------------------- the page

  /** The state of the tenants page component and its handlers. */
  class TenantsPage {
    var tenants: seq<Tenant>
    var loading: bool
    var error: Option<string>
    var searchTerm: string
    var filtered: seq<Tenant>
    var activeTab: int

    /** `filtered` only ever holds tenants of the full list, in its order. */
    ghost predicate Valid()
      reads this
    {
      IsSubsequence(filtered, tenants)
    }

    /** An error is on screen, and the table cannot be. */
    predicate ErrorShown()
      reads this
    {
      Truthy(error)
    }

    constructor ()
      ensures Valid()
      ensures tenants == [] && filtered == [] && loading && error == None && searchTerm == "" && activeTab == 0
    {
      tenants, filtered := [], [];
      loading, error := true, None;
      searchTerm, activeTab := "", 0;
      SubsequenceRefl<Tenant>([]);
    }

    /** The mount effect: fetch all tenants when a user is signed in. */
    method FetchTenants(userPresent: bool, response: ListResponse<Tenant>)
      requires Valid()
      modifies this
      ensures Valid()
      ensures !userPresent ==> unchanged(this)
      ensures userPresent ==> !loading
      ensures userPresent ==> tenants == ListAfterFetch(response, old(tenants))
      ensures userPresent ==> filtered == ListAfterFetch(response, old(filtered))
      ensures userPresent ==> error == ErrorAfterFetch(response, old(error))
      ensures searchTerm == old(searchTerm) && activeTab == old(activeTab)
      ensures old(ErrorShown()) && response != Thrown(Some("")) ==> ErrorShown()
    {
      if !userPresent {
        return;
      }
      loading := true;
      match response {
        case Response(data, e) =>
          if Truthy(e) {
            error := e;
          } else {
            var list := if data.Some? then data.value else [];
            tenants := list;
            filtered := list;
            SubsequenceRefl(list);
          }
        case Thrown(m) =>
          error := Some(ThrownMessage(m));
      }
      loading := false;
    }

    /** `handleTabChange`: null is ignored; any other index selects that tab and refilters the full list. */
    method HandleTabChange(index: Option<int>)
      requires Valid()
      modifies this
      ensures Valid()
      ensures index.None? ==> unchanged(this)
      ensures index.Some? ==> activeTab == index.value && filtered == TabFilter(tenants, index.value)
      ensures tenants == old(tenants) && loading == old(loading) && error == old(error) && searchTerm == old(searchTerm)
    {
      if index.None? {
        return;
      }
      activeTab := index.value;
      filtered := TabFilter(tenants, index.value);
    }

    /** The search box's `onChange`. */
    method SetSearchTerm(term: string)
      requires Valid()
      modifies this
      ensures Valid()
      ensures searchTerm == term
      ensures tenants == old(tenants) && filtered == old(filtered) && loading == old(loading)
      ensures error == old(error) && activeTab == old(activeTab)
    {
      searchTerm := term;
    }

    /** `handleDeleteTenant`: the user's answer and the API outcomes are inputs; returns the alert raised. */
    method HandleDeleteTenant(confirmed: bool, deletion: DeleteResponse, refetch: ListResponse<Tenant>)
      returns (alert: Option<string>)
      requires Valid()
      modifies this
      ensures Valid()
      ensures tenants == ListAfterDelete(confirmed, deletion, refetch, old(tenants))
      ensures filtered == ListAfterDelete(confirmed, deletion, refetch, old(filtered))
      ensures error == ErrorAfterDelete(confirmed, deletion, refetch, old(error))
      ensures alert == DeleteAlert(TenantDeleteAlerts, confirmed, deletion, refetch)
      ensures loading == old(loading) && searchTerm == old(searchTerm) && activeTab == old(activeTab)
      ensures old(ErrorShown()) ==> ErrorShown()
    {
      if !confirmed {
        return None;
      }
      match deletion {
        case DeleteThrown =>
          alert := Some(TenantDeleteAlerts.fault);
        case Deleted(e) =>
          if Truthy(e) {
            alert := Some(TenantDeleteAlerts.failedPrefix + e.value);
          } else {
            match refetch {
              case Thrown(_) =>
                alert := Some(TenantDeleteAlerts.fault);
              case Response(data, fe) =>
                if Truthy(fe) {
                  error := fe;
                } else {
                  var list := if data.Some? then data.value else [];
                  tenants := list;
                  filtered := list;
                  SubsequenceRefl(list);
                }
                alert := Some(TenantDeleteAlerts.success);
            }
          }
      }
    }

    /** `searchFiltered`, derived on every render. */
    function SearchFiltered(): (r: seq<Tenant>)
      reads this
      requires Valid()
      ensures IsSubsequence(r, filtered) && IsSubsequence(r, tenants)
      ensures searchTerm == "" ==> r == filtered
    {
      var r := Search(filtered, searchTerm);
      SubsequenceTrans(r, filtered, tenants);
      r
    }

    /** The result card: spinner, then error, then "No tenants found", else one row per search result in order. */
    function View(): (v: ListView<TenantRow>)
      reads this
      requires Valid()
      ensures v.Spinner? <==> loading
      ensures v.Failed? <==> !loading && ErrorShown()
      ensures v.NoneFound? <==> !loading && !ErrorShown() && |SearchFiltered()| == 0
      ensures v.Failed? ==> ErrorShown() && v.message == error.value
      ensures ErrorShown() ==> !v.Table?
      ensures v.Table? ==> |v.rows| == |SearchFiltered()| &&
                           forall i :: 0 <= i < |v.rows| ==> v.rows[i] == RowOf(SearchFiltered()[i])
    {
      var shown := SearchFiltered();
      ChooseView(loading, error, seq(|shown|, i requires 0 <= i < |shown| => RowOf(shown[i])))
    }
  }
}
