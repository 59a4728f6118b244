# Property-management dashboard: list pages and sidebar

This project models, in Dafny, the part of a property-management web
dashboard that holds actual logic. That is the three list pages, each with
their own state, plus the sidebar's navigation logic:

- the **Leases** page (`app/leases/page.tsx`);
- the **Maintenance** page (`app/maintenance/page.tsx`);
- the **Tenants** page (`app/tenants/page.tsx`);
- the dashboard sidebar (`components/dashboard-sidebar.tsx`).

Each list page keeps six pieces of state:

- the full record list;
- a loading flag;
- an optional error message;
- a search term;
- the tab-filtered list;
- the active tab.

The pages react to five events:

- a fetch when the signed-in user is known;
- a tab change;
- search typing;
- a confirmed delete, followed by a refetch;
- rendering.

Rendering shows exactly one of four views: a spinner, the error, "no records
found", or a table of derived rows.

How the model is cut:

- Each page is a Dafny `class` whose fields are the page's state variables.
  Its event handlers are `modifies this` methods. Each handler's
  postcondition ties the new state to the specification functions of
  `ListPipeline` (the fetch, delete and alert outcomes) or, for a tab
  change, to the per-page `TabFilter`.
- The search is not state: the page's `SearchFiltered` and `View`
  functions derive it on every render from `filtered` and the search term
  through the per-page `Search`.
- Everything the pages compute without changing state is a set of pure
  functions, and lemmas state its properties. This covers tab filters,
  searches, day counts, badges and status labels.
- The sidebar is a small class holding its one collapse flag, plus pure
  functions for the active-link rule and the layout that depends on
  collapse.

JavaScript semantics the code relies on are written out in `JsText`:

- the truthiness of an optional string (the empty string is falsy);
- `x || fallback`;
- `toLowerCase`, restricted to ASCII;
- `includes` and `startsWith`;
- `replace(c, d)` with a character pattern, which replaces only the first
  occurrence;
- decimal rendering of a day count.

The backend API, the signed-in user, the browser's confirm dialog and the
clock are not modelled; they are parameters:

- An API answer is a `ListResponse` or a `DeleteResponse`. Each covers the
  `{data, error}` result and the case where the call throws.
- `userPresent` stands for the auth hook.
- `confirmed` is what `confirm` returned.
- `now` is the current time in milliseconds.
- The `alert` text comes back as an out-parameter.

Where the code does something surprising, the model follows the code:

- **Errors are sticky.** No handler ever clears `error`. Once an error is
  shown, a later successful fetch or delete does not bring back the table.
  The one exception is a fetch that throws with an empty message. It stores
  `""`, which is falsy, so the table reappears. This is
  `ListPipeline.FetchKeepsShownError` and `Tenants.TenantsPage.View`.
- **Loading without a user.** With no signed-in user the fetch returns at
  once, and `loading` stays `true`.
- **Expiring Soon has no lower bound.** The Leases "Expiring Soon" tab keeps
  active leases whose end date is on or before 30 days from now, including
  leases already past their end. The row's "Expiring Soon" badge, by
  contrast, needs 1 to 30 days left. `Leases.ExpiringSoonVersusTab` proves
  exactly where the two disagree.
- **Refetch ignores the active tab.** A refetch after a delete resets both
  `filtered` and the full list to the fresh data, whatever tab is active,
  and the tab indicator is left as it was: `activeTab == old(activeTab)` in
  each page's delete handler. `Leases.DeleteWhileOnActiveTab` states this
  for the "Active" tab, and `Leases.RefetchIgnoresActiveTab` shows that the
  list shown then differs from the tab's own filter as soon as the data
  holds an inactive lease.
- **Case handling in search.**
  - The Leases search lower-cases the tenant name but matches the unit
    number case-sensitively (`Leases.UnitSearchIsCaseSensitive`).
  - The Tenants search lower-cases the full name and, only when it is
    present, the email (`Tenants.NoEmailMatchesByNameOnly`).
  - The Maintenance search runs every field through `toLowerCase`. That
    includes the fallback tenant name "No Tenant Assigned", so an unassigned
    request matches the term "tenant".

## Model

| member | source | states |
|---|---|---|
| JsText.OrElseShowsValueOrFallback | app/tenants/page.tsx:189-191 | `x \|\| 'N/A'` shows the value exactly when it is truthy (present and non-empty), and the fallback otherwise |
| JsText.Lower | app/tenants/page.tsx:116-117 | `toLowerCase` keeps the length, leaves no upper-case ASCII letter, keeps every other character, and turns each upper-case letter into its lower-case counterpart |
| JsText.LowerIdempotent | app/tenants/page.tsx:116-117 | lower-casing an already lower-cased string changes nothing |
| JsText.StartsWith | components/dashboard-sidebar.tsx:99 | `s.startsWith(p)` holds iff `p` is no longer than `s` and agrees with it character by character |
| JsText.Includes | app/tenants/page.tsx:116-117 | `s.includes(t)` holds exactly when `t` occurs at some position of `s` |
| JsText.IncludesEmpty | app/leases/page.tsx:136-142 | every string includes the empty search term |
| JsText.ReplaceFirst | app/maintenance/page.tsx:245 | `replace('_', ' ')` keeps the length and changes only the first occurrence of the pattern character |
| JsText.ReplaceFirstSplit | app/maintenance/page.tsx:245 | replacing in `p + "_" + q`, where `p` has no underscore, gives `p + " " + q`, whatever `q` contains |
| JsText.Decimal | app/leases/page.tsx:228 | the `${daysLeft}` rendering of a positive count is a non-empty string of digits with no leading zero |
| JsText.DecimalRoundTrip | app/leases/page.tsx:228 | reading the rendered digits back gives the original number |
| ListPipeline.Filter | app/leases/page.tsx:86 | `Array.filter`: the result is no longer than the input, every kept element satisfies the predicate, and every satisfying element is kept |
| ListPipeline.FilterMultiplicity | app/leases/page.tsx:86 | a filter keeps each satisfying value exactly as many times as it occurs in the input, and no other value |
| ListPipeline.SubsequenceTrans | app/tenants/page.tsx:114-118 | the searched list, taken from the tab-filtered list, which is taken from the full list, is still a subsequence of the full list |
| ListPipeline.FilterIsSubsequence | app/tenants/page.tsx:81 | filtering keeps the original order, so the result is a subsequence of the input |
| ListPipeline.FilterKeepsAll | app/maintenance/page.tsx:127-135 | a filter that every element passes returns the list unchanged |
| ListPipeline.FilterIdempotent | app/tenants/page.tsx:81 | filtering twice by the same predicate is filtering once |
| ListPipeline.ListAfterFetch | app/tenants/page.tsx:50-55 | after a fetch the list is either the old list or, after a successful response, the fresh `data \|\| []` |
| ListPipeline.FetchReplacesOrKeeps | app/tenants/page.tsx:50-55 | a fetch without an error replaces the list with `data \|\| []` (empty when data is absent); an error or a throw keeps the old list |
| ListPipeline.ErrorAfterFetch | app/tenants/page.tsx:50-58 | after a fetch the error is the old one, a reported error, or the thrown message; a present error is never set back to null |
| ListPipeline.FetchErrorCases | app/tenants/page.tsx:47-60 | a fetch sets the error to the reported error, or to the thrown message (or "An error occurred"), and leaves it unchanged on success; a present error is never cleared |
| ListPipeline.FetchKeepsShownError | app/tenants/page.tsx:50-57 | once an error is shown, it stays shown after any fetch except a throw with an empty message |
| ListPipeline.ListAfterDelete | app/leases/page.tsx:110-127 | after the delete handler the list is either unchanged or the refetched data, and the latter only after a confirmed, error-free delete and a successful refetch |
| ListPipeline.ErrorAfterDelete | app/leases/page.tsx:119-124 | after the delete handler the error is unchanged or the refetch's reported error; a present error stays present |
| ListPipeline.DeleteAlert | app/leases/page.tsx:110-132 | an alert appears iff the user confirmed; its text is the fault text, the success text, or "Failed to delete …: " followed by the reported error |
| ListPipeline.DeleteWithoutRefetchChangesNothing | app/leases/page.tsx:110-132 | a cancelled, failed or thrown delete changes neither the list nor the error; a cancel shows no alert, a reported failure alerts "Failed to delete …: " plus the error, and a thrown delete alerts the fault text |
| ListPipeline.DeleteSuccessAlertIgnoresRefetchError | app/leases/page.tsx:119-128 | after a successful delete the success alert appears even if the refetch reports an error; that error is stored and the list kept, while a successful refetch replaces the list |
| ListPipeline.DeleteThrownRefetchOnlyAlerts | app/leases/page.tsx:119-132 | when the refetch throws, the list and the error are untouched and only the generic fault alert appears |
| ListPipeline.DeleteKeepsShownError | app/tenants/page.tsx:88-111 | the delete flow never clears an error that is shown |
| ListPipeline.ChooseView | app/tenants/page.tsx:157-170 | exactly one view: spinner iff loading; error iff not loading and the error is truthy; "none found" iff neither and no rows; otherwise the table of the given rows |
| Leases.DaysLeft | app/leases/page.tsx:101-107 | the day count is the ceiling of the time difference in days: `(d-1)·day < end-now <= d·day` |
| Leases.DaysLeftIsCeiling | app/leases/page.tsx:101-107 | any integer meeting the ceiling bounds is the day count (uniqueness) |
| Leases.DaysLeftBoundaries | app/leases/page.tsx:101-107 | an end of now gives 0 days, 30 days exactly gives 30, and one millisecond ahead gives 1 |
| Leases.DaysLeftThresholds | app/leases/page.tsx:101-107 | more than 0 days iff the end is in the future; at most 30 days iff the end is within 30 days of now |
| Leases.TabFilter | app/leases/page.tsx:75-97 | tab 1 keeps exactly the active leases; tab 2 keeps exactly the active leases ending no later than 30 days from now, leases already past their end included; any other tab keeps all; order and multiplicities are preserved |
| Leases.TabFilterIdempotent | app/leases/page.tsx:75-97 | applying a tab's filter to its own output changes nothing |
| Leases.ExpiringTabScenario | app/leases/page.tsx:87-94 | of active leases ending in 10 and 45 days and a completed one ending in 5 days, Expiring Soon shows only the first |
| Leases.IsExpiringSoon | app/leases/page.tsx:210-211 | the row flag holds iff the lease is active and ends after now and at most 30 days from now |
| Leases.ExpiringSoonVersusTab | app/leases/page.tsx:211 | the row warning holds iff the lease is in the Expiring Soon tab and has not ended; the two agree for future end dates; an active, already-ended lease is in the tab but gets no warning |
| Leases.DaysLeftText | app/leases/page.tsx:228 | the cell reads "Expired" iff the count is not positive, and otherwise the count's decimal digits, with no leading zero and reading back as the count, followed by " days" |
| Leases.StatusBadge | app/leases/page.tsx:232-242 | yellow "Expiring Soon" iff active and ending within the next 30 days; green "Active" iff active otherwise; gray iff not active, labelled with the raw status |
| Leases.Search | app/leases/page.tsx:136-142 | keeps, in order and with their multiplicities, exactly the leases whose lower-cased tenant name includes the lower-cased term or whose unit number includes the raw term; an empty term keeps all |
| Leases.UnitSearchIsCaseSensitive | app/leases/page.tsx:140 | a lease on unit "B" with no name text is found by "B" but not by "b" |
| Leases.RowOf | app/leases/page.tsx:209-242 | the warning icon appears exactly for an active lease ending within 30 days, beside the yellow "Expiring Soon" badge; the badge is the lease's status badge (`StatusBadge`: green "Active" for an active lease outside the window, gray with the raw status exactly for a lease that is not active); the tenant column is the tenant's full name; the days cell is the days text of the lease's whole days left (`DaysLeftText`), reading "Expired" iff the lease has ended; the unit shows its value when truthy and reads "N/A" iff it is missing or empty (or literally "N/A") |
| Leases.RefetchIgnoresActiveTab | app/leases/page.tsx:120-127 | a successful refetch puts the fresh data itself into the list, for every data; when that data holds an inactive lease it differs from what the "Active" tab would show |
| Leases.LeasesPage.constructor | app/leases/page.tsx:35-40 | initial state: empty lists, loading, no error, empty search, the first tab |
| Leases.LeasesPage.FetchLeases | app/leases/page.tsx:51-72 | without a user nothing changes; otherwise loading ends and the list, the filtered list and the error follow the fetch outcome |
| Leases.LeasesPage.HandleTabChange | app/leases/page.tsx:75-98 | a null index changes nothing; otherwise the index becomes the active tab and the filtered list is that tab's filter of the full list; nothing else changes |
| Leases.LeasesPage.SetSearchTerm | app/leases/page.tsx:160 | typing sets the search term and nothing else |
| Leases.LeasesPage.HandleDeleteLease | app/leases/page.tsx:110-133 | the list, the filtered list, the error and the alert follow the delete and refetch outcomes; loading, search and tab are untouched |
| Leases.LeasesPage.SearchFiltered | app/leases/page.tsx:136-142 | the searched list is a subsequence of both the filtered list and the full list, and equals the filtered list for an empty term |
| Leases.LeasesPage.View | app/leases/page.tsx:181-266 | spinner iff loading; error iff not loading and the error is truthy, showing that error's text; "No leases found" iff neither and the search is empty; otherwise one row per searched lease |
| Leases.SelectTabTwice | app/leases/page.tsx:75-98 | selecting the same tab twice leaves the same filtered list as selecting it once |
| Leases.DeleteWhileOnActiveTab | app/leases/page.tsx:110-133 | on the "Active" tab, a successful delete and refetch set both lists to the fresh data, keep "Active" selected and alert success |
| Maintenance.TabFilter | app/maintenance/page.tsx:77-98 | tabs 1, 2 and 3 keep exactly the open, in-progress and completed requests; other tabs keep all; order and multiplicities are preserved |
| Maintenance.TabFilterIdempotent | app/maintenance/page.tsx:77-98 | applying a tab's filter to its own output changes nothing |
| Maintenance.StatusTabsAreDisjoint | app/maintenance/page.tsx:86-95 | no request shows under two different status tabs |
| Maintenance.Search | app/maintenance/page.tsx:127-135 | keeps, in order and with their multiplicities, exactly the requests whose lower-cased title, tenant name (or "No Tenant Assigned"), unit number or category includes the lower-cased term; an empty term keeps all |
| Maintenance.SearchIgnoresTermCase | app/maintenance/page.tsx:130-133 | a term matches iff its lower-cased form matches |
| Maintenance.UnassignedRequestMatchesTenant | app/maintenance/page.tsx:129 | a request with no tenant matches the term "tenant" through the fallback name, while its row shows "N/A" |
| Maintenance.PlumbingSearchScenario | app/maintenance/page.tsx:127-135 | searching "plumb" over a plumbing request and a structural one keeps only the plumbing request; an empty search keeps both |
| Maintenance.PriorityColor | app/maintenance/page.tsx:137-150 | red iff urgent or high, yellow iff medium, green iff low, gray for any other priority |
| Maintenance.StatusLabel | app/maintenance/page.tsx:245 | the label is the status with exactly its first underscore turned into a space, character by character; a status without an underscore is shown unchanged |
| Maintenance.StatusLabelReplacesFirstUnderscore | app/maintenance/page.tsx:245 | the status label replaces the first underscore by a space and keeps later ones |
| Maintenance.InProgressLabel | app/maintenance/page.tsx:245 | "in_progress" is shown as "in progress" |
| Maintenance.StatusColor | app/maintenance/page.tsx:237-243 | green iff completed, blue iff in progress, gray otherwise |
| Maintenance.StatusIconOf | app/maintenance/page.tsx:231-235 | the check icon iff completed, the clock icon otherwise |
| Maintenance.RowOf | app/maintenance/page.tsx:216-266 | the title and priority are the request's own; the check icon and the green status badge mark exactly a completed request, the blue badge exactly one in progress; the label is the status label (`StatusLabel`: the status with its first underscore read as a space); the status badge is gray exactly for any other status; the priority colour is red for urgent or high, yellow for medium, green for low and gray otherwise; the tenant shown differs from the tenant searched exactly for an unassigned request, which shows "N/A" |
| Maintenance.MaintenancePage.constructor | app/maintenance/page.tsx:36-41 | initial state: empty lists, loading, no error, empty search, the first tab |
| Maintenance.MaintenancePage.FetchMaintenanceRequests | app/maintenance/page.tsx:53-74 | without a user nothing changes; otherwise loading ends and the list, the filtered list and the error follow the fetch outcome |
| Maintenance.MaintenancePage.HandleTabChange | app/maintenance/page.tsx:77-99 | a null index changes nothing; otherwise the index becomes the active tab and the filtered list is that tab's filter; nothing else changes |
| Maintenance.MaintenancePage.SetSearchTerm | app/maintenance/page.tsx:168 | typing sets the search term and nothing else |
| Maintenance.MaintenancePage.HandleDeleteMaintenance | app/maintenance/page.tsx:101-124 | the list, the filtered list, the error and the alert follow the delete and refetch outcomes; loading, search and tab are untouched |
| Maintenance.MaintenancePage.SearchFiltered | app/maintenance/page.tsx:127-135 | the searched list is a subsequence of both the filtered list and the full list, and equals the filtered list for an empty term |
| Maintenance.MaintenancePage.View | app/maintenance/page.tsx:189-271 | spinner iff loading; error iff not loading and the error is truthy, showing that error's text; "none found" iff neither and the search is empty; otherwise one row per searched request |
| Tenants.LacksContact | app/tenants/page.tsx:81 | a tenant the "Inactive" tab keeps shows "N/A" for both email and phone |
| Tenants.TabFilter | app/tenants/page.tsx:67-85 | tab 2 keeps exactly the tenants with neither email nor phone; any other tab keeps all; order and multiplicities are preserved |
| Tenants.TabFilterIdempotent | app/tenants/page.tsx:67-85 | applying a tab's filter to its own output changes nothing |
| Tenants.ActiveTabIsAll | app/tenants/page.tsx:73-78 | the "Active" tab shows the same list as "All Tenants" |
| Tenants.Search | app/tenants/page.tsx:114-118 | keeps, in order and with their multiplicities, exactly the tenants whose lower-cased full name, or present email, includes the lower-cased term; an empty term keeps all |
| Tenants.NoEmailMatchesByNameOnly | app/tenants/page.tsx:117 | a tenant without an email matches exactly when the name does |
| Tenants.SearchIgnoresTermCase | app/tenants/page.tsx:116-117 | a term matches iff its lower-cased form matches |
| Tenants.RowOf | app/tenants/page.tsx:184-195 | the name column is "first last"; missing or empty email, phone or address show "N/A", present ones are shown as they are; the status is always "Active" |
| Tenants.TenantsPage.constructor | app/tenants/page.tsx:27-32 | initial state: empty lists, loading, no error, empty search, the first tab |
| Tenants.TenantsPage.FetchTenants | app/tenants/page.tsx:43-64 | without a user nothing changes; otherwise loading ends and the lists and error follow the fetch; a shown error stays shown unless the fetch throws with an empty message |
| Tenants.TenantsPage.HandleTabChange | app/tenants/page.tsx:67-85 | a null index changes nothing; otherwise the index becomes the active tab and the filtered list is that tab's filter; nothing else changes |
| Tenants.TenantsPage.SetSearchTerm | app/tenants/page.tsx:136 | typing sets the search term and nothing else |
| Tenants.TenantsPage.HandleDeleteTenant | app/tenants/page.tsx:88-111 | the lists, the error and the alert follow the delete and refetch outcomes; a shown error is never cleared |
| Tenants.TenantsPage.SearchFiltered | app/tenants/page.tsx:114-118 | the searched list is a subsequence of both the filtered list and the full list, and equals the filtered list for an empty term |
| Tenants.TenantsPage.View | app/tenants/page.tsx:157-216 | spinner iff loading; error iff not loading and an error is shown, showing its text; while an error is shown the table never appears |
| Sidebar.IsActive | components/dashboard-sidebar.tsx:99 | a link is highlighted iff its href is a prefix of the path ending at the path's end or at a `/` |
| Sidebar.IsActiveExamples | components/dashboard-sidebar.tsx:99 | "/tenants/42" highlights Tenants; "/tenantsx" does not |
| Sidebar.ActiveHrefIsUnique | components/dashboard-sidebar.tsx:99 | two single-segment hrefs both active for one path are the same href |
| Sidebar.AtMostOneActive | components/dashboard-sidebar.tsx:98-99 | in a list of distinct single-segment hrefs, at most one entry is highlighted for any path |
| Sidebar.MainNavHighlightsAtMostOne | components/dashboard-sidebar.tsx:18-24 | the main navigation highlights at most one entry for any path |
| Sidebar.SecondaryNavHighlightsAtMostOne | components/dashboard-sidebar.tsx:26-30 | the secondary navigation highlights at most one entry for any path |
| Sidebar.LayoutOf | components/dashboard-sidebar.tsx:43-211 | width `w-16` iff collapsed and `w-64` iff expanded; tooltips visible iff collapsed; brand, section headers, user info and quick actions shown together, iff expanded; the right chevron iff collapsed |
| Sidebar.BadgeShown | components/dashboard-sidebar.tsx:124 | a count badge is shown only for an item with a non-empty badge, and only on the wide sidebar |
| Sidebar.BadgesShown | components/dashboard-sidebar.tsx:124 | a main entry's count badge is shown iff it has a badge and the sidebar is expanded |
| Sidebar.DashboardSidebar.constructor | components/dashboard-sidebar.tsx:34-38 | the sidebar starts expanded and reports itself open |
| Sidebar.DashboardSidebar.CurrentLayout | components/dashboard-sidebar.tsx:43-211 | in the current state the sidebar is wide iff open, tooltips are visible iff closed, and every expanded-only section is shown iff open |
| Sidebar.DashboardSidebar.Toggle | components/dashboard-sidebar.tsx:53 | either collapse button flips the collapse flag and the open state |
| Sidebar.DashboardSidebar.SetOpen | components/dashboard-sidebar.tsx:38-39 | the provider's open request sets the flag to its negation |
| Sidebar.ToggleTwice | components/dashboard-sidebar.tsx:79 | toggling twice returns to the original state |

## Left out

- API clients (`leasesApi`, `maintenanceApi`, `tenantsApi`) and the auth hook: they are outside code. Their outcomes, including a thrown call, are inputs of the handlers.
- The id passed to each delete: the backend is not modelled, so the outcome of a delete is an input rather than a function of the id.
- `confirm` and `alert`: browser dialogs. The confirmation is a boolean input and the alert text an out-parameter.
- Asynchrony: overlapping fetches or deletes, state updates that React batches, and re-running the effect when the user changes. Each handler is modelled as one atomic step.
- Date parsing and `toLocaleDateString`: dates are integers of milliseconds since the epoch, and displayed dates are not modelled. The clock is the `now` parameter.
- Leases.TabFilter: the source adds 30 calendar days with `setDate`, which can differ from 30 × 24 h across a daylight-saving change. The model uses exactly 30 × 86 400 000 ms.
- Leases.DaysLeft: `Math.ceil` of a floating-point quotient is modelled as exact integer ceiling division. NaN from an unparsable date is not modelled.
- Monetary amounts (`monthly_rent`, `security_deposit`, costs) are carried as `real` and never computed with, as in the pages.
- JsText.Lower: only ASCII letters are lowered. JavaScript's full Unicode case mapping also covers other scripts.
- Tab indices are integers. The tab widget's non-integer or separator indices are not modelled. A null index is `None`.
- JSX structure, the navigation, header and action-button icons (the leases warning icon, the maintenance status icon and the sidebar chevron are modelled), CSS classes other than the badge colours, the sidebar widths and the tooltip display class, the hard-coded user card and quick-actions text, and the active-link style classes: presentation only.
- The create and edit buttons: their handlers are empty placeholders in the source.
- Sidebar.DashboardSidebar.SetOpen: the UI library's sidebar provider is outside code. Only its request to set `open` is modelled.
