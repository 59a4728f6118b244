/**
 * What the three list pages (leases, maintenance, tenants) share: the
 * per-page pipeline "full list -> tab-filtered list -> search result ->
 * rows", the response shapes of the API client, the state updates the
 * fetch effect and the delete handler make, and the choice of what the
 * result card shows.
 */
module ListPipeline {
  import opened Wrappers
  import opened JsText

  // ---------------------------------------------------------------- filter

  /** `s.filter(p)`; `FilterMultiplicity` adds that each kept value is kept as often as it occurs. */
  function Filter<T>(s: seq<T>, p: T -> bool): (r: seq<T>)
    ensures |r| <= |s|
    ensures forall i :: 0 <= i < |r| ==> r[i] in s && p(r[i])
    ensures forall i :: 0 <= i < |s| && p(s[i]) ==> s[i] in r
  {
    if s == [] then []
    else if p(s[0]) then [s[0]] + Filter(s[1..], p)
    else Filter(s[1..], p)
  }

  /** A filter keeps every passing value exactly as many times as it occurs, and no other value. */
  lemma {:induction false} FilterMultiplicity<T>(s: seq<T>, p: T -> bool)
    ensures forall x :: multiset(Filter(s, p))[x] == if p(x) then multiset(s)[x] else 0
  {
    if s != [] {
      FilterMultiplicity(s[1..], p);
      assert s == [s[0]] + s[1..];
    }
  }

  /** `a` can be obtained from `b` by deleting elements: same elements, same order. */
  ghost predicate IsSubsequence<T>(a: seq<T>, b: seq<T>)
    decreases |b|
  {
    a == [] || (b != [] && ((a[0] == b[0] && IsSubsequence(a[1..], b[1..])) || IsSubsequence(a, b[1..])))
  }

  lemma {:induction false} SubsequenceRefl<T>(s: seq<T>)
    ensures IsSubsequence(s, s)
  {
    if s != [] { SubsequenceRefl(s[1..]); }
  }

  lemma {:induction false} SubsequenceDropHead<T>(a: seq<T>, b: seq<T>)
    requires a != [] && IsSubsequence(a, b)
    ensures IsSubsequence(a[1..], b)
    decreases |b|
  {
    if a[0] == b[0] && IsSubsequence(a[1..], b[1..]) {
    } else {
      SubsequenceDropHead(a, b[1..]);
    }
  }

  lemma {:induction false} SubsequenceTrans<T>(a: seq<T>, b: seq<T>, c: seq<T>)
    requires IsSubsequence(a, b) && IsSubsequence(b, c)
    ensures IsSubsequence(a, c)
    decreases |c|
  {
    if a != [] {
      if b[0] == c[0] && IsSubsequence(b[1..], c[1..]) {
        if a[0] == b[0] && IsSubsequence(a[1..], b[1..]) {
          SubsequenceTrans(a[1..], b[1..], c[1..]);
        } else {
          SubsequenceTrans(a, b[1..], c[1..]);
        }
      } else {
        SubsequenceTrans(a, b, c[1..]);
        if a[0] == c[0] {
          SubsequenceDropHead(a, c[1..]);
        }
      }
    }
  }

  /** A filter keeps the kept elements in their original order. */
  lemma {:induction false} FilterIsSubsequence<T>(s: seq<T>, p: T -> bool)
    ensures IsSubsequence(Filter(s, p), s)
  {
    if s != [] {
      FilterIsSubsequence(s[1..], p);
      if p(s[0]) {
        assert ([s[0]] + Filter(s[1..], p))[1..] == Filter(s[1..], p);
      }
    }
  }

  /** A filter that keeps everything is the identity. */
  lemma {:induction false} FilterKeepsAll<T>(s: seq<T>, p: T -> bool)
    requires forall i :: 0 <= i < |s| ==> p(s[i])
    ensures Filter(s, p) == s
  {
    if s != [] {
      FilterKeepsAll(s[1..], p);
    }
  }

  /** Filtering twice by the same predicate filters once. */
  lemma FilterIdempotent<T>(s: seq<T>, p: T -> bool)
    ensures Filter(Filter(s, p), p) == Filter(s, p)
  {
    FilterKeepsAll(Filter(s, p), p);
  }

  // ---------------------------------------------------------------- api

  const GenericFaultMessage: string := "An error occurred"

  /**
   * What `getAll()` settles to: a `{ data, error }` object, or a rejection.
   * A rejection carries the message of an `Error` instance, or None when the
   * thrown value is not an `Error`.
   */
  datatype ListResponse<R> =
    | Response(data: Option<seq<R>>, error: Option<string>)
    | Thrown(message: Option<string>)

  /** What `delete(id)` settles to: a `{ error }` object, or a rejection. */
  datatype DeleteResponse = Deleted(error: Option<string>) | DeleteThrown

  /** `result.error` is truthy: the handler takes its error branch. */
  predicate ReportsError<R>(r: ListResponse<R>) {
    r.Response? && Truthy(r.error)
  }

  /** The response reaches the `setX(result.data || [])` branch. */
  predicate Succeeds<R>(r: ListResponse<R>) {
    r.Response? && !Truthy(r.error)
  }

  /** `result.data || []`. */
  function DataOrEmpty<R>(r: ListResponse<R>): seq<R>
    requires r.Response?
  {
    if r.data.Some? then r.data.value else []
  }

  /** `err instanceof Error ? err.message : 'An error occurred'`. */
  function ThrownMessage(m: Option<string>): string {
    if m.Some? then m.value else GenericFaultMessage
  }

  // ---------------------------------------------------------------- fetch effect

  /** A list (the full list or `filtered`) after the fetch effect has settled. */
  function ListAfterFetch<R>(r: ListResponse<R>, current: seq<R>): (l: seq<R>)
    ensures l == current || (Succeeds(r) && l == DataOrEmpty(r))
  {
    if Succeeds(r) then DataOrEmpty(r) else current
  }

  /** `error` after the fetch effect has settled; no branch sets it back to null. */
  function ErrorAfterFetch<R>(r: ListResponse<R>, current: Option<string>): (e: Option<string>)
    ensures current.Some? ==> e.Some?
    ensures e == current || (ReportsError(r) && e == r.error) || (r.Thrown? && e == Some(ThrownMessage(r.message)))
  {
    match r
    case Response(_, e) => if Truthy(e) then e else current
    case Thrown(m) => Some(ThrownMessage(m))
  }

  /** A failed fetch (reported or thrown) leaves the list alone; a successful one replaces it. */
  lemma FetchReplacesOrKeeps<R>(r: ListResponse<R>, current: seq<R>)
    ensures !Succeeds(r) ==> ListAfterFetch(r, current) == current
    ensures Succeeds(r) ==> ListAfterFetch(r, current) == DataOrEmpty(r)
    ensures Succeeds(r) && r.data.None? ==> ListAfterFetch(r, current) == []
  {
  }

  /** The fetch effect sets `error` exactly when it fails, and never to null. */
  lemma FetchErrorCases<R>(r: ListResponse<R>, current: Option<string>)
    ensures Succeeds(r) ==> ErrorAfterFetch(r, current) == current
    ensures ReportsError(r) ==> ErrorAfterFetch(r, current) == r.error
    ensures r.Thrown? ==> ErrorAfterFetch(r, current) == Some(ThrownMessage(r.message))
    ensures current.Some? ==> ErrorAfterFetch(r, current).Some?
  {
  }

  /**
   * An error on screen stays on screen through any fetch, except one that
   * throws an `Error` whose message is empty: that stores "", which is falsy.
   */
  lemma FetchKeepsShownError<R>(r: ListResponse<R>, current: Option<string>)
    requires Truthy(current)
    ensures Truthy(ErrorAfterFetch(r, current)) <==> r != Thrown(Some(""))
  {
  }

  // ---------------------------------------------------------------- delete handler

  /** The user confirmed and `delete(id)` reported no error: the handler refetches. */
  predicate Refetches(confirmed: bool, d: DeleteResponse) {
    confirmed && d.Deleted? && !Truthy(d.error)
  }

  /** A list after the delete handler: only a successful refetch replaces it. */
  function ListAfterDelete<R>(confirmed: bool, d: DeleteResponse, refetch: ListResponse<R>, current: seq<R>): (l: seq<R>)
    ensures l == current || (Refetches(confirmed, d) && Succeeds(refetch) && l == DataOrEmpty(refetch))
  {
    if Refetches(confirmed, d) then ListAfterFetch(refetch, current) else current
  }

  /** `error` after the delete handler: a thrown refetch lands in the alerting catch, not in `setError`. */
  function ErrorAfterDelete<R>(confirmed: bool, d: DeleteResponse, refetch: ListResponse<R>, current: Option<string>): (e: Option<string>)
    ensures current.Some? ==> e.Some?
    ensures e == current || (Refetches(confirmed, d) && ReportsError(refetch) && e == refetch.error)
  {
    if Refetches(confirmed, d) && refetch.Response? then ErrorAfterFetch(refetch, current) else current
  }

  /** The three alert texts of one page's delete handler. */
  datatype DeleteAlerts = DeleteAlerts(failedPrefix: string, success: string, fault: string)

  /** The alert the delete handler raises, if any. */
  function DeleteAlert<R>(texts: DeleteAlerts, confirmed: bool, d: DeleteResponse, refetch: ListResponse<R>): (a: Option<string>)
    ensures a.None? <==> !confirmed
    ensures a.Some? ==> a.value == texts.fault || a.value == texts.success ||
                        (d.Deleted? && Truthy(d.error) && a.value == texts.failedPrefix + d.error.value)
  {
    if !confirmed then None
    else match d
      case DeleteThrown => Some(texts.fault)
      case Deleted(e) =>
        if Truthy(e) then Some(texts.failedPrefix + e.value)
        else if refetch.Thrown? then Some(texts.fault)
        else Some(texts.success)
  }

  /** Declining, a reported delete error and a thrown delete leave lists and `error` alone. */
  lemma DeleteWithoutRefetchChangesNothing<R>(texts: DeleteAlerts, confirmed: bool, d: DeleteResponse,
                                              refetch: ListResponse<R>, list: seq<R>, error: Option<string>)
    requires !Refetches(confirmed, d)
    ensures ListAfterDelete(confirmed, d, refetch, list) == list
    ensures ErrorAfterDelete(confirmed, d, refetch, error) == error
    ensures !confirmed <==> DeleteAlert(texts, confirmed, d, refetch).None?
    ensures confirmed && d.Deleted? ==> DeleteAlert(texts, confirmed, d, refetch) == Some(texts.failedPrefix + d.error.value)
    ensures confirmed && d.DeleteThrown? ==> DeleteAlert(texts, confirmed, d, refetch) == Some(texts.fault)
  {
  }

  /** After a successful delete the success alert fires whether or not the refetch reported an error. */
  lemma DeleteSuccessAlertIgnoresRefetchError<R>(texts: DeleteAlerts, d: DeleteResponse, refetch: ListResponse<R>,
                                                 list: seq<R>, error: Option<string>)
    requires Refetches(true, d) && refetch.Response?
    ensures DeleteAlert(texts, true, d, refetch) == Some(texts.success)
    ensures ReportsError(refetch) ==> ListAfterDelete(true, d, refetch, list) == list
    ensures ReportsError(refetch) ==> ErrorAfterDelete(true, d, refetch, error) == refetch.error
    ensures Succeeds(refetch) ==> ListAfterDelete(true, d, refetch, list) == DataOrEmpty(refetch)
    ensures Succeeds(refetch) ==> ErrorAfterDelete(true, d, refetch, error) == error
  {
  }

  /** A thrown refetch after a successful delete only alerts, with the fault text. */
  lemma DeleteThrownRefetchOnlyAlerts<R>(texts: DeleteAlerts, d: DeleteResponse, m: Option<string>,
                                         list: seq<R>, error: Option<string>)
    requires Refetches(true, d)
    ensures ListAfterDelete(true, d, Thrown(m), list) == list
    ensures ErrorAfterDelete(true, d, ListResponse<R>.Thrown(m), error) == error
    ensures DeleteAlert(texts, true, d, ListResponse<R>.Thrown(m)) == Some(texts.fault)
  {
  }

  /** The delete handler can set `error` but never clears or hides one. */
  lemma DeleteKeepsShownError<R>(confirmed: bool, d: DeleteResponse, refetch: ListResponse<R>, current: Option<string>)
    ensures current.Some? ==> ErrorAfterDelete(confirmed, d, refetch, current).Some?
    ensures Truthy(current) ==> Truthy(ErrorAfterDelete(confirmed, d, refetch, current))
  {
  }

  // ---------------------------------------------------------------- view

  /** What a page's result card shows. */
  datatype ListView<Row> =
    | Spinner                 // "Loading ..."
    | Failed(message: string) // "Error: <message>"
    | NoneFound               // "No ... found"
    | Table(rows: seq<Row>)

  /** `loading ? … : error ? … : rows.length === 0 ? … : table`. */
  function ChooseView<Row>(loading: bool, error: Option<string>, rows: seq<Row>): (v: ListView<Row>)
    ensures v.Spinner? <==> loading
    ensures v.Failed? <==> !loading && Truthy(error)
    ensures v.Failed? ==> v.message == error.value
    ensures v.NoneFound? <==> !loading && !Truthy(error) && |rows| == 0
    ensures v.Table? <==> !loading && !Truthy(error) && |rows| > 0
    ensures v.Table? ==> v.rows == rows
  {
    if loading then Spinner
    else if Truthy(error) then Failed(error.value)
    else if |rows| == 0 then NoneFound
    else Table(rows)
  }
}
