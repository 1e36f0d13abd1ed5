/**
 * Properties of short sequences of session operations, each stated for every session in a
 * valid state: how a later search supersedes an earlier request, what a blank search leaves
 * in flight, how a burst of input reaches the server, and what paging and cancelling do at
 * their edges.
 */
module Scenarios {
  import opened Wrappers
  import opened Jsonp
  import opened Pagination
  import opened Picker

  /** After a non-blank search, the response of the request it superseded is dropped and
    * leaves the session as it was; the new request's response is applied. */
  method SupersededResponseDropped(picker: PicaFinna, query: string, late: Response, current: Response)
    returns (lateApplied: bool, currentApplied: bool)
    requires picker.Valid() && picker.currentApiRequest.Some? && !IsBlank(Some(query))
    modifies picker, picker.transport
    ensures picker.Valid()
    ensures !lateApplied && currentApplied
    ensures picker.currentResultCount == current.resultCount
  {
    var previous := picker.currentApiRequest.value;
    picker.SearchApiRequest(Some(query), 0);
    var next := picker.currentApiRequest.value;
    assert next.id == NextId(old(picker.transport.counter));
    assert next.id != previous.id;
    currentApplied := picker.Deliver(next.id, current);
    lateApplied := picker.Deliver(previous.id, late);
  }

  /** A blank search shows the introduction but does not abort the request in flight, whose
    * response then replaces the introduction. */
  method BlankSearchKeepsRequest(picker: PicaFinna, blank: string, late: Response)
    returns (applied: bool)
    requires picker.Valid() && picker.currentApiRequest.Some?
    requires picker.currentApiRequest.value.id in picker.transport.scripts
    requires IsBlank(Some(blank))
    modifies picker, picker.transport
    ensures picker.Valid()
    ensures applied && picker.currentResultCount == late.resultCount
  {
    var inFlight := picker.currentApiRequest.value;
    picker.SearchApiRequest(Some(blank), 0);
    applied := picker.Deliver(inFlight.id, late);
  }

  /** A burst of input sends no request until the debounce timer expires, and then exactly
    * one, for the last value typed. */
  method InputBurst(picker: PicaFinna, inputs: seq<string>)
    requires picker.Valid() && |inputs| >= 1
    modifies picker, picker.transport, picker.debouncedSearch
    ensures picker.Valid() && picker.searchField == inputs[|inputs| - 1]
    ensures picker.currentPage == 1 && picker.debouncedSearch.pending == None
    ensures picker.Searched(Some(inputs[|inputs| - 1]), old(picker.RequestsNow()), old(picker.ListingNow()))
  {
    var i := 0;
    while i < |inputs|
      invariant 0 <= i <= |inputs|
      invariant picker.Valid()
      invariant picker.RequestsNow() == old(picker.RequestsNow())
      invariant picker.ListingNow() == old(picker.ListingNow())
      invariant picker.ControlsNow() == old(picker.ControlsNow())
      invariant picker.currentPage == old(picker.currentPage)
      invariant i > 0 ==> picker.searchField == inputs[i - 1] && picker.debouncedSearch.pending == Some(inputs[i - 1])
    {
      picker.OnInput(inputs[i]);
      i := i + 1;
    }
    picker.OnDebounceTimer();
  }

  /** 'next' on the last page stays on it but still sends a new request. The next button is
    * disabled there, so only a direct call of `setPage('next')` gets here. */
  method NextOnLastPage(picker: PicaFinna)
    requires picker.Valid() && picker.currentPage == picker.currentPageCount
    requires !IsBlank(Some(picker.searchField))
    modifies picker, picker.transport
    ensures picker.Valid() && picker.currentPage == old(picker.currentPage)
    ensures picker.currentApiRequest == Some(Handle(NextId(old(picker.transport.counter))))
  {
    ClampAtEdges(picker.currentPage, picker.currentPageCount);
    ghost var before := picker.RequestsNow();
    picker.SetPage(Next);
    assert picker.Dispatched(picker.searchField, before);
  }

  /** Cancelling twice calls a caller's callback twice; nothing makes delivery happen once. */
  method CancelTwice(picker: PicaFinna)
    requires picker.imagePickCallback.Client?
    modifies picker
    ensures picker.deliveries == old(picker.deliveries)
      + [Delivery(old(picker.imagePickCallback).id, None), Delivery(old(picker.imagePickCallback).id, None)]
  {
    picker.CancelPick();
    picker.CancelPick();
  }

  /** Cancelling hides the picker but leaves the debounce timer running: when it expires, the
    * hidden picker sends a request for the pending value. */
  method SearchAfterCancel(picker: PicaFinna)
    requires picker.Valid() && !IsBlank(picker.debouncedSearch.pending)
    modifies picker, picker.transport, picker.debouncedSearch
    ensures picker.Valid() && !picker.shown && picker.loading
    ensures picker.currentApiRequest == Some(Handle(NextId(old(picker.transport.counter))))
    ensures picker.currentApiRequest.value.id in picker.transport.scripts
  {
    picker.CancelPick();
    picker.OnDebounceTimer();
  }

  /** A picker is cancelled while its search is in flight (cancelling aborts nothing), and the
    * static `pickImage` is called again. The new picker shares the registry and sends its own
    * request, while the first picker's request stays attached. */
  method ReopenAfterCancel(first: PicaFinna, callback: Callback, options: Options) returns (second: PicaFinna)
    requires first.Valid() && first.currentApiRequest.Some?
    requires first.currentApiRequest.value.id in first.transport.scripts
    requires options.initialQuery.Some? && !IsBlank(options.initialQuery)
    modifies first, first.transport
    ensures fresh(second) && second.transport == first.transport
    ensures first.Valid() && !first.shown && first.currentApiRequest == old(first.currentApiRequest)
    ensures second.Valid() && second.shown && second.currentResultCount == 0
    ensures second.currentApiRequest.Some? && second.currentApiRequest != first.currentApiRequest
    ensures first.currentApiRequest.value.id in first.transport.scripts
    ensures first.currentApiRequest.value.id !in second.issued
  {
    first.CancelPick();
    ghost var req := first.currentApiRequest;
    second := OpenPicker(first.transport, first.locale, callback, options, first.encode);
    assert first.currentApiRequest == req && req.value.id in first.transport.scripts;
    assert first.Wellformed();
  }

  /** Two pickers share the registry, and the first one's request is still attached: its
    * response runs once, detaches that script and reaches the first picker, while the second
    * picker stays as it was and keeps its invariant over the changed registry. */
  method LateResponseAfterReopen(first: PicaFinna, second: PicaFinna, late: Response)
    returns (applied: bool)
    requires first != second && first.transport == second.transport
    requires first.Valid() && second.Valid() && first.currentApiRequest.Some?
    requires first.currentApiRequest.value.id in first.transport.scripts
    requires first.currentApiRequest.value.id !in second.issued
    modifies first, first.transport
    ensures applied && first.Valid() && first.currentResultCount == late.resultCount
    ensures first.transport.scripts == old(first.transport.scripts) - {old(first.currentApiRequest.value.id)}
    ensures second.Valid() && unchanged(second)
  {
    var earlier := first.currentApiRequest.value.id;
    applied := first.Deliver(earlier, late);
    assert second.Wellformed();
  }
}
