/**
 * The `PicaFinna` search session: the fields the picker updates as the user searches,
 * pages and picks, the request it sends for each non-blank query, and the supersession
 * of an earlier request by a later one. Rendering is reduced to the values the widget
 * would show (pagination buttons and text, the result list, whether the picker is shown).
 */
module Picker {
  import opened Wrappers
  import Text
  import opened Pagination
  import Locale
  import QS = QueryString
  import opened Jsonp
  import Debounce

  const ApiBaseUrl: string := "https://api.finna.fi"

  const Filters: seq<string> := ["online_boolean:\"1\"", "usage_rights_str_mv:usage_E"]

  const ResultFields: seq<string> := ["title", "imageRights", "images", "authors", "buildings",
    "formats", "year", "collections", "measurements", "summary", "recordPage"]

  /** The parameters of a search request, in the order the object literal lists them. */
  function SearchParams(limit: nat, page: nat, query: string): (r: QS.Params)
    ensures |r| == 5 && r[|r| - 1] == ("lookfor", QS.Scalar(query))
  {
    [("filter[]", QS.List(Filters)),
     ("field[]", QS.List(ResultFields)),
     ("limit", QS.Scalar(Text.NatToString(limit))),
     ("page", QS.Scalar(Text.NatToString(page))),
     ("lookfor", QS.Scalar(query))]
  }

  /** No parameter name occurs twice, so each field of the query string is unambiguous. */
  lemma SearchParamsKeysDistinct(limit: nat, page: nat, query: string)
    ensures var r := SearchParams(limit, page, query);
      forall i, j :: 0 <= i < j < |r| ==> r[i].0 != r[j].0
  {
  }

  function SearchUrl(limit: nat, page: nat, query: string, encode: string -> string): string {
    ApiBaseUrl + "/v1/search?" + QS.QueryString(SearchParams(limit, page, query), encode)
  }

  /** The request goes to the API's search endpoint, whose path ends the URL's first 31
    * characters with the `?` that opens the query. */
  lemma SearchUrlEndpoint(limit: nat, page: nat, query: string, encode: string -> string)
    ensures var r := SearchUrl(limit, page, query, encode);
      |r| >= 31 && r[..31] == ApiBaseUrl + "/v1/search?" && r[30] == '?'
  {
  }

  /** Appending one scalar parameter appends its one field. */
  lemma FieldsSnocScalar(params: QS.Params, key: string, value: string, encode: string -> string)
    ensures QS.Fields(params + [(key, QS.Scalar(value))], encode) == QS.Fields(params, encode) + [QS.Field(key, value, encode)]
  {
    var ps := params + [(key, QS.Scalar(value))];
    assert ps[..|ps| - 1] == params;
    assert QS.Values(QS.Scalar(value)) == [value];
    assert [value][..0] == [];
    assert QS.KeyFields(key, [value], encode) == [QS.Field(key, value, encode)];
  }

  /** The fields of the two list parameters: one per filter, then one per result field. */
  lemma ListFieldsLength(encode: string -> string)
    ensures |QS.Fields([("filter[]", QS.List(Filters)), ("field[]", QS.List(ResultFields))], encode)| == |Filters| + |ResultFields|
  {
    var ps: QS.Params := [("filter[]", QS.List(Filters)), ("field[]", QS.List(ResultFields))];
    assert ps[..1][..0] == [];
    assert ps[..1] == [("filter[]", QS.List(Filters))];
    assert QS.Fields(ps[..1], encode) == QS.KeyFields("filter[]", Filters, encode);
    assert QS.Fields(ps, encode) == QS.Fields(ps[..1], encode) + QS.KeyFields("field[]", ResultFields, encode);
    QS.KeyFieldsLength("filter[]", Filters, encode);
    QS.KeyFieldsLength("field[]", ResultFields, encode);
  }

  /** The request's last three fields carry the page size, the page and the query, and they
    * can be read back from the query string. */
  lemma SearchRequestFields(limit: nat, page: nat, query: string, encode: string -> string)
    requires QS.UriSafe(encode)
    ensures var fs := Text.Split(QS.QueryString(SearchParams(limit, page, query), encode), '&');
      && |fs| == |Filters| + |ResultFields| + 3
      && fs[|fs| - 3] == QS.Field("limit", Text.NatToString(limit), encode)
      && fs[|fs| - 2] == QS.Field("page", Text.NatToString(page), encode)
      && fs[|fs| - 1] == QS.Field("lookfor", query, encode)
  {
    var p2: QS.Params := [("filter[]", QS.List(Filters)), ("field[]", QS.List(ResultFields))];
    var p3 := p2 + [("limit", QS.Scalar(Text.NatToString(limit)))];
    var p4 := p3 + [("page", QS.Scalar(Text.NatToString(page)))];
    var p5 := p4 + [("lookfor", QS.Scalar(query))];
    assert p5 == SearchParams(limit, page, query);
    ListFieldsLength(encode);
    FieldsSnocScalar(p2, "limit", Text.NatToString(limit), encode);
    FieldsSnocScalar(p3, "page", Text.NatToString(page), encode);
    FieldsSnocScalar(p4, "lookfor", query, encode);
    QS.QueryStringSplits(p5, encode);
  }

  /** The search URL already has a query, so the JSONP callback is appended with `&`. */
  lemma SearchUrlHasQuery(limit: nat, page: nat, query: string, encode: string -> string, name: string)
    ensures '?' in SearchUrl(limit, page, query, encode)
    ensures WithCallback(SearchUrl(limit, page, query, encode), name)
            == SearchUrl(limit, page, query, encode) + "&callback=" + name
  {
    var url := SearchUrl(limit, page, query, encode);
    SearchUrlEndpoint(limit, page, query, encode);
    assert url[30] == '?';
  }

  /** `query && query.trim()` is falsy. */
  predicate IsBlank(query: Option<string>) {
    query.None? || Text.Trim(query.value) == ""
  }

  /** Blank queries are exactly the missing ones and those made only of white space. */
  lemma BlankIffWhiteSpace(query: Option<string>)
    ensures IsBlank(query) <==> query.None? || Text.AllTrimmable(query.value)
  {
  }

  /** The construction options the session uses; 0 and "" stand for an absent option, and
    * `overlay` says the parent element is the document body. */
  datatype Options = Options(resultsPerPage: nat, locale: string, searchDebounceTime: nat, overlay: bool,
                             allowImagePick: Option<bool>, allowPagePick: Option<bool>,
                             summaryPreviewMax: nat, collectionPreviewMax: nat,
                             initialQuery: Option<string>)

  /** The page size the options give: 15 when absent, the request when it is at most 100,
    * and 100 otherwise; so always between 1 and 100. */
  function ConfiguredResultsPerPage(requested: nat): (r: nat)
    ensures 1 <= r <= 100
    ensures requested == 0 ==> r == 15
    ensures 1 <= requested <= 100 ==> r == requested
    ensures requested > 100 ==> r == 100
  {
    Min(if requested == 0 then 15 else requested, 100)
  }

  /** `_imagePickCallback`: undefined, the `noop` set by `resetPicker`, or a caller's callback. */
  datatype Callback = Unset | Noop | Client(id: nat)

  /** The fields of a picked image object. */
  datatype ImageData = ImageData(title: string, url: string, pageUrl: string,
                                 licenseDescription: string, organization: string, formats: string,
                                 year: string, collections: seq<string>, measurements: string,
                                 summary: string)

  /** One call of a caller's callback, with a copy of what it was passed. */
  datatype Delivery = Delivery(callback: nat, picked: Option<ImageData>)

  /** What calling the stored callback delivers: nothing for undefined or `noop`. */
  function Invocation(callback: Callback, picked: Option<ImageData>): seq<Delivery> {
    match callback
    case Client(id) => [Delivery(id, picked)]
    case _ => []
  }

  /** A record of a response, as far as the session is concerned. */
  datatype Record = Record(title: string, recordPage: string)

  /** The JSON a response script passes to its callback. */
  datatype Response = Response(records: Option<seq<Record>>, resultCount: nat)

  /** The content of the result list. */
  datatype ResultList = Status(text: string) | Items(records: seq<Record>)

  /** The pagination text. */
  datatype PaginationText = Message(text: string) | Results(heading: string, first: Cell, last: Cell, total: Cell)

  function PaginationTextFor(locale: Locale.Tables, lang: string, caption: Caption): PaginationText {
    match caption
    case NoResults => Message(Locale.Localize(locale, lang, "No search results"))
    case Range(f, l, t) => Results(Locale.Localize(locale, lang, "Search results"), f, l, t)
  }

  function RequestIds(request: Option<Handle>): set<nat> {
    if request.Some? then {request.value.id} else {}
  }

  /** The registry after `abort` on the current request: its callback becomes `noop` if its
    * script was still attached; otherwise `removeChild` threw and nothing changed. */
  function Superseded(callbacks: map<nat, Entry>, scripts: map<nat, string>, request: Option<Handle>): map<nat, Entry> {
    if request.Some? && request.value.id in scripts then callbacks[request.value.id := Entry.Noop] else callbacks
  }

  /** Snapshots of parts of a session's state. */
  datatype Requests = Requests(current: Option<Handle>, counter: Option<nat>, callbacks: map<nat, Entry>,
                               scripts: map<nat, string>, loading: bool, issued: set<nat>)
  datatype Listing = Listing(resultCount: nat, pageCount: int, list: ResultList)
  datatype Controls = Controls(prevDisabled: bool, nextDisabled: bool, text: PaginationText)

  /** The object a result turns into, which the pick handlers update in place. */
  class ImageObj {
    var title: string
    var url: string
    var pageUrl: string
    var licenseDescription: string
    var organization: string
    var formats: string
    var year: string
    var collections: seq<string>
    var measurements: string
    var summary: string

    constructor(d: ImageData)
      ensures Data() == d
    {
      title, url, pageUrl := d.title, d.url, d.pageUrl;
      licenseDescription, organization, formats := d.licenseDescription, d.organization, d.formats;
      year, collections, measurements, summary := d.year, d.collections, d.measurements, d.summary;
    }

    function Data(): ImageData
      reads this
    {
      ImageData(title, url, pageUrl, licenseDescription, organization, formats, year,
                collections, measurements, summary)
    }
  }

  function Picked(imageObj: ImageObj?): Option<ImageData>
    reads imageObj
  {
    if imageObj == null then None else Some(imageObj.Data())
  }

  class PicaFinna {
    const resultsPerPage: nat
    const currentLang: string
    /** `PicaFinna.locale` */
    const locale: Locale.Tables
    const searchDebounceTime: nat
    const allowImagePick: bool
    const allowPagePick: bool
    const summaryPreviewMax: nat
    const collectionPreviewMax: nat
    /** The picker covers the page (its parent is the document body), so it has an overlay
      * and a cancel button. */
    const overlay: bool
    /** `encodeURIComponent` */
    const encode: string -> string
    /** The global JSONP counter and registry. */
    const transport: Registry
    /** `_debouncedSearchApiRequest` */
    const debouncedSearch: Debounce.Debouncer<string>

    var currentPage: int
    var currentPageCount: int
    var currentResultCount: nat
    var currentApiRequest: Option<Handle>
    /** The requests whose registered callback is bound to this picker's `_handleApiResponse`;
      * other pickers may share the registry. */
    var issued: set<nat>
    var imagePickCallback: Callback
    /** The search field's value. */
    var searchField: string
    /** The loading class of the container. */
    var loading: bool
    var prevDisabled: bool
    var nextDisabled: bool
    var paginationText: PaginationText
    var resultList: ResultList
    /** The container is attached to its parent. */
    var shown: bool
    /** Every call of a caller's callback so far. */
    var deliveries: seq<Delivery>
    /** The image object of the detail page on display, if any. */
    var detailObj: ImageObj?

    /** `_localize(key)` */
    function Localized(key: string): string {
      Locale.Localize(locale, currentLang, key)
    }

    /** What holds between the steps of every operation: of this picker's requests, the only
      * one whose script may still be attached is the current request. */
    ghost predicate Wellformed()
      reads this`currentApiRequest, this`issued, transport
    {
      && 1 <= resultsPerPage <= 100
      && !debouncedSearch.immediate
      && transport.Valid()
      && RequestIds(currentApiRequest) <= issued
      && issued <= transport.callbacks.Keys
      && transport.scripts.Keys * issued <= RequestIds(currentApiRequest)
    }

    ghost predicate Valid()
      reads this`currentApiRequest, this`issued, this`currentPage, this`currentPageCount, this`currentResultCount, transport
    {
      && Wellformed()
      && currentPage >= 1
      && currentPageCount == PageCount(currentResultCount, resultsPerPage)
    }

    /** The request side of the session: the current request, the registry and the loading
      * indicator. */
    ghost function RequestsNow(): Requests
      reads this`currentApiRequest, this`loading, this`issued, transport
    {
      Requests(currentApiRequest, transport.counter, transport.callbacks, transport.scripts, loading, issued)
    }

    /** The result side of the session. */
    function ListingNow(): Listing
      reads this`currentResultCount, this`currentPageCount, this`resultList
    {
      Listing(currentResultCount, currentPageCount, resultList)
    }

    /** The pagination controls. */
    function ControlsNow(): Controls
      reads this`prevDisabled, this`nextDisabled, this`paginationText
    {
      Controls(prevDisabled, nextDisabled, paginationText)
    }

    /** The pagination control shows `count` results at `page`. */
    ghost predicate ShowsPagination(count: nat, page: int)
      reads this`prevDisabled, this`nextDisabled, this`paginationText
      requires resultsPerPage >= 1
    {
      var v := ComputeView(count, resultsPerPage, page);
      ControlsNow() == Controls(v.prevDisabled, v.nextDisabled, PaginationTextFor(locale, currentLang, v.caption))
    }

    /** The state a blank query leaves: no results, no pages, the introduction text. */
    ghost predicate ShowsIntroduction()
      reads this`currentResultCount, this`currentPageCount, this`resultList, this`currentPage
      reads this`prevDisabled, this`nextDisabled, this`paginationText
      requires resultsPerPage >= 1
    {
      && ListingNow() == Listing(0, 0, Status(Localized("#introduction-text")))
      && ShowsPagination(0, currentPage)
    }

    /** A request for `query` at the current page was sent from the request state `before`:
      * the previous request was aborted and the new one is the current request, the only one
      * of this picker's whose script is attached. */
    ghost predicate Dispatched(query: string, before: Requests)
      reads this`currentApiRequest, this`loading, this`issued, this`currentPage, transport
    {
      var id := NextId(before.counter);
      && currentPage >= 0
      && RequestsNow() == Requests(
           Some(Handle(id)),
           Some(id),
           Superseded(before.callbacks, before.scripts, before.current)[id := Live],
           (before.scripts - RequestIds(before.current))[id := WithCallback(SearchUrl(resultsPerPage, currentPage, query, encode), CallbackName(id))],
           true,
           before.issued + {id})
    }

    /** The effect of `_searchApiRequest(query, ...)`, apart from the page, from the request
      * state `before` and the results `listing`: a blank query shows the introduction and
      * leaves any request in flight; otherwise a new request replaces it. */
    ghost predicate Searched(query: Option<string>, before: Requests, listing: Listing)
      reads this`currentApiRequest, this`loading, this`issued, this`currentPage, transport
      reads this`currentResultCount, this`currentPageCount, this`resultList
      reads this`prevDisabled, this`nextDisabled, this`paginationText
      requires resultsPerPage >= 1
    {
      && (IsBlank(query) ==> ShowsIntroduction() && RequestsNow() == before)
      && (!IsBlank(query) ==> Dispatched(query.value, before) && ListingNow() == listing)
    }

    /** The settings taken from `options`, each with its default for a missing (zero or
      * empty) value. */
    ghost predicate Configured(options: Options) {
      && resultsPerPage == ConfiguredResultsPerPage(options.resultsPerPage)
      && currentLang == (if options.locale == "" then "fi" else options.locale)
      && searchDebounceTime == (if options.searchDebounceTime == 0 then 400 else options.searchDebounceTime)
      && overlay == options.overlay
      && allowImagePick == (options.allowImagePick != Some(false))
      && allowPagePick == (options.allowPagePick != Some(false))
      && summaryPreviewMax == (if options.summaryPreviewMax == 0 then 40 else options.summaryPreviewMax)
      && collectionPreviewMax == (if options.collectionPreviewMax == 0 then 20 else options.collectionPreviewMax)
    }

    /** `new PicaFinna(options)`: configure, create the debounced search and reset. */
    constructor(registry: Registry, locale: Locale.Tables, options: Options, encode: string -> string)
      requires registry.Valid()
      modifies registry
      ensures Valid() && transport == registry && this.locale == locale && this.encode == encode
      ensures fresh(debouncedSearch) && debouncedSearch.pending == None
      ensures Configured(options)
      ensures currentPage == 1 && currentApiRequest == None && issued == {} && imagePickCallback == Callback.Noop
      ensures searchField == "" && !loading && !shown && deliveries == [] && detailObj == null
      ensures ShowsIntroduction()
      ensures registry.counter == old(registry.counter) && registry.callbacks == old(registry.callbacks)
      ensures registry.scripts == old(registry.scripts)
    {
      resultsPerPage := ConfiguredResultsPerPage(options.resultsPerPage);
      currentLang := if options.locale == "" then "fi" else options.locale;
      searchDebounceTime := if options.searchDebounceTime == 0 then 400 else options.searchDebounceTime;
      overlay := options.overlay;
      allowImagePick := options.allowImagePick != Some(false);
      allowPagePick := options.allowPagePick != Some(false);
      summaryPreviewMax := if options.summaryPreviewMax == 0 then 40 else options.summaryPreviewMax;
      collectionPreviewMax := if options.collectionPreviewMax == 0 then 20 else options.collectionPreviewMax;
      this.encode := encode;
      this.locale := locale;
      transport := registry;
      debouncedSearch := new Debounce.Debouncer(false);
      currentPage, currentPageCount, currentResultCount := 1, 1, 0;
      currentApiRequest := None;
      issued := {};
      imagePickCallback := Unset;
      searchField := "";
      loading, prevDisabled, nextDisabled, shown := false, false, false, false;
      paginationText := Message("");
      resultList := Status("");
      deliveries := [];
      detailObj := null;
      new;
      assert RequestIds(currentApiRequest) == {} && transport.scripts.Keys * issued == {};
      ghost var rest := (shown, deliveries, detailObj);
      ResetPicker();
      assert (shown, deliveries, detailObj) == rest;
    }

    /** `pickImage(callback, initialQuery)`: store the callback, pre-fill the field, search
      * its contents and show the picker. */
    method PickImage(callback: Callback, initialQuery: Option<string>)
      requires Valid()
      modifies this`imagePickCallback, this`searchField, this`shown
      modifies this`currentPage, this`loading, this`currentApiRequest, this`issued, this`currentResultCount
      modifies this`currentPageCount, this`prevDisabled, this`nextDisabled, this`paginationText, this`resultList
      modifies transport
      ensures Valid()
      ensures imagePickCallback == callback && shown && currentPage == 1
      ensures searchField == (if initialQuery.Some? then initialQuery.value else "")
      ensures Searched(Some(searchField), old(RequestsNow()), old(ListingNow()))
      ensures !IsBlank(Some(searchField)) ==> ControlsNow() == old(ControlsNow())
    {
      imagePickCallback := callback;
      searchField := if initialQuery.Some? then initialQuery.value else "";
      ghost var fields := (imagePickCallback, searchField);
      SearchApiRequest(Some(searchField), 0);
      assert (imagePickCallback, searchField) == fields;
      ghost var requests, listing, controls := RequestsNow(), ListingNow(), ControlsNow();
      shown := true;
      assert RequestsNow() == requests && ListingNow() == listing && ControlsNow() == controls;
    }

    /** `resetPicker()`: back to page 1 with a `noop` callback and an empty field. */
    method ResetPicker()
      requires Wellformed()
      modifies this`currentPage, this`currentPageCount, this`imagePickCallback, this`searchField
      modifies this`currentResultCount, this`prevDisabled, this`nextDisabled, this`paginationText, this`resultList
      modifies this`loading, this`currentApiRequest, this`issued, transport
      ensures Valid()
      ensures currentPage == 1 && imagePickCallback == Callback.Noop && searchField == ""
      ensures ShowsIntroduction() && RequestsNow() == old(RequestsNow())
    {
      currentPage := 1;
      currentPageCount := 1;
      imagePickCallback := Callback.Noop;
      searchField := "";
      SearchApiRequest(None, 0);
    }

    /** `setPage(target)`: clamp the target to the known pages, show that page's bounds for the
      * current results, and search the field's contents at that page (even when the page did
      * not change). */
    method SetPage(target: PageTarget)
      requires Valid()
      modifies this`currentPage, this`loading, this`currentApiRequest, this`issued, this`currentResultCount
      modifies this`currentPageCount, this`prevDisabled, this`nextDisabled, this`paginationText, this`resultList
      modifies transport
      ensures Valid()
      ensures var page := ClampPage(target, old(currentPage), old(currentPageCount));
        && currentPage == PageOrFirst(page)
        && Searched(Some(searchField), old(RequestsNow()), old(ListingNow()))
        && (!IsBlank(Some(searchField)) ==> ShowsPagination(old(currentResultCount), page))
    {
      ghost var requests, listing := RequestsNow(), ListingNow();
      var page := ClampPage(target, currentPage, currentPageCount);
      currentPage := page;
      UpdatePagination();
      assert RequestsNow() == requests && ListingNow() == listing;
      SearchApiRequest(Some(searchField), page);
    }

    /** `_searchApiRequest(query, page)`, with 0 for an absent page. */
    method SearchApiRequest(query: Option<string>, page: nat)
      requires Wellformed()
      requires !IsBlank(query) ==> currentPageCount == PageCount(currentResultCount, resultsPerPage)
      modifies this`currentPage, this`loading, this`currentApiRequest, this`issued, this`currentResultCount
      modifies this`currentPageCount, this`prevDisabled, this`nextDisabled, this`paginationText, this`resultList
      modifies transport
      ensures Valid()
      ensures currentPage == PageOrFirst(page)
      ensures Searched(query, old(RequestsNow()), old(ListingNow()))
      ensures !IsBlank(query) ==> ControlsNow() == old(ControlsNow())
    {
      if !IsBlank(query) {
        Dispatch(query.value, page);
      } else {
        ShowIntroduction(page);
      }
    }

    /** The non-blank branch of `_searchApiRequest`: abort the current request, serialise the
      * parameters and send the new request. */
    method Dispatch(query: string, page: nat)
      requires Wellformed() && currentPageCount == PageCount(currentResultCount, resultsPerPage)
      modifies this`currentPage, this`loading, this`currentApiRequest, this`issued, transport
      ensures Valid() && currentPage == PageOrFirst(page)
      ensures Dispatched(query, old(RequestsNow()))
    {
      currentPage := PageOrFirst(page);
      loading := true;
      AbortCurrent();
      var queryString := QS.ParamsToQueryString(SearchParams(resultsPerPage, currentPage, query), encode);
      var url := ApiBaseUrl + "/v1/search?" + queryString;
      var request := transport.Request(url);
      currentApiRequest := Some(request);
      issued := issued + {request.id};
    }

    /** `this._currentApiRequest.abort()`, where the error of an absent request or of a
      * script already detached is caught: afterwards none of this picker's request scripts
      * is attached. */
    method AbortCurrent()
      requires Wellformed()
      modifies transport
      ensures transport.Valid() && transport.scripts == old(transport.scripts) - RequestIds(currentApiRequest)
      ensures transport.scripts.Keys * issued == {}
      ensures transport.counter == old(transport.counter)
      ensures transport.callbacks == Superseded(old(transport.callbacks), old(transport.scripts), currentApiRequest)
    {
      if currentApiRequest.Some? {
        var _ := transport.Abort(currentApiRequest.value);
      }
    }

    /** The blank branch of `_searchApiRequest`: no results, pagination for none, and the
      * introduction text. */
    method ShowIntroduction(page: nat)
      requires Wellformed()
      modifies this`currentPage, this`currentResultCount, this`currentPageCount, this`prevDisabled
      modifies this`nextDisabled, this`paginationText, this`resultList
      ensures Valid() && currentPage == PageOrFirst(page)
      ensures ShowsIntroduction()
    {
      currentPage := PageOrFirst(page);
      currentResultCount := 0;
      PageCountIsCeiling(0, resultsPerPage);
      UpdatePagination();
      resultList := Status(Localized("#introduction-text"));
    }

    /** `_handleApiResponse(data)`: show the records (or the no-images text), take the result
      * count, and recompute the pagination for the current page. */
    method HandleApiResponse(data: Response)
      requires resultsPerPage >= 1
      modifies this`loading, this`resultList, this`currentResultCount
      modifies this`currentPageCount, this`prevDisabled, this`nextDisabled, this`paginationText
      ensures !loading
      ensures resultList == if data.records.Some? then Items(data.records.value)
                            else Status(Localized("No images matching your query were found."))
      ensures currentResultCount == data.resultCount
      ensures currentPageCount == PageCount(data.resultCount, resultsPerPage)
      ensures ShowsPagination(data.resultCount, currentPage)
    {
      loading := false;
      if data.records.Some? {
        resultList := Items(data.records.value);
      } else {
        resultList := Status(Localized("No images matching your query were found."));
      }
      currentResultCount := data.resultCount;
      UpdatePagination();
    }

    /** The response script of request `id` runs with `data`: `jsonpCallback` detaches the
      * request's script, if still attached, and passes the data to the handler the request was
      * sent with. That handler is this picker's `_handleApiResponse` only for this picker's own
      * requests; another picker's request leaves this picker alone. Of this picker's requests
      * only the current one can still be attached, so any other response is dropped. */
    method Deliver(id: nat, data: Response) returns (applied: bool)
      requires Valid()
      modifies this`loading, this`resultList, this`currentResultCount
      modifies this`currentPageCount, this`prevDisabled, this`nextDisabled, this`paginationText
      modifies transport
      ensures Valid()
      ensures applied == (id in issued && id in old(transport.scripts))
      ensures applied ==> old(currentApiRequest) == Some(Handle(id))
      ensures transport.scripts == old(transport.scripts) - {id}
      ensures transport.callbacks == old(transport.callbacks) && transport.counter == old(transport.counter)
      ensures applied ==>
        && !loading
        && resultList == (if data.records.Some? then Items(data.records.value)
                          else Status(Localized("No images matching your query were found.")))
        && currentResultCount == data.resultCount
        && ShowsPagination(data.resultCount, currentPage)
      ensures !applied ==> unchanged(this)
    {
      if id in issued && id in transport.scripts {
        assert id in transport.scripts.Keys * issued;
      }
      var fired := transport.Fire(id);
      applied := fired && id in issued;
      if applied {
        HandleApiResponse(data);
      }
    }

    /** `_updatePagination()` */
    method UpdatePagination()
      requires resultsPerPage >= 1
      modifies this`prevDisabled, this`nextDisabled, this`paginationText, this`currentPageCount
      ensures currentPageCount == PageCount(currentResultCount, resultsPerPage)
      ensures ShowsPagination(currentResultCount, currentPage)
    {
      var resultCount := currentResultCount;
      var page := currentPage;
      var pageCount := PageCount(resultCount, resultsPerPage);
      var first := FirstOnPage(resultCount, resultsPerPage, page);
      var last := LastOnPage(resultCount, resultsPerPage, page);
      prevDisabled := page <= 1;
      nextDisabled := page >= pageCount;
      if resultCount == 0 {
        paginationText := Message(Localized("No search results"));
      } else {
        paginationText := Results(Localized("Search results"),
                                  OrDash(first), OrDash(last), OrDash(resultCount));
      }
      currentPageCount := pageCount;
    }

    /** `cancelPick()`: the callback gets `undefined`. */
    method CancelPick()
      modifies this`deliveries, this`shown, this`detailObj
      ensures deliveries == old(deliveries) + Invocation(imagePickCallback, None)
      ensures !shown && detailObj == null
    {
      HandleImagePicked(null);
    }

    /** `_handleImagePicked(imageObj)`: clear the page link, call the callback with the object
      * and hide the picker. Nothing prevents a second call. */
    method HandleImagePicked(imageObj: ImageObj?)
      modifies imageObj, this`deliveries, this`shown, this`detailObj
      ensures imageObj != null ==> imageObj.Data() == old(imageObj.Data()).(pageUrl := "")
      ensures deliveries == old(deliveries) + Invocation(imagePickCallback, Picked(imageObj))
      ensures !shown && detailObj == null
    {
      if imageObj != null {
        imageObj.pageUrl := "";
      }
      if imagePickCallback != Unset {
        deliveries := deliveries + Invocation(imagePickCallback, Picked(imageObj));
      }
      HidePicker();
    }

    /** `_handlePagePicked(imageObj)`: clear the image link, call the callback with the object
      * and hide the picker. Nothing prevents a second call. */
    method HandlePagePicked(imageObj: ImageObj?)
      modifies imageObj, this`deliveries, this`shown, this`detailObj
      ensures imageObj != null ==> imageObj.Data() == old(imageObj.Data()).(url := "")
      ensures deliveries == old(deliveries) + Invocation(imagePickCallback, Picked(imageObj))
      ensures !shown && detailObj == null
    {
      if imageObj != null {
        imageObj.url := "";
      }
      if imagePickCallback != Unset {
        deliveries := deliveries + Invocation(imagePickCallback, Picked(imageObj));
      }
      HidePicker();
    }

    /** `hidePicker()`: detach the detail page and the picker; detaching what is already
      * detached does nothing. */
    method HidePicker()
      modifies this`shown, this`detailObj
      ensures !shown && detailObj == null
    {
      detailObj := null;
      shown := false;
    }

    /** A click on the result item of `imageObj`, which only the overlay layout listens for:
      * `_createImageDetailDOM(imageObj)` puts the object's detail page on display, with its use
      * buttons wired to that object. */
    method ShowDetail(imageObj: ImageObj)
      modifies this`detailObj
      ensures overlay ==> detailObj == imageObj
      ensures !overlay ==> unchanged(this)
    {
      if overlay {
        detailObj := imageObj;
      }
    }

    /** The detail page's back control. */
    method OnCloseDetailClick()
      modifies this`detailObj
      ensures detailObj == null
    {
      detailObj := null;
    }

    /** The detail page's use-image button, which exists only when image picks are allowed:
      * the object goes to the callback without its page link. */
    method OnUseImageClick()
      modifies detailObj, this`deliveries, this`shown, this`detailObj
      ensures !(allowImagePick && old(detailObj) != null) ==> unchanged(this) && (old(detailObj) != null ==> unchanged(old(detailObj)))
      ensures allowImagePick && old(detailObj) != null ==>
        && old(detailObj).Data() == old(detailObj.Data()).(pageUrl := "")
        && deliveries == old(deliveries) + Invocation(imagePickCallback, Some(old(detailObj).Data()))
        && !shown && detailObj == null
    {
      var obj := detailObj;
      if allowImagePick && obj != null {
        HandleImagePicked(obj);
      }
    }

    /** The detail page's use-page button, which exists only when page picks are allowed:
      * the object goes to the callback without its image link. */
    method OnUsePageClick()
      modifies detailObj, this`deliveries, this`shown, this`detailObj
      ensures !(allowPagePick && old(detailObj) != null) ==> unchanged(this) && (old(detailObj) != null ==> unchanged(old(detailObj)))
      ensures allowPagePick && old(detailObj) != null ==>
        && old(detailObj).Data() == old(detailObj.Data()).(url := "")
        && deliveries == old(deliveries) + Invocation(imagePickCallback, Some(old(detailObj).Data()))
        && !shown && detailObj == null
    {
      var obj := detailObj;
      if allowPagePick && obj != null {
        HandlePagePicked(obj);
      }
    }

    /** The field's `input` event: the field has changed and the debounced search restarts its
      * timer with the new value. */
    method OnInput(text: string)
      requires Valid()
      modifies this`searchField, debouncedSearch
      ensures searchField == text && debouncedSearch.pending == Some(text)
    {
      searchField := text;
      var _ := debouncedSearch.Call(text);
    }

    /** The debounce timer expires: the search runs once, on the value of the last input. */
    method OnDebounceTimer()
      requires Valid()
      modifies this`currentPage, this`loading, this`currentApiRequest, this`issued, this`currentResultCount
      modifies this`currentPageCount, this`prevDisabled, this`nextDisabled, this`paginationText, this`resultList
      modifies transport, debouncedSearch
      ensures Valid() && debouncedSearch.pending == None
      ensures old(debouncedSearch.pending).None? ==> unchanged(this) && unchanged(transport)
      ensures old(debouncedSearch.pending).Some? ==>
        && currentPage == 1
        && Searched(old(debouncedSearch.pending), old(RequestsNow()), old(ListingNow()))
        && (!IsBlank(old(debouncedSearch.pending)) ==> ControlsNow() == old(ControlsNow()))
    {
      var fired := debouncedSearch.Expire();
      if fired.Some? {
        SearchApiRequest(fired, 0);
      }
    }

    /** The search button, and Enter (key code 13) in the field: search the field now. */
    method OnSearch()
      requires Valid()
      modifies this`currentPage, this`loading, this`currentApiRequest, this`issued, this`currentResultCount
      modifies this`currentPageCount, this`prevDisabled, this`nextDisabled, this`paginationText, this`resultList
      modifies transport
      ensures Valid() && currentPage == 1
      ensures Searched(Some(searchField), old(RequestsNow()), old(ListingNow()))
      ensures !IsBlank(Some(searchField)) ==> ControlsNow() == old(ControlsNow())
    {
      SearchApiRequest(Some(searchField), 0);
    }

    /** A key press in the field: only Enter searches. */
    method OnKeyPress(keyCode: int)
      requires Valid()
      modifies this`currentPage, this`loading, this`currentApiRequest, this`issued, this`currentResultCount
      modifies this`currentPageCount, this`prevDisabled, this`nextDisabled, this`paginationText, this`resultList
      modifies transport
      ensures Valid()
      ensures keyCode != 13 ==> unchanged(this) && unchanged(transport)
      ensures keyCode == 13 ==> currentPage == 1 && Searched(Some(searchField), old(RequestsNow()), old(ListingNow()))
      ensures keyCode == 13 && !IsBlank(Some(searchField)) ==> ControlsNow() == old(ControlsNow())
    {
      if keyCode == 13 {
        OnSearch();
      }
    }

    /** A key going down in the field: only Escape (key code 27) cancels. */
    method OnKeyDown(keyCode: int)
      modifies this`deliveries, this`shown, this`detailObj
      ensures keyCode != 27 ==> unchanged(this)
      ensures keyCode == 27 ==> deliveries == old(deliveries) + Invocation(imagePickCallback, None) && !shown && detailObj == null
    {
      if keyCode == 27 {
        CancelPick();
      }
    }

    /** A click on the overlay or the cancel button; both exist only in the overlay layout. */
    method OnCancelClick()
      modifies this`deliveries, this`shown, this`detailObj
      ensures !overlay ==> unchanged(this)
      ensures overlay ==> deliveries == old(deliveries) + Invocation(imagePickCallback, None) && !shown && detailObj == null
    {
      if overlay {
        CancelPick();
      }
    }
  }

  /** `PicaFinna.pickImage(callback, options)`: a new picker, at once asked for an image with
    * the options' initial query. */
  method OpenPicker(registry: Registry, locale: Locale.Tables, callback: Callback, options: Options, encode: string -> string)
    returns (picker: PicaFinna)
    requires registry.Valid()
    modifies registry
    ensures fresh(picker) && picker.Valid() && picker.transport == registry
    ensures picker.imagePickCallback == callback && picker.shown && picker.currentPage == 1
    ensures picker.Configured(options) && picker.encode == encode && picker.locale == locale
    ensures fresh(picker.debouncedSearch) && picker.debouncedSearch.pending == None
    ensures picker.currentResultCount == 0 && picker.currentPageCount == 0
    ensures picker.deliveries == [] && picker.detailObj == null
    ensures picker.ShowsIntroduction() && picker.loading == !IsBlank(Some(picker.searchField))
    ensures picker.searchField == (if options.initialQuery.Some? then options.initialQuery.value else "")
    ensures IsBlank(Some(picker.searchField)) ==>
      && picker.ShowsIntroduction() && picker.currentApiRequest == None && picker.issued == {}
      && registry.counter == old(registry.counter) && registry.callbacks == old(registry.callbacks)
      && registry.scripts == old(registry.scripts)
    ensures !IsBlank(Some(picker.searchField)) ==>
      var id := NextId(old(registry.counter));
      && picker.currentApiRequest == Some(Handle(id)) && picker.issued == {id} && registry.counter == Some(id)
      && registry.callbacks == old(registry.callbacks)[id := Live]
      && registry.scripts == old(registry.scripts)[id := WithCallback(SearchUrl(picker.resultsPerPage, 1, picker.searchField, encode), CallbackName(id))]
  {
    picker := new PicaFinna(registry, locale, options, encode);
    ghost var before := picker.RequestsNow();
    assert before.scripts - RequestIds(before.current) == before.scripts;
    assert Superseded(before.callbacks, before.scripts, before.current) == before.callbacks;
    ghost var rest := (picker.deliveries, picker.detailObj, picker.debouncedSearch.pending);
    picker.PickImage(callback, options.initialQuery);
    assert (picker.deliveries, picker.detailObj, picker.debouncedSearch.pending) == rest;
  }
}
