# PicaFinna search session, modelled in Dafny

PicaFinna is a browser widget. It lets a user search the Finna image archive, page through
the results and pick one image, which it hands to a callback. This project models the
widget's search-session controller in `picafinna.js` and proves properties of it. The
model covers:

- the `PicaFinna` object's state;
- what a search sends to the server over the JSONP transport;
- why only the latest request's response can reach the result list;
- the pagination arithmetic;
- the debounced search field;
- the pick and cancel paths;
- the small pure helpers: the query-string serialiser, preview truncation and localisation.

Modules, one per file:

| module | file | contents |
|---|---|---|
| `Wrappers` | `wrappers.dfy` | `Option` |
| `Text` | `text.dfy` | `String.prototype.trim`; decimal rendering of whole numbers; `join`; a one-character `split`, used to state that serialised fields can be read back |
| `Pagination` | `pagination.dfy` | the bounds and buttons of `_updatePagination`; the page clamp of `setPage` |
| `Preview` | `preview.dfy` | the summary and collections previews of `_getResultItemWrapper` |
| `Locale` | `locale.dfy` | the built-in `en` and `fi` tables; `_localize` |
| `QueryString` | `querystring.dfy` | `paramsToQueryString` (as loops proved against a specification function), and its read-back lemmas |
| `Jsonp` | `jsonp.dfy` | `jsonpRequest` as a `Registry` class: the global counter, the global callback table and the attached request scripts |
| `Debounce` | `debounce.dfy` | `debounce` as a `Debouncer` class with explicit call and expiry steps, plus a pure trace semantics |
| `Picker` | `picker.dfy` | the `PicaFinna` class, its options, the search URL, the pick handlers and the static `PicaFinna.pickImage` |
| `Scenarios` | `scenarios.dfy` | short sequences of operations, each proved for every session in a valid state |

The session's main invariant is `Picker.PicaFinna.Valid`. It says:

- the page size is between 1 and 100;
- the page count matches the result count;
- of the requests this session has sent (`issued`), at most one still has its script attached to the document, and it is the current request.

Several sessions may share the one JSONP registry, so the invariant speaks only of the
session's own requests. From it, `Deliver` proves that a response reaches this session's
`_handleApiResponse` only when it belongs to `_currentApiRequest`. A response for an aborted
or already answered request leaves the session unchanged, and so does a response for another
session's request.

Some outside things become parameters:

- `encodeURIComponent` is the constant `encode` of each session. The read-back lemmas assume only that it never emits `&` or `=` (`QueryString.UriSafe`).
- The JSONP globals are the `Jsonp.Registry` passed to the constructor.
- `PicaFinna.locale` is the `locale` table passed to the constructor, because callers can extend the public static table.
- Time becomes the `OnDebounceTimer` step.
- The network becomes `Deliver`: the response script of request `id` runs with the given data.

Where the code and its documented intent differ, the model follows the code:

- A blank query does not abort the request in flight, so that request's late response still replaces the introduction text (`Scenarios.BlankSearchKeepsRequest`).
- `setPage('next')` on the last page stays on the page but still sends a new request (`Scenarios.NextOnLastPage`). The next button is disabled on the last page (picafinna.js:470), so only a direct call of `setPage` gets there.
- Typed input goes through the debounce whatever it is: `handleSearchFieldChanges` (picafinna.js:529-533) has no blank check, so a blank field is searched, and the introduction shown, only when the timer expires (`Scenarios.InputBurst` with a blank last value).
- Nothing makes delivery to the callback happen only once: cancelling twice calls it twice (`Scenarios.CancelTwice`).
- `cancelPick` does not abort the request in flight. A new session opened after a cancel sends its own request, and the cancelled session's late response is applied to the cancelled session, not to the new one (`Scenarios.ReopenAfterCancel`, `Scenarios.LateResponseAfterReopen`).
- The design says both page buttons are disabled when there are no results, but the code only disables `next` then: `prev` depends on the page alone (picafinna.js:463-467). On page 2 of 3, editing the field and pressing `next` searches page 3 of the new query, and a reply with no results leaves page 3 with `prev` enabled (`Pagination.ViewExamples`, `ComputeView(0, 15, 3)`).
- `hidePicker` (picafinna.js:142-153) does not clear the debounce timer (picafinna.js:938-943), so a search typed just before a cancel still runs and sends a request from the hidden picker (`Scenarios.SearchAfterCancel`).
- The callbacks `noop` (after `resetPicker`) and `undefined` receive nothing.

## Model

| member | source | states |
|---|---|---|
| Text.Trim | picafinna.js:596 | `s.trim()` is empty exactly when every character of `s` is ECMAScript white space or a line terminator; otherwise it neither starts nor ends with one |
| Text.TrimStartEmpty | picafinna.js:596 | trimming the front gives the empty string exactly when the whole string is white space |
| Text.TrimEndKeepsHead | picafinna.js:596 | trimming the end keeps a first character that is not white space |
| Text.NatToString | picafinna.js:623-624 | the decimal form of a number is non-empty, is all digits, and has two or more digits from 10 up |
| Text.NatToStringValue | picafinna.js:623-624 | the decimal form of `n` denotes `n` |
| Text.NatToStringInjective | picafinna.js:1002 | distinct numbers have distinct decimal forms |
| Text.SplitJoin | picafinna.js:980-986 | joining fields that do not contain `c` with `c`, then splitting at `c`, gives back the fields |
| Pagination.ComputeView | picafinna.js:463-480 | the first and last shown indexes satisfy `first <= last <= count`; the "No search results" caption, and zero pages, occur exactly for no results; next is disabled exactly from the last page on |
| Pagination.PageCountIsCeiling | picafinna.js:463 | the page count is the ceiling of count / perPage: zero exactly for no results, enough pages for every result, and no page more than that |
| Pagination.PageBounds | picafinna.js:464-465 | on an existing page, `1 <= first <= last <= count`, `first == (page-1)*perPage+1`, at most perPage results are shown, pages before the last are full, and the last page ends at count |
| Pagination.EveryResultOnOnePage | picafinna.js:463-465 | every result `1..count` is shown on exactly one existing page |
| Pagination.ViewCaption | picafinna.js:462-480 | no results on page 0 or 1 give zero pages, both buttons disabled and the "No search results" caption; results on an existing page show their real first and last index and the total, never a dash |
| Pagination.ViewButtons | picafinna.js:466-471 | on an existing page, prev is disabled exactly on page 1 and next exactly on the last page |
| Pagination.ViewExamples | picafinna.js:459-483 | the control for 0 results on pages 1 and 3, and for 37 results at 15 per page on pages 1 and 3 |
| Pagination.ClampAgreesWithRule | picafinna.js:182-203 | once a 0 page becomes page 1, the clamp `min(max(page, 1), pageCount)` equals `max(1, min(page, max(pageCount, 1)))` |
| Pagination.ClampPage | picafinna.js:186-195 | `prev`, `next` or a number, clamped with `min(max(page, 1), pageCount)`: 0 when there are no pages, an existing page otherwise, and a requested page that already exists is kept |
| Pagination.PageOrFirst | picafinna.js:594 | a zero or missing page becomes page 1, and any page from 1 up is kept |
| Pagination.ClampAtEdges | picafinna.js:186-199 | 'next' on the last page and 'prev' on the first page stay where they are |
| Preview.Preview | picafinna.js:883-889 | a preview is the text when it fits; otherwise it is the first `max` characters followed by `...`, so always at most `max + 3` long and starting with the text's first `min(length, max)` characters |
| Preview.SummaryPreview | picafinna.js:881-891 | no summary gives `''`; a summary gives a preview at most `max + 3` long, equal to the summary when it fits |
| Preview.CollectionsPreview | picafinna.js:893-902 | a preview exists exactly for two or more collections or a single non-empty one; it is at most `max + 3` long, and is the `, `-join itself when that fits |
| Preview.PreviewOfEllipsis | picafinna.js:884-889 | a preview can equal its text even when the text does not fit (`"ab..."` with max 2) |
| Preview.HasCollectionsIff | picafinna.js:893 | the loose comparison `collections != ""` holds exactly for two or more collections, or for a single non-empty one |
| Locale.Localize | picafinna.js:727-733 | the result is the key itself or a translation from the table the language selects |
| Locale.UnknownLanguageIsEnglish | picafinna.js:729 | a language without a table reads the English table |
| Locale.NoFallbackPerKey | picafinna.js:731 | a key missing from a known language's table is shown as the key, even when English has it |
| Locale.TranslationShown | picafinna.js:731 | a non-empty translation in the selected table is what is shown |
| Locale.TableExamples | picafinna.js:1033-1055 | lookups in the built-in tables: a Finnish translation, an unknown language falling back to the English translation, and a key neither table has |
| QueryString.ParamsToQueryString | picafinna.js:968-988 | the two nested loops build exactly the `&`-join of `encode(key)=encode(value)` fields, in key order and then array order |
| QueryString.AppendParam | picafinna.js:974-983 | the inner loop appends `'&' + field` for each value of one key, in array order |
| QueryString.PrefixedIsJoin | picafinna.js:986 | dropping the first character of the accumulator gives the `&`-join, with no leading `&`; no fields give `''` |
| QueryString.KeyFieldsShape | picafinna.js:978-982 | a scalar is one field and an array gives one field per element, each `encode(key)=encode(value)` |
| QueryString.FieldsAreFields | picafinna.js:968-988 | every serialised field is an encoded key, `=` and an encoded value |
| QueryString.FieldSplits | picafinna.js:981 | with an encoder that never emits `=`, each field splits back into its encoded key and value |
| QueryString.QueryStringSplits | picafinna.js:968-988 | with an encoder that never emits `&`, splitting the query string at `&` gives back the fields; no fields give `''` |
| Jsonp.CallbackName | picafinna.js:993-1002 | the global callback name is `_jsonpCallback` followed by the counter's decimal digits |
| Jsonp.CallbackNamesDistinct | picafinna.js:995-1002 | requests with different counter values register different global callback names |
| Jsonp.WithCallback | picafinna.js:1010 | the URL is kept as a prefix and followed by `?` when it has no `?`, and by `&` otherwise |
| Jsonp.WithCallbackOpensQuery | picafinna.js:1010 | after that separator comes `callback=` and the name, so the result always has a query |
| Jsonp.WithCallbackLastField | picafinna.js:1010 | when the URL already has a query, the callback parameter becomes its last `&` field and the URL's fields are unchanged |
| Jsonp.Registry.constructor | picafinna.js:995 | the counter is undefined and nothing is registered or attached |
| Jsonp.Registry.Request | picafinna.js:990-1026 | the counter becomes 0 on first use and is incremented after that; the new id was never registered; its live callback is registered and its script is attached with the URL carrying its name |
| Jsonp.Registry.Abort | picafinna.js:1015-1020 | with the script attached: it is detached and the callback becomes `noop`; otherwise `removeChild` throws first and nothing changes |
| Jsonp.Registry.Fire | picafinna.js:1003-1008 | the data reaches the request's callback exactly when its script is still attached; that script is detached and the registry is otherwise unchanged |
| Debounce.CallStep | picafinna.js:942-946 | a call restarts the timer with its arguments; the function runs now exactly in immediate mode with no timer pending, and then with those arguments |
| Debounce.ExpireStep | picafinna.js:938-943 | an expiry clears the timer; the function runs exactly in trailing mode with a timer pending, and then with the captured arguments |
| Debounce.Run | picafinna.js:933-950 | over a run of call and expiry events the function runs at most once per event, and only with arguments the wrapper was given (those of the timer pending at the start, or of one of the calls); the timer left pending holds such arguments too |
| Debounce.TrailingBurst | picafinna.js:935-948 | in trailing mode a burst of calls runs nothing and leaves one timer holding the last call's arguments |
| Debounce.TrailingFiresLast | picafinna.js:935-948 | in trailing mode, calls followed by an expiry run the function exactly once, with the last call's arguments, and leave no timer |
| Debounce.ImmediateBurst | picafinna.js:936-948 | in immediate mode a burst runs the function at most once, at its first call and only if no timer was pending; the expiry runs nothing |
| Debounce.Debouncer.constructor | picafinna.js:933-934 | no timer is pending |
| Debounce.Debouncer.Call | picafinna.js:935-948 | the timer restarts with the new arguments; the function runs now only in immediate mode with no timer pending |
| Debounce.Debouncer.Expire | picafinna.js:938-943 | the timer is cleared; the function runs with the captured arguments only in trailing mode |
| Picker.SearchParams | picafinna.js:605-626 | the request has five parameters, the last being `lookfor` with the query |
| Picker.SearchParamsKeysDistinct | picafinna.js:605-626 | no parameter name occurs twice |
| Picker.SearchUrlEndpoint | picafinna.js:627 | the URL starts with the API's `/v1/search?` endpoint, whose `?` opens the query |
| Picker.SearchRequestFields | picafinna.js:605-627 | the search query string has one field per filter, one per result field, then `limit`, `page` and `lookfor`, and these can be read back from it |
| Picker.SearchUrlHasQuery | picafinna.js:1010 | the search URL already has a query, so the JSONP callback is appended with `&` |
| Picker.BlankIffWhiteSpace | picafinna.js:596 | a query counts as blank exactly when it is missing or made only of white space |
| Picker.ConfiguredResultsPerPage | picafinna.js:46 | the page size is always 1..100: 15 when absent, the requested size up to 100, and 100 above that |
| Picker.ImageObj.constructor | picafinna.js:396-405 | the object holds exactly the given field values |
| Picker.PicaFinna.constructor | picafinna.js:41-63 | the option defaults (page size, `fi`, 400 ms, preview lengths 40 and 20, picks allowed unless `false`); a fresh trailing-mode debouncer; then the reset state: page 1, `noop` callback, empty field, introduction shown, no request of its own, and the shared registry untouched whatever other sessions left in it |
| Picker.PicaFinna.PickImage | picafinna.js:75-82 | stores the callback, fills the field with the initial query or `''`, searches it at page 1 and shows the picker |
| Picker.PicaFinna.ResetPicker | picafinna.js:163-171 | page 1, `noop` callback, empty field, the introduction shown, and any request in flight left as it was |
| Picker.PicaFinna.SetPage | picafinna.js:182-203 | the page becomes the clamp of the target (`prev`, `next` or a number) to the known pages, or 1 when there are none; the pagination shows that page for the old results; the field is then searched even when the page did not change |
| Picker.PicaFinna.SearchApiRequest | picafinna.js:587-647 | the page becomes the given page, or 1 for 0 or none; a blank query shows no results and the introduction and leaves the request state alone; otherwise the previous request is aborted and a request for the query at that page becomes the current one, the only one of the session's requests with an attached script |
| Picker.PicaFinna.Dispatch | picafinna.js:596-639 | the non-blank branch: loading shown, previous request aborted, new request sent to `SearchUrl` with the JSONP callback, and recorded as current |
| Picker.PicaFinna.AbortCurrent | picafinna.js:599-603 | afterwards none of the session's own request scripts is attached: the current request's script is detached and its callback becomes `noop` if it was attached; other scripts and the counter are unchanged |
| Picker.PicaFinna.ShowIntroduction | picafinna.js:641-645 | the blank branch: result count 0, page count 0, pagination for no results and the introduction text |
| Picker.PicaFinna.HandleApiResponse | picafinna.js:658-680 | loading cleared; the records, or the no-images text when there are none; the result count taken; pagination recomputed for the current page |
| Picker.PicaFinna.Deliver | picafinna.js:1003-1008 | the response script detaches its request's script, if attached, and leaves callbacks and counter alone; the data reaches this session exactly when the request is one of its own and its script was still attached, which only the current request's can be; otherwise the session is unchanged |
| Picker.PicaFinna.UpdatePagination | picafinna.js:459-483 | buttons and text as the pagination view gives them for the current count and page; the page count is recorded |
| Picker.PicaFinna.CancelPick | picafinna.js:113-117 | the stored callback receives `undefined` and the picker is hidden |
| Picker.PicaFinna.HandleImagePicked | picafinna.js:690-702 | only `pageUrl` of the object is cleared; the stored callback receives it; the picker is hidden |
| Picker.PicaFinna.HandlePagePicked | picafinna.js:704-716 | only `url` of the object is cleared; the stored callback receives it; the picker is hidden |
| Picker.PicaFinna.HidePicker | picafinna.js:142-153 | the detail page and the picker are detached |
| Picker.PicaFinna.ShowDetail | picafinna.js:559-567 | in the overlay layout the detail page's buttons act on this object; in the block layout there is no detail page and nothing changes |
| Picker.PicaFinna.OnCloseDetailClick | picafinna.js:569-571 | the detail page is closed |
| Picker.PicaFinna.OnUseImageClick | picafinna.js:562-564 | when image picks are allowed, the detail object goes through the image-pick path; otherwise nothing changes |
| Picker.PicaFinna.OnUsePageClick | picafinna.js:565-567 | when page picks are allowed, the detail object goes through the page-pick path; otherwise nothing changes |
| Picker.PicaFinna.OnInput | picafinna.js:525-533 | the field's new value is held by the restarted debounce timer |
| Picker.PicaFinna.OnDebounceTimer | picafinna.js:938-943 | the expiry searches the value held by the timer, at page 1, once; with no timer pending nothing changes |
| Picker.PicaFinna.OnSearch | picafinna.js:535-539 | the field is searched at once, at page 1 |
| Picker.PicaFinna.OnKeyPress | picafinna.js:541-547 | Enter (13) searches the field, leaving the pagination controls as they were when the field is not blank; any other key changes nothing |
| Picker.PicaFinna.OnKeyDown | picafinna.js:549-555 | Escape (27) cancels the pick: `undefined` delivered, the picker hidden and the detail page closed; any other key changes nothing |
| Picker.PicaFinna.OnCancelClick | picafinna.js:512-515 | the overlay and cancel button cancel the pick (`undefined` delivered, the picker hidden, the detail page closed), and exist only when the picker's parent is the document body |
| Picker.OpenPicker | picafinna.js:94-101 | a new picker with the options' configuration, asked for an image with the callback and the initial query, showing the introduction and no pages, and loading exactly when the query is not blank: no request for a blank query, else exactly one request of its own, for the query at page 1, added to whatever the shared registry already holds |
| Scenarios.SupersededResponseDropped | picafinna.js:596-639 | after a new non-blank search, the new request's response is applied and the superseded request's response, arriving after it, is dropped and leaves the new count |
| Scenarios.BlankSearchKeepsRequest | picafinna.js:641-645 | a blank search leaves the request in flight, and its response is then applied |
| Scenarios.InputBurst | picafinna.js:933-950 | a burst of input sends nothing until the timer expires, then one search for the last value |
| Scenarios.SearchAfterCancel | picafinna.js:938-943 | a debounced search still pending when the pick is cancelled runs at expiry: the hidden picker sends a request and shows loading |
| Scenarios.NextOnLastPage | picafinna.js:182-203 | 'next' on the last page keeps the page and still sends a new request |
| Scenarios.CancelTwice | picafinna.js:113-117 | calling `cancelPick` twice calls the caller's callback twice with `undefined` |
| Scenarios.ReopenAfterCancel | picafinna.js:94-117 | after a cancel with a request in flight, a new session opens and sends its own request while the cancelled request's script stays attached and is not among the new session's requests |
| Scenarios.LateResponseAfterReopen | picafinna.js:1003-1008 | that late response runs once: it detaches the cancelled session's script and is applied to that session, while the new session is unchanged and keeps its invariant |

## Left out

- DOM construction and rendering are not modelled: `_createPickerDOM`, `_createImageDetailDOM`'s markup, `_createResultItemDOM`, `_getResultItemWrapper`'s elements, `_getHtmlTemplate`, `_getDetailHtmlTemplate`, `_setStatusText`, `removeChildren` and the loading class. They become state values:
  - the result list holds the records or a status text;
  - the pagination control holds its button states and a structured text;
  - `shown` and `detailObj` record what is attached.
- `showPicker`'s `select()` of the field is not modelled, and neither is the ordering of elements in the document.
- Picker.PicaFinna.UpdatePagination: the pagination text is a heading with three cells (`Pagination.Cell`). Its concatenation with `' '`, `' - '` and `' / '`, and the number formatting, are left out.
- Real time (`setTimeout`, `clearTimeout` and the wait length) is not modelled. Expiry is the explicit step `OnDebounceTimer`.
- The network, `<script>` loading and `JSON.parse` are not modelled. A response arriving is the explicit step `Deliver`, and a response is reduced to its records and result count.
- Picker.PicaFinna.HandleApiResponse: the result count is a whole number. A reply without a numeric `resultCount`, such as an API error object, is not modelled. The code would then store `undefined` as the count (picafinna.js:676) and compute NaN pagination (463-465), so next stays enabled (470) and the text is `- - - / -` (479). The page count becomes NaN (482), and a later `setPage` stores a NaN page (195).
- Picker.PicaFinna.Deliver: a script that fails to load never calls back, so loading stays shown and the script stays attached. The model has no step for that; the session simply receives no `Deliver`.
- The `XMLHttpRequest` branch of `_searchApiRequest` is not modelled, because `opts.useJsonp || true` is always true and makes it unreachable.
- The options `imageMaxDimensions`, `zIndex`, `documentOverride` and `parentElement` are left out; they only affect rendering. `parentElement` remains only as the `overlay` flag.
- Picker.ConfiguredResultsPerPage: negative, fractional and non-numeric options are left out; an absent option is 0.
- Picker.PicaFinna.constructor: the same restriction applies to the other numeric options.
- `encodeURIComponent` is an abstract function, not the real encoder.
- String lengths count Dafny characters, not UTF-16 code units.
- Preview.CollectionsPreview: `_getResultItemWrapper` assigns and reads `collectionString` and `collectionStringPreview` without declaring them (the `var`s at picafinna.js:380-381 belong to `_createResultItemDOM`). Once a record with collections has created the globals, a later record without collections shows the earlier record's values. Before that, reading them at picafinna.js:904 throws a `ReferenceError`. The model returns `None` and does not model those globals.
- Picker.PicaFinna.HandleApiResponse: any throw while rendering a record ends the `forEach` and the handler. Examples are that `ReferenceError`, and a record without `images`, `buildings` or `formats` (picafinna.js:368-371). The result count and pagination (picafinna.js:676-677) are then not updated. The model always completes the handler.
- Picker.PicaFinna.ShowDetail: `imageOrganization` is never declared and is assigned only for an object with an organization (picafinna.js:273). So, until some detail page of an object with an organization has created the global, an object without one throws a `ReferenceError` at picafinna.js:300, before `this.imageObj` is set. After that, such an object shows the earlier organization. The model always sets the detail object and does not model that global.
- Picker.PicaFinna.Dispatch: `encodeURIComponent` throws `URIError` on a lone surrogate. That happens after the page is set, loading is shown and the previous request is aborted. The model's `encode` is total.
- Picker.PicaFinna.HandleImagePicked: a throw from the caller's callback skips `hidePicker` (picafinna.js:697-700), and the same holds for Picker.PicaFinna.HandlePagePicked. The model's callbacks do not throw.
- Picker.ImageObj.constructor: how the fields are derived from a record (`API_BASE_URL` prefixes, the first building and format, the attribution text, the `&fullres=1` size rewrite at picafinna.js:368-406) is not modelled. The object is built from given field values, and a record keeps only its title and record page.
- The loop counter `i` in `_updatePagination` and `_attachListeners` is also an implicit global; it is not modelled.
- Several pickers share the one JSONP registry through the `Registry` object passed to each. Each picker's invariant covers its own requests (`issued`), and pickers run one step at a time; interleavings inside a step are not modelled.
- Picker.PicaFinna.constructor: `PicaFinna.locale` is a mutable static object read on every `_localize` (picafinna.js:729). The model fixes the table for a whole session, so changes to it during a session are not modelled.
- Picker.PicaFinna.HandleImagePicked: a delivery records a copy of the object's fields. The callback really receives the same object that the result item's click handler still holds (picafinna.js:425), so later changes through either are not modelled. The same holds for Picker.PicaFinna.HandlePagePicked.
- `capitalize` is unused and `noop` is the `Callback.Noop` and `Entry.Noop` values; neither is modelled further.
- `_setLoadingStatus` is the `loading` flag.
