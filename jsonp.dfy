/**
 * `jsonpRequest`: the script-injection transport. A global counter names each request's
 * callback, a global registry maps those names to the live callback or to `noop`, and
 * the injected `<script>` elements are the outstanding requests.
 */
module Jsonp {
  import opened Wrappers
  import Text

  /** What `global['_jsonpCallback' + id]` holds. */
  datatype Entry = Live | Noop

  /** The object `jsonpRequest` returns; its `abort` closes over the request's id. */
  datatype Handle = Handle(id: nat)

  /** The id the next request gets: 0 while the counter is still undefined, else one more. */
  function NextId(counter: Option<nat>): nat {
    if counter.None? then 0 else counter.value + 1
  }

  /** `'_jsonpCallback' + counter` */
  function CallbackName(id: nat): (r: string)
    ensures |r| > 14 && r[..14] == "_jsonpCallback"
    ensures forall i :: 14 <= i < |r| ==> Text.IsDigit(r[i])
  {
    "_jsonpCallback" + Text.NatToString(id)
  }

  /** Distinct requests register distinct global names, so keying the registry by id is
    * the same as keying it by name. */
  lemma CallbackNamesDistinct(a: nat, b: nat)
    requires a != b
    ensures CallbackName(a) != CallbackName(b)
  {
    if CallbackName(a) == CallbackName(b) {
      var p := "_jsonpCallback";
      assert Text.NatToString(a) == CallbackName(a)[|p|..];
      assert Text.NatToString(b) == CallbackName(b)[|p|..];
      Text.NatToStringInjective(a, b);
    }
  }

  /** `url + (url.indexOf('?') == -1 ? '?' : '&') + 'callback=' + name`: the URL, then `?`
    * when it has no query yet and `&` otherwise. */
  function WithCallback(url: string, name: string): (r: string)
    ensures |r| > |url| && r[..|url|] == url && r[|url|] == (if '?' in url then '&' else '?')
  {
    url + (if '?' in url then "&" else "?") + "callback=" + name
  }

  /** After the separator comes the callback parameter, and the result has a query. */
  lemma WithCallbackOpensQuery(url: string, name: string)
    ensures var r := WithCallback(url, name);
      && r[|url| + 1..] == "callback=" + name
      && '?' in r
  {
  }

  /** When the URL already has a query, the callback parameter becomes its last `&`-separated
    * field, leaving the URL's own fields as they were. */
  lemma WithCallbackLastField(url: string, name: string)
    requires '?' in url && '&' !in name
    ensures Text.Split(WithCallback(url, name), '&') == Text.Split(url, '&') + ["callback=" + name]
  {
    var tail := "callback=" + name;
    assert WithCallback(url, name) == url + ['&'] + tail;
    Text.SplitAtSeparator(url, tail, '&');
    assert '&' !in tail by {
      assert forall i :: 0 <= i < 9 ==> tail[i] != '&';
      assert forall i :: 9 <= i < |tail| ==> tail[i] == name[i - 9];
    }
    Text.SplitWithoutSeparator(tail, '&');
  }

  class Registry {
    /** `global._jsonpRequestCallbackCounter`, undefined until the first request. */
    var counter: Option<nat>
    /** `global['_jsonpCallback' + id]` for every id that has been registered. */
    var callbacks: map<nat, Entry>
    /** The request scripts still attached to the document, with their `src`. */
    var scripts: map<nat, string>

    ghost predicate Valid()
      reads this
    {
      && (forall id :: id in callbacks ==> id < NextId(counter))
      && scripts.Keys <= callbacks.Keys
      && (forall id :: id in scripts ==> callbacks[id] == Live)
    }

    constructor()
      ensures Valid() && counter == None && callbacks == map[] && scripts == map[]
    {
      counter := None;
      callbacks := map[];
      scripts := map[];
    }

    /** `jsonpRequest(url, callback)`: take the next id, register the live callback under its
      * name and attach a script whose URL carries that name. */
    method Request(url: string) returns (h: Handle)
      requires Valid()
      modifies this
      ensures Valid()
      ensures h.id == NextId(old(counter)) && counter == Some(h.id)
      ensures h.id !in old(callbacks)
      ensures callbacks == old(callbacks)[h.id := Live]
      ensures scripts == old(scripts)[h.id := WithCallback(url, CallbackName(h.id))]
    {
      if counter.None? {
        counter := Some(0);
      } else {
        counter := Some(counter.value + 1);
      }
      var id := counter.value;
      callbacks := callbacks[id := Live];
      scripts := scripts[id := WithCallback(url, CallbackName(id))];
      h := Handle(id);
    }

    /** `abort()`: detach the script, then replace the callback by `noop`. When the script is
      * no longer attached, `removeChild` throws first and nothing changes. */
    method Abort(h: Handle) returns (ok: bool)
      requires Valid()
      modifies this
      ensures Valid()
      ensures ok == (h.id in old(scripts))
      ensures counter == old(counter)
      ensures ok ==> scripts == old(scripts) - {h.id} && callbacks == old(callbacks)[h.id := Noop]
      ensures !ok ==> scripts == old(scripts) && callbacks == old(callbacks)
    {
      ok := h.id in scripts;
      if ok {
        scripts := scripts - {h.id};
        callbacks := callbacks[h.id := Noop];
      }
    }

    /** The server's response script calls `global['_jsonpCallback' + id](data)`. A live callback
      * detaches its script and then passes the data on; a `noop` does nothing; a name never
      * registered, or a live callback whose script is already detached, throws before the data
      * is passed on. The result says whether the data reached the request's callback. */
    method Fire(id: nat) returns (invoked: bool)
      requires Valid()
      modifies this
      ensures Valid()
      ensures invoked == (id in old(scripts))
      ensures scripts == old(scripts) - {id}
      ensures callbacks == old(callbacks) && counter == old(counter)
    {
      invoked := false;
      if id in callbacks && callbacks[id] == Live {
        if id in scripts {
          scripts := scripts - {id};
          invoked := true;
        }
      }
    }
  }
}
