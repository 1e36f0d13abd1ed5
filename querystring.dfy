/**
 * `paramsToQueryString`: the serialiser that turns the request parameters into a URL
 * query string. The URI component encoder (`encodeURIComponent`) is a parameter.
 */
module QueryString {
  import Text

  /** A parameter value: a single value, or an array whose values each become a field. */
  datatype ParamValue = Scalar(v: string) | List(vs: seq<string>)

  /** The parameter object, its keys in `Object.keys` order. */
  type Params = seq<(string, ParamValue)>

  /** `Array.isArray(param) ? param : [param]` */
  function Values(p: ParamValue): seq<string> {
    match p
    case Scalar(v) => [v]
    case List(vs) => vs
  }

  /** `encodeURIComponent(key) + '=' + encodeURIComponent(value)` */
  function Field(key: string, value: string, encode: string -> string): string {
    encode(key) + "=" + encode(value)
  }

  /** An encoder that, like `encodeURIComponent`, never emits `&` or `=`. */
  ghost predicate UriSafe(encode: string -> string) {
    forall s :: '&' !in encode(s) && '=' !in encode(s)
  }

  /** The fields of one key, in array order. */
  function KeyFields(key: string, values: seq<string>, encode: string -> string): seq<string>
    decreases |values|
  {
    if values == [] then []
    else KeyFields(key, values[..|values| - 1], encode) + [Field(key, values[|values| - 1], encode)]
  }

  /** The fields of all keys: key order, then array order. */
  function Fields(params: Params, encode: string -> string): seq<string>
    decreases |params|
  {
    if params == [] then []
    else
      var last := params[|params| - 1];
      Fields(params[..|params| - 1], encode) + KeyFields(last.0, Values(last.1), encode)
  }

  /** The query string the serialiser promises: the `&`-join of all fields. */
  function QueryString(params: Params, encode: string -> string): string {
    Text.Join(Fields(params, encode), "&")
  }

  /** The accumulator of the loops: `'&' + field` for each field so far. */
  function Prefixed(fields: seq<string>): string
    decreases |fields|
  {
    if fields == [] then "" else Prefixed(fields[..|fields| - 1]) + "&" + fields[|fields| - 1]
  }

  /** Dropping the first character of the accumulator (`substr(1)`) leaves the `&`-join. */
  lemma {:induction false} PrefixedIsJoin(fields: seq<string>)
    ensures fields == [] ==> Prefixed(fields) == ""
    ensures fields != [] ==> Prefixed(fields) == "&" + Text.Join(fields, "&")
    decreases |fields|
  {
    if |fields| >= 2 {
      PrefixedIsJoin(fields[..|fields| - 1]);
    }
  }

  function Substr1(s: string): string {
    if s == [] then "" else s[1..]
  }

  lemma PrefixedSnoc(fields: seq<string>, key: string, value: string, encode: string -> string)
    ensures Prefixed(fields + [Field(key, value, encode)])
            == Prefixed(fields) + "&" + encode(key) + "=" + encode(value)
  {
    var fs := fields + [Field(key, value, encode)];
    assert fs[..|fs| - 1] == fields;
  }

  lemma KeyFieldsSnoc(key: string, values: seq<string>, j: int, encode: string -> string)
    requires 0 <= j < |values|
    ensures KeyFields(key, values[..j + 1], encode) == KeyFields(key, values[..j], encode) + [Field(key, values[j], encode)]
  {
    assert values[..j + 1][..j] == values[..j];
  }

  lemma FieldsSnoc(params: Params, i: int, encode: string -> string)
    requires 0 <= i < |params|
    ensures Fields(params[..i + 1], encode) == Fields(params[..i], encode) + KeyFields(params[i].0, Values(params[i].1), encode)
  {
    assert params[..i + 1][..i] == params[..i];
  }

  /** The serialiser as written: a loop over the keys (`keys.forEach(handleParam)`). */
  method ParamsToQueryString(params: Params, encode: string -> string) returns (q: string)
    ensures q == QueryString(params, encode)
  {
    var queryString := "";
    var i := 0;
    while i < |params|
      invariant 0 <= i <= |params|
      invariant queryString == Prefixed(Fields(params[..i], encode))
    {
      queryString := AppendParam(queryString, Fields(params[..i], encode), params[i].0, Values(params[i].1), encode);
      FieldsSnoc(params, i, encode);
      i := i + 1;
    }
    assert params[..i] == params;
    PrefixedIsJoin(Fields(params, encode));
    q := Substr1(queryString);
  }

  /** The inner loop (`param.forEach(appendToQueryString)`): one `'&' + field` per value. */
  method AppendParam(queryString: string, ghost done: seq<string>, key: string, values: seq<string>,
                     encode: string -> string) returns (qs: string)
    requires queryString == Prefixed(done)
    ensures qs == Prefixed(done + KeyFields(key, values, encode))
  {
    qs := queryString;
    var j := 0;
    assert done + KeyFields(key, values[..0], encode) == done;
    while j < |values|
      invariant 0 <= j <= |values|
      invariant qs == Prefixed(done + KeyFields(key, values[..j], encode))
    {
      KeyFieldsSnoc(key, values, j, encode);
      assert done + KeyFields(key, values[..j + 1], encode)
          == (done + KeyFields(key, values[..j], encode)) + [Field(key, values[j], encode)];
      PrefixedSnoc(done + KeyFields(key, values[..j], encode), key, values[j], encode);
      qs := qs + "&" + encode(key) + "=" + encode(values[j]);
      j := j + 1;
    }
    assert values[..j] == values;
  }

  lemma {:induction false} KeyFieldsShape(key: string, values: seq<string>, encode: string -> string, k: int)
    requires 0 <= k < |values|
    ensures |KeyFields(key, values, encode)| == |values|
    ensures KeyFields(key, values, encode)[k] == Field(key, values[k], encode)
    decreases |values|
  {
    KeyFieldsLength(key, values, encode);
    if k < |values| - 1 {
      KeyFieldsShape(key, values[..|values| - 1], encode, k);
    }
  }

  lemma {:induction false} KeyFieldsLength(key: string, values: seq<string>, encode: string -> string)
    ensures |KeyFields(key, values, encode)| == |values|
    decreases |values|
  {
    if values != [] {
      KeyFieldsLength(key, values[..|values| - 1], encode);
    }
  }

  /** Every serialised field is `encode(key) + '=' + encode(value)` for some key and value. */
  lemma {:induction false} FieldsAreFields(params: Params, encode: string -> string, i: int)
    requires 0 <= i < |Fields(params, encode)|
    ensures exists key, value :: Fields(params, encode)[i] == Field(key, value, encode)
    decreases |params|
  {
    var init := params[..|params| - 1];
    var last := params[|params| - 1];
    KeyFieldsLength(last.0, Values(last.1), encode);
    if i < |Fields(init, encode)| {
      FieldsAreFields(init, encode, i);
    } else {
      var k := i - |Fields(init, encode)|;
      KeyFieldsShape(last.0, Values(last.1), encode, k);
      assert Fields(params, encode)[i] == Field(last.0, Values(last.1)[k], encode);
    }
  }

  /** With an encoder that never emits `=`, each field splits back into its encoded key and value. */
  lemma FieldSplits(key: string, value: string, encode: string -> string)
    requires UriSafe(encode)
    ensures Text.Split(Field(key, value, encode), '=') == [encode(key), encode(value)]
  {
    assert Field(key, value, encode) == encode(key) + ['='] + encode(value);
    Text.SplitAtSeparator(encode(key), encode(value), '=');
    Text.SplitWithoutSeparator(encode(key), '=');
    Text.SplitWithoutSeparator(encode(value), '=');
  }

  /** With an encoder that never emits `&`, splitting the query string at `&` gives back the
    * fields, in key order and then array order; no parameters give the empty string. */
  lemma QueryStringSplits(params: Params, encode: string -> string)
    requires UriSafe(encode)
    ensures Fields(params, encode) == [] ==> QueryString(params, encode) == ""
    ensures Fields(params, encode) != [] ==> Text.Split(QueryString(params, encode), '&') == Fields(params, encode)
  {
    var fs := Fields(params, encode);
    if fs != [] {
      forall i | 0 <= i < |fs| ensures '&' !in fs[i] {
        FieldsAreFields(params, encode, i);
        var key, value :| fs[i] == Field(key, value, encode);
        assert '&' !in encode(key) && '&' !in encode(value);
      }
      Text.SplitJoin(fs, '&');
    }
  }
}
