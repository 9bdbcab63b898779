/** Reading named parameters from a request's query string or body
    (package httputil). */
module Httputil {
  import opened Values

  /** What QueryOrBody reads from an *http.Request.
      `verb`: the HTTP method.
      `query`: the first value of each key of the URL's query string.
      `json`: the body decoded as a JSON object of strings, None when
        decoding fails.
      `form`: the first value of each key of request.Form once parsed
        (body fields before query fields). */
  datatype HttpRequest = HttpRequest(
    verb: string,
    contentType: string,
    query: map<string, string>,
    json: Option<map<string, string>>,
    form: map<string, string>)

  /** Looking a key up, with "" for a missing key (url.Values.Get, and the
      index of a map[string]string). */
  function Get(m: map<string, string>, key: string): string {
    if key in m then m[key] else ""
  }

  /** strings.Split(header, ";")[0]: everything before the first ';'. */
  function MediaType(header: string): (r: string)
    ensures |r| <= |header| && r == header[..|r|]
    ensures ';' !in r
    ensures |r| < |header| ==> header[|r|] == ';'
  {
    if header == [] || header[0] == ';' then [] else [header[0]] + MediaType(header[1..])
  }

  /** A header without ';' is its own media type. */
  lemma {:induction false} MediaTypeNoSeparator(t: string)
    requires ';' !in t
    ensures MediaType(t) == t
  {
    if t != [] {
      assert t[0] in t;
      MediaTypeNoSeparator(t[1..]);
    }
  }

  /** Parameters after ';' (a charset, say) do not change the media type. */
  lemma {:induction false} MediaTypeParameters(t: string, params: string)
    requires ';' !in t
    ensures MediaType(t + ";" + params) == t
  {
    var h := t + ";" + params;
    if t == [] {
      assert h[0] == ';';
    } else {
      assert t[0] in t;
      assert h[0] == t[0] && h[1..] == t[1..] + ";" + params;
      MediaTypeParameters(t[1..], params);
    }
  }

  /** The body request parameters are read from: none for GET, the decoded
      JSON object for an "application/json" body (None when it does not
      decode), the parsed form otherwise. */
  function Body(request: HttpRequest): Option<map<string, string>> {
    if request.verb == "GET" then None
    else if MediaType(request.contentType) == "application/json" then request.json
    else Some(request.form)
  }

  /** The request carries a JSON body that does not decode. */
  predicate InvalidJson(request: HttpRequest) {
    request.verb != "GET" && MediaType(request.contentType) == "application/json" && request.json.None?
  }

  /** Reference definition of the value reported for one key: a non-empty
      body value wins over a non-empty query value; "" means not reported. */
  function Chosen(request: HttpRequest, key: string): (r: string)
    ensures r == Get(request.query, key) || (Body(request).Some? && r == Get(Body(request).value, key))
    ensures Body(request).None? ==> r == Get(request.query, key)
  {
    var body := Body(request);
    if body.Some? && Get(body.value, key) != "" then Get(body.value, key) else Get(request.query, key)
  }

  /** One loop over the keys: every key whose value in `data` is not empty
      is written into `values`. */
  method Overlay(values: map<string, string>, keys: seq<string>, data: map<string, string>)
    returns (r: map<string, string>)
    ensures forall k :: k in r <==> k in values || (k in keys && Get(data, k) != "")
    ensures forall k :: k in r ==> r[k] == if k in keys && Get(data, k) != "" then Get(data, k) else values[k]
  {
    r := values;
    for i := 0 to |keys|
      invariant forall k :: k in r <==> k in values || (k in keys[..i] && Get(data, k) != "")
      invariant forall k :: k in r ==> r[k] == if k in keys[..i] && Get(data, k) != "" then Get(data, k) else values[k]
    {
      var key := keys[i];
      assert keys[..i + 1] == keys[..i] + [key];
      if Get(data, key) != "" {
        r := r[key := Get(data, key)];
      }
    }
    assert keys[..|keys|] == keys;
  }

  /** QueryOrBody: the requested keys with a non-empty value, taken from the
      body when it has one and from the query string otherwise.  A JSON body
      that does not decode gives the error "invalid JSON" together with the
      query values. */
  method QueryOrBody(request: HttpRequest, keys: seq<string>)
    returns (values: map<string, string>, err: Option<string>)
    ensures err == if InvalidJson(request) then Some("invalid JSON") else None
    ensures forall k :: k in values <==> k in keys && (if InvalidJson(request) then Get(request.query, k) else Chosen(request, k)) != ""
    ensures forall k :: k in values ==> values[k] == if InvalidJson(request) then Get(request.query, k) else Chosen(request, k)
  {
    values := Overlay(map[], keys, request.query);
    if request.verb == "GET" {
      return values, None;
    }
    var contentType := MediaType(request.contentType);
    if contentType == "application/json" {
      if request.json.None? {
        return values, Some("invalid JSON");
      }
      values := Overlay(values, keys, request.json.value);
    } else {
      values := Overlay(values, keys, request.form);
    }
    err := None;
  }

  /** A key has a value to report exactly when its query value or its body
      value is not empty. */
  lemma ChosenNonEmpty(request: HttpRequest, key: string)
    ensures Chosen(request, key) != "" <==>
              Get(request.query, key) != "" || (Body(request).Some? && Get(Body(request).value, key) != "")
  {
  }

  /** A GET request reads the query string only, whatever its body. */
  lemma GetReadsQueryOnly(request: HttpRequest, key: string)
    requires request.verb == "GET"
    ensures Chosen(request, key) == Get(request.query, key)
    ensures !InvalidJson(request)
  {
  }

  /** For any other method a non-empty body value overrides the query value. */
  lemma BodyOverridesQuery(request: HttpRequest, key: string)
    requires request.verb != "GET" && !InvalidJson(request)
    requires Get(Body(request).value, key) != ""
    ensures Chosen(request, key) == Get(Body(request).value, key)
  {
  }

  /** A JSON content type with parameters after ';' (a charset, say) still
      selects the JSON body. */
  lemma JsonWithParameters(params: string)
    ensures MediaType("application/json;" + params) == "application/json"
  {
    MediaTypeParameters("application/json", params);
    assert "application/json" + ";" + params == "application/json;" + params;
  }

  /** The media type is compared case-sensitively: "Application/JSON" does
      not select the JSON body. */
  lemma JsonMatchIsCaseSensitive()
    ensures MediaType("Application/JSON") != "application/json"
  {
    var h := "Application/JSON";
    var r := MediaType(h);
    assert h[0] == 'A';
    assert r != [];
    assert r[0] == 'A';
  }
}
