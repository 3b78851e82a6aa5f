/** UrlBuilder: the request URL for the geocoding endpoint, built from the
    scheme, the component filter and the encoded query parameters, and
    refused beyond 8192 characters. `http_build_query` is a parameter. */
module Urls {
  import opened PhpArrays
  import opened Models
  import opened Errors

  const URL_MAX_LENGTH: nat := 8192

  const HOST_AND_PATH: string := "maps.googleapis.com/maps/api/geocode/json"

  const ENDPOINT: string := "://" + HOST_AND_PATH

  const COMPONENTS_PREFIX: string := "components="

  const INVALID_COMPONENTS: string := "$components must be valid string or array"

  const COMPONENTS_TYPE: string := "$components must be string or array"

  /** `setBaseUrl`: https when secure, http otherwise; fixed host and path. */
  function BaseUrl(secure: bool): (r: string)
    ensures |r| > |ENDPOINT| && r[|r| - |ENDPOINT|..] == ENDPOINT
  {
    (if secure then "https" else "http") + ENDPOINT
  }

  /** `buildStringComponents`: a string without `:` is refused first; one
      already starting with `components=` is kept; any other is prefixed. */
  function StringComponents(s: string): (r: Result<string, GeoError>)
    ensures ':' !in s ==> r == Failure(InvalidArgument(INVALID_COMPONENTS))
    ensures ':' in s && StartsWith(s, COMPONENTS_PREFIX) ==> r == Success(s)
    ensures ':' in s && !StartsWith(s, COMPONENTS_PREFIX) ==> r == Success(COMPONENTS_PREFIX + s)
  {
    if ':' !in s then Failure(InvalidArgument(INVALID_COMPONENTS))
    else if StartsWith(s, COMPONENTS_PREFIX) then Success(s)
    else Success(COMPONENTS_PREFIX + s)
  }

  predicate AllStringValues(entries: seq<(Key, Value)>) {
    forall i :: 0 <= i < |entries| ==> HasStringForm(entries[i].1)
  }

  /** `"{$key}:{$component}"` for each entry, in iteration order. */
  function Pairs(entries: seq<(Key, Value)>): (r: seq<string>)
    requires AllStringValues(entries)
    ensures |r| == |entries|
    ensures forall i :: 0 <= i < |entries| ==> r[i] == KeyString(entries[i].0) + ":" + StringForm(entries[i].1)
  {
    seq(|entries|, i requires 0 <= i < |entries| => KeyString(entries[i].0) + ":" + StringForm(entries[i].1))
  }

  /** `buildArrayComponents`: `components=` and the pairs joined by `|`. */
  function ArrayComponents(entries: seq<(Key, Value)>): string
    requires AllStringValues(entries)
  {
    if |entries| == 0 then "" else COMPONENTS_PREFIX + Join("|", Pairs(entries))
  }

  /** `buildArrayComponents`, with the source's `$build[] = ...` loop. */
  method BuildArrayComponents(entries: seq<(Key, Value)>) returns (r: string)
    requires AllStringValues(entries)
    ensures r == ArrayComponents(entries)
  {
    var build: seq<string> := [];
    var i := 0;
    while i < |entries|
      invariant 0 <= i <= |entries|
      invariant build == Pairs(entries[..i])
    {
      assert entries[..i + 1][..i] == entries[..i];
      build := build + [KeyString(entries[i].0) + ":" + StringForm(entries[i].1)];
      i := i + 1;
    }
    assert entries[..i] == entries;
    r := if |build| > 0 then COMPONENTS_PREFIX + Join("|", build) else "";
  }

  /** What `buildComponents` can handle without a PHP warning: element values
      of an array filter have a string form. */
  predicate ComponentsBuildable(c: Value) {
    c.Arr? ==> AllStringValues(c.entries)
  }

  /** `buildComponents`: nothing for an empty value; otherwise the string or
      array form; any other type is refused. */
  function ComponentsPart(c: Value): (r: Result<string, GeoError>)
    requires ComponentsBuildable(c)
    ensures IsFalsy(c) ==> r == Success("")
    ensures !IsFalsy(c) && c.Str? ==> r == StringComponents(c.s)
    ensures !IsFalsy(c) && c.Arr? ==> r == Success(ArrayComponents(c.entries))
    ensures !IsFalsy(c) && !c.Str? && !c.Arr? ==> r == Failure(InvalidArgument(COMPONENTS_TYPE))
  {
    if IsFalsy(c) then Success("")
    else match c
      case Str(s) => StringComponents(s)
      case Arr(e) => Success(ArrayComponents(e))
      case _ => Failure(InvalidArgument(COMPONENTS_TYPE))
  }

  /** `array_filter` on strings: drops `''` and `'0'`. */
  function NonEmpty(parts: seq<string>): (r: seq<string>)
    ensures forall i :: 0 <= i < |r| ==> r[i] != "" && r[i] != "0"
    ensures forall s :: s in r <==> s in parts && s != "" && s != "0"
  {
    if |parts| == 0 then []
    else
      var rest := NonEmpty(parts[1..]);
      assert parts == [parts[0]] + parts[1..];
      if parts[0] == "" || parts[0] == "0" then rest else [parts[0]] + rest
  }

  /** The URL `buildUrl` produces from the base URL, the components part and
      the encoded parameters, or the length error. */
  function UrlFor(baseUrl: string, components: string, query: string): (r: Result<string, GeoError>)
    ensures r.Success? ==> |r.value| <= URL_MAX_LENGTH
    ensures r.Failure? ==> r.error == UrlLengthExceeded(URL_LENGTH_MESSAGE)
  {
    var url := baseUrl + "?" + Join("&", NonEmpty([components, query]));
    if |url| > URL_MAX_LENGTH then Failure(UrlLengthExceeded(URL_LENGTH_MESSAGE)) else Success(url)
  }

  class UrlBuilder {
    var baseUrl: string
    var params: seq<(Key, Value)>
    var components: Value

    constructor (params: seq<(Key, Value)>, components: Value, secure: bool)
      ensures this.baseUrl == BaseUrl(secure)
      ensures this.params == params && this.components == components
    {
      baseUrl := BaseUrl(secure);
      this.params := params;
      this.components := components;
    }

    method BuildComponents() returns (r: Result<string, GeoError>)
      requires ComponentsBuildable(components)
      ensures r == ComponentsPart(components)
    {
      if IsFalsy(components) {
        return Success("");
      }
      match components {
        case Str(s) =>
          r := StringComponents(s);
        case Arr(e) =>
          var built := BuildArrayComponents(e);
          r := Success(built);
        case _ =>
          r := Failure(InvalidArgument(COMPONENTS_TYPE));
      }
    }

    /** `buildUrl`; `httpBuildQuery` stands for PHP's `http_build_query`. */
    method BuildUrl(httpBuildQuery: seq<(Key, Value)> -> string) returns (r: Result<string, GeoError>)
      requires ComponentsBuildable(components)
      ensures ComponentsPart(components).Failure? ==> r == Failure(ComponentsPart(components).error)
      ensures ComponentsPart(components).Success? ==>
        r == UrlFor(baseUrl, ComponentsPart(components).value, httpBuildQuery(params))
    {
      var part := BuildComponents();
      if part.Failure? {
        return Failure(part.error);
      }
      var query: seq<string> := [];
      query := query + [part.value];
      query := query + [httpBuildQuery(params)];
      var url := baseUrl + "?" + Join("&", NonEmpty(query));
      if |url| > URL_MAX_LENGTH {
        return Failure(UrlLengthExceeded(URL_LENGTH_MESSAGE));
      }
      r := Success(url);
    }
  }

  // ------------------------------------------------------------- lemmas

  /** The scheme is https exactly when `secure` is set. */
  lemma SchemeFollowsSecure(secure: bool)
    ensures StartsWith(BaseUrl(secure), "https://") <==> secure
    ensures StartsWith(BaseUrl(secure), if secure then "https" else "http")
  {
    var u := BaseUrl(secure);
    if secure {
      assert u == "https://" + HOST_AND_PATH;
      assert u[..8] == "https://";
    } else {
      assert u == "http://" + HOST_AND_PATH;
      assert u[4] == ':';
      assert u[..4] == "http";
    }
  }

  /** Empty components (`''`, `'0'`, `[]`, `null`) give no components part. */
  lemma EmptyComponents()
    ensures ComponentsPart(Str("")) == Success("")
    ensures ComponentsPart(Str("0")) == Success("")
    ensures ComponentsPart(Arr([])) == Success("")
    ensures ComponentsPart(Null) == Success("")
  {
  }

  /** Prefixing is idempotent: a built components string is kept as it is. */
  lemma StringComponentsIdempotent(s: string)
    requires StringComponents(s).Success?
    ensures StringComponents(StringComponents(s).value) == StringComponents(s)
  {
    var t := StringComponents(s).value;
    if !StartsWith(s, COMPONENTS_PREFIX) {
      assert t == COMPONENTS_PREFIX + s;
      assert t[..|COMPONENTS_PREFIX|] == COMPONENTS_PREFIX;
      var k :| 0 <= k < |s| && s[k] == ':';
      assert t[|COMPONENTS_PREFIX| + k] == ':';
    }
  }

  /** The `:` check runs before the prefix test, so even a prefixed string
      without `:` is refused. */
  lemma ColonCheckedFirst()
    ensures StringComponents("components=") == Failure(InvalidArgument(INVALID_COMPONENTS))
  {
    assert ':' !in "components=";
  }

  /** A single array entry gives `components=key:value`. */
  lemma OneArrayComponent(k: Key, v: Value)
    requires HasStringForm(v)
    ensures ArrayComponents([(k, v)]) == COMPONENTS_PREFIX + KeyString(k) + ":" + StringForm(v)
  {
  }

  /** Two pieces join with `&`, the components part first; an empty piece is
      dropped and leaves no stray `&`. */
  lemma QueryOrder(baseUrl: string, components: string, query: string)
    requires components != "" && components != "0" && query != "" && query != "0"
    ensures Join("&", NonEmpty([components, query])) == components + "&" + query
    ensures Join("&", NonEmpty(["", query])) == query
    ensures Join("&", NonEmpty([components, ""])) == components
  {
    var none: seq<string> := [];
    var q: seq<string> := [query];
    var e: seq<string> := [""];
    assert q[1..] == none && e[1..] == none;
    assert NonEmpty(q) == q;
    assert NonEmpty(e) == none;
    assert [components, query][1..] == q;
    assert ["", query][1..] == q;
    assert [components, ""][1..] == e;
  }

  /** The length limit is inclusive: exactly 8192 characters pass, one more
      is refused. */
  lemma LengthLimit(baseUrl: string, components: string, query: string)
    ensures var url := baseUrl + "?" + Join("&", NonEmpty([components, query]));
      UrlFor(baseUrl, components, query) ==
        if |url| <= URL_MAX_LENGTH then Success(url) else Failure(UrlLengthExceeded(URL_LENGTH_MESSAGE))
  {
  }
}
