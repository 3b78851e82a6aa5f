/** HttpClient without the network: API-key validation, the query that is
    sent (key entries first), the status decision table and the way a
    decoded response becomes an AddressCollection. The HTTP round trip and
    JSON decoding are one function parameter, `transport`. */
module Http {
  import opened PhpArrays
  import opened Models
  import opened Errors
  import opened ItemCollections

  const API_KEY_MESSAGE: string := "$apiKey must contain \"client\" and \"signature\" values."

  const KEY_TYPE_MESSAGE: string := "$key must be string or array"

  /** `empty($a[$k])`: absent, null or falsy. */
  predicate EmptyAt(a: seq<(Key, Value)>, k: string) {
    !Has(a, StrKey(k)) || IsFalsy(Lookup(a, StrKey(k)).value)
  }

  /** `setKey`: what `$this->key` becomes, or why the key is refused. */
  function KeyFor(k: Value): (r: Result<seq<(Key, Value)>, GeoError>)
    ensures k.Str? ==> r == Success([(StrKey("key"), k)])
    ensures k.Arr? && EmptyAt(k.entries, "client") && EmptyAt(k.entries, "signature")
      ==> r == Failure(InvalidArgument(API_KEY_MESSAGE))
    ensures k.Arr? && !(EmptyAt(k.entries, "client") && EmptyAt(k.entries, "signature"))
      ==> r == Success(k.entries)
    ensures !k.Str? && !k.Arr? ==> r == Failure(InvalidArgument(KEY_TYPE_MESSAGE))
  {
    match k
    case Arr(e) =>
      if EmptyAt(e, "client") && EmptyAt(e, "signature") then Failure(InvalidArgument(API_KEY_MESSAGE))
      else Success(e)
    case Str(_) => Success([(StrKey("key"), k)])
    case _ => Failure(InvalidArgument(KEY_TYPE_MESSAGE))
  }

  /** `checkResponseStatus`: the four error statuses raise their own
      exception with the given message; every other status passes. */
  function StatusError(status: string, message: string): (r: Option<GeoError>)
    ensures status == "OVER_QUERY_LIMIT" ==> r == Some(QuotaLimitExceeded(message))
    ensures status == "REQUEST_DENIED" ==> r == Some(RequestDenied(message))
    ensures status == "INVALID_REQUEST" ==> r == Some(InvalidRequest(message))
    ensures status == "UNKNOWN_ERROR" ==> r == Some(UnknownError(message))
    ensures r.None? <==> status !in {"OVER_QUERY_LIMIT", "REQUEST_DENIED", "INVALID_REQUEST", "UNKNOWN_ERROR"}
  {
    if status == "OVER_QUERY_LIMIT" then Some(QuotaLimitExceeded(message))
    else if status == "REQUEST_DENIED" then Some(RequestDenied(message))
    else if status == "INVALID_REQUEST" then Some(InvalidRequest(message))
    else if status == "UNKNOWN_ERROR" then Some(UnknownError(message))
    else None
  }

  /** `$data['status']`, when it is a string. */
  function Status(e: seq<(Key, Value)>): Option<string> {
    var s := Lookup(e, StrKey("status"));
    if s.Some? && s.value.Str? then Some(s.value.s) else None
  }

  /** `$data['results']`, null when absent. */
  function Results(e: seq<(Key, Value)>): Value {
    var r := Lookup(e, StrKey("results"));
    if r.Some? then r.value else Null
  }

  /** A decoded payload `get` handles without a TypeError: a non-empty one
      is an array with a string `status` and, if set, a string
      `error_message`; its `results` cast to an array of address arrays. */
  ghost predicate PayloadWellFormed(data: Value) {
    !IsFalsy(data) ==>
      && data.Arr?
      && Status(data.entries).Some?
      && Coalesce(data.entries, "error_message", Str("")).Str?
      && (Passes(data.entries) ==> ResultsBuildable(data.entries))
  }

  /** The status raises nothing and is not ZERO_RESULTS, so `results` is read. */
  predicate Passes(e: seq<(Key, Value)>)
    requires Status(e).Some? && Coalesce(e, "error_message", Str("")).Str?
  {
    StatusError(Status(e).value, Coalesce(e, "error_message", Str("")).s).None? && Status(e) != Some("ZERO_RESULTS")
  }

  /** `new AddressCollection((array) $content['results'])` succeeds. */
  ghost predicate ResultsBuildable(e: seq<(Key, Value)>) {
    && !IsModel(Results(e))
    && Coercible(AddressModel, ArrayableOf(Results(e)))
    && DistinctKeys(ArrayableOf(Results(e)))
  }

  /** What `get` makes of the decoded payload: the AddressCollection's
      content, or the status exception. */
  function Respond(data: Value): (r: Result<Collection, GeoError>)
    requires PayloadWellFormed(data)
    ensures r.Success? ==> r.value.model == AddressModel
  {
    if IsFalsy(data) then Success(Collection(AddressModel, []))
    else
      var status := Status(data.entries).value;
      match StatusError(status, Coalesce(data.entries, "error_message", Str("")).s)
      case Some(e) => Failure(e)
      case None =>
        if status == "ZERO_RESULTS" then Success(Collection(AddressModel, []))
        else Success(Collection(AddressModel, SetItems(AddressModel, ArrayableOf(Results(data.entries)))))
  }

  class HttpClient {
    var key: seq<(Key, Value)>

    /** The object before `setKey` runs. */
    constructor Init()
      ensures key == []
    {
      key := [];
    }

    /** `setKey`: on a refused key nothing changes and the error is returned. */
    method SetKey(k: Value) returns (err: Option<GeoError>)
      modifies this
      ensures KeyFor(k).Failure? ==> err == Some(KeyFor(k).error) && key == old(key)
      ensures KeyFor(k).Success? ==> err.None? && key == KeyFor(k).value
    {
      match k {
        case Arr(e) =>
          if EmptyAt(e, "client") && EmptyAt(e, "signature") {
            return Some(InvalidArgument(API_KEY_MESSAGE));
          }
          key := e;
        case Str(_) =>
          key := [(StrKey("key"), k)];
        case _ =>
          return Some(InvalidArgument(KEY_TYPE_MESSAGE));
      }
      err := None;
    }

    /** `get($query)`, with `transport` standing for the request with the
        given query and the decoding of its JSON body. */
    method Get(query: seq<(Key, Value)>, transport: seq<(Key, Value)> -> Value) returns (r: Result<ItemCollection, GeoError>)
      requires PayloadWellFormed(transport(Union(key, query)))
      ensures Respond(transport(Union(key, query))).Failure? ==>
        r == Failure(Respond(transport(Union(key, query))).error)
      ensures Respond(transport(Union(key, query))).Success? ==>
        r.Success? && fresh(r.value) &&
        r.value.model == AddressModel && r.value.items == Respond(transport(Union(key, query))).value.items
    {
      var data := transport(Union(key, query));
      if IsFalsy(data) {
        var empty := new ItemCollection(AddressModel, Arr([]));
        return Success(empty);
      }
      var status := Status(data.entries).value;
      var error := StatusError(status, Coalesce(data.entries, "error_message", Str("")).s);
      if error.Some? {
        return Failure(error.value);
      }
      var results := GetResponseResults(data.entries);
      r := Success(results);
    }

    /** `getResponseResults`. */
    method GetResponseResults(content: seq<(Key, Value)>) returns (r: ItemCollection)
      requires Status(content).Some?
      requires Status(content) != Some("ZERO_RESULTS") ==> ResultsBuildable(content)
      ensures fresh(r) && r.model == AddressModel
      ensures Status(content) == Some("ZERO_RESULTS") ==> r.items == []
      ensures Status(content) != Some("ZERO_RESULTS") ==> r.items == SetItems(AddressModel, ArrayableOf(Results(content)))
    {
      if Status(content).value == "ZERO_RESULTS" {
        r := new ItemCollection(AddressModel, Arr([]));
      } else {
        r := new ItemCollection(AddressModel, Results(content));
      }
    }
  }

  /** `new HttpClient($key)`: refused keys raise before the object exists. */
  method NewHttpClient(k: Value) returns (r: Result<HttpClient, GeoError>)
    ensures KeyFor(k).Failure? ==> r == Failure(KeyFor(k).error)
    ensures KeyFor(k).Success? ==> r.Success? && fresh(r.value) && r.value.key == KeyFor(k).value
  {
    var client := new HttpClient.Init();
    var err := client.SetKey(k);
    if err.Some? {
      return Failure(err.value);
    }
    r := Success(client);
  }

  // ------------------------------------------------------------- lemmas

  /** An array key is refused only when both `client` and `signature` are
      empty, and is otherwise kept unchanged; a string key is wrapped under
      `key`; nothing else is accepted. */
  lemma KeyValidation(k: Value)
    ensures KeyFor(k).Success? <==>
      k.Str? || (k.Arr? && !(EmptyAt(k.entries, "client") && EmptyAt(k.entries, "signature")))
    ensures KeyFor(k).Success? && k.Arr? ==> KeyFor(k).value == k.entries
    ensures KeyFor(k).Failure? ==> KeyFor(k).error.InvalidArgument?
  {
  }

  /** The four error statuses raise four distinct exceptions, each with the
      message passed in, never the exception's own default. */
  lemma StatusErrorsDistinct(m: string)
    ensures var errs := [StatusError("OVER_QUERY_LIMIT", m), StatusError("REQUEST_DENIED", m),
                         StatusError("INVALID_REQUEST", m), StatusError("UNKNOWN_ERROR", m)];
      forall i, j :: 0 <= i < j < |errs| ==> errs[i] != errs[j]
    ensures forall s :: StatusError(s, m).Some? ==> StatusError(s, m).value.message == m
    ensures StatusError("OK", m).None? && StatusError("ZERO_RESULTS", m).None?
  {
  }

  /** A payload without `error_message` raises with the empty message. */
  lemma MissingErrorMessage(e: seq<(Key, Value)>, status: string)
    requires !Has(e, StrKey("error_message")) && Status(e) == Some(status)
    requires status in {"OVER_QUERY_LIMIT", "REQUEST_DENIED", "INVALID_REQUEST", "UNKNOWN_ERROR"}
    requires PayloadWellFormed(Arr(e))
    ensures Respond(Arr(e)).Failure? && Respond(Arr(e)).error.message == ""
  {
    assert Lookup(e, StrKey("error_message")) == None;
    assert Coalesce(e, "error_message", Str("")) == Str("");
  }

  /** Empty data gives an empty collection before any status is looked at,
      ZERO_RESULTS gives an empty collection, and any other passing status
      gives one Address per result, keys kept. */
  lemma ResponseShapes(data: Value)
    requires PayloadWellFormed(data)
    ensures IsFalsy(data) ==> Respond(data) == Success(Collection(AddressModel, []))
    ensures !IsFalsy(data) && Status(data.entries) == Some("ZERO_RESULTS") ==>
      Respond(data) == Success(Collection(AddressModel, []))
    ensures !IsFalsy(data) && Respond(data).Failure? ==>
      Respond(data).error == StatusError(Status(data.entries).value, Coalesce(data.entries, "error_message", Str("")).s).value
    ensures !IsFalsy(data) && StatusError(Status(data.entries).value, Coalesce(data.entries, "error_message", Str("")).s).Some? ==>
      Respond(data) == Failure(StatusError(Status(data.entries).value, Coalesce(data.entries, "error_message", Str("")).s).value)
    ensures !IsFalsy(data) && Passes(data.entries) ==>
        Respond(data).Success? &&
        |Respond(data).value.items| == |ArrayableOf(Results(data.entries))| &&
        forall i :: 0 <= i < |Respond(data).value.items| ==>
          Respond(data).value.items[i].0 == ArrayableOf(Results(data.entries))[i].0 &&
          Respond(data).value.items[i].1.AddressObj?
  {
    if !IsFalsy(data) && Passes(data.entries) {
      SetItemsCoerces(AddressModel, ArrayableOf(Results(data.entries)));
    }
  }

  /** The query sent is `key + query`: the key's entries override
      same-named caller entries, and the caller's other entries pass. */
  lemma KeyWins(key: seq<(Key, Value)>, query: seq<(Key, Value)>, k: Key)
    ensures Has(key, k) ==> Lookup(Union(key, query), k) == Lookup(key, k)
    ensures !Has(key, k) ==> Lookup(Union(key, query), k) == Lookup(query, k)
  {
    UnionLookup(key, query, k);
  }

  /** With a string API key, the request always carries that key, whatever
      `key` entry the caller passes. */
  lemma StringKeySent(s: string, query: seq<(Key, Value)>)
    ensures Lookup(Union(KeyFor(Str(s)).value, query), StrKey("key")) == Some(Str(s))
  {
    var key := KeyFor(Str(s)).value;
    IndexOfAt(key, StrKey("key"), 0);
    KeyWins(key, query, StrKey("key"));
  }
}
