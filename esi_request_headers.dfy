/**
  EsiRequestHeaders: the data of one ESI request (endpoint, path segment, data source,
  content type, caller parameters, last cache info) and the construction of its URL:
  the endpoint path with a trailing slash, then the query parameters "lang",
  "datasource" and the caller's own, in that order.
*/
module EsiRequestHeaders {
  import opened Common
  import opened EsiEndpointAttribute
  import opened EsiEndpoints
  import opened EsiCacheInfo

  /** The content type to request; Description gives the MIME type. */
  datatype EsiContentType = FormUrlEncoded | Json

  function ContentTypeDescription(t: EsiContentType): string {
    match t
    case FormUrlEncoded => "application/x-www-form-urlencoded"
    case Json => "application/json"
  }

  /** The server that answers the request. */
  datatype EsiDataSource = Tranquility | Singularity

  /** The data sources carry no Description attribute, so their description is null. */
  function DataSourceDescription(d: EsiDataSource): Option<string> {
    None
  }

  /** The language of localised responses. */
  datatype EsiLanguage = English | German | French | Japanese | Russian | Chinese

  function LanguageDescription(l: EsiLanguage): string {
    match l
    case English => "en-us"
    case German => "de"
    case French => "fr"
    case Japanese => "ja"
    case Russian => "ru"
    case Chinese => "zh"
  }

  /** A query parameter as a dictionary entry; the value may be null. */
  type Param = (string, Option<string>)

  function Keys(ps: seq<Param>): set<string> {
    set p | p in ps :: p.0
  }

  /** The request URL as UriBuilder holds it: scheme, host, path and, if set, the query pairs. */
  datatype Url = Url(scheme: string, host: string, path: string, query: Option<seq<Param>>)

  /** Dictionary.Add: a key already present raises ArgumentException; otherwise the entry goes last. */
  function AddParam(ps: seq<Param>, key: string, value: Option<string>): (r: Outcome<seq<Param>>)
    ensures key in Keys(ps) <==> r.Throw?
    ensures r.Throw? ==> r.error == DuplicateKey(key)
    ensures r.Ok? ==> r.value == ps + [(key, value)] && Keys(r.value) == Keys(ps) + {key}
  {
    if key in Keys(ps) then Throw(DuplicateKey(key)) else Ok(ps + [(key, value)])
  }

  /** Adding the caller's parameters one after another, stopping at the first duplicate key. */
  function AddAll(ps: seq<Param>, extra: seq<(string, string)>): Outcome<seq<Param>>
    decreases |extra|
  {
    if extra == [] then Ok(ps)
    else match AddParam(ps, extra[0].0, Some(extra[0].1))
      case Throw(e) => Throw(e)
      case Ok(ps') => AddAll(ps', extra[1..])
  }

  /** The caller's parameters as dictionary entries. */
  function AsParams(extra: seq<(string, string)>): (r: seq<Param>)
    ensures |r| == |extra| && forall i :: 0 <= i < |r| ==> r[i] == (extra[i].0, Some(extra[i].1))
  {
    seq(|extra|, i requires 0 <= i < |extra| => (extra[i].0, Some(extra[i].1)))
  }

  /** The keys are pairwise distinct. */
  predicate DistinctKeys(ps: seq<Param>) {
    forall i, j :: 0 <= i < j < |ps| ==> ps[i].0 != ps[j].0
  }

  /** The path with the trailing slash ESI requires: "/" is appended iff it is non-empty and does not end in "/". */
  function Slashed(path: string): string {
    if |path| > 0 && path[|path| - 1] != '/' then path + "/" else path
  }

  /** The parameters GetESIUrlAsync collects before the caller's: "lang", then "datasource". */
  function FixedParams(lingual: bool, dataSource: EsiDataSource, language: EsiLanguage): seq<Param> {
    var lang := if language != English && lingual then [("lang", Some(LanguageDescription(language)))] else [];
    if dataSource != Tranquility then lang + [("datasource", DataSourceDescription(dataSource))] else lang
  }

  /**
    GetESIUrlAsync as a value: an endpoint without an attribute raises
    InvalidOperationException; otherwise the https URL of the slashed path, with the query
    parameters (set only when there is at least one), or the duplicate-key error of the
    first caller parameter whose key is already present.
  */
  function EsiUrl(endpoint: EsiEndpoint, path: Option<string>, dataSource: EsiDataSource,
                  parameters: seq<(string, string)>, language: EsiLanguage, host: string): Outcome<Url>
  {
    match AttributeOf(endpoint)
    case None => Throw(InvalidOperation("Missing ESI endpoint URL on " + EndpointName(endpoint)))
    case Some(attr) =>
      var full := Slashed(attr.url + path.GetOr(""));
      match AddAll(FixedParams(attr.lingualResponse, dataSource, language), parameters)
      case Throw(e) => Throw(e)
      case Ok(ps) => Ok(Url("https", host, full, if |ps| > 0 then Some(ps) else None))
  }

  class EsiRequestHeaders {
    var cacheInfo: EsiCacheInfo?
    var contentType: EsiContentType
    var dataSource: EsiDataSource
    const endpoint: EsiEndpoint
    /** The Parameters dictionary, in insertion order (the order it enumerates in). */
    var parameters: seq<(string, string)>
    var path: Option<string>

    ghost predicate Valid()
      reads this
    {
      forall i, j :: 0 <= i < j < |parameters| ==> parameters[i].0 != parameters[j].0
    }

    /** A new request: no cache info, JSON, Tranquility, no parameters and an empty path. */
    constructor (endpoint: EsiEndpoint)
      ensures Valid()
      ensures cacheInfo == null && contentType == Json && dataSource == Tranquility
      ensures this.endpoint == endpoint && parameters == [] && path == Some("")
    {
      this.cacheInfo := null;
      this.contentType := Json;
      this.dataSource := Tranquility;
      this.endpoint := endpoint;
      this.parameters := [];
      this.path := Some("");
    }

    /** ToString: the endpoint's enum name. */
    function ToString(): string {
      EndpointName(endpoint)
    }

    /** Parameters.Add: a duplicate key raises and leaves the dictionary as it was. */
    method AddParameter(key: string, value: string) returns (thrown: Option<Exn>)
      requires Valid()
      modifies this`parameters
      ensures Valid()
      ensures (exists i :: 0 <= i < |old(parameters)| && old(parameters)[i].0 == key) <==> thrown.Some?
      ensures thrown.Some? ==> thrown.value == DuplicateKey(key) && parameters == old(parameters)
      ensures thrown.None? ==> parameters == old(parameters) + [(key, value)]
    {
      var i := 0;
      while i < |parameters|
        invariant 0 <= i <= |parameters|
        invariant forall j :: 0 <= j < i ==> parameters[j].0 != key
      {
        if parameters[i].0 == key {
          return Some(DuplicateKey(key));
        }
        i := i + 1;
      }
      parameters := parameters + [(key, value)];
      return None;
    }

    /**
      GetESIUrlAsync: the path is built by appending, the query dictionary is filled entry by
      entry; the host (Constants.ESI_BASE) is a parameter.
    */
    method GetEsiUrl(language: EsiLanguage, host: string) returns (r: Outcome<Url>)
      ensures r == EsiUrl(endpoint, path, dataSource, parameters, language, host)
    {
      var epAttr := AttributeOf(endpoint);
      if epAttr.None? {
        return Throw(InvalidOperation("Missing ESI endpoint URL on " + EndpointName(endpoint)));
      }
      EsiUrlDeclared(endpoint, path, dataSource, parameters, language, host);
      var p := epAttr.value.url;
      p := p + path.GetOr("");
      var len := |p|;
      if len > 0 && p[len - 1] != '/' {
        p := p + "/";
      }
      var getParams: seq<Param> := [];
      if language != English && epAttr.value.lingualResponse {
        getParams := getParams + [("lang", Some(LanguageDescription(language)))];
      }
      if dataSource != Tranquility {
        getParams := getParams + [("datasource", DataSourceDescription(dataSource))];
      }
      ghost var all := AddAll(FixedParams(epAttr.value.lingualResponse, dataSource, language), parameters);
      assert all == AddAll(getParams, parameters[0..]) by {
        assert parameters[0..] == parameters;
      }
      var i := 0;
      while i < |parameters|
        invariant 0 <= i <= |parameters|
        invariant all == AddAll(getParams, parameters[i..])
      {
        var added := AddParam(getParams, parameters[i].0, Some(parameters[i].1));
        AddAllAt(getParams, parameters, i);
        if added.Throw? {
          return Throw(added.error);
        }
        getParams := added.value;
        i := i + 1;
      }
      return Ok(Url("https", host, p, if |getParams| > 0 then Some(getParams) else None));
    }
  }

  /** One step of the loop of GetESIUrlAsync: AddAll from position i adds parameter i, then the rest. */
  lemma AddAllAt(ps: seq<Param>, extra: seq<(string, string)>, i: nat)
    requires i < |extra|
    ensures AddAll(ps, extra[i..]) == match AddParam(ps, extra[i].0, Some(extra[i].1))
      case Throw(e) => Throw(e)
      case Ok(ps') => AddAll(ps', extra[i + 1..])
  {
    assert extra[i..][0] == extra[i];
    assert extra[i..][1..] == extra[i + 1..];
  }

  /** EsiUrl of a declared endpoint, written out. */
  lemma EsiUrlDeclared(endpoint: EsiEndpoint, path: Option<string>, dataSource: EsiDataSource,
                       parameters: seq<(string, string)>, language: EsiLanguage, host: string)
    requires AttributeOf(endpoint).Some?
    ensures var attr := AttributeOf(endpoint).value;
      var ps := AddAll(FixedParams(attr.lingualResponse, dataSource, language), parameters);
      EsiUrl(endpoint, path, dataSource, parameters, language, host)
        == if ps.Throw? then Throw(ps.error)
           else Ok(Url("https", host, Slashed(attr.url + path.GetOr("")), if |ps.value| > 0 then Some(ps.value) else None))
  {
  }

  // ---------------------------------------------------------------------------------
  // Properties of the URL

  /** After the first caller parameter is added, the remaining ones are still fresh and distinct. */
  lemma TailStaysFresh(ps: seq<Param>, extra: seq<(string, string)>)
    requires extra != []
    requires forall i, j :: 0 <= i < j < |extra| ==> extra[i].0 != extra[j].0
    requires forall i :: 0 <= i < |extra| ==> extra[i].0 !in Keys(ps)
    ensures var rest := extra[1..];
      && (forall i, j :: 0 <= i < j < |rest| ==> rest[i].0 != rest[j].0)
      && (forall i :: 0 <= i < |rest| ==> rest[i].0 !in Keys(ps + [(extra[0].0, Some(extra[0].1))]))
  {
    var rest := extra[1..];
    var ps' := ps + [(extra[0].0, Some(extra[0].1))];
    assert Keys(ps') == Keys(ps) + {extra[0].0};
    forall i | 0 <= i < |rest| ensures rest[i].0 !in Keys(ps') {
      assert rest[i] == extra[i + 1];
    }
    forall i, j | 0 <= i < j < |rest| ensures rest[i].0 != rest[j].0 {
      assert rest[i] == extra[i + 1] && rest[j] == extra[j + 1];
    }
  }

  /** A first caller parameter with a fresh key is added, and the rest follow. */
  lemma AddAllFirst(ps: seq<Param>, extra: seq<(string, string)>)
    requires extra != [] && extra[0].0 !in Keys(ps)
    ensures AddAll(ps, extra) == AddAll(ps + [(extra[0].0, Some(extra[0].1))], extra[1..])
  {
  }

  lemma AsParamsFirst(ps: seq<Param>, extra: seq<(string, string)>)
    requires extra != []
    ensures (ps + [(extra[0].0, Some(extra[0].1))]) + AsParams(extra[1..]) == ps + AsParams(extra)
  {
    assert AsParams(extra) == [(extra[0].0, Some(extra[0].1))] + AsParams(extra[1..]);
  }

  /** Caller parameters with fresh, pairwise distinct keys are all added, in order. */
  lemma {:induction false} AddAllOk(ps: seq<Param>, extra: seq<(string, string)>)
    requires forall i, j :: 0 <= i < j < |extra| ==> extra[i].0 != extra[j].0
    requires forall i :: 0 <= i < |extra| ==> extra[i].0 !in Keys(ps)
    ensures AddAll(ps, extra) == Ok(ps + AsParams(extra))
    decreases |extra|
  {
    if extra != [] {
      var x: Param := (extra[0].0, Some(extra[0].1));
      var rest := extra[1..];
      AddAllFirst(ps, extra);
      TailStaysFresh(ps, extra);
      AddAllOk(ps + [x], rest);
      AsParamsFirst(ps, extra);
    } else {
      assert ps + AsParams(extra) == ps;
    }
  }

  /** The dictionary then still has distinct keys. */
  lemma AppendDistinct(ps: seq<Param>, extra: seq<(string, string)>)
    requires DistinctKeys(ps)
    requires forall i, j :: 0 <= i < j < |extra| ==> extra[i].0 != extra[j].0
    requires forall i :: 0 <= i < |extra| ==> extra[i].0 !in Keys(ps)
    ensures DistinctKeys(ps + AsParams(extra))
  {
    var all := ps + AsParams(extra);
    forall i, j | 0 <= i < j < |all| ensures all[i].0 != all[j].0 {
      if j >= |ps| && i < |ps| {
        assert ps[i] in ps;
        assert all[j].0 == extra[j - |ps|].0;
      } else if i >= |ps| {
        assert all[j].0 == extra[j - |ps|].0;
        assert all[i].0 == extra[i - |ps|].0;
      }
    }
  }

  /** Adding parameters can only fail with a duplicate key. */
  lemma {:induction false} AddAllErrors(ps: seq<Param>, extra: seq<(string, string)>)
    ensures AddAll(ps, extra).Throw? ==> AddAll(ps, extra).error.DuplicateKey?
    decreases |extra|
  {
    if extra != [] && AddParam(ps, extra[0].0, Some(extra[0].1)).Ok? {
      AddAllErrors(AddParam(ps, extra[0].0, Some(extra[0].1)).value, extra[1..]);
    }
  }

  lemma {:induction false} AddAllDuplicate(ps: seq<Param>, extra: seq<(string, string)>, k: nat)
    requires k < |extra| && extra[k].0 in Keys(ps)
    requires forall i :: 0 <= i < k ==> extra[i].0 !in Keys(ps)
    requires forall i, j :: 0 <= i < j <= k ==> extra[i].0 != extra[j].0
    ensures AddAll(ps, extra) == Throw(DuplicateKey(extra[k].0))
    decreases k
  {
    if k > 0 {
      var ps' := ps + [(extra[0].0, Some(extra[0].1))];
      assert AddParam(ps, extra[0].0, Some(extra[0].1)) == Ok(ps');
      assert extra[1..][k - 1] == extra[k];
      AddAllDuplicate(ps', extra[1..], k - 1);
    }
  }

  /**
    The path is the attribute's URL followed by the path segment (null read as empty), with
    "/" appended iff that is non-empty and does not already end in "/"; so a non-empty
    path always ends in "/" and an already-slashed one is unchanged. The scheme is https.
  */
  lemma UrlPath(endpoint: EsiEndpoint, path: Option<string>, dataSource: EsiDataSource,
                parameters: seq<(string, string)>, language: EsiLanguage, host: string)
    requires EsiUrl(endpoint, path, dataSource, parameters, language, host).Ok?
    ensures var u := EsiUrl(endpoint, path, dataSource, parameters, language, host).value;
      var full := AttributeOf(endpoint).value.url + path.GetOr("");
      && u.scheme == "https" && u.host == host
      && (full == [] ==> u.path == [])
      && (full != [] ==> |u.path| > 0 && u.path[|u.path| - 1] == '/')
      && (full != [] && full[|full| - 1] == '/' ==> u.path == full)
      && (full != [] && full[|full| - 1] != '/' ==> u.path == full + "/")
      && u.path[..|full|] == full
  {
  }

  /** Every declared endpoint yields a path that starts and ends with "/". */
  lemma DeclaredEndpointPath(endpoint: EsiEndpoint, path: Option<string>, dataSource: EsiDataSource,
                             parameters: seq<(string, string)>, language: EsiLanguage, host: string)
    requires EsiUrl(endpoint, path, dataSource, parameters, language, host).Ok?
    ensures var p := EsiUrl(endpoint, path, dataSource, parameters, language, host).value.path;
      |p| >= 2 && p[0] == '/' && p[|p| - 1] == '/'
  {
    var url := AttributeOf(endpoint).value.url;
    var full := url + path.GetOr("");
    assert full[0] == url[0];
  }

  /** Only an endpoint without an attribute raises InvalidOperationException. */
  lemma MissingAttribute(endpoint: EsiEndpoint, path: Option<string>, dataSource: EsiDataSource,
                         parameters: seq<(string, string)>, language: EsiLanguage, host: string)
    ensures var r := EsiUrl(endpoint, path, dataSource, parameters, language, host);
      (r.Throw? && r.error.InvalidOperation?) <==> !endpoint.Declared()
  {
    if endpoint.Declared() {
      var attr := AttributeOf(endpoint).value;
      AddAllErrors(FixedParams(attr.lingualResponse, dataSource, language), parameters);
    }
  }

  /**
    With caller keys that are distinct and neither "lang" nor "datasource", the URL is
    built: its query is "lang" iff the language is not English and the endpoint's response
    is lingual, then "datasource" iff the data source is not Tranquility, then the caller's
    parameters in order; the query is absent iff there is no parameter at all.
  */
  lemma QueryParameters(endpoint: EsiEndpoint, path: Option<string>, dataSource: EsiDataSource,
                        parameters: seq<(string, string)>, language: EsiLanguage, host: string)
    requires endpoint.Declared()
    requires forall i, j :: 0 <= i < j < |parameters| ==> parameters[i].0 != parameters[j].0
    requires forall i :: 0 <= i < |parameters| ==> parameters[i].0 != "lang" && parameters[i].0 != "datasource"
    ensures EsiUrl(endpoint, path, dataSource, parameters, language, host).Ok?
    ensures var q := EsiUrl(endpoint, path, dataSource, parameters, language, host).value.query;
      var fixed := FixedParams(AttributeOf(endpoint).value.lingualResponse, dataSource, language);
      && (q.None? <==> fixed == [] && parameters == [])
      && (q.Some? ==> q.value == fixed + AsParams(parameters) && DistinctKeys(q.value))
  {
    var lingual := AttributeOf(endpoint).value.lingualResponse;
    var fixed := FixedParams(lingual, dataSource, language);
    FixedParamsKeys(lingual, dataSource, language);
    AddAllOk(fixed, parameters);
    AppendDistinct(fixed, parameters);
    EsiUrlQuery(endpoint, path, dataSource, parameters, language, host);
    assert |fixed + AsParams(parameters)| == |fixed| + |parameters|;
  }

  /** For a declared endpoint, the URL is built exactly when the parameters can all be added, and carries them as its query. */
  lemma EsiUrlQuery(endpoint: EsiEndpoint, path: Option<string>, dataSource: EsiDataSource,
                    parameters: seq<(string, string)>, language: EsiLanguage, host: string)
    requires endpoint.Declared()
    ensures var r := EsiUrl(endpoint, path, dataSource, parameters, language, host);
      var ps := AddAll(FixedParams(AttributeOf(endpoint).value.lingualResponse, dataSource, language), parameters);
      && (r.Ok? <==> ps.Ok?)
      && (r.Ok? ==> r.value.query == if |ps.value| > 0 then Some(ps.value) else None)
  {
  }

  /** "lang" is added iff the language is not English and the response lingual; "datasource" iff the source is not Tranquility. */
  lemma FixedParamsKeys(lingual: bool, dataSource: EsiDataSource, language: EsiLanguage)
    ensures var fixed := FixedParams(lingual, dataSource, language);
      && Keys(fixed) <= {"lang", "datasource"}
      && DistinctKeys(fixed)
      && ("lang" in Keys(fixed) <==> language != English && lingual)
      && ("datasource" in Keys(fixed) <==> dataSource != Tranquility)
      && (fixed != [] && fixed[0].0 == "lang" ==> language != English && lingual)
  {
    var fixed := FixedParams(lingual, dataSource, language);
    if "lang" in Keys(fixed) {
      var p :| p in fixed && p.0 == "lang";
    }
    if "datasource" in Keys(fixed) {
      var p :| p in fixed && p.0 == "datasource";
    }
  }

  /**
    A caller key equal to an already added one ("lang" when the language is added, or
    "datasource" when the data source is) raises the duplicate-key error of Dictionary.Add.
  */
  lemma DuplicateParameter(endpoint: EsiEndpoint, path: Option<string>, dataSource: EsiDataSource,
                           parameters: seq<(string, string)>, language: EsiLanguage, host: string)
    requires endpoint.Declared() && dataSource != Tranquility
    requires |parameters| > 0 && parameters[0].0 == "datasource"
    ensures EsiUrl(endpoint, path, dataSource, parameters, language, host) == Throw(DuplicateKey("datasource"))
  {
    var fixed := FixedParams(AttributeOf(endpoint).value.lingualResponse, dataSource, language);
    assert fixed[|fixed| - 1].0 == "datasource";
    AddAllDuplicate(fixed, parameters, 0);
  }

  /** No declared endpoint is lingual, so no request to one carries "lang". */
  lemma NoLangOnDeclaredEndpoints(endpoint: EsiEndpoint, path: Option<string>, dataSource: EsiDataSource,
                                  parameters: seq<(string, string)>, language: EsiLanguage, host: string)
    requires endpoint.Declared()
    requires forall i :: 0 <= i < |parameters| ==> parameters[i].0 != "lang"
    requires EsiUrl(endpoint, path, dataSource, parameters, language, host).Ok?
    ensures var q := EsiUrl(endpoint, path, dataSource, parameters, language, host).value.query;
      q.Some? ==> "lang" !in Keys(q.value)
  {
    var fixed := FixedParams(false, dataSource, language);
    var r := AddAll(fixed, parameters);
    assert "lang" !in Keys(fixed);
    AddAllKeys(fixed, parameters);
  }

  /** Two requests render alike exactly when they are for the same endpoint. */
  lemma HeadersToString(a: EsiRequestHeaders, b: EsiRequestHeaders)
    ensures a.ToString() == b.ToString() <==> a.endpoint == b.endpoint
  {
    EndpointNameInjective(a.endpoint, b.endpoint);
  }

  /** The keys AddAll produces are the starting keys and the caller's. */
  lemma {:induction false} AddAllKeys(ps: seq<Param>, extra: seq<(string, string)>)
    requires AddAll(ps, extra).Ok?
    ensures Keys(AddAll(ps, extra).value) == Keys(ps) + set i | 0 <= i < |extra| :: extra[i].0
    decreases |extra|
  {
    if extra != [] {
      var ps' := AddParam(ps, extra[0].0, Some(extra[0].1)).value;
      AddAllKeys(ps', extra[1..]);
      var tailKeys := set i | 0 <= i < |extra[1..]| :: extra[1..][i].0;
      var allKeys := set i | 0 <= i < |extra| :: extra[i].0;
      assert allKeys == {extra[0].0} + tailKeys by {
        forall k | k in allKeys ensures k in {extra[0].0} + tailKeys {
          var i :| 0 <= i < |extra| && extra[i].0 == k;
          if i > 0 { assert extra[1..][i - 1] == extra[i]; }
        }
        forall k | k in tailKeys ensures k in allKeys {
          var i :| 0 <= i < |extra[1..]| && extra[1..][i].0 == k;
          assert extra[i + 1] == extra[1..][i];
        }
      }
    }
  }
}
