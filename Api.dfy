/** The HTTP lookups of RashlyOutlaid/api.py, as far as they are more than
    a call into the HTTP client: the URL each lookup requests, the status
    check, and `_map_shadowserver_model`, which turns decoded JSON objects
    into `ASNRecord`s. A JSON object is a map from keys to string values;
    the response of `requests.get` is passed in as its status and its
    decoded body. */
module Api {
  import opened Wrappers
  import opened PyText
  import opened Protocol

  type Json = map<string, string>

  // ---------------------------------------------------------------------
  // _map_shadowserver_model
  // ---------------------------------------------------------------------

  /** The keys an object must have, in the order the `ASNRecord(...)` call
      looks them up. */
  const RequiredKeys: seq<string> := ["asn", "asname_short", "geo", "asname_long"]

  /** One element of the list comprehension: the record built from `x`, or
      the KeyError of the first required key it lacks. */
  function MapRecord(x: Json): (r: Result<ASNRecord, Error>)
    ensures r.Success? <==> forall i :: 0 <= i < |RequiredKeys| ==> RequiredKeys[i] in x
    ensures r.Failure? ==> exists i :: 0 <= i < |RequiredKeys| && r.error == KeyError(RequiredKeys[i])
                                       && RequiredKeys[i] !in x
                                       && forall j :: 0 <= j < i ==> RequiredKeys[j] in x
    ensures r.Success? ==> && "asn" in x && "asname_short" in x && "geo" in x && "asname_long" in x
                           && r.value.asn == x["asn"] && r.value.asname == x["asname_short"]
                           && r.value.cn == x["geo"] && r.value.isp == x["asname_long"]
    ensures r.Success? ==> r.value.prefix == (if "prefix" in x then x["prefix"] else "")
    ensures r.Success? ==> r.value.peers == (if "peer" in x then Words(x["peer"]) else [])
  {
    assert RequiredKeys[0] == "asn" && RequiredKeys[1] == "asname_short";
    assert RequiredKeys[2] == "geo" && RequiredKeys[3] == "asname_long";
    if "asn" !in x then Failure(KeyError("asn"))
    else if "asname_short" !in x then Failure(KeyError("asname_short"))
    else if "geo" !in x then Failure(KeyError("geo"))
    else if "asname_long" !in x then Failure(KeyError("asname_long"))
    else
      Success(ASNRecord(
        x["asn"],
        if "prefix" in x then x["prefix"] else "",
        x["asname_short"],
        x["geo"],
        x["asname_long"],
        if "peer" in x then Words(x["peer"]) else []))
  }

  /** `[f(x) for x in xs]` where `f` may raise: the results in order, or
      the first exception. */
  function MapAll<T, U, E>(f: T -> Result<U, E>, xs: seq<T>): (r: Result<seq<U>, E>)
    ensures r.Success? ==> |r.value| == |xs|
    ensures r.Success? ==> forall i :: 0 <= i < |xs| ==> f(xs[i]) == Success(r.value[i])
    ensures r.Failure? ==> exists i :: 0 <= i < |xs| && f(xs[i]) == Failure(r.error)
                                       && forall j :: 0 <= j < i ==> f(xs[j]).Success?
    ensures r.Success? <==> forall i :: 0 <= i < |xs| ==> f(xs[i]).Success?
  {
    if xs == [] then Success([])
    else
      match f(xs[0])
      case Failure(e) => Failure(e)
      case Success(y) =>
        match MapAll(f, xs[1..])
        case Failure(e) =>
          assert forall j :: 0 <= j < |xs[1..]| ==> xs[1..][j] == xs[j + 1];
          Failure(e)
        case Success(ys) =>
          assert forall j :: 0 <= j < |xs[1..]| ==> xs[1..][j] == xs[j + 1];
          Success([y] + ys)
  }

  /** `_map_shadowserver_model`: the records of all objects, in order, or
      the error of the first object that lacks a required key. */
  function MapModel(xs: seq<Json>): (r: Result<seq<ASNRecord>, Error>)
    ensures r.Success? ==> |r.value| == |xs|
    ensures r.Success? ==> forall i :: 0 <= i < |xs| ==> MapRecord(xs[i]) == Success(r.value[i])
    ensures r.Failure? ==> exists i :: 0 <= i < |xs| && MapRecord(xs[i]) == Failure(r.error)
                                       && forall j :: 0 <= j < i ==> MapRecord(xs[j]).Success?
    ensures r.Success? <==> forall i :: 0 <= i < |xs| ==> MapRecord(xs[i]).Success?
  {
    MapAll(MapRecord, xs)
  }

  /** The JSON object the service sends for a record: the inverse of
      MapRecord. */
  function RecordJson(rec: ASNRecord): Json {
    map["asn" := rec.asn, "prefix" := rec.prefix, "asname_short" := rec.asname,
        "geo" := rec.cn, "asname_long" := rec.isp, "peer" := Join(rec.peers, ' ')]
  }

  /** A record whose peers are non-empty, whitespace-free tokens survives
      the trip through its JSON object. */
  lemma MapRecordJson(rec: ASNRecord)
    requires forall i :: 0 <= i < |rec.peers| ==> rec.peers[i] != [] && NoSpace(rec.peers[i])
    ensures MapRecord(RecordJson(rec)) == Success(rec)
  {
    WordsJoin(rec.peers);
  }

  /** An object without "prefix" maps to the empty prefix and one without
      "peer" to no peers. */
  lemma MapRecordDefaults(x: Json)
    requires "asn" in x && "asname_short" in x && "geo" in x && "asname_long" in x
    requires "prefix" !in x && "peer" !in x
    ensures MapRecord(x) == Success(ASNRecord(x["asn"], "", x["asname_short"], x["geo"], x["asname_long"], []))
  {
  }

  // ---------------------------------------------------------------------
  // URLs
  // ---------------------------------------------------------------------

  const BaseUrl := "https://api.shadowserver.org/net/asn"

  /** The URL of a lookup: the base, then `?name=` and the value. */
  function LookupUrl(name: string, value: string): string {
    BaseUrl + "?" + name + "=" + value
  }

  function OriginUrl(ips: seq<string>): (url: string)
    ensures BaseUrl <= url
    ensures UrlParam(url, "origin") == Some(Join(ips, ','))
  {
    UrlParamLookup("origin", Join(ips, ','));
    LookupUrl("origin", Join(ips, ','))
  }

  function PeerUrl(ips: seq<string>): (url: string)
    ensures BaseUrl <= url
    ensures UrlParam(url, "peer") == Some(Join(ips, ','))
  {
    UrlParamLookup("peer", Join(ips, ','));
    LookupUrl("peer", Join(ips, ','))
  }

  function AsnUrl(asnumber: int): (url: string)
    ensures BaseUrl <= url
    ensures UrlParam(url, "query") == Some(IntToString(asnumber))
  {
    UrlParamLookup("query", IntToString(asnumber));
    LookupUrl("query", IntToString(asnumber))
  }

  function PrefixUrl(asnumber: int): (url: string)
    ensures BaseUrl <= url
    ensures UrlParam(url, "prefix") == Some(IntToString(asnumber))
  {
    UrlParamLookup("prefix", IntToString(asnumber));
    LookupUrl("prefix", IntToString(asnumber))
  }

  /** What the service reads from a URL: the value of parameter `name`, if
      the URL asks for it. */
  function UrlParam(url: string, name: string): Option<string> {
    var head := BaseUrl + "?" + name + "=";
    if |head| <= |url| && url[..|head|] == head then Some(url[|head|..]) else None
  }

  lemma UrlParamLookup(name: string, value: string)
    ensures UrlParam(LookupUrl(name, value), name) == Some(value)
  {
    var head := BaseUrl + "?" + name + "=";
    assert LookupUrl(name, value) == head + value;
  }

  /** The service recovers the address list of an origin lookup when the
      list is non-empty and no address holds a comma. */
  lemma OriginUrlAddresses(ips: seq<string>)
    requires |ips| >= 1
    requires forall i :: 0 <= i < |ips| ==> ',' !in ips[i]
    ensures UrlParam(OriginUrl(ips), "origin").Some?
    ensures Split(UrlParam(OriginUrl(ips), "origin").value, ',') == ips
  {
    UrlParamLookup("origin", Join(ips, ','));
    SplitJoin(ips, ',');
  }

  lemma PeerUrlAddresses(ips: seq<string>)
    requires |ips| >= 1
    requires forall i :: 0 <= i < |ips| ==> ',' !in ips[i]
    ensures UrlParam(PeerUrl(ips), "peer").Some?
    ensures Split(UrlParam(PeerUrl(ips), "peer").value, ',') == ips
  {
    UrlParamLookup("peer", Join(ips, ','));
    SplitJoin(ips, ',');
  }

  /** The number in an asn or prefix lookup reads back as itself. */
  lemma AsnUrlNumber(asnumber: int)
    ensures UrlParam(AsnUrl(asnumber), "query").Some?
    ensures ParseInt(UrlParam(AsnUrl(asnumber), "query").value) == Some(asnumber)
  {
    UrlParamLookup("query", IntToString(asnumber));
    ParseIntToString(asnumber);
  }

  lemma PrefixUrlNumber(asnumber: int)
    ensures UrlParam(PrefixUrl(asnumber), "prefix").Some?
    ensures ParseInt(UrlParam(PrefixUrl(asnumber), "prefix").value) == Some(asnumber)
  {
    UrlParamLookup("prefix", IntToString(asnumber));
    ParseIntToString(asnumber);
  }

  // ---------------------------------------------------------------------
  // The lookups
  // ---------------------------------------------------------------------

  /** `origin(ip_addresses)`, given the status and decoded body of the
      response to OriginUrl(ip_addresses). */
  function Origin(ips: seq<string>, status: int, body: seq<Json>): (r: Result<seq<ASNRecord>, Error>)
    ensures status != 200 ==> r == Failure(HttpStatus(OriginUrl(ips), status))
    ensures status == 200 ==> r == MapModel(body)
    ensures r.Success? ==> |r.value| == |body|
  {
    if status != 200 then Failure(HttpStatus(OriginUrl(ips), status)) else MapModel(body)
  }

  function Peer(ips: seq<string>, status: int, body: seq<Json>): (r: Result<seq<ASNRecord>, Error>)
    ensures status != 200 ==> r == Failure(HttpStatus(PeerUrl(ips), status))
    ensures status == 200 ==> r == MapModel(body)
    ensures r.Success? ==> |r.value| == |body|
  {
    if status != 200 then Failure(HttpStatus(PeerUrl(ips), status)) else MapModel(body)
  }

  /** `asn(asnumber)`: the single object of the body is wrapped in a list,
      so a success holds exactly one record, the one that object maps to. */
  function Asn(asnumber: int, status: int, body: Json): (r: Result<seq<ASNRecord>, Error>)
    ensures status != 200 ==> r == Failure(HttpStatus(AsnUrl(asnumber), status))
    ensures r.Success? ==> |r.value| == 1 && MapRecord(body) == Success(r.value[0])
    ensures status == 200 ==> (r.Success? <==> MapRecord(body).Success?)
  {
    if status != 200 then Failure(HttpStatus(AsnUrl(asnumber), status)) else MapModel([body])
  }

  /** `prefix(asnumber)`: the decoded body, a list of prefixes, unchanged. */
  function Prefix(asnumber: int, status: int, body: seq<string>): (r: Result<seq<string>, Error>)
    ensures status != 200 ==> r == Failure(HttpStatus(PrefixUrl(asnumber), status))
    ensures status == 200 ==> r == Success(body)
  {
    if status != 200 then Failure(HttpStatus(PrefixUrl(asnumber), status)) else Success(body)
  }
}
