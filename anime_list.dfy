/** Anime list queries: parameter checking and clamping, the attribute allow-list filter, the
    request URL, and the shaping of the JSON response into nodes that expose only the queried
    attributes. */
module AnimeLists {
  import opened Wrappers
  import opened Json
  import opened Http
  import opened Text
  import Percent
  import opened Constants

  /** The diagnostics printed (and otherwise ignored) while a list query is built. */
  datatype Diagnostic =
    | LimitOutOfRange(limit: int)
    | OffsetOutOfRange(offset: int)
    | AttributeRejected(name: string)

  /** What building a list, or reading its response, raises. */
  datatype ListError =
    | InvalidAnimeListQ          // empty `q`, or the provider answered "invalid q"
    | HttpError(status: int)     // any other error status
    | ResponseNotJson            // `response.json()` failed
    | BodyNotObject              // `dict(...)` of a JSON value that is not an object
    | Lookup(err: LookupError)   // a missing `message`, `paging`, `data` or `node` member
    | DataNotList                // `raw_data['data']` is not a list
    | NodeNotObject              // a node that has no `.get`

  // ---------------------------------------------------------------- limit and offset

  /** A limit outside 1..100 falls back to the default 100. */
  function ClampLimit(limit: int): (r: nat)
    ensures 1 <= r <= 100
    ensures r == limit <==> 1 <= limit <= 100
    ensures !(1 <= limit <= 100) ==> r == 100
  {
    if limit > 100 || limit <= 0 then 100 else limit
  }

  /** A negative offset falls back to the default 0. */
  function ClampOffset(offset: int): (r: nat)
    ensures r == offset <==> offset >= 0
    ensures offset < 0 ==> r == 0
  {
    if offset < 0 then 0 else offset
  }

  function RangeDiagnostics(limit: int, offset: int): (d: seq<Diagnostic>)
    ensures LimitOutOfRange(limit) in d <==> ClampLimit(limit) != limit
    ensures OffsetOutOfRange(offset) in d <==> ClampOffset(offset) != offset
    ensures |d| <= 2
  {
    (if limit > 100 || limit <= 0 then [LimitOutOfRange(limit)] else [])
    + (if offset < 0 then [OffsetOutOfRange(offset)] else [])
  }

  /** Clamping twice changes nothing: every clamped value is in range. */
  lemma ClampIdempotent(limit: int, offset: int)
    ensures ClampLimit(ClampLimit(limit)) == ClampLimit(limit)
    ensures ClampOffset(ClampOffset(offset)) == ClampOffset(offset)
  {
  }

  // ---------------------------------------------------------------- attributes

  /** The test applied to each caller attribute: in the optional list and not a default. */
  predicate Admissible(a: string)
  {
    a in OptionalAttributes && a !in DefaultAttributes
  }

  /** The elements of `attrs` that `keep` holds for, in order, duplicates included. */
  function Filter(attrs: seq<string>, keep: string -> bool): (r: seq<string>)
    ensures |r| <= |attrs|
  {
    if attrs == [] then []
    else
      var last := attrs[|attrs| - 1];
      Filter(attrs[..|attrs| - 1], keep) + (if keep(last) then [last] else [])
  }

  /** The caller attributes that pass the test. */
  function Accepted(attrs: seq<string>): seq<string>
  {
    Filter(attrs, Admissible)
  }

  /** The caller attributes that fail the test, each reported by a diagnostic. */
  function Rejected(attrs: seq<string>): seq<string>
  {
    Filter(attrs, a => !Admissible(a))
  }

  function RejectionDiagnostics(names: seq<string>): (d: seq<Diagnostic>)
    ensures |d| == |names|
    ensures forall i :: 0 <= i < |d| ==> d[i] == AttributeRejected(names[i])
  {
    if names == [] then [] else [AttributeRejected(names[0])] + RejectionDiagnostics(names[1..])
  }

  /** The attribute loop of `AnimeList.__init__`: start from a copy of the defaults and append
      every admissible caller attribute, reporting the others. */
  method FilterAttributes(optional: seq<string>) returns (attributes: seq<string>, rejected: seq<string>)
    ensures attributes == DefaultAttributes + Accepted(optional)
    ensures rejected == Rejected(optional)
  {
    attributes := DefaultAttributes;
    rejected := [];
    for i := 0 to |optional|
      invariant attributes == DefaultAttributes + Accepted(optional[..i])
      invariant rejected == Rejected(optional[..i])
    {
      var attribute := optional[i];
      assert optional[..i + 1][..i] == optional[..i];
      if attribute !in OptionalAttributes || attribute in DefaultAttributes {
        rejected := rejected + [attribute];
      } else {
        attributes := attributes + [attribute];
      }
    }
    assert optional[..|optional|] == optional;
  }

  /** Filtering distributes over concatenation: the kept elements keep their order. */
  lemma {:induction false} FilterAppend(a: seq<string>, b: seq<string>, keep: string -> bool)
    ensures Filter(a + b, keep) == Filter(a, keep) + Filter(b, keep)
  {
    if b == [] {
      assert a + b == a;
    } else {
      assert (a + b)[..|a + b| - 1] == a + b[..|b| - 1];
      FilterAppend(a, b[..|b| - 1], keep);
    }
  }

  /** Each element is kept as often as it occurs, or not at all. */
  lemma {:induction false} FilterCounts(attrs: seq<string>, keep: string -> bool)
    ensures forall a :: multiset(Filter(attrs, keep))[a] == if keep(a) then multiset(attrs)[a] else 0
  {
    if attrs != [] {
      var init, last := attrs[..|attrs| - 1], attrs[|attrs| - 1];
      FilterCounts(init, keep);
      assert attrs == init + [last];
    }
  }

  /** Two tests that agree on every element keep the same elements. */
  lemma {:induction false} FilterAgree(attrs: seq<string>, p: string -> bool, q: string -> bool)
    requires forall i :: 0 <= i < |attrs| ==> p(attrs[i]) == q(attrs[i])
    ensures Filter(attrs, p) == Filter(attrs, q)
  {
    if attrs != [] {
      FilterAgree(attrs[..|attrs| - 1], p, q);
    }
  }

  /** The "already a default" half of the test never rejects anything: the defaults and the
      optional names are disjoint, so the allow-list test alone keeps the same list. */
  lemma DefaultTestRedundant(attrs: seq<string>)
    ensures Accepted(attrs) == Filter(attrs, a => a in OptionalAttributes)
  {
    AttributeLists();
    FilterAgree(attrs, Admissible, a => a in OptionalAttributes);
  }

  /** Accepted attributes keep the caller's order across any split of the caller's list. */
  lemma AcceptedAppend(a: seq<string>, b: seq<string>)
    ensures Accepted(a + b) == Accepted(a) + Accepted(b)
    ensures Rejected(a + b) == Rejected(a) + Rejected(b)
  {
    FilterAppend(a, b, Admissible);
    FilterAppend(a, b, a => !Admissible(a));
  }

  /** An admissible attribute given n times is kept n times (no de-duplication); any other
      name is not kept at all. Every caller attribute is either kept or reported. */
  lemma AcceptedCounts(attrs: seq<string>)
    ensures forall a :: multiset(Accepted(attrs))[a] == if Admissible(a) then multiset(attrs)[a] else 0
    ensures forall a :: multiset(Rejected(attrs))[a] == if Admissible(a) then 0 else multiset(attrs)[a]
    ensures multiset(Accepted(attrs)) + multiset(Rejected(attrs)) == multiset(attrs)
  {
    FilterCounts(attrs, Admissible);
    FilterCounts(attrs, a => !Admissible(a));
  }

  /** The final list starts with the three defaults and holds only allowed names. */
  lemma AttributeListShape(optional: seq<string>)
    ensures var attributes := DefaultAttributes + Accepted(optional);
      && |attributes| >= 3
      && attributes[..3] == ["id", "title", "main_picture"]
      && forall a :: a in attributes ==> a in AllAttributes
  {
    AcceptedCounts(optional);
    var attributes := DefaultAttributes + Accepted(optional);
    forall a | a in attributes ensures a in AllAttributes {
      if a !in DefaultAttributes {
        assert a in Accepted(optional);
        assert multiset(Accepted(optional))[a] > 0;
      }
    }
  }

  /** The documented example: `synopsis` is kept after the defaults, `bogus_field` is reported. */
  lemma FilterExample()
    ensures DefaultAttributes + Accepted(["synopsis", "bogus_field"]) == ["id", "title", "main_picture", "synopsis"]
    ensures Rejected(["synopsis", "bogus_field"]) == ["bogus_field"]
  {
    var s := ["synopsis", "bogus_field"];
    assert s[..1] == ["synopsis"] && s[..1][..0] == [];
    assert "synopsis" == OptionalAttributes[3];
    assert "synopsis" != "id" && "synopsis" != "title" && "synopsis" != "main_picture";
    assert "bogus_field" !in OptionalAttributes;
  }

  /** A query with limit 500, offset -5 and fields `synopsis`, `bogus_field`: limit 100,
      offset 0, the defaults plus `synopsis`, and three diagnostics, the offset included. */
  lemma QueryScenario()
    ensures ClampLimit(500) == 100 && ClampOffset(-5) == 0
    ensures DefaultAttributes + Accepted(["synopsis", "bogus_field"]) == ["id", "title", "main_picture", "synopsis"]
    ensures RangeDiagnostics(500, -5) + RejectionDiagnostics(Rejected(["synopsis", "bogus_field"]))
      == [LimitOutOfRange(500), OffsetOutOfRange(-5), AttributeRejected("bogus_field")]
  {
    FilterExample();
  }

  // ---------------------------------------------------------------- request URL

  /** `q=<quote(q)>&limit=<limit>&offset=<offset>[&fields=<a,b,...>]`; the `fields` part is
      only written for a non-empty attribute list. */
  function Query(q: string, limit: nat, offset: nat, attributes: seq<string>): string
  {
    Param("q", Percent.Quote(q))
    + "&" + Param("limit", NatToString(limit))
    + "&" + Param("offset", NatToString(offset))
    + (if |attributes| > 0 then "&" + Param("fields", Join(attributes, ",")) else "")
  }

  /** The URL of a list request. */
  function ListUrl(q: string, limit: nat, offset: nat, attributes: seq<string>): string
  {
    MalAnimeEndpoint + "?" + Query(q, limit, offset, attributes)
  }

  /** The parameters a server reads back from a list URL. */
  datatype ListQuery = ListQuery(q: string, limit: nat, offset: nat, attributes: seq<string>)

  predicate AllDigits(s: string)
  {
    forall k :: 0 <= k < |s| ==> IsDigit(s[k])
  }

  /** Reads `key=value` with the given key. */
  function ParamValue(param: string, key: string): Option<string>
  {
    if |param| > |key| && param[..|key| + 1] == key + "=" then Some(param[|key| + 1..]) else None
  }

  function ParseNumber(s: string): Option<nat>
  {
    if AllDigits(s) then Some(ParseNat(s)) else None
  }

  /** Splits a query string into its four parameters. */
  function ParseQuery(query: string): Option<ListQuery>
  {
    var params := SplitChar(query, '&');
    if |params| != 4 then None
    else match (ParamValue(params[0], "q"), ParamValue(params[1], "limit"),
                ParamValue(params[2], "offset"), ParamValue(params[3], "fields"))
      case (Some(qv), Some(lv), Some(ov), Some(fv)) =>
        (match (Percent.Unquote(qv), ParseNumber(lv), ParseNumber(ov))
         case (Some(q), Some(limit), Some(offset)) => Some(ListQuery(q, limit, offset, SplitChar(fv, ',')))
         case _ => None)
      case _ => None
  }

  /** Splits a list URL back into its parameters. */
  function ParseListUrl(url: string): Option<ListQuery>
  {
    var prefix := MalAnimeEndpoint + "?";
    if |url| < |prefix| || url[..|prefix|] != prefix then None else ParseQuery(url[|prefix|..])
  }

  lemma ParamValueOf(key: string, value: string)
    ensures ParamValue(Param(key, value), key) == Some(value)
  {
    var p := Param(key, value);
    assert p[..|key| + 1] == key + "=";
    assert p[|key| + 1..] == value;
  }

  lemma {:induction false} JoinHasNoAmpersand(parts: seq<string>)
    requires forall i :: 0 <= i < |parts| ==> '&' !in parts[i]
    ensures '&' !in Join(parts, ",")
  {
    if |parts| > 1 {
      JoinHasNoAmpersand(parts[1..]);
    }
  }

  lemma QueryParams(q: string, limit: nat, offset: nat, attributes: seq<string>)
    requires |attributes| > 0
    requires forall i :: 0 <= i < |attributes| ==> '&' !in attributes[i]
    ensures SplitChar(Query(q, limit, offset, attributes), '&') ==
      [Param("q", Percent.Quote(q)), Param("limit", NatToString(limit)), Param("offset", NatToString(offset)),
       Param("fields", Join(attributes, ","))]
  {
    Percent.QuoteEncoded(q);
    JoinHasNoAmpersand(attributes);
    ParamWithout("q", Percent.Quote(q), '&');
    ParamWithout("limit", NatToString(limit), '&');
    ParamWithout("offset", NatToString(offset), '&');
    ParamWithout("fields", Join(attributes, ","), '&');
    SplitFour(Param("q", Percent.Quote(q)), Param("limit", NatToString(limit)),
      Param("offset", NatToString(offset)), Param("fields", Join(attributes, ",")), '&');
  }

  /** The query is well formed: a server splitting it at `&`, `=` and `,` recovers exactly the
      search text, limit, offset and attribute list that went in. */
  lemma QueryRoundTrip(q: string, limit: nat, offset: nat, attributes: seq<string>)
    requires |attributes| > 0
    requires forall i :: 0 <= i < |attributes| ==> ',' !in attributes[i] && '&' !in attributes[i]
    ensures ParseQuery(Query(q, limit, offset, attributes)) == Some(ListQuery(q, limit, offset, attributes))
  {
    QueryParams(q, limit, offset, attributes);
    ParamValueOf("q", Percent.Quote(q));
    ParamValueOf("limit", NatToString(limit));
    ParamValueOf("offset", NatToString(offset));
    ParamValueOf("fields", Join(attributes, ","));
    Percent.UnquoteQuote(q);
    ParseNatToString(limit);
    ParseNatToString(offset);
    SplitJoin(attributes, ',');
  }

  /** The same for the whole URL. */
  lemma ListUrlRoundTrip(q: string, limit: nat, offset: nat, attributes: seq<string>)
    requires |attributes| > 0
    requires forall i :: 0 <= i < |attributes| ==> ',' !in attributes[i] && '&' !in attributes[i]
    ensures ParseListUrl(ListUrl(q, limit, offset, attributes)) == Some(ListQuery(q, limit, offset, attributes))
  {
    var prefix := MalAnimeEndpoint + "?";
    var query := Query(q, limit, offset, attributes);
    assert (prefix + query)[..|prefix|] == prefix;
    assert (prefix + query)[|prefix|..] == query;
    QueryRoundTrip(q, limit, offset, attributes);
  }

  lemma {:induction false} JoinAppend(a: seq<string>, b: seq<string>, sep: string)
    requires |a| > 0 && |b| > 0
    ensures Join(a + b, sep) == Join(a, sep) + sep + Join(b, sep)
  {
    if |a| > 1 {
      assert (a + b)[1..] == a[1..] + b;
      JoinAppend(a[1..], b, sep);
    }
  }

  /** The defaults alone join to `id,title,main_picture`. */
  lemma DefaultFields()
    ensures Join(DefaultAttributes, ",") == "id,title,main_picture"
  {
    assert DefaultAttributes[1..][1..] == ["main_picture"];
  }

  /** The `fields` value lists the three defaults and then the accepted caller attributes. */
  lemma FieldsValue(optional: seq<string>)
    ensures Join(DefaultAttributes + Accepted(optional), ",") == "id,title,main_picture"
      + (if Accepted(optional) == [] then "" else "," + Join(Accepted(optional), ","))
  {
    var rest := Accepted(optional);
    DefaultFields();
    if rest == [] {
      assert DefaultAttributes + rest == DefaultAttributes;
    } else {
      JoinAppend(DefaultAttributes, rest, ",");
    }
  }

  /** The `fields` parameter is always sent, last in the URL, because the attribute list always
      holds the defaults. */
  lemma FieldsAlwaysPresent(q: string, limit: int, offset: int, optional: seq<string>)
    ensures var attributes := DefaultAttributes + Accepted(optional);
      var url := ListUrl(q, ClampLimit(limit), ClampOffset(offset), attributes);
      var tail := "&" + Param("fields", Join(attributes, ","));
      |url| >= |tail| && url[|url| - |tail|..] == tail
  {
    var attributes := DefaultAttributes + Accepted(optional);
    var tail := "&" + Param("fields", Join(attributes, ","));
    var query := Query(q, ClampLimit(limit), ClampOffset(offset), attributes);
    var head := query[..|query| - |tail|];
    assert query == head + tail;
    var url := ListUrl(q, ClampLimit(limit), ClampOffset(offset), attributes);
    assert url == (MalAnimeEndpoint + "?" + head) + tail;
  }

  // ---------------------------------------------------------------- response

  /** A response body that passed the status check: the whole object, its `paging` member
      and the entries of its `data` member. */
  datatype Page = Page(rawData: map<string, Json>, paging: Json, entries: seq<Json>)

  /** `__post_init__` up to the node loop: decode the body, check the status, pick `paging`
      and `data`. */
  function ReadPage(response: HttpResponse): (r: Result<Page, ListError>)
    // the body is decoded and made a dict before the status is looked at
    ensures response.body.NotJson? ==> r == Failure(ResponseNotJson)
    ensures response.body.JsonBody? && !response.body.value.JObject? ==> r == Failure(BodyNotObject)
    // a passing status with `paging` and a list `data` is the only success
    ensures r.Success? <==>
      && response.body.JsonBody? && response.body.value.JObject?
      && !RaisesForStatus(response.status)
      && "paging" in response.body.value.members && "data" in response.body.value.members
      && response.body.value.members["data"].JArray?
    ensures r.Success? ==>
      var raw := response.body.value.members;
      r.value == Page(raw, raw["paging"], raw["data"].items)
    // `paging` is looked up before `data`
    ensures response.body.JsonBody? && response.body.value.JObject? && !RaisesForStatus(response.status) ==>
      var raw := response.body.value.members;
      && ("paging" !in raw ==> r == Failure(Lookup(KeyError("paging"))))
      && ("paging" in raw && "data" !in raw ==> r == Failure(Lookup(KeyError("data"))))
      && ("paging" in raw && "data" in raw && !raw["data"].JArray? ==> r == Failure(DataNotList))
  {
    match response.body
    case NotJson => Failure(ResponseNotJson)
    case JsonBody(JObject(raw)) =>
      if RaisesForStatus(response.status) then
        (match Subscript(JObject(raw), "message")
         case Failure(e) => Failure(Lookup(e))
         case Success(message) =>
           if message == JString("invalid q") then Failure(InvalidAnimeListQ) else Failure(HttpError(response.status)))
      else if "paging" !in raw then Failure(Lookup(KeyError("paging")))
      else if "data" !in raw then Failure(Lookup(KeyError("data")))
      else (match raw["data"]
        case JArray(entries) => Success(Page(raw, raw["paging"], entries))
        case _ => Failure(DataNotList))
    case JsonBody(_) => Failure(BodyNotObject)
  }

  /** An error status becomes `InvalidAnimeListQ` exactly when the body's message is
      "invalid q", and otherwise the HTTP error itself (or the failure to read the message). */
  lemma ErrorStatusOutcome(response: HttpResponse)
    requires RaisesForStatus(response.status) && response.body.JsonBody? && response.body.value.JObject?
    ensures var raw := response.body.value.members;
      && (ReadPage(response) == Failure(InvalidAnimeListQ) <==> "message" in raw && raw["message"] == JString("invalid q"))
      && ("message" in raw && raw["message"] != JString("invalid q") ==> ReadPage(response) == Failure(HttpError(response.status)))
      && ("message" !in raw ==> ReadPage(response) == Failure(Lookup(KeyError("message"))))
  {
  }

  /** `entry['node']`, which must be a dict for the node to read from it. */
  function NodeOf(entry: Json): (r: Result<map<string, Json>, ListError>)
    ensures r.Success? <==> entry.JObject? && "node" in entry.members && entry.members["node"].JObject?
    ensures r.Success? ==> r.value == entry.members["node"].members
  {
    match Subscript(entry, "node")
    case Failure(e) => Failure(Lookup(e))
    case Success(JObject(m)) => Success(m)
    case Success(_) => Failure(NodeNotObject)
  }

  /** The node dictionaries of all entries; the first bad entry decides the failure. */
  function NodesOf(entries: seq<Json>): (r: Result<seq<map<string, Json>>, ListError>)
    ensures r.Success? ==> |r.value| == |entries|
  {
    if entries == [] then Success([])
    else match NodesOf(entries[..|entries| - 1])
      case Failure(e) => Failure(e)
      case Success(nodes) =>
        match NodeOf(entries[|entries| - 1])
        case Failure(e) => Failure(e)
        case Success(n) => Success(nodes + [n])
  }

  /** Shaping succeeds exactly when every entry holds a `node` dict, and then yields one node
      per entry, in entry order. */
  lemma {:induction false} NodesOfShape(entries: seq<Json>)
    ensures NodesOf(entries).Success? <==> forall i :: 0 <= i < |entries| ==> NodeOf(entries[i]).Success?
    ensures NodesOf(entries).Success? ==>
      && |NodesOf(entries).value| == |entries|
      && forall i :: 0 <= i < |entries| ==> NodesOf(entries).value[i] == NodeOf(entries[i]).value
  {
    if entries != [] {
      var init := entries[..|entries| - 1];
      NodesOfShape(init);
      assert forall i :: 0 <= i < |init| ==> init[i] == entries[i];
    }
  }

  // ---------------------------------------------------------------- nodes

  /** Names `AnimeListNode.__getattribute__` hands to the object machinery unchecked. */
  const InternalNames: set<string> := {
    "node_raw", "attributes_queried", "__class__", "__dict__",
    "__post_init__", "get_attribute_dict", "__getattribute__"
  }

  /** What an attribute read yields: a queried value, or the object's own machinery. */
  datatype Attribute = Field(value: Json) | Internal(name: string)

  datatype NodeAttributeError = AnimeListNodeAttributeError(name: string)

  /** Attribute access on a node built from `nodeRaw` for the names `queried`. */
  function NodeLookup(nodeRaw: map<string, Json>, queried: seq<string>, name: string): Result<Attribute, NodeAttributeError>
  {
    if name in InternalNames then Success(Internal(name))
    else if name !in queried then Failure(AnimeListNodeAttributeError(name))
    else Success(Field(GetOrNull(nodeRaw, name)))
  }

  /** The capability check: an ordinary name can be read exactly when it was queried, whatever
      the raw node holds; a queried name the node lacks reads as null. */
  lemma NodeAccess(nodeRaw: map<string, Json>, queried: seq<string>, name: string)
    requires name !in InternalNames
    ensures NodeLookup(nodeRaw, queried, name).Success? <==> name in queried
    ensures name !in queried ==> NodeLookup(nodeRaw, queried, name) == Failure(AnimeListNodeAttributeError(name))
    ensures name in queried ==> NodeLookup(nodeRaw, queried, name) == Success(Field(if name in nodeRaw then nodeRaw[name] else JNull))
  {
  }

  lemma DefaultNamesNotInternal()
    ensures forall i :: 0 <= i < |DefaultAttributes| ==> DefaultAttributes[i] !in InternalNames
  {
  }

  lemma OptionalNamesNotInternalFirstHalf()
    ensures forall i :: 0 <= i < 11 ==> OptionalAttributes[i] !in InternalNames
  {
  }

  lemma OptionalNamesNotInternalSecondHalf()
    ensures forall i :: 11 <= i < 22 ==> OptionalAttributes[i] !in InternalNames
  {
  }

  /** No allowed attribute name is one of the node's internal names, so every attribute of a
      list's node reads as a field. */
  lemma AllowedNamesNotInternal()
    ensures forall a :: a in AllAttributes ==> a !in InternalNames
  {
    DefaultNamesNotInternal();
    OptionalNamesNotInternalFirstHalf();
    OptionalNamesNotInternalSecondHalf();
    forall a | a in AllAttributes ensures a !in InternalNames {
      var i :| 0 <= i < |AllAttributes| && AllAttributes[i] == a;
      if i >= 3 {
        assert a == OptionalAttributes[i - 3];
      }
    }
  }

  /** `AnimeListNode`: keeps the raw node and the queried names, and sets one attribute per
      queried name. */
  class AnimeListNode {
    const nodeRaw: map<string, Json>
    const attributesQueried: seq<string>
    /** The attributes `__post_init__` set on the instance. */
    var attributes: map<string, Json>

    ghost predicate Valid()
      reads this
    {
      && attributes.Keys == set a | a in attributesQueried
      && forall a :: a in attributes ==> attributes[a] == GetOrNull(nodeRaw, a)
    }

    constructor (nodeRaw: map<string, Json>, attributesQueried: seq<string>)
      ensures this.nodeRaw == nodeRaw && this.attributesQueried == attributesQueried
      ensures Valid()
    {
      this.nodeRaw := nodeRaw;
      this.attributesQueried := attributesQueried;
      attributes := map[];
      new;
      for i := 0 to |attributesQueried|
        invariant attributes.Keys == set a | a in attributesQueried[..i]
        invariant forall a :: a in attributes ==> attributes[a] == GetOrNull(nodeRaw, a)
      {
        var attribute := attributesQueried[i];
        assert attributesQueried[..i + 1] == attributesQueried[..i] + [attribute];
        attributes := attributes[attribute := GetOrNull(nodeRaw, attribute)];
      }
      assert attributesQueried[..|attributesQueried|] == attributesQueried;
    }

    /** `__getattribute__` */
    function GetAttribute(name: string): (r: Result<Attribute, NodeAttributeError>)
      reads this
      requires Valid()
      ensures r == NodeLookup(nodeRaw, attributesQueried, name)
    {
      if name in InternalNames then Success(Internal(name))
      else if name !in attributesQueried then Failure(AnimeListNodeAttributeError(name))
      else Success(Field(attributes[name]))
    }

    /** `get_attribute_dict`: one entry per queried name, holding what reading it yields. */
    method GetAttributeDict() returns (d: map<string, Attribute>)
      requires Valid()
      ensures d.Keys == set a | a in attributesQueried
      ensures forall a :: a in d ==> NodeLookup(nodeRaw, attributesQueried, a) == Success(d[a])
    {
      d := map[];
      for i := 0 to |attributesQueried|
        invariant d.Keys == set a | a in attributesQueried[..i]
        invariant forall a :: a in d ==> NodeLookup(nodeRaw, attributesQueried, a) == Success(d[a])
      {
        var attribute := attributesQueried[i];
        assert attributesQueried[..i + 1] == attributesQueried[..i] + [attribute];
        var value := GetAttribute(attribute);
        d := d[attribute := value.value];
      }
      assert attributesQueried[..|attributesQueried|] == attributesQueried;
    }
  }

  // ---------------------------------------------------------------- list

  /** `AnimeList`: a frozen record of the query, the raw response and its nodes. */
  class AnimeList {
    const q: string
    const limit: nat
    const offset: nat
    const attributes: seq<string>
    const rawData: map<string, Json>
    const paging: Json
    const data: seq<AnimeListNode>

    constructor (q: string, limit: nat, offset: nat, attributes: seq<string>,
                 rawData: map<string, Json>, paging: Json, data: seq<AnimeListNode>)
      ensures this.q == q && this.limit == limit && this.offset == offset
      ensures this.attributes == attributes && this.rawData == rawData
      ensures this.paging == paging && this.data == data
    {
      this.q, this.limit, this.offset, this.attributes := q, limit, offset, attributes;
      this.rawData, this.paging, this.data := rawData, paging, data;
    }
  }

  /** The node loop of `__post_init__`: one node per entry, each over `entry['node']`. */
  method BuildNodes(entries: seq<Json>, attributes: seq<string>) returns (r: Result<seq<AnimeListNode>, ListError>)
    ensures r.Failure? <==> NodesOf(entries).Failure?
    ensures r.Failure? ==> r.error == NodesOf(entries).error
    ensures r.Success? ==>
      && |r.value| == |entries|
      && forall i :: 0 <= i < |entries| ==>
        && fresh(r.value[i]) && r.value[i].Valid()
        && r.value[i].nodeRaw == NodesOf(entries).value[i]
        && r.value[i].attributesQueried == attributes
  {
    var nodes: seq<AnimeListNode> := [];
    for i := 0 to |entries|
      invariant NodesOf(entries[..i]).Success?
      invariant |nodes| == i
      invariant forall k :: 0 <= k < i ==>
        && fresh(nodes[k]) && nodes[k].Valid()
        && nodes[k].nodeRaw == NodesOf(entries[..i]).value[k]
        && nodes[k].attributesQueried == attributes
    {
      assert entries[..i + 1][..i] == entries[..i];
      var node := NodeOf(entries[i]);
      if node.Failure? {
        NodesOfPrefixFailure(entries, i + 1);
        return Failure(node.error);
      }
      var n := new AnimeListNode(node.value, attributes);
      nodes := nodes + [n];
    }
    assert entries[..|entries|] == entries;
    r := Success(nodes);
  }

  /** Once a prefix of the entries fails, so do all the entries, with the same error. */
  lemma {:induction false} NodesOfPrefixFailure(entries: seq<Json>, n: nat)
    requires n <= |entries| && NodesOf(entries[..n]).Failure?
    ensures NodesOf(entries) == NodesOf(entries[..n])
    decreases |entries| - n
  {
    if n < |entries| {
      assert entries[..n + 1][..n] == entries[..n];
      NodesOfPrefixFailure(entries, n + 1);
    } else {
      assert entries[..n] == entries;
    }
  }

  /** `AnimeList(access_token, q, limit, offset, optional_attributes)`. `get` is the provider:
      the response it gives to a GET of a URL with an `Authorization` header. */
  method NewAnimeList(get: (string, string) -> HttpResponse, accessToken: string, q: string,
                      limit: int := 100, offset: int := 0, optionalAttributes: seq<string> := [])
    returns (r: Result<AnimeList, ListError>, diagnostics: seq<Diagnostic>)
    ensures q == [] ==> r == Failure(InvalidAnimeListQ) && diagnostics == []
    ensures q != [] ==>
      diagnostics == RangeDiagnostics(limit, offset) + RejectionDiagnostics(Rejected(optionalAttributes))
    ensures q != [] ==>
      var attributes := DefaultAttributes + Accepted(optionalAttributes);
      var response := get(ListUrl(q, ClampLimit(limit), ClampOffset(offset), attributes), "Bearer " + accessToken);
      match ReadPage(response)
      case Failure(e) => r == Failure(e)
      case Success(page) =>
        match NodesOf(page.entries)
        case Failure(e) => r == Failure(e)
        case Success(nodes) =>
          && r.Success? && fresh(r.value)
          && r.value.q == q && r.value.limit == ClampLimit(limit) && r.value.offset == ClampOffset(offset)
          && r.value.attributes == attributes
          && r.value.rawData == page.rawData && r.value.paging == page.paging
          && |r.value.data| == |nodes|
          && forall i :: 0 <= i < |nodes| ==>
            && fresh(r.value.data[i]) && r.value.data[i].Valid()
            && r.value.data[i].nodeRaw == nodes[i] && r.value.data[i].attributesQueried == attributes
  {
    if |q| <= 0 {
      return Failure(InvalidAnimeListQ), [];
    }
    diagnostics := [];
    var finalLimit: nat;
    if limit > 100 || limit <= 0 {
      diagnostics := diagnostics + [LimitOutOfRange(limit)];
      finalLimit := 100;
    } else {
      finalLimit := limit;
    }
    var finalOffset: nat;
    if offset < 0 {
      diagnostics := diagnostics + [OffsetOutOfRange(offset)];
      finalOffset := 0;
    } else {
      finalOffset := offset;
    }
    assert finalLimit == ClampLimit(limit) && finalOffset == ClampOffset(offset);
    assert diagnostics == RangeDiagnostics(limit, offset);
    var attributes, rejected := FilterAttributes(optionalAttributes);
    diagnostics := diagnostics + RejectionDiagnostics(rejected);

    var response := get(ListUrl(q, finalLimit, finalOffset, attributes), "Bearer " + accessToken);
    var page := ReadPage(response);
    if page.Failure? {
      return Failure(page.error), diagnostics;
    }
    var data := BuildNodes(page.value.entries, attributes);
    if data.Failure? {
      assert NodesOf(page.value.entries) == Failure(data.error);
      return Failure(data.error), diagnostics;
    }
    assert NodesOf(page.value.entries).Success?;
    var list := new AnimeList(q, finalLimit, finalOffset, attributes, page.value.rawData, page.value.paging, data.value);
    r := Success(list);
  }
}
