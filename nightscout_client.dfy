/** The Nightscout client (apps/web/lib/nightscout-client.ts): the `parseJson` gate, the
    normalisation of the entries and status payloads into typed records, and the choice
    of base URL and entry limit. The URL constructor and `fetch` are parameters. */
module NightscoutClient {
  import opened Wrappers
  import opened JsonValue
  import Decimal
  import Env

  /** One glucose reading. */
  datatype GlucoseValue = GlucoseValue(mgdl: real, direction: Option<string>, measuredAt: string)

  /** One monitored device or service. */
  datatype DeviceStatus = DeviceStatus(name: string, status: string, lastUpdated: Option<string>)

  /** The overall state and the devices, in upstream order. */
  datatype StatusSummary = StatusSummary(state: string, devices: seq<DeviceStatus>)

  /** What the client can throw. */
  datatype ClientError =
    | RequestFailed(status: nat, body: string)  // the `Error` that `parseJson` throws
    | MalformedJson                             // `response.json()` rejects the body
    | NotAnArray                                // `x.map(...)` on a value that is not an array
    | NullRecord                                // a property read on `null`
    | InvalidUrl                                // the `TypeError` of `new URL(...)`
    | NetworkFailure                            // `fetch(...)` rejects

  /** The parts of an HTTP response the client looks at; `json` is what `response.json()`
      yields, `None` when the body is not JSON. */
  datatype Response = Response(ok: bool, status: nat, body: string, json: Option<Json>)

  const RequestFailedPrefix := "Nightscout API request failed ("

  /** The message of the error thrown for a response that is not ok. */
  function RequestFailedMessage(status: nat, body: string): (m: string)
    ensures |m| == |RequestFailedPrefix| + |Decimal.FromNat(status)| + 3 + |body|
    ensures m[..|RequestFailedPrefix|] == RequestFailedPrefix
    ensures m[|RequestFailedPrefix|..|m| - |body| - 3] == Decimal.FromNat(status)
    ensures m[|m| - |body| - 3..|m| - |body|] == "): "
    ensures m[|m| - |body|..] == body
  {
    RequestFailedPrefix + Decimal.FromNat(status) + "): " + body
  }

  /** The `message` of a thrown error, when the client itself builds it; the runtime's
      own `TypeError` and `SyntaxError` texts are engine-specific. */
  function Message(e: ClientError): (m: Option<string>)
    ensures m.Some? <==> e.RequestFailed?
    ensures e.RequestFailed? ==> m == Some(RequestFailedMessage(e.status, e.body))
  {
    match e
    case RequestFailed(status, body) => Some(RequestFailedMessage(status, body))
    case _ => None
  }

  /** `parseJson`: a response that is not ok is an error carrying its status and body;
      an ok response yields its payload unchanged. */
  function ParseJson(response: Response): (r: Result<Json, ClientError>)
    ensures !response.ok <==> r.Err? && r.error.RequestFailed?
    ensures !response.ok ==> r.error == RequestFailed(response.status, response.body)
    ensures !response.ok ==> Message(r.error) == Some(RequestFailedMessage(response.status, response.body))
    ensures response.ok && response.json.Some? ==> r == Ok(response.json.value)
    ensures response.ok && response.json.None? ==> r == Err(MalformedJson)
  {
    if !response.ok then Err(RequestFailed(response.status, response.body))
    else if response.json.None? then Err(MalformedJson)
    else Ok(response.json.value)
  }

  // ---------------------------------------------------------------------------
  // Entries

  /** The callback of `payload.map` in `fetchRecentEntries`: reading a field of `null`
      throws; otherwise the record is kept (`Some`) exactly when `sgv` is a number and
      `dateString` a string, and `direction` is taken when it is a string. */
  function ToGlucoseValue(item: Json): (r: Result<Option<GlucoseValue>, ClientError>)
    ensures item.JNull? <==> r == Err(NullRecord)
    ensures !item.JNull? ==> r.Ok?
    ensures r.Ok? ==> (r.value.Some? <==> IsReading(item))
    ensures r.Ok? && r.value.Some? ==> r.value.value == ReadingOf(item)
  {
    if item.JNull? then Err(NullRecord)
    else if IsReading(item) then Ok(Some(ReadingOf(item)))
    else Ok(None)
  }

  /** `.filter(Boolean)` over the mapped records: a record object is truthy whatever its
      fields hold, so only the `null` placeholders go. */
  function FilterPresent<T>(s: seq<Option<T>>): (r: seq<T>)
    ensures |r| <= |s|
  {
    if s == [] then []
    else (if s[0].Some? then [s[0].value] else []) + FilterPresent(s[1..])
  }

  /** Lines 47-63 of `fetchRecentEntries`, applied to the parsed payload. */
  function NormaliseEntries(payload: Json): (r: Result<seq<GlucoseValue>, ClientError>)
    ensures payload.JNull? ==> r == Err(NullRecord)
    ensures !payload.JNull? && !payload.JArray? ==> r == Err(NotAnArray)
    ensures payload.JArray? && JNull in payload.items ==> r == Err(NullRecord)
    ensures payload.JArray? && JNull !in payload.items ==> r == Ok(Readings(payload.items))
  {
    if payload.JNull? then Err(NullRecord)
    else if !payload.JArray? then Err(NotAnArray)
    else
      match MapResult(payload.items, ToGlucoseValue)
      case Err(e) => Err(e)
      case Ok(mapped) =>
        FilterPresentIsReadings(payload.items, mapped);
        Ok(FilterPresent(mapped))
  }

  // The reference definition of which records survive, stated on the JSON alone.

  /** A record the entries normalisation keeps: `sgv` is a number and `dateString` a string. */
  predicate IsReading(item: Json)
  {
    NumberProperty(item, "sgv").Some? && StringProperty(item, "dateString").Some?
  }

  /** The reading a kept record becomes; `direction` is taken when it is a string. */
  function ReadingOf(item: Json): (g: GlucoseValue)
    requires IsReading(item)
    ensures Property(item, "sgv") == Some(JNumber(g.mgdl))
    ensures Property(item, "dateString") == Some(JString(g.measuredAt))
    ensures g.direction.Some? <==> Property(item, "direction").Some? && Property(item, "direction").value.JString?
    ensures g.direction.Some? ==> Property(item, "direction") == Some(JString(g.direction.value))
  {
    GlucoseValue(NumberProperty(item, "sgv").value, StringProperty(item, "direction"),
                 StringProperty(item, "dateString").value)
  }

  /** The readings among `items`, in their order. */
  ghost function Readings(items: seq<Json>): seq<GlucoseValue>
  {
    if items == [] then []
    else (if IsReading(items[0]) then [ReadingOf(items[0])] else []) + Readings(items[1..])
  }

  lemma {:induction false} FilterPresentIsReadings(items: seq<Json>, mapped: seq<Option<GlucoseValue>>)
    requires |mapped| == |items|
    requires forall i :: 0 <= i < |items| ==> ToGlucoseValue(items[i]) == Ok(mapped[i])
    ensures FilterPresent(mapped) == Readings(items)
  {
    if items != [] {
      assert forall i :: 0 <= i < |items[1..]| ==> items[1..][i] == items[i + 1] && mapped[1..][i] == mapped[i + 1];
      FilterPresentIsReadings(items[1..], mapped[1..]);
    }
  }

  /** The positions of the readings among `items`. */
  ghost function KeptIndices(items: seq<Json>): seq<nat>
  {
    if items == [] then []
    else (if IsReading(items[0]) then [0] else []) + Shifted(KeptIndices(items[1..]))
  }

  ghost function Shifted(idx: seq<nat>): (r: seq<nat>)
    ensures |r| == |idx| && forall k :: 0 <= k < |idx| ==> r[k] == idx[k] + 1
  {
    seq(|idx|, k requires 0 <= k < |idx| => idx[k] + 1)
  }

  /** `r` lists, in order and each exactly once, the readings of the records at the
      strictly increasing positions `idx`, and every reading position is among them. */
  ghost predicate Selects(idx: seq<nat>, items: seq<Json>, r: seq<GlucoseValue>)
  {
    PositionsYield(idx, items, r) && Increasing(idx) && Covers(idx, items)
  }

  /** The k-th output is the reading of the record at position `idx[k]`. */
  ghost predicate PositionsYield(idx: seq<nat>, items: seq<Json>, r: seq<GlucoseValue>)
  {
    && |idx| == |r|
    && forall k :: 0 <= k < |idx| ==> idx[k] < |items| && IsReading(items[idx[k]]) && r[k] == ReadingOf(items[idx[k]])
  }

  ghost predicate Increasing(idx: seq<nat>)
  {
    forall k, l :: 0 <= k < l < |idx| ==> idx[k] < idx[l]
  }

  /** Every position holding a reading is listed. */
  ghost predicate Covers(idx: seq<nat>, items: seq<Json>)
  {
    forall i :: 0 <= i < |items| && IsReading(items[i]) ==> i in idx
  }

  /** A record in front that is not a reading only shifts the positions. */
  lemma SelectsSkip(x: Json, tail: seq<Json>, ti: seq<nat>, tr: seq<GlucoseValue>)
    requires Selects(ti, tail, tr) && !IsReading(x)
    ensures Selects(Shifted(ti), [x] + tail, tr)
  {
  }

  /** A reading in front comes first, at position 0. */
  lemma SelectsTake(x: Json, tail: seq<Json>, ti: seq<nat>, tr: seq<GlucoseValue>)
    requires Selects(ti, tail, tr) && IsReading(x)
    ensures Selects([0] + Shifted(ti), [x] + tail, [ReadingOf(x)] + tr)
  {
    TakeYields(x, tail, ti, tr);
    TakeIncreasing(ti);
    TakeCovers(x, tail, ti);
  }

  lemma TakeYields(x: Json, tail: seq<Json>, ti: seq<nat>, tr: seq<GlucoseValue>)
    requires PositionsYield(ti, tail, tr) && IsReading(x)
    ensures PositionsYield([0] + Shifted(ti), [x] + tail, [ReadingOf(x)] + tr)
  {
  }

  lemma TakeIncreasing(ti: seq<nat>)
    requires Increasing(ti)
    ensures Increasing([0] + Shifted(ti))
  {
  }

  lemma TakeCovers(x: Json, tail: seq<Json>, ti: seq<nat>)
    requires Covers(ti, tail)
    ensures Covers([0] + Shifted(ti), [x] + tail)
  {
  }

  /** The readings are an order-preserving selection of the records. */
  lemma {:induction false} ReadingsSelectKept(items: seq<Json>)
    ensures Selects(KeptIndices(items), items, Readings(items))
  {
    if items != [] {
      ReadingsSelectKept(items[1..]);
      assert items == [items[0]] + items[1..];
      if IsReading(items[0]) {
        SelectsTake(items[0], items[1..], KeptIndices(items[1..]), Readings(items[1..]));
      } else {
        SelectsSkip(items[0], items[1..], KeptIndices(items[1..]), Readings(items[1..]));
      }
    }
  }

  /** A record's reading is in the output iff some record with valid `sgv` and
      `dateString` yields it; nothing else is output. */
  lemma EntryKeptIff(items: seq<Json>, g: GlucoseValue)
    ensures g in Readings(items) <==> exists i :: 0 <= i < |items| && IsReading(items[i]) && ReadingOf(items[i]) == g
  {
  }

  /** There are at most as many readings as records, and as many exactly when every
      record is a reading. */
  lemma {:induction false} ReadingsLength(items: seq<Json>)
    ensures |Readings(items)| <= |items|
    ensures |Readings(items)| == |items| <==> forall i :: 0 <= i < |items| ==> IsReading(items[i])
  {
    if items != [] {
      ReadingsLength(items[1..]);
      assert forall i :: 1 <= i < |items| ==> items[i] == items[1..][i - 1];
      if !IsReading(items[0]) {
        assert |Readings(items)| < |items|;
      } else if |Readings(items)| == |items| {
        assert forall i :: 0 <= i < |items[1..]| ==> IsReading(items[1..][i]);
      }
    }
  }

  /** Fields other than `sgv` and `dateString` never decide whether a record is kept. */
  lemma OnlyRequiredFieldsDecideKeep(fields: map<string, Json>, key: string, v: Json)
    requires key != "sgv" && key != "dateString"
    ensures IsReading(JObject(fields[key := v])) <==> IsReading(JObject(fields))
  {
  }

  /** A reading of 0 mg/dL is kept: the filter tests the record, not its value. */
  lemma ZeroReadingKept(t: string)
    ensures NormaliseEntries(JArray([JObject(map["sgv" := JNumber(0.0), "dateString" := JString(t)])]))
         == Ok([GlucoseValue(0.0, None, t)])
  {
    var item := JObject(map["sgv" := JNumber(0.0), "dateString" := JString(t)]);
    assert [item][1..] == [];
    assert Readings([item]) == [ReadingOf(item)];
  }

  /** A record without a usable `sgv` or without `dateString` is dropped, the others kept. */
  lemma EntriesExample()
    ensures NormaliseEntries(JArray([
      JObject(map["sgv" := JNumber(120.0), "direction" := JString("Flat"), "dateString" := JString("t1")]),
      JObject(map["sgv" := JNull, "dateString" := JString("t2")]),
      JObject(map["dateString" := JString("t3")])]))
      == Ok([GlucoseValue(120.0, Some("Flat"), "t1")])
  {
    var a := JObject(map["sgv" := JNumber(120.0), "direction" := JString("Flat"), "dateString" := JString("t1")]);
    var b := JObject(map["sgv" := JNull, "dateString" := JString("t2")]);
    var c := JObject(map["dateString" := JString("t3")]);
    var items := [a, b, c];
    assert items[1..] == [b, c] && items[1..][1..] == [c] && items[1..][1..][1..] == [];
    assert ReadingOf(a) == GlucoseValue(120.0, Some("Flat"), "t1");
    assert !IsReading(b) && !IsReading(c);
    assert Readings([c]) == [];
    assert Readings([b, c]) == [];
    assert Readings(items) == [ReadingOf(a)];
    assert JNull !in items;
  }

  // ---------------------------------------------------------------------------
  // Status

  /** `typeof status?.state === "string" ? status.state : "unknown"` */
  function StateOf(status: Option<Json>): (state: string)
    ensures status.Some? && StringProperty(status.value, "state").Some? ==>
              state == StringProperty(status.value, "state").value
    ensures status.None? || StringProperty(status.value, "state").None? ==> state == "unknown"
  {
    if status.Some? && StringProperty(status.value, "state").Some? then
      StringProperty(status.value, "state").value
    else
      "unknown"
  }

  /** The callback of `devices.map`: a `null` device throws; otherwise each field is taken
      when it is a string and replaced by its own default when it is not. */
  function ToDeviceStatus(device: Json): (r: Result<DeviceStatus, ClientError>)
    ensures device.JNull? <==> r == Err(NullRecord)
    ensures !device.JNull? ==> r == Ok(DeviceOf(device))
  {
    if device.JNull? then Err(NullRecord) else Ok(DeviceOf(device))
  }

  /** The coercion of one device, field by field: a field is taken when it holds a
      string; otherwise `name` is "Unknown", `status` "Unavailable", `lastUpdated` absent. */
  function DeviceOf(device: Json): (d: DeviceStatus)
    ensures IsStringField(device, "name") ==> Property(device, "name") == Some(JString(d.name))
    ensures !IsStringField(device, "name") ==> d.name == "Unknown"
    ensures IsStringField(device, "status") ==> Property(device, "status") == Some(JString(d.status))
    ensures !IsStringField(device, "status") ==> d.status == "Unavailable"
    ensures d.lastUpdated.Some? <==> IsStringField(device, "lastUpdated")
    ensures d.lastUpdated.Some? ==> Property(device, "lastUpdated") == Some(JString(d.lastUpdated.value))
  {
    DeviceStatus(StringProperty(device, "name").GetOr("Unknown"),
                 StringProperty(device, "status").GetOr("Unavailable"),
                 StringProperty(device, "lastUpdated"))
  }

  /** `typeof device[key] === "string"` */
  predicate IsStringField(device: Json, key: string)
  {
    Property(device, key).Some? && Property(device, key).value.JString?
  }

  /** Lines 74-95 of `fetchStatus`, applied to the parsed payload. */
  function NormaliseStatus(payload: Json): (r: Result<StatusSummary, ClientError>)
    ensures r.Ok? ==> r.value.state == StateOf(Property(payload, "status"))
  {
    if payload.JNull? then Err(NullRecord)
    else
      var status := Property(payload, "status");
      var devices := if IsNullish(Property(payload, "devices")) then JArray([])
                     else Property(payload, "devices").value;
      var state := StateOf(status);
      if !devices.JArray? then Err(NotAnArray)
      else
        match MapResult(devices.items, ToDeviceStatus)
        case Err(e) => Err(e)
        case Ok(ds) => Ok(StatusSummary(state, ds))
  }

  /** The status normalisation fails exactly when the payload is `null`, when `devices`
      is neither nullish nor an array, or when a device is `null`. */
  lemma StatusFailsIff(payload: Json)
    ensures NormaliseStatus(payload).Err? <==>
      || payload.JNull?
      || (!IsNullish(Property(payload, "devices")) && !Property(payload, "devices").value.JArray?)
      || (Property(payload, "devices").Some? && Property(payload, "devices").value.JArray? &&
          JNull in Property(payload, "devices").value.items)
  {
  }

  /** No device is dropped, added or reordered, and each is coerced on its own. */
  lemma DevicesPreserved(payload: Json, ds: seq<Json>)
    requires Property(payload, "devices") == Some(JArray(ds))
    requires NormaliseStatus(payload).Ok?
    ensures |NormaliseStatus(payload).value.devices| == |ds|
    ensures forall i :: 0 <= i < |ds| ==> NormaliseStatus(payload).value.devices[i] == DeviceOf(ds[i])
  {
  }

  /** A missing or `null` device list becomes the empty list. */
  lemma NullishDevicesEmpty(payload: Json)
    requires !payload.JNull? && IsNullish(Property(payload, "devices"))
    ensures NormaliseStatus(payload) == Ok(StatusSummary(StateOf(Property(payload, "status")), []))
  {
  }

  /** An empty status object and a device with only a status give the defaults. */
  lemma StatusExample()
    ensures NormaliseStatus(JObject(map["status" := JObject(map[]),
                                        "devices" := JArray([JObject(map["status" := JString("ok")])])]))
         == Ok(StatusSummary("unknown", [DeviceStatus("Unknown", "ok", None)]))
  {
    var d := JObject(map["status" := JString("ok")]);
    var payload := JObject(map["status" := JObject(map[]), "devices" := JArray([d])]);
    assert DeviceOf(d) == DeviceStatus("Unknown", "ok", None);
    assert StringProperty(JObject(map[]), "state") == None;
    assert StateOf(Property(payload, "status")) == "unknown";
    var m := MapResult([d], ToDeviceStatus);
    assert [d][0] == d && ToDeviceStatus(d) == Ok(DeviceOf(d));
    assert m.Ok?;
    assert ToDeviceStatus([d][0]) == Ok(m.value[0]);
    assert m.value == [DeviceOf(d)];
  }

  // ---------------------------------------------------------------------------
  // The client

  /** The client configuration; an explicit `baseUrl` is used exactly as given. */
  datatype Config = Config(baseUrl: Option<string>)

  /** `count` sent when `getRecentEntries` is called without a limit. */
  const DefaultEntryLimit: int := 24

  /** A request the client sends: the base URL it starts from and, for entries, the
      `count` query parameter. */
  datatype Request = EntriesRequest(baseUrl: string, count: int) | StatusRequest(baseUrl: string)
  {
    /** The text the request URL is parsed from. */
    function Location(): (u: string)
      ensures EntriesRequest? ==> u == baseUrl + "/entries.json"
      ensures StatusRequest? ==> u == baseUrl + "/status.json"
    {
      match this
      case EntriesRequest(b, _) => b + "/entries.json"
      case StatusRequest(b) => b + "/status.json"
    }
  }

  /** `config.baseUrl ?? getApiBaseUrl()` */
  function BaseUrl(config: Config, env: Env.Environment): (u: string)
    ensures config.baseUrl.Some? ==> u == config.baseUrl.value
    ensures config.baseUrl.None? ==> u == Env.GetApiBaseUrl(env)
  {
    config.baseUrl.GetOr(Env.GetApiBaseUrl(env))
  }

  /** What the client runs against: the environment variables, which texts the URL
      constructor accepts, and what `fetch` yields for a request (`None` when the
      promise rejects). */
  datatype Runtime = Runtime(env: Env.Environment, parsesAsUrl: string -> bool, fetch: Request -> Option<Response>)

  /** Lines 38-45 and 68-72, then `parseJson`: the URL is built before anything is sent,
      so an unparsable location fails without a request. */
  function Exchange(rt: Runtime, request: Request): (r: Result<Json, ClientError>)
    ensures !rt.parsesAsUrl(request.Location()) <==> r == Err(InvalidUrl)
    ensures rt.parsesAsUrl(request.Location()) && rt.fetch(request).None? <==> r == Err(NetworkFailure)
    ensures rt.parsesAsUrl(request.Location()) && rt.fetch(request).Some? ==> r == ParseJson(rt.fetch(request).value)
  {
    if !rt.parsesAsUrl(request.Location()) then Err(InvalidUrl)
    else
      match rt.fetch(request)
      case None => Err(NetworkFailure)
      case Some(response) => ParseJson(response)
  }

  /** `fetchRecentEntries(config, limit)`: the entries of a base URL, `limit` of them
      asked for; a failed exchange is its result, and success is exactly an array
      without `null`, whose readings are returned. */
  function FetchRecentEntries(config: Config, rt: Runtime, limit: int): (r: Result<seq<GlucoseValue>, ClientError>)
    ensures var x := Exchange(rt, EntriesRequest(BaseUrl(config, rt.env), limit));
            x.Err? ==> r == Err(x.error)
    ensures var x := Exchange(rt, EntriesRequest(BaseUrl(config, rt.env), limit));
            r.Ok? <==> x.Ok? && x.value.JArray? && JNull !in x.value.items
    ensures var x := Exchange(rt, EntriesRequest(BaseUrl(config, rt.env), limit));
            r.Ok? ==> r.value == Readings(x.value.items)
    ensures var x := Exchange(rt, EntriesRequest(BaseUrl(config, rt.env), limit));
            x.Ok? ==> r == NormaliseEntries(x.value)
  {
    match Exchange(rt, EntriesRequest(BaseUrl(config, rt.env), limit))
    case Err(e) => Err(e)
    case Ok(payload) => NormaliseEntries(payload)
  }

  /** `fetchStatus(config)`: a failed exchange is its result; otherwise the summary
      reports the payload's state. */
  function FetchStatus(config: Config, rt: Runtime): (r: Result<StatusSummary, ClientError>)
    ensures var x := Exchange(rt, StatusRequest(BaseUrl(config, rt.env)));
            x.Err? ==> r == Err(x.error)
    ensures var x := Exchange(rt, StatusRequest(BaseUrl(config, rt.env)));
            x.Ok? ==> r == NormaliseStatus(x.value)
    ensures var x := Exchange(rt, StatusRequest(BaseUrl(config, rt.env)));
            r.Ok? ==> x.Ok? && r.value.state == StateOf(Property(x.value, "status"))
  {
    match Exchange(rt, StatusRequest(BaseUrl(config, rt.env)))
    case Err(e) => Err(e)
    case Ok(payload) => NormaliseStatus(payload)
  }

  /** The object `createNightscoutClient` returns. */
  datatype Client = Client(config: Config)
  {
    /** `getRecentEntries(limit = 24)` */
    function GetRecentEntries(rt: Runtime, limit: Option<int>): (r: Result<seq<GlucoseValue>, ClientError>)
      ensures limit.None? ==> r == FetchRecentEntries(config, rt, DefaultEntryLimit)
      ensures limit.Some? ==> r == FetchRecentEntries(config, rt, limit.value)
    {
      FetchRecentEntries(config, rt, limit.GetOr(DefaultEntryLimit))
    }

    /** `getStatus()` */
    function GetStatus(rt: Runtime): (r: Result<StatusSummary, ClientError>)
      ensures r == FetchStatus(config, rt)
    {
      FetchStatus(config, rt)
    }
  }

  /** `createNightscoutClient(config = {})` */
  function CreateNightscoutClient(config: Option<Config>): (c: Client)
    ensures config.None? ==> c.config.baseUrl.None?
    ensures config.Some? ==> c.config == config.value
  {
    Client(config.GetOr(Config(None)))
  }

  // ---------------------------------------------------------------------------
  // Properties of the client

  /** The error for a failed request names its status and carries its body verbatim:
      500 with body "boom" reads exactly as below. */
  lemma RequestFailedMessageExample()
    ensures RequestFailedMessage(500, "boom") == "Nightscout API request failed (500): boom"
  {
  }

  /** Distinct failures give distinct messages: status and body can be read back. */
  lemma RequestFailedMessageInjective(s1: nat, b1: string, s2: nat, b2: string)
    requires RequestFailedMessage(s1, b1) == RequestFailedMessage(s2, b2)
    ensures s1 == s2 && b1 == b2
  {
    var d1, d2 := Decimal.FromNat(s1), Decimal.FromNat(s2);
    assert RequestFailedMessage(s1, b1) == RequestFailedPrefix + d1 + "): " + b1;
    assert RequestFailedMessage(s2, b2) == RequestFailedPrefix + d2 + "): " + b2;
    MessagePartsDetermined(d1, b1, d2, b2);
    Decimal.FromNatInjective(s1, s2);
  }

  /** Behind the fixed prefix, a numeral followed by `"): "` and a body splits one way only. */
  lemma MessagePartsDetermined(d1: string, b1: string, d2: string, b2: string)
    requires Decimal.AllDigits(d1) && Decimal.AllDigits(d2)
    requires RequestFailedPrefix + d1 + "): " + b1 == RequestFailedPrefix + d2 + "): " + b2
    ensures d1 == d2 && b1 == b2
  {
    var p := RequestFailedPrefix;
    var x1, x2 := "): " + b1, "): " + b2;
    assert p + d1 + "): " + b1 == p + (d1 + x1);
    assert p + d2 + "): " + b2 == p + (d2 + x2);
    assert d1 + x1 == (p + (d1 + x1))[|p|..];
    assert d2 + x2 == (p + (d2 + x2))[|p|..];
    Decimal.SplitAtFirstNonDigit(d1, x1, d2, x2);
    assert b1 == x1[3..] && b2 == x2[3..];
  }

  /** A response that is not ok fails either fetch with that response's status and body. */
  lemma UpstreamFailurePropagates(c: Client, rt: Runtime, limit: Option<int>)
    ensures var req := EntriesRequest(BaseUrl(c.config, rt.env), limit.GetOr(DefaultEntryLimit));
            rt.parsesAsUrl(req.Location()) && rt.fetch(req).Some? && !rt.fetch(req).value.ok ==>
              c.GetRecentEntries(rt, limit) == Err(RequestFailed(rt.fetch(req).value.status, rt.fetch(req).value.body))
    ensures var req := StatusRequest(BaseUrl(c.config, rt.env));
            rt.parsesAsUrl(req.Location()) && rt.fetch(req).Some? && !rt.fetch(req).value.ok ==>
              c.GetStatus(rt) == Err(RequestFailed(rt.fetch(req).value.status, rt.fetch(req).value.body))
  {
  }

  /** A location the URL constructor refuses fails with `InvalidUrl`, whatever `fetch`
      would have answered: nothing is sent. */
  lemma InvalidUrlSendsNothing(c: Client, rt: Runtime, other: Request -> Option<Response>, limit: Option<int>)
    requires !rt.parsesAsUrl(BaseUrl(c.config, rt.env) + "/entries.json")
    requires !rt.parsesAsUrl(BaseUrl(c.config, rt.env) + "/status.json")
    ensures c.GetRecentEntries(rt, limit) == c.GetRecentEntries(rt.(fetch := other), limit) == Err(InvalidUrl)
    ensures c.GetStatus(rt) == c.GetStatus(rt.(fetch := other)) == Err(InvalidUrl)
  {
  }

  /** A rejected `fetch` fails either call with `NetworkFailure`. */
  lemma NetworkFailurePropagates(c: Client, rt: Runtime, limit: Option<int>)
    ensures var req := EntriesRequest(BaseUrl(c.config, rt.env), limit.GetOr(DefaultEntryLimit));
            rt.parsesAsUrl(req.Location()) && rt.fetch(req).None? ==> c.GetRecentEntries(rt, limit) == Err(NetworkFailure)
    ensures var req := StatusRequest(BaseUrl(c.config, rt.env));
            rt.parsesAsUrl(req.Location()) && rt.fetch(req).None? ==> c.GetStatus(rt) == Err(NetworkFailure)
  {
  }

  /** An explicit base URL is requested verbatim, untrimmed and unsanitised, whatever the
      environment holds; without a limit 24 entries are asked for. */
  lemma ExplicitBaseUrlVerbatim(u: string, rt: Runtime, limit: Option<int>)
    ensures CreateNightscoutClient(Some(Config(Some(u)))).GetRecentEntries(rt, limit)
         == (match Exchange(rt, EntriesRequest(u, if limit.Some? then limit.value else 24))
             case Err(e) => Err(e)
             case Ok(payload) => NormaliseEntries(payload))
    ensures CreateNightscoutClient(Some(Config(Some(u)))).GetStatus(rt)
         == (match Exchange(rt, StatusRequest(u))
             case Err(e) => Err(e)
             case Ok(payload) => NormaliseStatus(payload))
  {
  }

  /** A default client resolves its base URL from the environment. */
  lemma DefaultClientUsesEnvironment(rt: Runtime)
    ensures CreateNightscoutClient(None).GetStatus(rt)
         == (match Exchange(rt, StatusRequest(Env.GetApiBaseUrl(rt.env)))
             case Err(e) => Err(e)
             case Ok(payload) => NormaliseStatus(payload))
  {
  }
}
