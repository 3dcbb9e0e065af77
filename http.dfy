/**
 * The HTTP probe: the per-target metadata and how it is read from its JSON
 * blob, how the client is configured from it, the order in which the request
 * is validated, and how the transport's answer is classified.
 *
 * What lives in libraries is a parameter (`HttpEnv`): method, header-name and
 * header-value validity, base64 decoding, whether the client builder succeeds,
 * and the two constants of the crate's constants module.
 */
module Http {
  import opened Wrappers
  import opened Db

  type USize = U64

  /** `PingResponse`: latency in milliseconds and HTTP status. */
  datatype PingResponse =
    | Down(responseTime: U64, status: U16)
    | Up(responseTime: U64, status: U16)
    | Timeout

  /** `HttpMetadata`; `headers` is a `HashMap`, whose iteration order is unspecified. */
  datatype HttpMetadata = HttpMetadata(
    httpMethod: Text,
    body: Option<Text>,
    successfulMax: U16,
    successfulMin: U16,
    insecure: bool,
    followRedirects: Option<USize>,
    headers: Option<map<Text, Text>>,
    timeout: Option<I32>)

  datatype RedirectPolicy = NoRedirects | Limited(max: USize)

  /** What the `reqwest` client builder is given. */
  datatype ClientConfig = ClientConfig(
    acceptInvalidCerts: bool,
    acceptInvalidHostnames: bool,
    redirect: RedirectPolicy,
    timeoutSecs: U64,
    userAgent: Text)

  datatype HttpEnv = HttpEnv(
    methodOk: Text -> bool,               // Method::from_bytes succeeds
    clientBuilds: ClientConfig -> bool,   // ClientBuilder::build succeeds
    base64Decode: Text -> Option<Bytes>,  // BASE64_STANDARD.decode
    headerNameOk: Text -> bool,           // HeaderName::from_bytes succeeds
    headerValueOk: Text -> bool,          // HeaderValue::from_bytes succeeds
    defaultTimeoutSecs: U64,              // constants::HTTP_PING_TIMOUET
    userAgent: Text)                      // constants::USER_AGENT

  datatype PingError =
    | InvalidMethod
    | ClientBuildFailed
    | InvalidBody
    | InvalidHeaderName(name: Text)
    | InvalidHeaderValue(name: Text, value: Text)
    | RequestFailed

  /** What `req.send()` gives back: a response after `elapsedMs`, a timeout, or another error. */
  datatype Transport = Responded(status: U16, elapsedMs: I64) | TimedOut | Failed

  /** The request handed to the transport. */
  datatype Request = Request(
    httpMethod: Text,
    url: Text,
    body: Option<Bytes>,
    headers: seq<(Text, Text)>,
    client: ClientConfig)

  // ---------------------------------------------------------------------------
  // Metadata as JSON (the `#[serde(rename = ...)]` attributes of HttpMetadata)

  /** A parsed JSON value; numbers are integers, strings are UTF-8 bytes. */
  datatype Json =
    | JNull
    | JBool(b: bool)
    | JNumber(n: int)
    | JString(s: Text)
    | JObject(fields: map<Text, Json>)

  // The JSON keys, as the bytes of their ASCII names.
  const KeyMethod: Text := [0x6D]  // "m"
  const KeyBody: Text := [0x62]  // "b"
  const KeyMax: Text := [0x6D, 0x78]  // "mx"
  const KeyMin: Text := [0x6D, 0x69]  // "mi"
  const KeyInsecure: Text := [0x69]  // "i"
  const KeyRedirects: Text := [0x72]  // "r"
  const KeyHeaders: Text := [0x68]  // "h"
  const KeyTimeout: Text := [0x74]  // "t"

  function AsText(v: Json): Option<Text> {
    if v.JString? then Some(v.s) else None
  }

  function AsU16(v: Json): Option<U16> {
    if v.JNumber? && 0 <= v.n < 0x1_0000 then Some(v.n) else None
  }

  function AsUSize(v: Json): Option<USize> {
    if v.JNumber? && 0 <= v.n < 0x1_0000_0000_0000_0000 then Some(v.n) else None
  }

  function AsI32(v: Json): Option<I32> {
    if v.JNumber? && -0x8000_0000 <= v.n < 0x8000_0000 then Some(v.n) else None
  }

  function AsBool(v: Json): Option<bool> {
    if v.JBool? then Some(v.b) else None
  }

  function AsTextMap(v: Json): Option<map<Text, Text>> {
    if v.JObject? && forall k | k in v.fields :: v.fields[k].JString? then
      Some(map k | k in v.fields :: v.fields[k].s)
    else None
  }

  /** A required field: present and of the right type. */
  function Required<T>(fields: map<Text, Json>, key: Text, conv: Json -> Option<T>): Option<T> {
    if key in fields then conv(fields[key]) else None
  }

  /** An `Option` field: a missing key or `null` reads as `None`; `Some(None)` is a type error. */
  function Optional<T>(fields: map<Text, Json>, key: Text, conv: Json -> Option<T>): Option<Option<T>> {
    if key !in fields || fields[key].JNull? then Some(None)
    else match conv(fields[key])
      case None => None
      case Some(x) => Some(Some(x))
  }

  /** Every field is present, or absent or `null` where it is optional, with a value of its type. */
  predicate FieldsWellTyped(f: map<Text, Json>) {
    && Required(f, KeyMethod, AsText).Some?
    && Required(f, KeyMax, AsU16).Some?
    && Required(f, KeyMin, AsU16).Some?
    && Required(f, KeyInsecure, AsBool).Some?
    && Optional(f, KeyBody, AsText).Some?
    && Optional(f, KeyRedirects, AsUSize).Some?
    && Optional(f, KeyHeaders, AsTextMap).Some?
    && Optional(f, KeyTimeout, AsI32).Some?
  }

  /** The derived `Deserialize` of `HttpMetadata`; keys it does not know are ignored. */
  function MetadataFromJson(v: Json): (r: Option<HttpMetadata>)
    ensures r.Some? ==> v.JObject?
    ensures r.Some? ==> KeyMethod in v.fields && KeyMax in v.fields && KeyMin in v.fields && KeyInsecure in v.fields
    ensures r.Some? ==> v.fields[KeyMethod] == JString(r.value.httpMethod)
    ensures r.Some? ==> v.fields[KeyMax] == JNumber(r.value.successfulMax) && v.fields[KeyMin] == JNumber(r.value.successfulMin)
    ensures r.Some? ==> v.fields[KeyInsecure] == JBool(r.value.insecure)
    ensures r.Some? ==> (r.value.body.None? <==> KeyBody !in v.fields || v.fields[KeyBody].JNull?)
    ensures r.Some? ==> (r.value.followRedirects.None? <==> KeyRedirects !in v.fields || v.fields[KeyRedirects].JNull?)
    ensures r.Some? ==> (r.value.headers.None? <==> KeyHeaders !in v.fields || v.fields[KeyHeaders].JNull?)
    ensures r.Some? ==> (r.value.timeout.None? <==> KeyTimeout !in v.fields || v.fields[KeyTimeout].JNull?)
    ensures r.Some? && r.value.body.Some? ==> v.fields[KeyBody] == JString(r.value.body.value)
    ensures r.Some? && r.value.followRedirects.Some? ==> v.fields[KeyRedirects] == JNumber(r.value.followRedirects.value)
    ensures r.Some? && r.value.headers.Some? ==> AsTextMap(v.fields[KeyHeaders]) == Some(r.value.headers.value)
    ensures r.Some? && r.value.timeout.Some? ==> v.fields[KeyTimeout] == JNumber(r.value.timeout.value)
    ensures v.JObject? && FieldsWellTyped(v.fields) ==> r.Some?
    ensures r.Some? ==> FieldsWellTyped(v.fields)
  {
    if !v.JObject? then None
    else
      var f := v.fields;
      var httpMethod := Required(f, KeyMethod, AsText);
      var body := Optional(f, KeyBody, AsText);
      var max := Required(f, KeyMax, AsU16);
      var min := Required(f, KeyMin, AsU16);
      var insecure := Required(f, KeyInsecure, AsBool);
      var redirects := Optional(f, KeyRedirects, AsUSize);
      var headers := Optional(f, KeyHeaders, AsTextMap);
      var timeout := Optional(f, KeyTimeout, AsI32);
      if httpMethod.None? || body.None? || max.None? || min.None? || insecure.None?
         || redirects.None? || headers.None? || timeout.None? then None
      else Some(HttpMetadata(httpMethod.value, body.value, max.value, min.value, insecure.value,
                             redirects.value, headers.value, timeout.value))
  }

  /** The JSON object that stores `m`; optional fields that are `None` are omitted. */
  function MetadataToJson(m: HttpMetadata): Json {
    var required := map[KeyMethod := JString(m.httpMethod), KeyMax := JNumber(m.successfulMax),
                         KeyMin := JNumber(m.successfulMin), KeyInsecure := JBool(m.insecure)];
    var withBody := if m.body.Some? then required[KeyBody := JString(m.body.value)] else required;
    var withRedirects :=
      if m.followRedirects.Some? then withBody[KeyRedirects := JNumber(m.followRedirects.value)] else withBody;
    var withHeaders :=
      if m.headers.Some? then withRedirects[KeyHeaders := HeadersToJson(m.headers.value)] else withRedirects;
    var withTimeout := if m.timeout.Some? then withHeaders[KeyTimeout := JNumber(m.timeout.value)] else withHeaders;
    JObject(withTimeout)
  }

  function HeadersToJson(h: map<Text, Text>): Json {
    JObject(map k | k in h :: JString(h[k]))
  }

  /** Every metadata value survives being written as JSON and read back. */
  lemma {:induction false} MetadataJsonRoundTrip(m: HttpMetadata)
    ensures MetadataFromJson(MetadataToJson(m)) == Some(m)
  {
    RequiredFieldsRead(m);
    OptionalFieldsRead(m);
  }

  lemma RequiredFieldsRead(m: HttpMetadata)
    ensures var f := MetadataToJson(m).fields;
      && Required(f, KeyMethod, AsText) == Some(m.httpMethod)
      && Required(f, KeyMax, AsU16) == Some(m.successfulMax)
      && Required(f, KeyMin, AsU16) == Some(m.successfulMin)
      && Required(f, KeyInsecure, AsBool) == Some(m.insecure)
  {
  }

  lemma OptionalFieldsRead(m: HttpMetadata)
    ensures var f := MetadataToJson(m).fields;
      && Optional(f, KeyBody, AsText) == Some(m.body)
      && Optional(f, KeyRedirects, AsUSize) == Some(m.followRedirects)
      && Optional(f, KeyHeaders, AsTextMap) == Some(m.headers)
      && Optional(f, KeyTimeout, AsI32) == Some(m.timeout)
  {
    if m.headers.Some? {
      HeadersJsonRoundTrip(m.headers.value);
    }
  }

  lemma HeadersJsonRoundTrip(h: map<Text, Text>)
    ensures AsTextMap(HeadersToJson(h)) == Some(h)
  {
    var v := HeadersToJson(h);
    assert forall k | k in v.fields :: v.fields[k].JString?;
    assert (map k | k in v.fields :: v.fields[k].s) == h;
  }

  // ---------------------------------------------------------------------------
  // Client configuration (`build_request`)

  /** A positive `r` follows up to that many redirects; absent or zero follows none. */
  function RedirectPolicyFor(followRedirects: Option<USize>): (p: RedirectPolicy)
    ensures p.Limited? <==> followRedirects.Some? && followRedirects.value > 0
    ensures p.Limited? ==> p.max == followRedirects.value
  {
    match followRedirects
    case Some(v) => if v > 0 then Limited(v) else NoRedirects
    case None => NoRedirects
  }

  /** `t as u64` when `t` is given (a negative `t` sign-extends), else the default. */
  function ClientTimeoutSecs(timeout: Option<I32>, default: U64): (secs: U64)
    ensures timeout.None? ==> secs == default
    ensures timeout.Some? ==> (secs - timeout.value) % 0x1_0000_0000_0000_0000 == 0
  {
    match timeout
    case Some(t) => I64AsU64(t)
    case None => default
  }

  /** A non-negative timeout is taken as is; a negative one becomes an enormous one. */
  lemma {:induction false} ClientTimeoutSecsValues(t: I32, default: U64)
    ensures t >= 0 ==> ClientTimeoutSecs(Some(t), default) == t
    ensures t < 0 ==> ClientTimeoutSecs(Some(t), default) >= 0xFFFF_FFFF_8000_0000
  {
  }

  /** The client `build_request` configures: both checks relaxed together, the policy, the timeout, the agent. */
  function ClientFor(meta: HttpMetadata, env: HttpEnv): (c: ClientConfig)
    ensures c.acceptInvalidCerts == c.acceptInvalidHostnames == meta.insecure
    ensures c.redirect == RedirectPolicyFor(meta.followRedirects)
    ensures c.redirect.Limited? <==> meta.followRedirects.Some? && meta.followRedirects.value > 0
    ensures c.timeoutSecs == ClientTimeoutSecs(meta.timeout, env.defaultTimeoutSecs)
    ensures meta.timeout.None? ==> c.timeoutSecs == env.defaultTimeoutSecs
    ensures meta.timeout.Some? && meta.timeout.value >= 0 ==> c.timeoutSecs == meta.timeout.value
    ensures c.userAgent == env.userAgent
  {
    ClientConfig(
      meta.insecure, meta.insecure,
      RedirectPolicyFor(meta.followRedirects),
      ClientTimeoutSecs(meta.timeout, env.defaultTimeoutSecs),
      env.userAgent)
  }

  // ---------------------------------------------------------------------------
  // Validation and classification (`ping`)

  predicate BodyOk(meta: HttpMetadata, env: HttpEnv) {
    meta.body.Some? ==> env.base64Decode(meta.body.value).Some?
  }

  /** The entry for `n` is a valid header name and value. */
  predicate HeaderOk(hm: map<Text, Text>, env: HttpEnv, n: Text)
    requires n in hm
  {
    env.headerNameOk(n) && env.headerValueOk(hm[n])
  }

  predicate HeadersOk(meta: HttpMetadata, env: HttpEnv) {
    meta.headers.Some? ==> forall n | n in meta.headers.value :: HeaderOk(meta.headers.value, env, n)
  }

  /** Every check that runs before a request is sent passes. */
  predicate RequestValid(meta: HttpMetadata, env: HttpEnv) {
    && env.methodOk(meta.httpMethod)
    && env.clientBuilds(ClientFor(meta, env))
    && BodyOk(meta, env)
    && HeadersOk(meta, env)
  }

  /** A response is `Up` iff its status lies in `[min, max]`, both ends included. */
  function Classify(status: U16, min: U16, max: U16, elapsedMs: I64): (r: PingResponse)
    ensures r.Up? <==> min <= status <= max
    ensures !r.Timeout? && r.status == status
    ensures (r.responseTime - elapsedMs) % 0x1_0000_0000_0000_0000 == 0
  {
    if status >= min && status <= max then PingResponse.Up(I64AsU64(elapsedMs), status)
    else PingResponse.Down(I64AsU64(elapsedMs), status)
  }

  /** An empty range (`min > max`) makes every response `Down`; both bounds are inclusive. */
  lemma {:induction false} ClassifyRanges(status: U16, min: U16, max: U16, elapsedMs: I64)
    ensures min > max ==> Classify(status, min, max, elapsedMs).Down?
    ensures Classify(min, min, max, elapsedMs).Up? <==> min <= max
    ensures Classify(max, min, max, elapsedMs).Up? <==> min <= max
    ensures elapsedMs >= 0 ==> Classify(status, min, max, elapsedMs).responseTime == elapsedMs
  {
  }

  /** What a sent request yields: a transport timeout is an outcome, not an error. */
  function Outcome(meta: HttpMetadata, transport: Transport): (r: Result<PingResponse, PingError>)
    ensures r == Success(PingResponse.Timeout) <==> transport.TimedOut?
    ensures r.Failure? <==> transport.Failed?
    ensures transport.Responded? ==> r.Success? && r.value.status == transport.status
    ensures transport.Responded? ==>
      (r.value.Up? <==> meta.successfulMin <= transport.status <= meta.successfulMax)
  {
    match transport
    case Responded(status, elapsed) => Success(Classify(status, meta.successfulMin, meta.successfulMax, elapsed))
    case TimedOut => Success(PingResponse.Timeout)
    case Failed => Failure(RequestFailed)
  }

  /** The response `ping` reports, or `None` when it reports an error. */
  function ExpectedResponse(meta: HttpMetadata, env: HttpEnv, transport: Transport): Option<PingResponse> {
    if RequestValid(meta, env) && !transport.Failed? then Some(Outcome(meta, transport).value) else None
  }

  function Names(hs: seq<(Text, Text)>): set<Text> {
    set i | 0 <= i < |hs| :: hs[i].0
  }

  lemma NamesAppend(hs: seq<(Text, Text)>, h: (Text, Text))
    ensures Names(hs + [h]) == Names(hs) + {h.0}
  {
    assert (hs + [h])[|hs|] == h;
    forall i | 0 <= i < |hs| ensures (hs + [h])[i] == hs[i] { }
  }

  /** Every header is an entry of the map. */
  predicate EntriesOf(hs: seq<(Text, Text)>, m: map<Text, Text>) {
    forall i | 0 <= i < |hs| :: hs[i].0 in m && hs[i].1 == m[hs[i].0]
  }

  /** The headers of a request are exactly the entries of the map, once each. */
  predicate HeadersFrom(hs: seq<(Text, Text)>, m: map<Text, Text>) {
    Names(hs) == m.Keys && |hs| == |m.Keys| && EntriesOf(hs, m)
  }

  /** `e` is the error for an entry of `hm` that is invalid: its name, or else its value. */
  predicate ReportsInvalidHeader(hm: map<Text, Text>, env: HttpEnv, e: PingError) {
    match e
    case InvalidHeaderName(n) => n in hm && !env.headerNameOk(n)
    case InvalidHeaderValue(n, v) => n in hm && env.headerNameOk(n) && v == hm[n] && !env.headerValueOk(v)
    case _ => false
  }

  /**
   * The header loop of `ping`: each name, then its value, is validated in the
   * map's iteration order (any order here), and the first invalid entry is
   * returned; otherwise every entry becomes one header of the request.
   */
  method CheckHeaders(hm: map<Text, Text>, env: HttpEnv) returns (r: Result<seq<(Text, Text)>, PingError>)
    ensures r.Success? <==> forall n | n in hm :: HeaderOk(hm, env, n)
    ensures r.Success? ==> HeadersFrom(r.value, hm)
    ensures r.Failure? ==> ReportsInvalidHeader(hm, env, r.error)
  {
    var headers: seq<(Text, Text)> := [];
    var todo := hm.Keys;
    ghost var done: set<Text> := {};
    while todo != {}
      invariant todo <= hm.Keys && done == hm.Keys - todo
      invariant Names(headers) == done && |headers| == |done|
      invariant EntriesOf(headers, hm)
      invariant forall n | n in done :: HeaderOk(hm, env, n)
      decreases todo
    {
      var n :| n in todo;
      if !env.headerNameOk(n) {
        return Failure(InvalidHeaderName(n));
      }
      if !env.headerValueOk(hm[n]) {
        return Failure(InvalidHeaderValue(n, hm[n]));
      }
      AddHeader(headers, done, n, hm);
      headers := headers + [(n, hm[n])];
      done := done + {n};
      todo := todo - {n};
    }
    EmptyDifference(hm.Keys, todo);
    r := Success(headers);
  }

  lemma EmptyDifference(a: set<Text>, b: set<Text>)
    requires b == {}
    ensures a - b == a
  {
  }

  /** One turn of the header loop keeps its invariant. */
  lemma AddHeader(headers: seq<(Text, Text)>, done: set<Text>, n: Text, hm: map<Text, Text>)
    requires n in hm && n !in done
    requires Names(headers) == done && |headers| == |done| && EntriesOf(headers, hm)
    ensures Names(headers + [(n, hm[n])]) == done + {n} && |headers + [(n, hm[n])]| == |done + {n}|
    ensures EntriesOf(headers + [(n, hm[n])], hm)
  {
    NamesAppend(headers, (n, hm[n]));
  }

  /**
   * `ping`: the method, then the client, then the base64 body, then each header
   * name and value, in the map's iteration order. The first failure is returned
   * and no request is sent; otherwise the request is sent and its outcome
   * classified.
   */
  method Ping(target: Text, meta: HttpMetadata, env: HttpEnv, transport: Transport)
    returns (r: Result<PingResponse, PingError>, sent: Option<Request>)
    ensures sent.Some? <==> RequestValid(meta, env)
    ensures sent.Some? ==> r == Outcome(meta, transport)
    ensures sent.Some? ==>
      && sent.value.httpMethod == meta.httpMethod
      && sent.value.url == target
      && sent.value.client == ClientFor(meta, env)
      && (meta.body.None? ==> sent.value.body.None?)
      && (meta.body.Some? ==> sent.value.body == env.base64Decode(meta.body.value))
      && (meta.headers.None? ==> sent.value.headers == [])
      && (meta.headers.Some? ==> HeadersFrom(sent.value.headers, meta.headers.value))
    ensures !env.methodOk(meta.httpMethod) ==> r == Failure(InvalidMethod)
    ensures env.methodOk(meta.httpMethod) && !env.clientBuilds(ClientFor(meta, env)) ==>
      r == Failure(ClientBuildFailed)
    ensures env.methodOk(meta.httpMethod) && env.clientBuilds(ClientFor(meta, env)) && !BodyOk(meta, env) ==>
      r == Failure(InvalidBody)
    ensures (env.methodOk(meta.httpMethod) && env.clientBuilds(ClientFor(meta, env)) && BodyOk(meta, env)
             && !HeadersOk(meta, env)) ==>
      r.Failure? && ReportsInvalidHeader(meta.headers.value, env, r.error)
    ensures r.Success? ==> ExpectedResponse(meta, env, transport) == Some(r.value)
    ensures r.Failure? ==> ExpectedResponse(meta, env, transport).None?
  {
    sent := None;
    if !env.methodOk(meta.httpMethod) {
      return Failure(InvalidMethod), None;
    }
    var client := ClientFor(meta, env);
    if !env.clientBuilds(client) {
      return Failure(ClientBuildFailed), None;
    }
    var body: Option<Bytes> := None;
    if meta.body.Some? {
      body := env.base64Decode(meta.body.value);
      if body.None? {
        return Failure(InvalidBody), None;
      }
    }
    var headers: seq<(Text, Text)> := [];
    if meta.headers.Some? {
      var checked := CheckHeaders(meta.headers.value, env);
      if checked.Failure? {
        return Failure(checked.error), None;
      }
      headers := checked.value;
    }
    sent := Some(Request(meta.httpMethod, target, body, headers, client));
    r := Outcome(meta, transport);
  }
}
