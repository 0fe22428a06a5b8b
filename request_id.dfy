/**
 * Trace, span and parent-span identifiers of an inbound request
 * (dmutils/request_id.py): resolving them from ordered lists of candidate
 * header names, caching each on first read, building the headers forwarded
 * to downstream services, appending the trace id to the response, and the
 * configuration defaults `init_app` installs.
 */
module RequestId {
  import opened Wrappers
  import opened Strings

  /** Headers as (name, value) pairs in the order they arrived or were added. */
  type HeaderList = seq<(string, string)>

  const DEFAULT_REQUEST_ID_HEADER := "DM-Request-ID"
  const DEFAULT_DOWNSTREAM_REQUEST_ID_HEADER := "X-B3-TraceId"
  const DEFAULT_SPAN_ID_HEADER := "X-B3-SpanId"
  const DEFAULT_PARENT_SPAN_ID_HEADER := "X-B3-ParentSpan"

  // ---------------------------------------------------------------------------
  // Inbound header lookup

  /** An inbound header named `key` answers to the name `name`. */
  predicate NameMatches(key: string, name: string) {
    EqualsIgnoreCase(key, name)
  }

  /**
   * `headers[name]` on the request's header collection: the value of the first
   * header whose name equals `name` ignoring case, or None when there is none
   * (`name in headers` is `GetHeader(headers, name).Some?`).
   */
  function GetHeader(headers: HeaderList, name: string): (r: Option<string>)
    ensures r.None? <==> forall i :: 0 <= i < |headers| ==> !NameMatches(headers[i].0, name)
    ensures r.Some? ==> exists i :: (0 <= i < |headers| && NameMatches(headers[i].0, name)
      && headers[i].1 == r.value
      && forall j :: 0 <= j < i ==> !NameMatches(headers[j].0, name))
  {
    if headers == [] then None
    else if NameMatches(headers[0].0, name) then Some(headers[0].1)
    else
      var r := GetHeader(headers[1..], name);
      assert forall i :: 1 <= i < |headers| ==> headers[i] == headers[1..][i - 1];
      r
  }

  /** `header_name in self.headers and self.headers[header_name]`: present and non-empty. */
  predicate Qualifies(headers: HeaderList, name: string) {
    GetHeader(headers, name).Some? && GetHeader(headers, name).value != ""
  }

  /**
   * `_get_first_header`: the value of the earliest candidate name that
   * qualifies, or None when no candidate does.
   */
  function FirstHeader(headers: HeaderList, names: seq<string>): (r: Option<string>)
    ensures r.None? <==> forall i :: 0 <= i < |names| ==> !Qualifies(headers, names[i])
    ensures r.Some? ==> r.value != ""
  {
    if names == [] then None
    else if Qualifies(headers, names[0]) then GetHeader(headers, names[0])
    else
      var r := FirstHeader(headers, names[1..]);
      assert forall i :: 1 <= i < |names| ==> names[i] == names[1..][i - 1];
      r
  }

  /** `names[i]` is the earliest candidate name that qualifies. */
  predicate EarliestQualifying(headers: HeaderList, names: seq<string>, i: nat)
    requires i < |names|
  {
    Qualifies(headers, names[i]) && forall j :: 0 <= j < i ==> !Qualifies(headers, names[j])
  }

  /** A value `_get_first_header` returns comes from the earliest candidate name that qualifies. */
  lemma {:induction false} FirstHeaderIsEarliest(headers: HeaderList, names: seq<string>)
    ensures FirstHeader(headers, names).Some? ==>
      exists i: nat :: (i < |names| && EarliestQualifying(headers, names, i)
        && GetHeader(headers, names[i]).value == FirstHeader(headers, names).value)
    decreases |names|
  {
    if names == [] {
    } else if Qualifies(headers, names[0]) {
      assert EarliestQualifying(headers, names, 0);
    } else {
      FirstHeaderIsEarliest(headers, names[1..]);
      var r := FirstHeader(headers, names[1..]);
      if r.Some? {
        var i: nat :| i < |names[1..]| && EarliestQualifying(headers, names[1..], i)
          && GetHeader(headers, names[1..][i]).value == r.value;
        EarliestShift(headers, names, i);
      }
    }
  }

  /** Behind a candidate that does not qualify, the earliest qualifying index moves up by one. */
  lemma EarliestShift(headers: HeaderList, names: seq<string>, i: nat)
    requires 0 < |names| && !Qualifies(headers, names[0])
    requires i < |names[1..]| && EarliestQualifying(headers, names[1..], i)
    ensures EarliestQualifying(headers, names, i + 1) && names[i + 1] == names[1..][i]
  {
    forall j | 0 <= j < i + 1 ensures !Qualifies(headers, names[j]) {
      if j > 0 {
        assert names[j] == names[1..][j - 1];
      }
    }
  }

  /** No two inbound headers share a name up to case, as in a WSGI environment. */
  predicate DistinctNames(headers: HeaderList) {
    forall i, j :: 0 <= i < j < |headers| ==> !NameMatches(headers[i].0, headers[j].0)
  }

  lemma LookupInDistinct(headers: HeaderList, name: string, i: int)
    requires DistinctNames(headers)
    requires 0 <= i < |headers| && NameMatches(headers[i].0, name)
    ensures GetHeader(headers, name) == Some(headers[i].1)
  {
    var r := GetHeader(headers, name);
    var k :| 0 <= k < |headers| && NameMatches(headers[k].0, name) && headers[k].1 == r.value
      && forall j :: 0 <= j < k ==> !NameMatches(headers[j].0, name);
  }

  /**
   * The order in which headers arrive does not matter: two arrivals of the
   * same headers resolve every candidate list to the same value.
   */
  lemma FirstHeaderIgnoresArrivalOrder(h1: HeaderList, h2: HeaderList, names: seq<string>)
    requires DistinctNames(h1) && DistinctNames(h2)
    requires forall p :: p in h1 <==> p in h2
    ensures FirstHeader(h1, names) == FirstHeader(h2, names)
  {
    forall name | name in names ensures GetHeader(h1, name) == GetHeader(h2, name) {
      SameLookup(h1, h2, name);
      SameLookup(h2, h1, name);
    }
    SameFirstHeader(h1, h2, names);
  }

  lemma SameLookup(h1: HeaderList, h2: HeaderList, name: string)
    requires DistinctNames(h1) && DistinctNames(h2)
    requires forall p :: p in h1 <==> p in h2
    ensures GetHeader(h1, name).Some? ==> GetHeader(h2, name) == GetHeader(h1, name)
  {
    if GetHeader(h1, name).Some? {
      var i :| 0 <= i < |h1| && NameMatches(h1[i].0, name) && h1[i].1 == GetHeader(h1, name).value;
      assert h1[i] in h2;
      var k :| 0 <= k < |h2| && h2[k] == h1[i];
      LookupInDistinct(h2, name, k);
    }
  }

  lemma {:induction false} SameFirstHeader(h1: HeaderList, h2: HeaderList, names: seq<string>)
    requires forall name :: name in names ==> GetHeader(h1, name) == GetHeader(h2, name)
    ensures FirstHeader(h1, names) == FirstHeader(h2, names)
  {
    if names != [] {
      assert names[0] in names;
      assert forall name :: name in names[1..] ==> name in names;
      SameFirstHeader(h1, h2, names[1..]);
    }
  }

  // ---------------------------------------------------------------------------
  // Configuration

  /**
   * The settings `init_app` reads and defaults; None is a key absent from
   * `app.config`.
   */
  datatype AppConfig = AppConfig(
    requestIdHeader: Option<string>,           // DM_REQUEST_ID_HEADER
    downstreamRequestIdHeader: Option<string>, // DM_DOWNSTREAM_REQUEST_ID_HEADER
    traceIdHeaders: Option<seq<string>>,       // DM_TRACE_ID_HEADERS
    spanIdHeaders: Option<seq<string>>,        // DM_SPAN_ID_HEADERS
    parentSpanIdHeaders: Option<seq<string>>   // DM_PARENT_SPAN_ID_HEADERS
  )

  /** The three candidate lists a request reads from `current_app.config`. */
  datatype TraceConfig = TraceConfig(
    traceIdHeaders: seq<string>,
    spanIdHeaders: seq<string>,
    parentSpanIdHeaders: seq<string>
  )

  /** Python's `config.get(key) or default`: an unset or empty setting gives `default`. */
  function OrDefault(setting: Option<string>, default: string): (r: string)
    ensures setting.Some? && setting.value != "" ==> r == setting.value
    ensures setting.None? || setting.value == "" ==> r == default
  {
    if setting.Some? && setting.value != "" then setting.value else default
  }

  /** The three `app.config.setdefault` calls of `init_app`. */
  function WithDefaults(c: AppConfig): (r: AppConfig)
    ensures r.traceIdHeaders.Some? && r.spanIdHeaders.Some? && r.parentSpanIdHeaders.Some?
    ensures r.requestIdHeader == c.requestIdHeader
    ensures r.downstreamRequestIdHeader == c.downstreamRequestIdHeader
    ensures c.traceIdHeaders.Some? ==> r.traceIdHeaders == c.traceIdHeaders
    ensures c.spanIdHeaders.Some? ==> r.spanIdHeaders == c.spanIdHeaders
    ensures c.parentSpanIdHeaders.Some? ==> r.parentSpanIdHeaders == c.parentSpanIdHeaders
  {
    AppConfig(
      c.requestIdHeader,
      c.downstreamRequestIdHeader,
      Some(c.traceIdHeaders.GetOr([
        OrDefault(c.requestIdHeader, DEFAULT_REQUEST_ID_HEADER),
        OrDefault(c.downstreamRequestIdHeader, DEFAULT_DOWNSTREAM_REQUEST_ID_HEADER)])),
      Some(c.spanIdHeaders.GetOr([DEFAULT_SPAN_ID_HEADER])),
      Some(c.parentSpanIdHeaders.GetOr([DEFAULT_PARENT_SPAN_ID_HEADER])))
  }

  /** The candidate lists in force once `init_app` has run. */
  function Resolve(c: AppConfig): (r: TraceConfig)
    ensures c.traceIdHeaders.None? ==> r.traceIdHeaders == [
      OrDefault(c.requestIdHeader, DEFAULT_REQUEST_ID_HEADER),
      OrDefault(c.downstreamRequestIdHeader, DEFAULT_DOWNSTREAM_REQUEST_ID_HEADER)]
    ensures c.spanIdHeaders.None? ==> r.spanIdHeaders == [DEFAULT_SPAN_ID_HEADER]
    ensures c.parentSpanIdHeaders.None? ==> r.parentSpanIdHeaders == [DEFAULT_PARENT_SPAN_ID_HEADER]
  {
    var d := WithDefaults(c);
    TraceConfig(d.traceIdHeaders.value, d.spanIdHeaders.value, d.parentSpanIdHeaders.value)
  }

  /** Running `init_app` twice installs the same settings as running it once. */
  lemma WithDefaultsIdempotent(c: AppConfig)
    ensures WithDefaults(WithDefaults(c)) == WithDefaults(c)
  {
  }

  /**
   * An explicit DM_TRACE_ID_HEADERS is used verbatim, whatever the request and
   * downstream header settings say.
   */
  lemma TraceOverrideIgnoresHeaderSettings(c: AppConfig, requestIdHeader: Option<string>,
                                           downstreamRequestIdHeader: Option<string>)
    requires c.traceIdHeaders.Some?
    ensures Resolve(c).traceIdHeaders == c.traceIdHeaders.value
    ensures Resolve(c.(requestIdHeader := requestIdHeader,
                       downstreamRequestIdHeader := downstreamRequestIdHeader)) == Resolve(c)
  {
  }

  /** An empty DM_REQUEST_ID_HEADER or DM_DOWNSTREAM_REQUEST_ID_HEADER counts as unset. */
  lemma EmptyHeaderSettingIsUnset(c: AppConfig)
    ensures Resolve(c.(requestIdHeader := Some(""))) == Resolve(c.(requestIdHeader := None))
    ensures Resolve(c.(downstreamRequestIdHeader := Some(""))) == Resolve(c.(downstreamRequestIdHeader := None))
  {
  }

  /** With nothing configured, the well-known header names are used. */
  lemma DefaultTraceConfig()
    ensures Resolve(AppConfig(None, None, None, None, None)) == TraceConfig(
      ["DM-Request-ID", "X-B3-TraceId"], ["X-B3-SpanId"], ["X-B3-ParentSpan"])
  {
  }

  // ---------------------------------------------------------------------------
  // Onward headers

  /** Python's `dict(pairs)`: a later pair overwrites an earlier one with the same key. */
  function DictFromPairs(pairs: seq<(string, string)>): map<string, string> {
    if pairs == [] then map[]
    else DictFromPairs(pairs[..|pairs| - 1])[pairs[|pairs| - 1].0 := pairs[|pairs| - 1].1]
  }

  /** Building a dict from two runs of pairs: the second run's values win. */
  lemma {:induction false} DictFromPairsAppend(a: seq<(string, string)>, b: seq<(string, string)>)
    ensures DictFromPairs(a + b) == DictFromPairs(a) + DictFromPairs(b)
    decreases |b|
  {
    if b == [] {
      assert a + b == a;
    } else {
      var init := b[..|b| - 1];
      var last := b[|b| - 1];
      assert (a + b)[..|a + b| - 1] == a + init;
      DictFromPairsAppend(a, init);
    }
  }

  /** `((name, value) for name in names)`. */
  function PairsFor(names: seq<string>, value: string): (ps: seq<(string, string)>)
    ensures |ps| == |names|
    ensures forall i :: 0 <= i < |names| ==> ps[i] == (names[i], value)
  {
    seq(|names|, i requires 0 <= i < |names| => (names[i], value))
  }

  /** Every name mapped to one value. */
  function ConstMap(names: seq<string>, value: string): map<string, string> {
    map n | n in names :: value
  }

  lemma {:induction false} DictOfPairsFor(names: seq<string>, value: string)
    ensures DictFromPairs(PairsFor(names, value)) == ConstMap(names, value)
    decreases |names|
  {
    if names != [] {
      var init := names[..|names| - 1];
      assert PairsFor(names, value)[..|names| - 1] == PairsFor(init, value);
      DictOfPairsFor(init, value);
      assert forall n :: n in names <==> n in init || n == names[|names| - 1];
    }
  }

  /**
   * `get_onwards_request_headers` on given identifier values: every trace
   * header name mapped to the trace id, then (overwriting) every span header
   * name mapped to the span id, each part only when its value is truthy.
   */
  function OnwardHeaders(traceNames: seq<string>, traceId: string,
                         spanNames: seq<string>, spanId: Option<string>): map<string, string>
  {
    DictFromPairs(
      (if traceId != "" then PairsFor(traceNames, traceId) else []) +
      (if spanId.Some? && spanId.value != "" then PairsFor(spanNames, spanId.value) else []))
  }

  /** A span id that `get_onwards_request_headers` forwards. */
  predicate Truthy(id: Option<string>) {
    id.Some? && id.value != ""
  }

  /**
   * The keys of the onward headers are the trace header names (when the trace
   * id is non-empty) and the span header names (when a span id is present);
   * a name in both lists carries the span id; nothing else is a key.
   */
  lemma OnwardHeadersSpec(traceNames: seq<string>, traceId: string,
                          spanNames: seq<string>, spanId: Option<string>)
    ensures var m := OnwardHeaders(traceNames, traceId, spanNames, spanId);
      && (forall n :: n in m <==> (traceId != "" && n in traceNames) || (Truthy(spanId) && n in spanNames))
      && (forall n :: n in m && Truthy(spanId) && n in spanNames ==> m[n] == spanId.value)
      && (forall n :: n in m && !(Truthy(spanId) && n in spanNames) ==> m[n] == traceId)
  {
    var tp := if traceId != "" then PairsFor(traceNames, traceId) else [];
    var sp := if Truthy(spanId) then PairsFor(spanNames, spanId.value) else [];
    DictFromPairsAppend(tp, sp);
    if traceId != "" {
      DictOfPairsFor(traceNames, traceId);
    }
    if Truthy(spanId) {
      DictOfPairsFor(spanNames, spanId.value);
    }
  }

  /**
   * Parent-span header names are never forwarded: a parent-span name is a key
   * of the onward headers only if it is also a trace or span header name.
   */
  lemma ParentSpanNeverForwarded(config: TraceConfig, traceId: string, spanId: Option<string>, name: string)
    requires name in config.parentSpanIdHeaders
    requires name !in config.traceIdHeaders && name !in config.spanIdHeaders
    ensures name !in OnwardHeaders(config.traceIdHeaders, traceId, config.spanIdHeaders, spanId)
  {
    OnwardHeadersSpec(config.traceIdHeaders, traceId, config.spanIdHeaders, spanId);
  }

  // ---------------------------------------------------------------------------
  // The request

  /**
   * A request carrying `RequestIdRequestMixin`. Each identifier is cached in
   * its own field the first time it is read (`hasattr` is `Some?`);
   * `uuidCalls` counts the calls this request made to `uuid.uuid4`.
   */
  class Request {
    const headers: HeaderList
    const config: TraceConfig
    var traceIdCache: Option<string>
    var spanIdCache: Option<Option<string>>
    var parentSpanIdCache: Option<Option<string>>
    var uuidCalls: nat

    /**
     * A cached trace id is the first matching trace header when there is one
     * (otherwise a generated, non-empty value); the generator has been called
     * once exactly when that value was generated; cached span and parent-span
     * ids are their first matching headers.
     */
    ghost predicate Valid()
      reads this
    {
      && (traceIdCache.Some? ==> traceIdCache.value != "")
      && (traceIdCache.Some? && FirstHeader(headers, config.traceIdHeaders).Some? ==>
            traceIdCache == FirstHeader(headers, config.traceIdHeaders))
      && uuidCalls == (if traceIdCache.Some? && FirstHeader(headers, config.traceIdHeaders).None? then 1 else 0)
      && (spanIdCache.Some? ==> spanIdCache.value == FirstHeader(headers, config.spanIdHeaders))
      && (parentSpanIdCache.Some? ==> parentSpanIdCache.value == FirstHeader(headers, config.parentSpanIdHeaders))
    }

    constructor (headers: HeaderList, config: TraceConfig)
      ensures Valid()
      ensures this.headers == headers && this.config == config
      ensures traceIdCache.None? && spanIdCache.None? && parentSpanIdCache.None? && uuidCalls == 0
    {
      this.headers := headers;
      this.config := config;
      traceIdCache := None;
      spanIdCache := None;
      parentSpanIdCache := None;
      uuidCalls := 0;
    }

    /** `_get_first_header`: scan the candidate names in order and stop at the first that qualifies. */
    method GetFirstHeader(names: seq<string>) returns (r: Option<string>)
      ensures r == FirstHeader(headers, names)
    {
      var i := 0;
      while i < |names|
        invariant 0 <= i <= |names|
        invariant FirstHeader(headers, names[i..]) == FirstHeader(headers, names)
      {
        var value := GetHeader(headers, names[i]);
        if value.Some? && value.value != "" {
          assert names[i..][0] == names[i];
          return value;
        }
        assert names[i..][1..] == names[i + 1..];
        i := i + 1;
      }
      return None;
    }

    /**
     * The `trace_id` property. `generated` is the value `str(uuid.uuid4())`
     * gives if it is called; it is called only when nothing is cached and no
     * trace header qualifies.
     */
    method TraceId(generated: string) returns (traceId: string)
      requires Valid() && generated != ""
      modifies this`traceIdCache, this`uuidCalls
      ensures Valid()
      ensures traceIdCache == Some(traceId) && traceId != ""
      ensures old(traceIdCache).Some? ==> traceId == old(traceIdCache).value
      ensures old(traceIdCache).None? ==>
        traceId == FirstHeader(headers, config.traceIdHeaders).GetOr(generated)
      ensures uuidCalls == old(uuidCalls) +
        (if old(traceIdCache).None? && FirstHeader(headers, config.traceIdHeaders).None? then 1 else 0)
    {
      if traceIdCache.None? {
        var first := GetFirstHeader(config.traceIdHeaders);
        if first.Some? {
          traceIdCache := first;
        } else {
          traceIdCache := Some(generated);
          uuidCalls := uuidCalls + 1;
        }
      }
      traceId := traceIdCache.value;
    }

    /** The `request_id` property, another name for `trace_id`. */
    method RequestId(generated: string) returns (requestId: string)
      requires Valid() && generated != ""
      modifies this`traceIdCache, this`uuidCalls
      ensures Valid()
      ensures traceIdCache == Some(requestId) && requestId != ""
      ensures old(traceIdCache).Some? ==> requestId == old(traceIdCache).value
      ensures old(traceIdCache).None? ==>
        requestId == FirstHeader(headers, config.traceIdHeaders).GetOr(generated)
      ensures uuidCalls == old(uuidCalls) +
        (if old(traceIdCache).None? && FirstHeader(headers, config.traceIdHeaders).None? then 1 else 0)
    {
      requestId := TraceId(generated);
    }

    /** The `span_id` property: never generated, None when no span header qualifies. */
    method SpanId() returns (spanId: Option<string>)
      requires Valid()
      modifies this`spanIdCache
      ensures Valid()
      ensures spanId == FirstHeader(headers, config.spanIdHeaders)
      ensures spanIdCache == Some(spanId)
    {
      if spanIdCache.None? {
        var first := GetFirstHeader(config.spanIdHeaders);
        spanIdCache := Some(first);
      }
      spanId := spanIdCache.value;
    }

    /** The `parent_span_id` property: never generated, None when no parent-span header qualifies. */
    method ParentSpanId() returns (parentSpanId: Option<string>)
      requires Valid()
      modifies this`parentSpanIdCache
      ensures Valid()
      ensures parentSpanId == FirstHeader(headers, config.parentSpanIdHeaders)
      ensures parentSpanIdCache == Some(parentSpanId)
    {
      if parentSpanIdCache.None? {
        var first := GetFirstHeader(config.parentSpanIdHeaders);
        parentSpanIdCache := Some(first);
      }
      parentSpanId := parentSpanIdCache.value;
    }

    /**
     * `get_onwards_request_headers`. The generators read `trace_id` (and
     * `span_id`) only when their list of names is non-empty, so only then can
     * the trace id be generated here.
     */
    method GetOnwardsRequestHeaders(generated: string) returns (onwards: map<string, string>)
      requires Valid() && generated != ""
      modifies this`traceIdCache, this`uuidCalls, this`spanIdCache
      ensures Valid()
      ensures |config.traceIdHeaders| > 0 ==> traceIdCache.Some?
      ensures old(traceIdCache).Some? ==> traceIdCache == old(traceIdCache) && uuidCalls == old(uuidCalls)
      ensures |config.traceIdHeaders| == 0 ==>
        traceIdCache == old(traceIdCache) && uuidCalls == old(uuidCalls)
      ensures old(traceIdCache).None? && |config.traceIdHeaders| > 0 ==>
        traceIdCache == Some(FirstHeader(headers, config.traceIdHeaders).GetOr(generated))
      ensures |config.spanIdHeaders| == 0 ==> spanIdCache == old(spanIdCache)
      ensures |config.spanIdHeaders| > 0 ==> spanIdCache == Some(FirstHeader(headers, config.spanIdHeaders))
      ensures onwards == OnwardHeaders(config.traceIdHeaders, traceIdCache.GetOr(""),
                                       config.spanIdHeaders, FirstHeader(headers, config.spanIdHeaders))
    {
      var traceId := "";
      if |config.traceIdHeaders| > 0 {
        traceId := TraceId(generated);
      }
      var spanId := None;
      if |config.spanIdHeaders| > 0 {
        spanId := SpanId();
      }
      onwards := OnwardHeaders(config.traceIdHeaders, traceId, config.spanIdHeaders, spanId);
    }
  }

  /**
   * One request read the way the request tests read it: `request_id`, then
   * `trace_id`, `span_id`, `parent_span_id` and the onward headers. The two
   * trace reads agree, the generator is called exactly when no trace header
   * qualifies, and the span ids are never generated.
   */
  method ReadRequest(headers: HeaderList, config: TraceConfig, generated: string)
    returns (requestId: string, traceId: string, spanId: Option<string>, parentSpanId: Option<string>,
             onwards: map<string, string>, uuidCalled: bool)
    requires generated != ""
    ensures requestId == traceId == FirstHeader(headers, config.traceIdHeaders).GetOr(generated)
    ensures spanId == FirstHeader(headers, config.spanIdHeaders)
    ensures parentSpanId == FirstHeader(headers, config.parentSpanIdHeaders)
    ensures onwards == OnwardHeaders(config.traceIdHeaders, traceId, config.spanIdHeaders, spanId)
    ensures uuidCalled <==> FirstHeader(headers, config.traceIdHeaders).None?
  {
    var req := new Request(headers, config);
    requestId := req.RequestId(generated);
    traceId := req.TraceId(generated);
    spanId := req.SpanId();
    parentSpanId := req.ParentSpanId();
    onwards := req.GetOnwardsRequestHeaders(generated);
    uuidCalled := req.uuidCalls > 0;
  }

  /**
   * Every trace header name carries the trace id onwards unless it is also a
   * span header name and a span id was received; span header names are keys
   * only when a span id was received.
   */
  lemma OnwardHeadersOfRequest(headers: HeaderList, config: TraceConfig, traceId: string)
    requires traceId != ""
    ensures var span := FirstHeader(headers, config.spanIdHeaders);
      var m := OnwardHeaders(config.traceIdHeaders, traceId, config.spanIdHeaders, span);
      && (forall n :: n in config.traceIdHeaders && !(span.Some? && n in config.spanIdHeaders) ==>
            n in m && m[n] == traceId)
      && (forall n :: n in config.spanIdHeaders ==> (n in m <==> span.Some? || n in config.traceIdHeaders))
      && (span.Some? ==> forall n :: n in config.spanIdHeaders ==> m[n] == span.value)
  {
    var span := FirstHeader(headers, config.spanIdHeaders);
    OnwardHeadersSpec(config.traceIdHeaders, traceId, config.spanIdHeaders, span);
  }

  // ---------------------------------------------------------------------------
  // Response headers

  /** The keys of `dict(headers)`. */
  function HeaderNames(headers: HeaderList): set<string> {
    set i | 0 <= i < |headers| :: headers[i].0
  }

  /** `[(name, requestId) for name in names if name not in present]`. */
  function MissingHeaders(names: seq<string>, present: set<string>, requestId: string): (ps: HeaderList)
    ensures forall i :: 0 <= i < |ps| ==> ps[i].0 in names && ps[i].0 !in present && ps[i].1 == requestId
    ensures forall n :: n in names && n !in present ==> (n, requestId) in ps
    ensures |ps| == 0 <==> forall n :: n in names ==> n in present
  {
    if names == [] then []
    else
      var rest := MissingHeaders(names[1..], present, requestId);
      assert forall n :: n in names[1..] ==> n in names;
      assert forall n :: n in names && n != names[0] ==> n in names[1..];
      if names[0] !in present then [(names[0], requestId)] + rest else rest
  }

  /**
   * `rewrite_response_headers`: the response headers, unchanged and in order,
   * followed by `(name, request id)` for each trace header name that is not
   * already (exactly) one of their names.
   */
  function RewriteResponseHeaders(traceIdHeaders: seq<string>, requestId: string, headers: HeaderList): (r: HeaderList)
    ensures |r| >= |headers| && r[..|headers|] == headers
    ensures forall i :: |headers| <= i < |r| ==>
      r[i].0 in traceIdHeaders && r[i].0 !in HeaderNames(headers) && r[i].1 == requestId
    ensures forall n :: n in traceIdHeaders && n !in HeaderNames(headers) ==> (n, requestId) in r[|headers|..]
    ensures forall n :: n in traceIdHeaders ==> n in HeaderNames(r)
  {
    var extra := MissingHeaders(traceIdHeaders, HeaderNames(headers), requestId);
    var r := headers + extra;
    assert r[|headers|..] == extra;
    forall n | n in traceIdHeaders ensures n in HeaderNames(r) {
      if n in HeaderNames(headers) {
        var i :| 0 <= i < |headers| && headers[i].0 == n;
        assert r[i].0 == n;
      } else {
        var i :| 0 <= i < |extra| && extra[i] == (n, requestId);
        assert r[|headers| + i].0 == n;
      }
    }
    r
  }

  /**
   * Looking the trace header up on the rewritten response gives the request id
   * whenever the application's own headers carried no header of that name.
   */
  lemma ResponseCarriesTraceId(traceIdHeaders: seq<string>, requestId: string, headers: HeaderList, name: string)
    requires name in traceIdHeaders
    requires forall i :: 0 <= i < |headers| ==> !NameMatches(headers[i].0, name)
    ensures GetHeader(RewriteResponseHeaders(traceIdHeaders, requestId, headers), name) == Some(requestId)
  {
    var r := RewriteResponseHeaders(traceIdHeaders, requestId, headers);
    assert name !in HeaderNames(headers);
    var j :| 0 <= j < |r[|headers|..]| && r[|headers|..][j] == (name, requestId);
    assert r[|headers| + j].0 == name;
    var v := GetHeader(r, name);
    var i :| 0 <= i < |r| && NameMatches(r[i].0, name) && r[i].1 == v.value;
  }

  /** What the wrapped application did with the request. */
  datatype HandlerOutcome =
    | Returned(status: string, headers: HeaderList)
    | Raised

  /** The status Flask answers with when a view raises an unhandled exception. */
  const INTERNAL_SERVER_ERROR := "500 INTERNAL SERVER ERROR"

  /**
   * The arguments the wrapped application passes to `start_response`: its own
   * response, or Flask's error page (with headers `errorHeaders`) after an
   * unhandled exception.
   */
  function StartResponseArgs(outcome: HandlerOutcome, errorHeaders: HeaderList): (string, HeaderList) {
    match outcome
    case Returned(status, headers) => (status, headers)
    case Raised => (INTERNAL_SERVER_ERROR, errorHeaders)
  }

  /**
   * `ResponseHeaderMiddleware.__call__`: the status and headers passed on to
   * the server's `start_response`. `request_id` is read only when some trace
   * header is missing, the same way the comprehension evaluates it.
   */
  method ResponseHeaderMiddleware(traceIdHeaders: seq<string>, req: Request, outcome: HandlerOutcome,
                                  errorHeaders: HeaderList, generated: string)
    returns (status: string, headers: HeaderList)
    requires req.Valid() && generated != ""
    modifies req`traceIdCache, req`uuidCalls
    ensures req.Valid()
    ensures status == StartResponseArgs(outcome, errorHeaders).0
    ensures headers == RewriteResponseHeaders(traceIdHeaders, req.traceIdCache.GetOr(""),
                                              StartResponseArgs(outcome, errorHeaders).1)
    ensures |headers| > |StartResponseArgs(outcome, errorHeaders).1| ==> req.traceIdCache.Some?
    ensures old(req.traceIdCache).Some? ==> req.traceIdCache == old(req.traceIdCache)
    ensures |headers| == |StartResponseArgs(outcome, errorHeaders).1| ==>
      req.traceIdCache == old(req.traceIdCache) && req.uuidCalls == old(req.uuidCalls)
    ensures old(req.traceIdCache).None? && |headers| > |StartResponseArgs(outcome, errorHeaders).1| ==>
      req.traceIdCache == Some(FirstHeader(req.headers, req.config.traceIdHeaders).GetOr(generated))
  {
    var appStatus, appHeaders := StartResponseArgs(outcome, errorHeaders).0, StartResponseArgs(outcome, errorHeaders).1;
    var missing := MissingHeaders(traceIdHeaders, HeaderNames(appHeaders), "");
    var requestId := req.traceIdCache.GetOr("");
    if |missing| > 0 {
      requestId := req.RequestId(generated);
    }
    status := appStatus;
    headers := RewriteResponseHeaders(traceIdHeaders, requestId, appHeaders);
  }

  /**
   * On a normal response and on the 500 error page alike, each trace header
   * name the response lacks is answered with the request's trace id.
   */
  lemma TraceIdOnEveryResponse(traceIdHeaders: seq<string>, requestId: string, outcome: HandlerOutcome,
                               errorHeaders: HeaderList, name: string)
    requires name in traceIdHeaders
    requires forall i :: 0 <= i < |StartResponseArgs(outcome, errorHeaders).1| ==>
      !NameMatches(StartResponseArgs(outcome, errorHeaders).1[i].0, name)
    ensures GetHeader(RewriteResponseHeaders(traceIdHeaders, requestId,
                                             StartResponseArgs(outcome, errorHeaders).1), name) == Some(requestId)
  {
    ResponseCarriesTraceId(traceIdHeaders, requestId, StartResponseArgs(outcome, errorHeaders).1, name);
  }

  // ---------------------------------------------------------------------------
  // init_app

  /**
   * The parts of a Flask application `init_app` touches: its configuration,
   * whether its request class has the request-id mixin, and the trace header
   * lists of the `ResponseHeaderMiddleware` layers wrapped around its WSGI
   * application (innermost first).
   */
  class App {
    var config: AppConfig
    var hasRequestIdRequest: bool
    var middleware: seq<seq<string>>

    constructor (config: AppConfig)
      ensures this.config == config && !hasRequestIdRequest && middleware == []
    {
      this.config := config;
      hasRequestIdRequest := false;
      middleware := [];
    }
  }

  /** `init_app`: default the three lists, install the request class, wrap the WSGI application. */
  method InitApp(app: App)
    modifies app
    ensures app.config == WithDefaults(old(app.config))
    ensures app.hasRequestIdRequest
    ensures app.middleware == old(app.middleware) + [Resolve(old(app.config)).traceIdHeaders]
  {
    app.config := WithDefaults(app.config);
    app.hasRequestIdRequest := true;
    app.middleware := app.middleware + [app.config.traceIdHeaders.value];
  }
}
