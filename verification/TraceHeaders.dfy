/** Writing a trace context into request headers and reading it back. */
module TraceHeaders {
  import opened Prelude
  import opened JsString
  import opened Traceparents
  import opened Baggages

  const TRACEPARENT_HEADER := "traceparent"
  const TRACESTATE_HEADER := "tracestate"
  const BAGGAGE_HEADER := "baggage"

  datatype Header = Header(name: string, value: string)

  /** A record of headers, in the order its keys are enumerated; names that differ in letter case are different keys. */
  type Headers = seq<Header>

  datatype TraceContext = TraceContext(trace: Trace, traceState: Option<string>, baggage: Option<Baggage>)

  /** Position of the first header with that name in any letter case; the length when there is none. */
  function Find(headers: Headers, name: string): (i: nat)
    ensures i <= |headers|
    ensures i < |headers| ==> ToLower(headers[i].name) == name
    ensures forall j :: 0 <= j < i ==> ToLower(headers[j].name) != name
  {
    if headers == [] || ToLower(headers[0].name) == name then 0 else Find(headers[1..], name) + 1
  }

  predicate HasHeader(headers: Headers, name: string) { Find(headers, name) < |headers| }

  function ReadHeader(headers: Headers, name: string): Option<string> {
    var i := Find(headers, name);
    if i < |headers| then Some(headers[i].value) else None
  }

  function SetHeader(headers: Headers, name: string, value: string): Headers {
    var i := Find(headers, name);
    if i < |headers| then headers[i := headers[i].(value := value)] else headers + [Header(name, value)]
  }

  /** An absent or empty string counts as nothing. */
  function Truthy(s: Option<string>): Option<string> { if s == Some("") then None else s }

  function Extract(headers: Headers): Option<TraceContext> {
    match ParseTraceparent(ReadHeader(headers, TRACEPARENT_HEADER))
    case None => None
    case Some(parsed) =>
      Some(TraceContext(parsed, Truthy(ReadHeader(headers, TRACESTATE_HEADER)),
                        ParseBaggage(ReadHeader(headers, BAGGAGE_HEADER))))
  }

  function WithTraceState(headers: Headers, c: TraceContext, overwrite: bool): Headers {
    if Truthy(c.traceState).Some? && (overwrite || !HasHeader(headers, TRACESTATE_HEADER))
    then SetHeader(headers, TRACESTATE_HEADER, c.traceState.value) else headers
  }

  function WithBaggage(headers: Headers, c: TraceContext, order: seq<string>, overwrite: bool): Headers
    requires c.baggage.Some? ==> forall i :: 0 <= i < |order| ==> order[i] in c.baggage.value
  {
    if c.baggage.Some? && c.baggage.value != map[] && (overwrite || !HasHeader(headers, BAGGAGE_HEADER))
    then SetHeader(headers, BAGGAGE_HEADER, FormatBaggage(c.baggage.value, order)) else headers
  }

  function Inject(headers: Headers, c: TraceContext, order: seq<string>, overwrite: bool): Headers
    requires c.baggage.Some? ==> forall i :: 0 <= i < |order| ==> order[i] in c.baggage.value
  {
    if !overwrite && HasHeader(headers, TRACEPARENT_HEADER) then headers
    else
      var h1 := SetHeader(headers, TRACEPARENT_HEADER, FormatTraceparent(c.trace));
      WithBaggage(WithTraceState(h1, c, overwrite), c, order, overwrite)
  }

  /** The same, changing one record step by step. */
  method InjectTraceContext(headers: Headers, c: TraceContext, order: seq<string>, overwrite: bool) returns (out: Headers)
    requires c.baggage.Some? ==> forall i :: 0 <= i < |order| ==> order[i] in c.baggage.value
    ensures out == Inject(headers, c, order, overwrite)
  {
    out := headers;
    var shouldInject := overwrite || !HasHeader(out, TRACEPARENT_HEADER);
    if !shouldInject { return; }
    out := PutHeader(out, TRACEPARENT_HEADER, FormatTraceparent(c.trace));
    if c.traceState.Some? && c.traceState.value != "" && (overwrite || !HasHeader(out, TRACESTATE_HEADER)) {
      out := PutHeader(out, TRACESTATE_HEADER, c.traceState.value);
    }
    if c.baggage.Some? && c.baggage.value != map[] && (overwrite || !HasHeader(out, BAGGAGE_HEADER)) {
      out := PutHeader(out, BAGGAGE_HEADER, FormatBaggage(c.baggage.value, order));
    }
  }

  method PutHeader(headers: Headers, name: string, value: string) returns (out: Headers)
    ensures out == SetHeader(headers, name, value)
  {
    var i := 0;
    while i < |headers| && ToLower(headers[i].name) != name
      invariant 0 <= i <= |headers| && forall j :: 0 <= j < i ==> ToLower(headers[j].name) != name
    {
      i := i + 1;
    }
    FindIs(headers, name, i);
    out := if i < |headers| then headers[i := headers[i].(value := value)] else headers + [Header(name, value)];
  }

  lemma FindIs(headers: Headers, name: string, i: nat)
    requires i <= |headers| && (i < |headers| ==> ToLower(headers[i].name) == name)
    requires forall j :: 0 <= j < i ==> ToLower(headers[j].name) != name
    ensures Find(headers, name) == i
  {
    var k := Find(headers, name);
  }

  // ----- what a written header does -----

  /** A header that was set is read back, whatever the letter case it stands under; the others read as before. */
  lemma ReadAfterSet(headers: Headers, name: string, value: string, other: string)
    requires ToLower(name) == name && other != name
    ensures var out := SetHeader(headers, name, value);
      && ReadHeader(out, name) == Some(value)
      && ReadHeader(out, other) == ReadHeader(headers, other)
      && HasHeader(out, other) == HasHeader(headers, other)
  {
    var out := SetHeader(headers, name, value);
    var i, j := Find(headers, name), Find(headers, other);
    FindIs(out, name, i);
    FindIs(out, other, if j == |headers| then |out| else j);
  }

  lemma HeaderNames()
    ensures ToLower(TRACEPARENT_HEADER) == TRACEPARENT_HEADER
    ensures ToLower(TRACESTATE_HEADER) == TRACESTATE_HEADER
    ensures ToLower(BAGGAGE_HEADER) == BAGGAGE_HEADER
    ensures TRACEPARENT_HEADER != TRACESTATE_HEADER && TRACESTATE_HEADER != BAGGAGE_HEADER && BAGGAGE_HEADER != TRACEPARENT_HEADER
  {
    assert |TRACEPARENT_HEADER| == 11 && |TRACESTATE_HEADER| == 10 && |BAGGAGE_HEADER| == 7;
  }

  /** A value of the context goes under its name if it is allowed to replace what is there, or nothing is. */
  function Written(headers: Headers, name: string, value: Option<string>, overwrite: bool): Option<string> {
    if value.Some? && (overwrite || ReadHeader(headers, name).None?) then value else ReadHeader(headers, name)
  }

  /** The baggage of the context as a header, if it has any. */
  function BaggageText(c: TraceContext, order: seq<string>): Option<string>
    requires c.baggage.Some? ==> forall i :: 0 <= i < |order| ==> order[i] in c.baggage.value
  {
    if c.baggage.Some? && c.baggage.value != map[] then Some(FormatBaggage(c.baggage.value, order)) else None
  }

  /** Without overwrite, headers that carry a traceparent are not touched at all. In every other case the traceparent is that
      of the context, and the two other headers are written each on its own. */
  lemma ReadAfterInject(headers: Headers, c: TraceContext, order: seq<string>, overwrite: bool)
    requires c.baggage.Some? ==> Lists(order, c.baggage.value)
    ensures var out := Inject(headers, c, order, overwrite);
      if !overwrite && ReadHeader(headers, TRACEPARENT_HEADER).Some? then out == headers
      else
        && ReadHeader(out, TRACEPARENT_HEADER) == Some(FormatTraceparent(c.trace))
        && ReadHeader(out, TRACESTATE_HEADER) == Written(headers, TRACESTATE_HEADER, Truthy(c.traceState), overwrite)
        && ReadHeader(out, BAGGAGE_HEADER) == Written(headers, BAGGAGE_HEADER, BaggageText(c, order), overwrite)
  {
    if !overwrite && ReadHeader(headers, TRACEPARENT_HEADER).Some? { return; }
    HeaderNames();
    var h1 := SetHeader(headers, TRACEPARENT_HEADER, FormatTraceparent(c.trace));
    var h2 := WithTraceState(h1, c, overwrite);
    ReadAfterSet(headers, TRACEPARENT_HEADER, FormatTraceparent(c.trace), TRACESTATE_HEADER);
    ReadAfterSet(headers, TRACEPARENT_HEADER, FormatTraceparent(c.trace), BAGGAGE_HEADER);
    StateIsWritten(h1, c, overwrite);
    BaggageIsWritten(h2, c, order, overwrite);
  }

  lemma StateIsWritten(headers: Headers, c: TraceContext, overwrite: bool)
    ensures var out := WithTraceState(headers, c, overwrite);
      && ReadHeader(out, TRACESTATE_HEADER) == Written(headers, TRACESTATE_HEADER, Truthy(c.traceState), overwrite)
      && ReadHeader(out, TRACEPARENT_HEADER) == ReadHeader(headers, TRACEPARENT_HEADER)
      && ReadHeader(out, BAGGAGE_HEADER) == ReadHeader(headers, BAGGAGE_HEADER)
  {
    HeaderNames();
    if Truthy(c.traceState).Some? {
      ReadAfterSet(headers, TRACESTATE_HEADER, c.traceState.value, TRACEPARENT_HEADER);
      ReadAfterSet(headers, TRACESTATE_HEADER, c.traceState.value, BAGGAGE_HEADER);
    }
  }

  lemma BaggageIsWritten(headers: Headers, c: TraceContext, order: seq<string>, overwrite: bool)
    requires c.baggage.Some? ==> Lists(order, c.baggage.value)
    ensures var out := WithBaggage(headers, c, order, overwrite);
      && ReadHeader(out, BAGGAGE_HEADER) == Written(headers, BAGGAGE_HEADER, BaggageText(c, order), overwrite)
      && ReadHeader(out, TRACEPARENT_HEADER) == ReadHeader(headers, TRACEPARENT_HEADER)
      && ReadHeader(out, TRACESTATE_HEADER) == ReadHeader(headers, TRACESTATE_HEADER)
  {
    HeaderNames();
    if c.baggage.Some? && c.baggage.value != map[] {
      ReadAfterSet(headers, BAGGAGE_HEADER, FormatBaggage(c.baggage.value, order), TRACEPARENT_HEADER);
      ReadAfterSet(headers, BAGGAGE_HEADER, FormatBaggage(c.baggage.value, order), TRACESTATE_HEADER);
    }
  }

  /** Whether the context's own baggage is what its headers say after injecting. */
  predicate CarriesBaggage(headers: Headers, c: TraceContext, overwrite: bool) {
    c.baggage.Some? && c.baggage.value != map[] && (overwrite || ReadHeader(headers, BAGGAGE_HEADER).None?)
  }

  /**
   * Extracting after injecting. Where injecting leaves the headers alone, it
   * gives what they held; otherwise the normalised trace, with the trace state
   * and the valid baggage of the context where it has any and may write them, and
   * otherwise those the headers held before.
   */
  lemma ExtractAfterInject(headers: Headers, c: TraceContext, order: seq<string>, overwrite: bool)
    requires c.baggage.Some? ==> Lists(order, c.baggage.value)
    ensures Extract(Inject(headers, c, order, overwrite)) ==
      if !overwrite && ReadHeader(headers, TRACEPARENT_HEADER).Some? then Extract(headers)
      else Some(TraceContext(
        Normalized(c.trace),
        Truthy(Written(headers, TRACESTATE_HEADER, Truthy(c.traceState), overwrite)),
        if CarriesBaggage(headers, c, overwrite) then NonEmpty(ValidPart(c.baggage.value) - {PROTO})
        else ParseBaggage(ReadHeader(headers, BAGGAGE_HEADER))))
  {
    ReadAfterInject(headers, c, order, overwrite);
    Traceparents.ParseOfFormat(c.trace);
    if c.baggage.Some? && c.baggage.value != map[] {
      Baggages.ParseOfFormat(c.baggage.value, order);
    }
  }

  /** A context without trace state comes back without it iff the headers carried none: a stale one is not removed. */
  lemma StaleTraceState(headers: Headers, c: TraceContext, order: seq<string>)
    requires (c.baggage.Some? ==> Lists(order, c.baggage.value)) && Truthy(c.traceState).None?
    ensures Extract(Inject(headers, c, order, true)).Some?
    ensures Extract(Inject(headers, c, order, true)).value.traceState.None?
      <==> Truthy(ReadHeader(headers, TRACESTATE_HEADER)).None?
  {
    ExtractAfterInject(headers, c, order, true);
  }

  /** A context without trace state, injected with overwrite over headers that carry one, comes back with it. */
  lemma StaleStateComesBack(trace: Trace)
    ensures
      var headers := [Header(TRACESTATE_HEADER, "a=b")];
      Extract(Inject(headers, TraceContext(trace, None, None), [], true))
      == Some(TraceContext(Normalized(trace), Some("a=b"), None))
  {
    var headers := [Header(TRACESTATE_HEADER, "a=b")];
    HeaderNames();
    FindIs(headers, TRACESTATE_HEADER, 0);
    FindIs(headers, BAGGAGE_HEADER, 1);
    ExtractAfterInject(headers, TraceContext(trace, None, None), [], true);
  }

  // ----- what injection leaves alone -----

  predicate IsTraceName(name: string) {
    ToLower(name) == TRACEPARENT_HEADER || ToLower(name) == TRACESTATE_HEADER || ToLower(name) == BAGGAGE_HEADER
  }

  /** Existing headers keep their place and name; only values under the three names change, and only with overwrite. */
  ghost predicate Preserved(before: Headers, after: Headers, overwrite: bool) {
    && |before| <= |after|
    && (forall i :: 0 <= i < |before| ==> after[i].name == before[i].name)
    && (forall i :: 0 <= i < |before| && !(overwrite && IsTraceName(before[i].name)) ==> after[i] == before[i])
    && (forall i :: |before| <= i < |after| ==> IsTraceName(after[i].name))
  }

  lemma SetPreserves(before: Headers, now: Headers, name: string, value: string, overwrite: bool)
    requires Preserved(before, now, overwrite) && (overwrite || !HasHeader(now, name))
    requires name == TRACEPARENT_HEADER || name == TRACESTATE_HEADER || name == BAGGAGE_HEADER
    ensures Preserved(before, SetHeader(now, name, value), overwrite)
  {
    HeaderNames();
  }

  lemma InjectPreserves(headers: Headers, c: TraceContext, order: seq<string>, overwrite: bool)
    requires c.baggage.Some? ==> Lists(order, c.baggage.value)
    ensures Preserved(headers, Inject(headers, c, order, overwrite), overwrite)
  {
    if overwrite || !HasHeader(headers, TRACEPARENT_HEADER) {
      var h1 := SetHeader(headers, TRACEPARENT_HEADER, FormatTraceparent(c.trace));
      SetPreserves(headers, headers, TRACEPARENT_HEADER, FormatTraceparent(c.trace), overwrite);
      var h2 := WithTraceState(h1, c, overwrite);
      if h2 != h1 {
        SetPreserves(headers, h1, TRACESTATE_HEADER, c.traceState.value, overwrite);
      }
      if WithBaggage(h2, c, order, overwrite) != h2 {
        SetPreserves(headers, h2, BAGGAGE_HEADER, FormatBaggage(c.baggage.value, order), overwrite);
      }
    }
  }

  /** Injecting twice with overwrite is injecting once. */
  lemma InjectTwice(headers: Headers, c: TraceContext, order: seq<string>)
    requires c.baggage.Some? ==> Lists(order, c.baggage.value)
    ensures Extract(Inject(Inject(headers, c, order, true), c, order, true)) == Extract(Inject(headers, c, order, true))
  {
    var once := Inject(headers, c, order, true);
    ExtractAfterInject(headers, c, order, true);
    ExtractAfterInject(once, c, order, true);
    ReadAfterInject(headers, c, order, true);
  }
}
