/** The traceparent header of W3C Trace Context, section 3.2: parser, printer and what they agree on. */
module Traceparents {
  import opened Prelude
  import opened JsString
  import opened HexIds

  /** The part of a trace context that the header carries; sampled may be missing. */
  datatype Trace = Trace(traceId: string, spanId: string, sampled: Option<bool>)

  function HexValue(c: char): nat
    requires IsHex(c)
  {
    if c <= '9' then c as int - 48 else c as int - 87
  }

  /** parseInt(flags, 16) */
  function FlagsValue(flags: string): nat
    requires IsFixedHex(flags, 2)
  {
    16 * HexValue(ToLower(flags)[0]) + HexValue(ToLower(flags)[1])
  }

  function ParseTraceparent(value: Option<string>): Option<Trace> {
    if value.None? || value.value == "" then None
    else
      var parts := Split(Trim(value.value), '-');
      if |parts| < 4 then None
      else
        var version, traceIdRaw, spanIdRaw, flagsRaw := parts[0], parts[1], parts[2], parts[3];
        if !IsFixedHex(version, 2) || ToLower(version) == "ff" then None
        else if ToLower(version) == "00" && |parts| != 4 then None
        else if !IsFixedHex(traceIdRaw, 32) || IsAllZero(traceIdRaw) then None
        else if !IsFixedHex(spanIdRaw, 16) || IsAllZero(spanIdRaw) then None
        else if !IsFixedHex(flagsRaw, 2) then None
        else Some(Trace(ToLower(traceIdRaw), ToLower(spanIdRaw), Some(FlagsValue(flagsRaw) % 2 == 1)))
  }

  function FormatTraceparent(trace: Trace): string {
    "00-" + NormalizeHexId(trace.traceId, 32) + "-" + NormalizeHexId(trace.spanId, 16)
    + "-" + (if trace.sampled == Some(false) then "00" else "01")
  }

  /** What a trace becomes on the wire. */
  function Normalized(trace: Trace): Trace {
    Trace(NormalizeHexId(trace.traceId, 32), NormalizeHexId(trace.spanId, 16), Some(trace.sampled != Some(false)))
  }

  // ----- the grammar -----

  /** version "-" trace-id "-" parent-id "-" flags, with more after a dash unless the version is 00. */
  ghost predicate Grammatical(s: string, version: string, traceId: string, spanId: string, flags: string, more: Option<string>) {
    && s == version + ['-'] + (traceId + ['-'] + (spanId + ['-'] + (if more.None? then flags else flags + ['-'] + more.value)))
    && IsFixedHex(version, 2) && ToLower(version) != "ff"
    && (ToLower(version) == "00" ==> more.None?)
    && IsFixedHex(traceId, 32) && !IsAllZero(traceId)
    && IsFixedHex(spanId, 16) && !IsAllZero(spanId)
    && IsFixedHex(flags, 2)
  }

  lemma HexHasNoDash(s: string, length: nat)
    requires IsFixedHex(s, length)
    ensures '-' !in s
  {
    forall i | 0 <= i < |s| ensures s[i] != '-' {
      assert IsHex(ToLower(s)[i]);
    }
  }

  lemma SplitsInto(s: string, version: string, traceId: string, spanId: string, flags: string, more: Option<string>)
    requires Grammatical(s, version, traceId, spanId, flags, more)
    ensures Split(s, '-') ==
      [version] + ([traceId] + ([spanId] + (if more.None? then [flags] else [flags] + Split(more.value, '-'))))
  {
    HexHasNoDash(version, 2);
    HexHasNoDash(traceId, 32);
    HexHasNoDash(spanId, 16);
    HexHasNoDash(flags, 2);
    var tail := if more.None? then flags else flags + ['-'] + more.value;
    if more.None? { SplitNothing(flags, '-'); } else { SplitAfter(flags, '-', more.value); }
    SplitAfter(spanId, '-', tail);
    SplitAfter(traceId, '-', spanId + ['-'] + tail);
    SplitAfter(version, '-', traceId + ['-'] + (spanId + ['-'] + tail));
  }

  const ODD_DIGITS := "13579bdfBDF"

  /** The last bit of the flags is that of their last digit. */
  lemma LastFlagBit(flags: string)
    requires IsFixedHex(flags, 2)
    ensures FlagsValue(flags) % 2 == 1 <==> flags[1] in ODD_DIGITS
  {
    assert IsHex(ToLower(flags)[1]);
  }

  /** Whatever the grammar allows, with white space around it, is parsed to its ids in lower case and its sampled bit. */
  lemma GrammarIsParsed(value: string, version: string, traceId: string, spanId: string, flags: string, more: Option<string>)
    requires Grammatical(Trim(value), version, traceId, spanId, flags, more)
    ensures ParseTraceparent(Some(value)) == Some(Trace(ToLower(traceId), ToLower(spanId), Some(flags[1] in ODD_DIGITS)))
  {
    LastFlagBit(flags);
    SplitsInto(Trim(value), version, traceId, spanId, flags, more);
    var parts := Split(Trim(value), '-');
    if more.None? {
      assert parts == [version, traceId, spanId, flags];
    } else {
      assert parts == [version, traceId, spanId, flags] + Split(more.value, '-');
    }
  }

  /** Nothing else is parsed. */
  lemma ParsedIsGrammar(value: string)
    requires ParseTraceparent(Some(value)).Some?
    ensures exists version, traceId, spanId, flags, more :: Grammatical(Trim(value), version, traceId, spanId, flags, more)
  {
    var s := Trim(value);
    var parts := Split(s, '-');
    JoinSplit(s, '-');
    var rest := parts[4..];
    var more := if rest == [] then None else Some(Join(rest, '-'));
    JoinOfFour(parts);
    assert Grammatical(s, parts[0], parts[1], parts[2], parts[3], more);
  }

  lemma JoinOfFour(parts: seq<string>)
    requires |parts| >= 4
    ensures Join(parts, '-') == parts[0] + ['-'] + (parts[1] + ['-'] + (parts[2] + ['-']
      + (if |parts| == 4 then parts[3] else parts[3] + ['-'] + Join(parts[4..], '-'))))
  {
    assert parts[1..][1..] == parts[2..] && parts[2..][1..] == parts[3..] && parts[3..][1..] == parts[4..];
    JoinOne(parts);
    JoinOne(parts[1..]);
    JoinOne(parts[2..]);
    if |parts| > 4 { JoinOne(parts[3..]); }
  }

  lemma JoinOne(parts: seq<string>)
    requires |parts| >= 2
    ensures Join(parts, '-') == parts[0] + ['-'] + Join(parts[1..], '-')
  {
  }

  // ----- round trips -----

  lemma ValidIsFixed(s: string, length: nat)
    requires ValidId(s, length) && length >= 1
    ensures IsFixedHex(s, length) && ToLower(s) == s
  {
    HexIsLower(s);
  }

  /** A formatted trace is a header of version 00 with valid ids, and is always parsed back, to the normalised trace. */
  lemma ParseOfFormat(trace: Trace)
    ensures Grammatical(FormatTraceparent(trace), "00", NormalizeHexId(trace.traceId, 32), NormalizeHexId(trace.spanId, 16),
                        if trace.sampled == Some(false) then "00" else "01", None)
    ensures ParseTraceparent(Some(FormatTraceparent(trace))) == Some(Normalized(trace))
  {
    hide NormalizeHexId, ParseTraceparent, Trim;
    var n := Normalized(trace);
    var flags := if trace.sampled == Some(false) then "00" else "01";
    var s := FormatTraceparent(trace);
    NormalizedIsValid(trace.traceId, 32);
    NormalizedIsValid(trace.spanId, 16);
    ValidIsFixed(n.traceId, 32);
    ValidIsFixed(n.spanId, 16);
    FlagBits();
    assert s == "00" + ['-'] + (n.traceId + ['-'] + (n.spanId + ['-'] + flags));
    assert s[0] == '0' && s[|s| - 1] == flags[1];
    TrimmedStays(s);
    GrammarIsParsed(s, "00", n.traceId, n.spanId, flags, None);
  }

  lemma FlagBits()
    ensures IsFixedHex("00", 2) && IsFixedHex("01", 2) && ToLower("00") == "00"
    ensures FlagsValue("00") % 2 == 0 && FlagsValue("01") % 2 == 1
  {
    assert ToLower("00") == "00" && ToLower("01") == "01";
  }

  /** A parsed trace carries valid ids, so formatting and parsing it again changes nothing. */
  lemma ParseFormatParse(value: Option<string>)
    ensures var trace := ParseTraceparent(value);
      trace.Some? ==>
        && ValidId(trace.value.traceId, 32) && ValidId(trace.value.spanId, 16)
        && ParseTraceparent(Some(FormatTraceparent(trace.value))) == trace
  {
    var trace := ParseTraceparent(value);
    if trace.Some? {
      var parts := Split(Trim(value.value), '-');
      LowerKeepsId(parts[1], 32);
      LowerKeepsId(parts[2], 16);
      ValidStays(trace.value.traceId, 32);
      ValidStays(trace.value.spanId, 16);
      ParseOfFormat(trace.value);
    }
  }

  lemma LowerKeepsId(s: string, length: nat)
    requires IsFixedHex(s, length) && !IsAllZero(s)
    ensures ValidId(ToLower(s), length) && ToLower(ToLower(s)) == ToLower(s)
  {
    LowerTwice(s);
    var i :| 0 <= i < |s| && s[i] != '0';
    assert ToLower(s)[i] != '0';
  }
}
