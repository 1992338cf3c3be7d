/** The baggage header of W3C Baggage, section 3: parser, printer and their round trip. */
module Baggages {
  import opened Prelude
  import opened JsString
  import opened PercentCoding

  type Baggage = map<string, string>

  predicate IsKeyChar(c: char) {
    '0' <= c <= '9' || 'a' <= c <= 'z' || 'A' <= c <= 'Z' || c in "!#$%&'*+-.^_`|~"
  }

  predicate IsKey(s: string) { s != [] && forall i :: 0 <= i < |s| ==> IsKeyChar(s[i]) }

  /** An ordinary object takes no string under this name: the assignment meets a setter that ignores it. */
  const PROTO := "__proto__"

  // ----- parsing -----

  function IndexOf(s: string, c: char): (i: int)
    ensures -1 <= i < |s| && (i >= 0 ==> s[i] == c && c !in s[..i]) && (i == -1 ==> c !in s)
  {
    if s == [] then -1
    else if s[0] == c then 0
    else
      var i := IndexOf(s[1..], c);
      assert i >= 0 ==> s[..i + 1] == [s[0]] + s[1..][..i];
      assert s == [s[0]] + s[1..];
      if i == -1 then -1 else i + 1
  }

  function DecodeValue(value: string): string {
    if Decode(value).Some? then Decode(value).value else value
  }

  function Assigned(entries: Baggage, key: string, value: string): Baggage {
    if key == PROTO then entries else entries[key := value]
  }

  function ParseMember(entries: Baggage, rawMember: string): Baggage {
    var member := Trim(rawMember);
    if member == [] then entries
    else
      var pair := Split(member, ';')[0];
      var eq := IndexOf(pair, '=');
      if eq <= 0 then entries
      else
        var key := Trim(pair[..eq]);
        if !IsKey(key) then entries
        else Assigned(entries, key, DecodeValue(Trim(pair[eq + 1..])))
  }

  function ParseMembers(entries: Baggage, members: seq<string>): Baggage
    decreases |members|
  {
    if members == [] then entries else ParseMembers(ParseMember(entries, members[0]), members[1..])
  }

  function NonEmpty(b: Baggage): Option<Baggage> { if b == map[] then None else Some(b) }

  function ParseBaggage(value: Option<string>): Option<Baggage> {
    if value.None? || value.value == "" then None
    else NonEmpty(ParseMembers(map[], Split(value.value, ',')))
  }

  /** The parser as a loop over the members. */
  method ReadBaggage(value: Option<string>) returns (r: Option<Baggage>)
    ensures r == ParseBaggage(value)
  {
    if value.None? || value.value == "" { return None; }
    var entries: Baggage := map[];
    var members := Split(value.value, ',');
    var i := 0;
    while i < |members|
      invariant 0 <= i <= |members|
      invariant ParseMembers(map[], members) == ParseMembers(entries, members[i..])
    {
      assert members[i..][0] == members[i] && members[i..][1..] == members[i + 1..];
      var member := Trim(members[i]);
      i := i + 1;
      if member == [] { continue; }
      var pair := Split(member, ';')[0];
      var eq := IndexOf(pair, '=');
      if eq <= 0 { continue; }
      var key := Trim(pair[..eq]);
      if !IsKey(key) { continue; }
      entries := Assigned(entries, key, DecodeValue(Trim(pair[eq + 1..])));
    }
    r := NonEmpty(entries);
  }

  // ----- formatting -----

  /** The keys of b in some order; the code sorts them by the host's collation. */
  ghost predicate Lists(order: seq<string>, b: Baggage) {
    NoDuplicates(order) && forall k :: k in order <==> k in b
  }

  function FormatMember(key: string, value: string): string { key + ['='] + Encode(value) }

  function Members(b: Baggage, order: seq<string>): seq<string>
    requires forall i :: 0 <= i < |order| ==> order[i] in b
  {
    if order == [] then []
    else (if IsKey(order[0]) then [FormatMember(order[0], b[order[0]])] else []) + Members(b, order[1..])
  }

  function FormatBaggage(b: Baggage, order: seq<string>): string
    requires forall i :: 0 <= i < |order| ==> order[i] in b
  {
    Join(Members(b, order), ',')
  }

  // ----- round trip -----

  function ValidPart(b: Baggage): Baggage { map k | k in b && IsKey(k) :: b[k] }

  lemma KeyCharsArePlain(c: char)
    requires IsKeyChar(c)
    ensures c != ',' && c != ';' && c != '=' && !IsSpace(c)
  {
  }

  lemma PlainCharsAreSafe(c: char)
    requires IsPlain(c)
    ensures c != ',' && c != ';' && c != '=' && !IsSpace(c)
  {
  }

  lemma MemberChars(key: string, value: string)
    requires IsKey(key)
    ensures var m := FormatMember(key, value);
      ',' !in m && ';' !in m && '=' !in key && !IsSpace(m[0]) && !IsSpace(m[|m| - 1])
  {
    var m := FormatMember(key, value);
    EncodedIsPlain(value);
    forall i | 0 <= i < |m| ensures m[i] != ',' && m[i] != ';' && !IsSpace(m[i]) && (i < |key| ==> m[i] != '=') {
      if i < |key| { KeyCharsArePlain(key[i]); }
      else if i > |key| {
        assert m[i] in Encode(value);
        PlainCharsAreSafe(m[i]);
      }
    }
    assert forall i :: 0 <= i < |key| ==> key[i] == m[i];
  }

  /** A formatted member is read as its key and value. */
  lemma MemberIsRead(entries: Baggage, key: string, value: string)
    requires IsKey(key)
    ensures ParseMember(entries, FormatMember(key, value)) == Assigned(entries, key, value)
  {
    var m := FormatMember(key, value);
    MemberChars(key, value);
    TrimmedStays(m);
    SplitNothing(m, ';');
    MemberParts(key, value);
    KeyIsTrimmed(key);
    ValueIsTrimmed(value);
    DecodeOfEncode(value);
  }

  /** The equals sign of a formatted member stands between its key and its value. */
  lemma MemberParts(key: string, value: string)
    requires '=' !in key
    ensures
      var m := FormatMember(key, value);
      IndexOf(m, '=') == |key| && m[..|key|] == key && m[|key| + 1..] == Encode(value)
  {
    var m := FormatMember(key, value);
    assert m[|key|] == '=';
    FirstIndex(m, '=', |key|);
  }

  lemma {:induction false} FirstIndex(s: string, c: char, k: nat)
    requires k < |s| && s[k] == c && forall i :: 0 <= i < k ==> s[i] != c
    ensures IndexOf(s, c) == k
  {
    if k > 0 {
      FirstIndex(s[1..], c, k - 1);
    }
  }

  lemma KeyIsTrimmed(key: string)
    requires IsKey(key)
    ensures Trim(key) == key
  {
    KeyCharsArePlain(key[0]);
    KeyCharsArePlain(key[|key| - 1]);
    TrimmedStays(key);
  }

  lemma ValueIsTrimmed(value: string)
    ensures Trim(Encode(value)) == Encode(value)
  {
    EncodedIsPlain(value);
    var e := Encode(value);
    if e != [] {
      PlainCharsAreSafe(e[0]);
      PlainCharsAreSafe(e[|e| - 1]);
    }
    TrimmedStays(e);
  }

  /** What reading formatted members adds to a record. */
  ghost predicate Gained(before: Baggage, after: Baggage, b: Baggage, order: seq<string>) {
    forall k :: (k in after <==> k in before || (k in order && k in b && IsKey(k) && k != PROTO))
      && (k in after ==> after[k] == if k in order && k in b && IsKey(k) && k != PROTO then b[k]
                                     else if k in before then before[k] else [])
  }

  lemma GainedOneMore(before: Baggage, after: Baggage, b: Baggage, key: string, rest: seq<string>)
    requires key in b && key !in rest
    requires Gained(if IsKey(key) then Assigned(before, key, b[key]) else before, after, b, rest)
    ensures Gained(before, after, b, [key] + rest)
  {
    hide IsKey;
    forall k
      ensures (k in after <==> k in before || (k in [key] + rest && k in b && IsKey(k) && k != PROTO))
        && (k in after ==> after[k] == if k in [key] + rest && k in b && IsKey(k) && k != PROTO then b[k]
                                       else if k in before then before[k] else [])
    {
      assert k in [key] + rest <==> k == key || k in rest;
    }
  }

  lemma {:induction false} MembersAreRead(before: Baggage, b: Baggage, order: seq<string>)
    requires NoDuplicates(order) && forall i :: 0 <= i < |order| ==> order[i] in b
    ensures Gained(before, ParseMembers(before, Members(b, order)), b, order)
    decreases |order|
  {
    if order == [] {
      assert ParseMembers(before, Members(b, order)) == before;
    } else {
      hide Gained, ParseMember, FormatMember, IsKey;
      var key, rest := order[0], order[1..];
      assert order == [key] + rest && key !in rest;
      var next := if IsKey(key) then Assigned(before, key, b[key]) else before;
      MembersAreRead(next, b, rest);
      if IsKey(key) {
        MemberIsRead(before, key, b[key]);
        assert Members(b, order)[1..] == Members(b, rest);
      } else {
        assert Members(b, order) == Members(b, rest);
      }
      GainedOneMore(before, ParseMembers(next, Members(b, rest)), b, key, rest);
    }
  }

  lemma {:induction false} MembersAreSafe(b: Baggage, order: seq<string>)
    requires forall i :: 0 <= i < |order| ==> order[i] in b
    ensures forall i :: 0 <= i < |Members(b, order)| ==> ',' !in Members(b, order)[i] && Members(b, order)[i] != []
  {
    if order != [] {
      MembersAreSafe(b, order[1..]);
      if IsKey(order[0]) {
        MemberChars(order[0], b[order[0]]);
      }
    }
  }

  /** Parsing formatted baggage gives back its valid keys and their values, all but one name. */
  lemma ParseOfFormat(b: Baggage, order: seq<string>)
    requires Lists(order, b)
    ensures ParseBaggage(Some(FormatBaggage(b, order))) == NonEmpty(ValidPart(b) - {PROTO})
  {
    var members := Members(b, order);
    var s := FormatBaggage(b, order);
    MembersAreSafe(b, order);
    MembersAreRead(map[], b, order);
    if members == [] {
      assert ParseMembers(map[], members) == map[];
    } else {
      JoinIsNotEmpty(members);
      SplitJoin(members, ',');
    }
    GainedIsValidPart(ParseMembers(map[], members), b, order);
  }

  lemma GainedIsValidPart(after: Baggage, b: Baggage, order: seq<string>)
    requires Lists(order, b) && Gained(map[], after, b, order)
    ensures after == ValidPart(b) - {PROTO}
  {
    var w := ValidPart(b) - {PROTO};
    forall k ensures (k in after <==> k in w) && (k in w ==> after[k] == w[k]) {
      assert k in order <==> k in b;
    }
  }

  lemma JoinIsNotEmpty(members: seq<string>)
    requires members != [] && members[0] != []
    ensures Join(members, ',') != []
  {
  }

  lemma ProtoIsKey()
    ensures IsKey(PROTO)
  {
  }

  /** The valid part is given back whole iff it has no key of that name. */
  lemma RoundTripIff(b: Baggage, order: seq<string>)
    requires Lists(order, b)
    ensures ParseBaggage(Some(FormatBaggage(b, order))) == NonEmpty(ValidPart(b)) <==> PROTO !in b
  {
    ParseOfFormat(b, order);
    ProtoIsKey();
    var v, w := ValidPart(b), ValidPart(b) - {PROTO};
    if PROTO in b {
      assert PROTO in v && PROTO !in w;
      assert v != w;
    } else {
      assert v == w;
    }
  }

  /** Baggage with that key alone comes back as none. */
  lemma ProtoIsLost()
    ensures IsKey(PROTO) && ParseBaggage(Some(FormatBaggage(map[PROTO := "x"], [PROTO]))) == None
  {
    ProtoIsKey();
    var b := map[PROTO := "x"];
    ParseOfFormat(b, [PROTO]);
    assert ValidPart(b) - {PROTO} == map[];
  }

  /** What was parsed has only valid keys, so formatting and parsing it again gives the same. */
  lemma ParseFormatParse(value: Option<string>, order: seq<string>)
    requires ParseBaggage(value).Some? && Lists(order, ParseBaggage(value).value)
    ensures ParseBaggage(Some(FormatBaggage(ParseBaggage(value).value, order))) == ParseBaggage(value)
  {
    var b := ParseBaggage(value).value;
    ParsedKeysAreValid(map[], Split(value.value, ','));
    ParseOfFormat(b, order);
    assert ValidPart(b) - {PROTO} == b;
  }

  lemma {:induction false} ParsedKeysAreValid(entries: Baggage, members: seq<string>)
    requires forall k :: k in entries ==> IsKey(k) && k != PROTO
    ensures forall k :: k in ParseMembers(entries, members) ==> IsKey(k) && k != PROTO
    decreases |members|
  {
    if members != [] {
      ParsedKeysAreValid(ParseMember(entries, members[0]), members[1..]);
    }
  }

  // ----- what any header is read as -----

  /** A value is read with its percent forms decoded, and as it stands where they are not those of UTF-8. */
  ghost predicate ReadsAs(text: string, value: string) {
    Spells(text, value) || (value == text && forall t :: !Spells(text, t))
  }

  lemma ValueReadsAs(text: string)
    ensures ReadsAs(text, DecodeValue(text))
  {
    if Decode(text).Some? {
      DecodesIff(text, Decode(text).value);
    } else {
      forall t ensures !Spells(text, t) { DecodesIff(text, t); }
    }
  }

  /** The member, without the blanks around it: a pair, then nothing or a semicolon and properties. */
  ghost predicate IsMember(raw: string, pair: string, properties: Option<string>) {
    ';' !in pair && Trim(raw) == pair + (if properties.None? then [] else [';'] + properties.value)
  }

  lemma PairOf(raw: string, pair: string, properties: Option<string>)
    requires IsMember(raw, pair, properties) && Trim(raw) != []
    ensures Split(Trim(raw), ';')[0] == pair
  {
    if properties.None? {
      assert Trim(raw) == pair;
      SplitNothing(pair, ';');
    } else {
      assert Trim(raw) == pair + [';'] + properties.value;
      SplitAfter(pair, ';', properties.value);
    }
  }

  /** A member is an assignment to its key, before the first equals sign, of its value, behind it, blanks around them and
      properties left out; it assigns nothing if the key is no key, or the one name that takes none. */
  lemma MemberAssigns(entries: Baggage, raw: string, key: string, text: string, properties: Option<string>)
    requires IsMember(raw, key + ['='] + text, properties) && '=' !in key
    ensures var k, after := Trim(key), ParseMember(entries, raw);
      if key != "" && IsKey(k) && k != PROTO then
        k in after && after == entries[k := after[k]] && ReadsAs(Trim(text), after[k])
      else after == entries
  {
    hide Trim, Split, IndexOf, IsKey, DecodeValue, ReadsAs;
    var pair := key + ['='] + text;
    assert '=' in pair && Trim(raw) != [];
    PairOf(raw, pair, properties);
    assert pair[|key|] == '=';
    FirstIndex(pair, '=', |key|);
    assert pair[..|key|] == key && pair[|key| + 1..] == text;
    ValueReadsAs(Trim(text));
  }

  /** A member without an equals sign assigns nothing. */
  lemma MemberWithoutValue(entries: Baggage, raw: string, pair: string, properties: Option<string>)
    requires IsMember(raw, pair, properties) && '=' !in pair
    ensures ParseMember(entries, raw) == entries
  {
    if Trim(raw) != [] {
      PairOf(raw, pair, properties);
    }
  }

  lemma {:induction false} MembersJoin(entries: Baggage, members: seq<string>, last: string)
    ensures ParseMembers(entries, members + [last]) == ParseMember(ParseMembers(entries, members), last)
    decreases |members|
  {
    if members == [] {
      assert [last][1..] == [];
    } else {
      assert (members + [last])[0] == members[0] && (members + [last])[1..] == members[1..] + [last];
      MembersJoin(ParseMember(entries, members[0]), members[1..], last);
    }
  }

  /** Members are read from left to right: one more member is one more assignment, which replaces an earlier value. */
  lemma OneMoreMember(value: string, last: string)
    requires value != "" && ',' !in last
    ensures ParseBaggage(Some(value + [','] + last)) == NonEmpty(
      ParseMember(if ParseBaggage(Some(value)).Some? then ParseBaggage(Some(value)).value else map[], last))
  {
    SplitBefore(value, ',', last);
    MembersJoin(map[], Split(value, ','), last);
  }

  lemma OnlyMember(value: string)
    requires ',' !in value
    ensures ParseBaggage(Some(value)) == NonEmpty(ParseMember(map[], value))
  {
    SplitNothing(value, ',');
    MembersJoin(map[], [], value);
    assert [] + [value] == [value];
    TrimmedStays("");
  }
}
