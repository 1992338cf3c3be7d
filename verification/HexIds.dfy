/** Trace identifiers: hexadecimal strings of a fixed length that are not all zero. */
module HexIds {
  import opened JsString

  predicate IsHex(c: char) { '0' <= c <= '9' || 'a' <= c <= 'f' }

  predicate AllHex(s: string) { forall i :: 0 <= i < |s| ==> IsHex(s[i]) }

  /** isFixedHex: either letter case is taken. */
  predicate IsFixedHex(s: string, length: nat) {
    |s| == length && s != [] && AllHex(ToLower(s))
  }

  predicate IsAllZero(s: string) { forall i :: 0 <= i < |s| ==> s[i] == '0' }

  /** What a trace or span id has to be. */
  predicate ValidId(s: string, length: nat) {
    |s| == length && AllHex(s) && !IsAllZero(s)
  }

  method CheckAllZero(value: string) returns (zero: bool)
    ensures zero == IsAllZero(value)
  {
    var i := 0;
    while i < |value|
      invariant 0 <= i <= |value| && IsAllZero(value[..i])
    {
      if value[i] != '0' {
        assert !IsAllZero(value);
        return false;
      }
      assert value[..i + 1] == value[..i] + [value[i]];
      i := i + 1;
    }
    assert value[..i] == value;
    return true;
  }

  // ----- normalisation -----

  /** The hexadecimal characters of s, in order. */
  function HexOnly(s: string): string {
    if s == [] then []
    else if IsHex(s[0]) then [s[0]] + HexOnly(s[1..])
    else HexOnly(s[1..])
  }

  function Zeros(n: nat): string { seq(n, _ => '0') }

  function PadStart(s: string, length: nat): string {
    if |s| < length then Zeros(length - |s|) + s else s
  }

  function AvoidAllZero(hex: string): string {
    if IsAllZero(hex) then (if hex == [] then [] else hex[..|hex| - 1]) + "1" else hex
  }

  function NormalizeHexId(id: string, length: nat): string {
    var hex := HexOnly(ToLower(id));
    if |hex| >= length then AvoidAllZero(hex[..length])
    else if |hex| > 0 then AvoidAllZero(PadStart(hex, length))
    else StableHex(id, length)
  }

  // ----- the digest for ids without any hexadecimal character -----

  /** The UTF-16 code units of a character. */
  function Units(c: char): seq<bv32> {
    var n := c as int;
    if n < 0x10000 then [n as bv32]
    else [(0xD800 + (n - 0x10000) / 0x400) as bv32, (0xDC00 + (n - 0x10000) % 0x400) as bv32]
  }

  function MixUnit(hash: bv32, unit: bv32): bv32 { (hash ^ unit) * 0x01000193 }

  function MixUnits(hash: bv32, units: seq<bv32>): bv32
    decreases |units|
  {
    if units == [] then hash else MixUnits(MixUnit(hash, units[0]), units[1..])
  }

  /** One pass of FNV-1a over the code units of s. */
  function Mix(hash: bv32, s: string): bv32
    decreases |s|
  {
    if s == [] then hash else Mix(MixUnits(hash, Units(s[0])), s[1..])
  }

  function HexDigit(n: nat): char
    requires n < 16
  {
    if n < 10 then (48 + n) as char else (87 + n) as char
  }

  /** The last k hexadecimal digits of n. */
  function HexDigits(n: nat, k: nat): (s: string)
    ensures |s| == k && AllHex(s)
  {
    if k == 0 then [] else HexDigits(n / 16, k - 1) + [HexDigit(n % 16)]
  }

  function Decimal(n: nat): string {
    if n < 10 then [(48 + n) as char] else Decimal(n / 10) + [(48 + n % 10) as char]
  }

  /** hash >>> 0 as eight hexadecimal digits. */
  function Word(hash: bv32): (s: string)
    ensures |s| == 8 && AllHex(s)
  {
    HexDigits(hash as nat, 8)
  }

  /** Digests are appended, eight digits each, until there are enough. */
  function Digest(hash: bv32, out: string, input: string, length: nat): (r: string)
    ensures out <= r && |r| >= length
    ensures AllHex(out) ==> AllHex(r)
    decreases if |out| < length then length - |out| else 0
  {
    if |out| >= length then out
    else
      var h := Mix(hash, input);
      var longer := out + Word(h);
      Digest(h, longer, input + ":" + Decimal(|longer|), length)
  }

  function StableHex(input: string, length: nat): string {
    AvoidAllZero(Digest(0x811c9dc5, [], input, length)[..length])
  }

  method ComputeStableHex(id: string, length: nat) returns (r: string)
    ensures r == StableHex(id, length)
  {
    var input := id;
    var hash: bv32 := 0x811c9dc5;
    var out := [];
    while |out| < length
      invariant Digest(0x811c9dc5, [], id, length) == Digest(hash, out, input, length)
      decreases if |out| < length then length - |out| else 0
    {
      hash := MixInto(hash, input);
      out := out + Word(hash);
      input := input + ":" + Decimal(|out|);
    }
    r := AvoidAllZero(out[..length]);
  }

  method MixInto(start: bv32, input: string) returns (hash: bv32)
    ensures hash == Mix(start, input)
  {
    hash := start;
    var i := 0;
    while i < |input|
      invariant 0 <= i <= |input|
      invariant Mix(start, input) == Mix(hash, input[i..])
    {
      assert input[i..][0] == input[i] && input[i..][1..] == input[i + 1..];
      hash := MixUnits(hash, Units(input[i]));
      i := i + 1;
    }
  }

  // ----- what normalisation gives -----

  lemma {:induction false} HexOnlyIsHex(s: string)
    ensures AllHex(HexOnly(s))
    ensures AllHex(s) ==> HexOnly(s) == s
  {
    if s != [] {
      HexOnlyIsHex(s[1..]);
      assert s == [s[0]] + s[1..];
    }
  }

  lemma AvoidAllZeroIsValid(hex: string)
    requires hex != [] && AllHex(hex)
    ensures ValidId(AvoidAllZero(hex), |hex|)
    ensures !IsAllZero(hex) ==> AvoidAllZero(hex) == hex
  {
    var r := AvoidAllZero(hex);
    if IsAllZero(hex) {
      assert r[|hex| - 1] == '1';
    }
  }

  /** Whatever the string, the result has the wanted length, is lower-case hexadecimal and not all zero. */
  lemma NormalizedIsValid(id: string, length: nat)
    requires length >= 1
    ensures ValidId(NormalizeHexId(id, length), length)
  {
    var hex := HexOnly(ToLower(id));
    HexOnlyIsHex(ToLower(id));
    if |hex| >= length {
      AvoidAllZeroIsValid(hex[..length]);
    } else if |hex| > 0 {
      AvoidAllZeroIsValid(PadStart(hex, length));
    } else {
      AvoidAllZeroIsValid(Digest(0x811c9dc5, [], id, length)[..length]);
    }
  }

  /** Ids that are valid already are left alone, up to letter case. */
  lemma ValidStays(id: string, length: nat)
    requires length >= 1 && ValidId(ToLower(id), length)
    ensures NormalizeHexId(id, length) == ToLower(id)
  {
    HexOnlyIsHex(ToLower(id));
    assert ToLower(id)[..length] == ToLower(id);
    AvoidAllZeroIsValid(ToLower(id));
  }

  lemma HexIsLower(s: string)
    requires AllHex(s)
    ensures ToLower(s) == s
  {
    forall i | 0 <= i < |s| ensures Lower(s[i]) == s[i] { assert IsHex(s[i]); }
  }

  lemma NormalizeTwice(id: string, length: nat)
    requires length >= 1
    ensures NormalizeHexId(NormalizeHexId(id, length), length) == NormalizeHexId(id, length)
  {
    var r := NormalizeHexId(id, length);
    NormalizedIsValid(id, length);
    HexIsLower(r);
    ValidStays(r, length);
  }

  // ----- which id a string becomes -----

  /** A string of hexadecimal digits, in either letter case, is cut to its first digits or filled up with zeros in front; one
      that would be all zero ends in 1 instead. */
  lemma HexDigitsStay(id: string, length: nat)
    requires length >= 1 && id != [] && AllHex(ToLower(id))
    ensures var r, digits := NormalizeHexId(id, length), ToLower(id);
      var wanted := if |digits| >= length then digits[..length] else Zeros(length - |digits|) + digits;
      && |r| == length == |wanted|
      && (forall i :: 0 <= i < length - 1 ==> r[i] == wanted[i])
      && r[length - 1] == (if IsAllZero(wanted) then '1' else wanted[length - 1])
  {
    hide HexOnly, StableHex, AllHex, AvoidAllZero;
    HexOnlyIsHex(ToLower(id));
    var digits := ToLower(id);
    AvoidAllZeroIs(if |digits| >= length then digits[..length] else Zeros(length - |digits|) + digits);
  }

  lemma AvoidAllZeroIs(hex: string)
    requires hex != []
    ensures var r, n := AvoidAllZero(hex), |hex| - 1;
      |r| == |hex| && (forall i :: 0 <= i < n ==> r[i] == hex[i]) && r[n] == (if IsAllZero(hex) then '1' else hex[n])
  {
  }

  lemma {:induction false} HexOnlyJoins(a: string, b: string)
    ensures HexOnly(a + b) == HexOnly(a) + HexOnly(b)
  {
    if a == [] {
      assert a + b == b;
    } else {
      assert (a + b)[1..] == a[1..] + b && (a + b)[0] == a[0];
      HexOnlyJoins(a[1..], b);
    }
  }

  /** Any other character, a dash for example, makes no difference, as long as there is some digit. */
  lemma OthersAreIgnored(a: string, c: char, b: string, length: nat)
    requires !IsHex(Lower(c)) && exists i :: 0 <= i < |a + b| && IsHex(Lower((a + b)[i]))
    ensures NormalizeHexId(a + [c] + b, length) == NormalizeHexId(a + b, length)
  {
    hide StableHex, PadStart, AvoidAllZero, HexOnly;
    assert a + [c] + b == a + ([c] + b);
    LowerJoins(a, [c] + b);
    LowerJoins([c], b);
    LowerJoins(a, b);
    HexOnlyJoins(ToLower(a), ToLower([c]) + ToLower(b));
    HexOnlyJoins(ToLower([c]), ToLower(b));
    HexOnlyJoins(ToLower(a), ToLower(b));
    HexOnlyDrops(Lower(c));
    assert ToLower([c]) == [Lower(c)];
    assert "" + HexOnly(ToLower(b)) == HexOnly(ToLower(b));
    assert HexOnly(ToLower(a + [c] + b)) == HexOnly(ToLower(a + b));
    var i :| 0 <= i < |a + b| && IsHex(Lower((a + b)[i]));
    HexOnlyFinds(ToLower(a + b), i);
  }

  lemma LowerJoins(a: string, b: string)
    ensures ToLower(a + b) == ToLower(a) + ToLower(b)
  {
  }

  lemma HexOnlyDrops(c: char)
    requires !IsHex(c)
    ensures HexOnly([c]) == ""
  {
    assert [c][1..] == "";
  }

  lemma {:induction false} HexOnlyFinds(s: string, i: nat)
    requires i < |s| && IsHex(s[i])
    ensures HexOnly(s) != []
  {
    if i > 0 {
      HexOnlyFinds(s[1..], i - 1);
    }
  }

  /** Published test vectors of the 32-bit FNV-1a digest, which the ids of strings without any digit are made of. */
  lemma DigestVectors()
    ensures Mix(0x811c9dc5, "") == 0x811c9dc5
    ensures Mix(0x811c9dc5, "a") == 0xe40c292c
    ensures Mix(0x811c9dc5, "foobar") == 0xbf9cf968
    ensures Word(0xe40c292c) == "e40c292c"
  {
    hide MixUnit, MixUnits, Units;
    AsciiUnits();
    WordVector();
    MixOne(0x811c9dc5, 'a', 97, "");
    MixOne(0x811c9dc5, 'f', 102, "oobar");
    MixOne(0xe30c2799, 'o', 111, "obar");
    MixOne(0x6222e842, 'o', 111, "bar");
    MixOne(0xa9f37ed7, 'b', 98, "ar");
    MixOne(0x3f5076ef, 'a', 97, "r");
    MixOne(0x39aaa18a, 'r', 114, "");
    FirstSteps();
    LastSteps();
  }

  lemma AsciiUnits()
    ensures Units('a') == [97] && Units('b') == [98] && Units('f') == [102] && Units('o') == [111] && Units('r') == [114]
  {
  }

  lemma WordVector()
    ensures Word(0xe40c292c) == "e40c292c"
  {
    hide HexDigits;
    OneMoreDigit(0xe, "", 0);
    OneMoreDigit(0xe4, "e", 1);
    OneMoreDigit(0xe40, "e4", 2);
    OneMoreDigit(0xe40c, "e40", 3);
    OneMoreDigit(0xe40c2, "e40c", 4);
    OneMoreDigit(0xe40c29, "e40c2", 5);
    OneMoreDigit(0xe40c292, "e40c29", 6);
    OneMoreDigit(0xe40c292c, "e40c292", 7);
    assert (0xe40c292c as bv32) as nat == 0xe40c292c;
  }

  lemma OneMoreDigit(n: nat, digits: string, k: nat)
    requires if k == 0 then digits == "" else HexDigits(n / 16, k) == digits
    ensures HexDigits(n, k + 1) == digits + [HexDigit(n % 16)]
  {
  }

  lemma FirstSteps()
    ensures MixUnit(0x811c9dc5, 97) == 0xe40c292c
    ensures MixUnit(0x811c9dc5, 102) == 0xe30c2799 && MixUnit(0xe30c2799, 111) == 0x6222e842 && MixUnit(0x6222e842, 111) == 0xa9f37ed7
  {
  }

  lemma LastSteps()
    ensures MixUnit(0xa9f37ed7, 98) == 0x3f5076ef && MixUnit(0x3f5076ef, 97) == 0x39aaa18a && MixUnit(0x39aaa18a, 114) == 0xbf9cf968
  {
  }

  lemma MixOne(hash: bv32, c: char, unit: bv32, rest: string)
    requires Units(c) == [unit]
    ensures Mix(hash, [c] + rest) == Mix(MixUnit(hash, unit), rest)
  {
    hide MixUnit, Units;
    assert ([c] + rest)[1..] == rest;
    assert [unit][1..] == [];
    assert MixUnits(hash, [unit]) == MixUnit(hash, unit);
  }

  /** The digest runs on over the string and the number of digits so far, eight digits at a time. */
  lemma DigestParts(id: string, length: nat)
    requires length == 16 || length == 32
    ensures var h1 := Mix(0x811c9dc5, id);
      var h2 := Mix(h1, id + ":8");
      var h3 := Mix(h2, id + ":8:16");
      var h4 := Mix(h3, id + ":8:16:24");
      var half := Word(h1) + Word(h2);
      StableHex(id, length) == AvoidAllZero(if length == 16 then half else half + Word(h3) + Word(h4))
  {
    hide Mix, Word, AvoidAllZero, Digest, Decimal;
    var h1 := Mix(0x811c9dc5, id);
    var h2 := Mix(h1, id + ":8");
    var h3 := Mix(h2, id + ":8:16");
    var h4 := Mix(h3, id + ":8:16:24");
    DecimalOf();
    DigestStep(0x811c9dc5, [], id, "8", length);
    assert [] + Word(h1) == Word(h1) && id + ":" + "8" == id + ":8";
    DigestStep(h1, Word(h1), id + ":8", "16", length);
    assert id + ":8" + ":" + "16" == id + ":8:16";
    DigestStep(h2, Word(h1) + Word(h2), id + ":8:16", "24", length);
    assert id + ":8:16" + ":" + "24" == id + ":8:16:24";
    DigestStep(h3, Word(h1) + Word(h2) + Word(h3), id + ":8:16:24", "32", length);
    assert Digest(0x811c9dc5, [], id, length)[..length] == Digest(0x811c9dc5, [], id, length);
  }

  lemma DecimalOf()
    ensures Decimal(8) == "8" && Decimal(16) == "16" && Decimal(24) == "24" && Decimal(32) == "32"
  {
  }

  lemma DigestStep(hash: bv32, out: string, input: string, count: string, length: nat)
    requires Decimal(|out| + 8) == count
    ensures var h := Mix(hash, input);
      && (|out| >= length ==> Digest(hash, out, input, length) == out)
      && (|out| < length ==> Digest(hash, out, input, length) == Digest(h, out + Word(h), input + ":" + count, length))
      && (|out| < length <= |out| + 8 ==> Digest(hash, out, input, length) == out + Word(h))
  {
    hide Mix, Word, Decimal;
  }
}
