/** encodeURIComponent and decodeURIComponent, over UTF-8. */
module PercentCoding {
  import opened Prelude

  type byte = n: nat | n < 256

  // ----- UTF-8 -----

  function Utf8(c: char): seq<byte> {
    var n := c as int;
    if n < 0x80 then [n]
    else if n < 0x800 then [0xC0 + n / 64, 0x80 + n % 64]
    else if n < 0x10000 then [0xE0 + n / 4096, 0x80 + n / 64 % 64, 0x80 + n % 64]
    else [0xF0 + n / 262144, 0x80 + n / 4096 % 64, 0x80 + n / 64 % 64, 0x80 + n % 64]
  }

  /** How many bytes the sequence starting with b has; None for a byte that starts none. */
  function Length(b: byte): Option<nat> {
    if b < 0x80 then Some(1)
    else if b < 0xC0 then None
    else if b < 0xE0 then Some(2)
    else if b < 0xF0 then Some(3)
    else if b < 0xF8 then Some(4)
    else None
  }

  predicate IsContinuation(b: byte) { 0x80 <= b < 0xC0 }

  function Char(n: nat): Option<char> {
    if n < 0xD800 || 0xE000 <= n < 0x110000 then Some(n as char) else None
  }

  /** The character of a complete sequence; overlong forms, surrogates and too large numbers have none. */
  function CharOf(bytes: seq<byte>): Option<char> {
    if exists i :: 1 <= i < |bytes| && !IsContinuation(bytes[i]) then None
    else match |bytes|
      case 1 => Char(bytes[0])
      case 2 =>
        var n: int := ((bytes[0] as int) - 0xC0) * 64 + (bytes[1] as int) - 0x80;
        if n >= 0x80 then Char(n) else None
      case 3 =>
        var n: int := ((bytes[0] as int) - 0xE0) * 4096 + ((bytes[1] as int) - 0x80) * 64 + (bytes[2] as int) - 0x80;
        if n >= 0x800 then Char(n) else None
      case 4 =>
        var n: int := ((bytes[0] as int) - 0xF0) * 262144 + ((bytes[1] as int) - 0x80) * 4096 + ((bytes[2] as int) - 0x80) * 64 + (bytes[3] as int) - 0x80;
        if n >= 0x10000 then Char(n) else None
      case _ => None
  }

  lemma CharOfUtf8(c: char)
    ensures var bytes := Utf8(c); Length(bytes[0]) == Some(|bytes|) && CharOf(bytes) == Some(c)
  {
    var n := c as int;
    if n < 0x80 {
    } else if n < 0x800 {
    } else if n < 0x10000 {
      assert n / 4096 == n / 64 / 64;
    } else {
      assert n / 4096 == n / 64 / 64 && n / 262144 == n / 4096 / 64;
    }
  }

  // ----- percent coding -----

  predicate IsUnreserved(c: char) {
    'A' <= c <= 'Z' || 'a' <= c <= 'z' || '0' <= c <= '9' || c in "-_.!~*'()"
  }

  function UpperHex(n: nat): char
    requires n < 16
  {
    if n < 10 then (48 + n) as char else (55 + n) as char
  }

  function HexValue(c: char): Option<nat> {
    if '0' <= c <= '9' then Some(c as int - 48)
    else if 'A' <= c <= 'F' then Some(c as int - 55)
    else if 'a' <= c <= 'f' then Some(c as int - 87)
    else None
  }

  function Percent(bytes: seq<byte>): string {
    if bytes == [] then [] else ['%', UpperHex(bytes[0] / 16), UpperHex(bytes[0] % 16)] + Percent(bytes[1..])
  }

  function EncodeChar(c: char): string {
    if IsUnreserved(c) then [c] else Percent(Utf8(c))
  }

  function Encode(s: string): string {
    if s == [] then [] else EncodeChar(s[0]) + Encode(s[1..])
  }

  /** The first n bytes written in percent form. */
  function Octets(s: string, n: nat): Option<seq<byte>>
    decreases n
  {
    if n == 0 then Some([])
    else if |s| < 3 || s[0] != '%' || HexValue(s[1]).None? || HexValue(s[2]).None? then None
    else
      match Octets(s[3..], n - 1)
      case None => None
      case Some(rest) =>
        var b := 16 * HexValue(s[1]).value + HexValue(s[2]).value;
        Some([b] + rest)
  }

  lemma {:induction false} OctetsLength(s: string, n: nat)
    requires Octets(s, n).Some?
    ensures |Octets(s, n).value| == n && |s| >= 3 * n
    decreases n
  {
    if n > 0 { OctetsLength(s[3..], n - 1); }
  }

  /** None where the original throws. */
  function Decode(s: string): Option<string>
    decreases |s|
  {
    if s == [] then Some([])
    else if s[0] != '%' then
      match Decode(s[1..])
      case None => None
      case Some(rest) => Some([s[0]] + rest)
    else
      match Octets(s, 1)
      case None => None
      case Some(first) =>
        match Length(if first == [] then 0 else first[0])
        case None => None
        case Some(n) =>
          match Octets(s, n)
          case None => None
          case Some(bytes) =>
            match CharOf(bytes)
            case None => None
            case Some(c) =>
              match if |s| < 3 * n then None else Decode(s[3 * n..])
              case None => None
              case Some(rest) => Some([c] + rest)
  }

  // ----- decoding undoes encoding -----

  lemma HexUndone(n: nat)
    requires n < 16
    ensures HexValue(UpperHex(n)) == Some(n)
  {
  }

  lemma OctetsStep(b: byte, tail: string, n: nat)
    requires n > 0 && Octets(tail, n - 1).Some?
    ensures Octets(['%', UpperHex(b / 16), UpperHex(b % 16)] + tail, n) == Some([b] + Octets(tail, n - 1).value)
  {
    var s := ['%', UpperHex(b / 16), UpperHex(b % 16)] + tail;
    HexUndone(b / 16);
    HexUndone(b % 16);
    assert s[3..] == tail;
  }

  lemma {:induction false} OctetsOfPercent(bytes: seq<byte>, rest: string, n: nat)
    requires n <= |bytes|
    ensures Octets(Percent(bytes) + rest, n) == Some(bytes[..n])
    ensures |Percent(bytes)| == 3 * |bytes|
    decreases |bytes|
  {
    if bytes != [] {
      var head := ['%', UpperHex(bytes[0] / 16), UpperHex(bytes[0] % 16)];
      OctetsOfPercent(bytes[1..], rest, if n == 0 then 0 else n - 1);
      if n > 0 {
        OctetsStep(bytes[0], Percent(bytes[1..]) + rest, n);
        assert head + (Percent(bytes[1..]) + rest) == Percent(bytes) + rest;
        assert [bytes[0]] + bytes[1..][..n - 1] == bytes[..n];
      }
    }
  }

  lemma DecodeOne(c: char, rest: string)
    requires Decode(rest).Some?
    ensures Decode(EncodeChar(c) + rest) == Some([c] + Decode(rest).value)
  {
    var s := EncodeChar(c) + rest;
    if IsUnreserved(c) {
      assert s[0] == c && s[1..] == rest;
    } else {
      var bytes := Utf8(c);
      CharOfUtf8(c);
      OctetsOfPercent(bytes, rest, 1);
      OctetsOfPercent(bytes, rest, |bytes|);
      assert bytes[..|bytes|] == bytes;
      assert s[0] == '%';
      assert s[3 * |bytes|..] == rest;
    }
  }

  /** Decoding gives back every string that was encoded. */
  lemma {:induction false} DecodeOfEncode(s: string)
    ensures Decode(Encode(s)) == Some(s)
  {
    if s != [] {
      DecodeOfEncode(s[1..]);
      DecodeOne(s[0], Encode(s[1..]));
      assert [s[0]] + s[1..] == s;
    }
  }

  /** Characters that mean something in a header, or are white space, never appear in encoded text. */
  predicate IsPlain(c: char) { IsUnreserved(c) || c == '%' }

  lemma {:induction false} PercentIsPlain(bytes: seq<byte>)
    ensures forall c :: c in Percent(bytes) ==> IsPlain(c)
  {
    if bytes != [] {
      PercentIsPlain(bytes[1..]);
    }
  }

  lemma {:induction false} EncodedIsPlain(s: string)
    ensures forall c :: c in Encode(s) ==> IsPlain(c)
  {
    if s != [] {
      EncodedIsPlain(s[1..]);
      PercentIsPlain(Utf8(s[0]));
    }
  }

  // ----- what is encoded how, and what is decoded -----

  /** The examples of RFC 3629, section 7, and one of two bytes. */
  lemma Utf8Examples()
    ensures Utf8('A') == [0x41] && Utf8(0xE9 as char) == [0xC3, 0xA9]
    ensures Utf8(0x2262 as char) == [0xE2, 0x89, 0xA2] && Utf8(0x65E5 as char) == [0xE6, 0x97, 0xA5]
    ensures Utf8(0x233B4 as char) == [0xF0, 0xA3, 0x8E, 0xB4]
  {
  }

  /** p is byte b in percent form, with digits in either letter case. */
  predicate IsPercentOf(p: string, b: byte) {
    && |p| == 3 && p[0] == '%' && HexValue(p[1]).Some? && HexValue(p[2]).Some?
    && 16 * HexValue(p[1]).value + HexValue(p[2]).value == b
  }

  /** s is the bytes in percent form, one after the other. */
  predicate IsPercentForm(s: string, bytes: seq<byte>) {
    |s| == 3 * |bytes| && forall i :: 0 <= i < |bytes| ==> IsPercentOf(s[3 * i..3 * i + 3], bytes[i])
  }

  /** A piece of text that stands for one character: itself, or the percent form of its UTF-8 bytes. */
  predicate StandsFor(p: string, c: char) {
    (c != '%' && p == [c]) || IsPercentForm(p, Utf8(c))
  }

  function Concat(pieces: seq<string>): string {
    if pieces == [] then [] else pieces[0] + Concat(pieces[1..])
  }

  /** s falls into pieces that stand for the characters of t. */
  ghost predicate Spells(s: string, t: string) {
    exists pieces: seq<string> :: |pieces| == |t| && Concat(pieces) == s && forall i :: 0 <= i < |t| ==> StandsFor(pieces[i], t[i])
  }

  /** Only the UTF-8 bytes of a character are taken for it: no overlong form, no surrogate. */
  lemma CharOfOnlyUtf8(bytes: seq<byte>, c: char)
    requires bytes != [] && Length(bytes[0]) == Some(|bytes|) && CharOf(bytes) == Some(c)
    ensures bytes == Utf8(c)
  {
    forall i | 1 <= i < |bytes| ensures IsContinuation(bytes[i]) {}
    var n := c as int;
    if |bytes| == 1 {
    } else if |bytes| == 2 {
      assert n == (bytes[0] as int - 0xC0) * 64 + (bytes[1] as int - 0x80);
    } else if |bytes| == 3 {
      ThreeBytes(bytes[0] - 0xE0, bytes[1] - 0x80, bytes[2] - 0x80, n);
    } else {
      FourBytes(bytes[0] - 0xF0, bytes[1] - 0x80, bytes[2] - 0x80, bytes[3] - 0x80, n);
    }
  }

  lemma ThreeBytes(a: nat, b: nat, c: nat, n: nat)
    requires b < 64 && c < 64 && n == a * 4096 + b * 64 + c
    ensures n / 4096 == a && n / 64 % 64 == b && n % 64 == c
  {
    assert n / 64 == a * 64 + b;
  }

  lemma FourBytes(a: nat, b: nat, c: nat, d: nat, n: nat)
    requires b < 64 && c < 64 && d < 64 && n == a * 262144 + b * 4096 + c * 64 + d
    ensures n / 262144 == a && n / 4096 % 64 == b && n / 64 % 64 == c && n % 64 == d
  {
    assert n / 64 == a * 4096 + b * 64 + c;
    assert n / 4096 == a * 64 + b;
  }

  lemma ThreeOf(s: string, n: nat, i: nat)
    requires i + 3 <= n <= |s|
    ensures s[..n][i..i + 3] == s[i..i + 3]
  {
  }

  lemma ThreeFrom(s: string, i: nat)
    requires i + 6 <= |s|
    ensures s[3..][i..i + 3] == s[i + 3..i + 6]
  {
  }

  lemma {:induction false} OctetsAre(s: string, n: nat)
    requires Octets(s, n).Some?
    ensures |s| >= 3 * n && |Octets(s, n).value| == n && IsPercentForm(s[..3 * n], Octets(s, n).value)
    decreases n
  {
    if n > 0 {
      OctetsAre(s[3..], n - 1);
      var bytes, rest := Octets(s, n).value, Octets(s[3..], n - 1).value;
      forall i | 0 <= i < n ensures IsPercentOf(s[..3 * n][3 * i..3 * i + 3], bytes[i]) {
        ThreeOf(s, 3 * n, 3 * i);
        if i > 0 {
          assert IsPercentOf(s[3..][..3 * (n - 1)][3 * (i - 1)..3 * (i - 1) + 3], rest[i - 1]);
          ThreeOf(s[3..], 3 * (n - 1), 3 * (i - 1));
          ThreeFrom(s, 3 * (i - 1));
        }
      }
    }
  }

  lemma {:induction false} OctetsOfForm(s: string, bytes: seq<byte>, rest: string, n: nat)
    requires IsPercentForm(s, bytes) && n <= |bytes|
    ensures Octets(s + rest, n) == Some(bytes[..n])
    decreases n
  {
    if n > 0 {
      assert IsPercentOf(s[3 * 0..3 * 0 + 3], bytes[0]);
      forall i | 0 <= i < |bytes| - 1 ensures IsPercentOf(s[3..][3 * i..3 * i + 3], bytes[1..][i]) {
        assert IsPercentOf(s[3 * (i + 1)..3 * (i + 1) + 3], bytes[i + 1]);
        assert s[3..][3 * i..3 * i + 3] == s[3 * (i + 1)..3 * (i + 1) + 3];
      }
      OctetsOfForm(s[3..], bytes[1..], rest, n - 1);
      assert (s + rest)[3..] == s[3..] + rest;
      assert (s + rest)[1] == s[0..3][1] && (s + rest)[2] == s[0..3][2] && (s + rest)[0] == s[0..3][0];
      assert [bytes[0]] + bytes[1..][..n - 1] == bytes[..n];
    }
  }

  lemma DecodePiece(p: string, c: char, rest: string)
    requires StandsFor(p, c)
    ensures Decode(p + rest) == if Decode(rest).None? then None else Some([c] + Decode(rest).value)
  {
    var s := p + rest;
    if c != '%' && p == [c] {
      assert s[0] == c && s[1..] == rest;
    } else {
      var bytes := Utf8(c);
      CharOfUtf8(c);
      OctetsOfForm(p, bytes, rest, 1);
      OctetsOfForm(p, bytes, rest, |bytes|);
      assert bytes[..|bytes|] == bytes;
      assert IsPercentOf(p[3 * 0..3 * 0 + 3], bytes[0]);
      assert s[0] == p[0..3][0];
      assert s[3 * |bytes|..] == rest;
    }
  }

  lemma {:induction false} SpelledIsDecoded(pieces: seq<string>, t: string)
    requires |pieces| == |t| && forall i :: 0 <= i < |t| ==> StandsFor(pieces[i], t[i])
    ensures Decode(Concat(pieces)) == Some(t)
    decreases |pieces|
  {
    if pieces != [] {
      SpelledIsDecoded(pieces[1..], t[1..]);
      DecodePiece(pieces[0], t[0], Concat(pieces[1..]));
      assert [t[0]] + t[1..] == t;
    }
  }

  /** The first piece of a text that decodes. */
  lemma FirstPiece(s: string) returns (p: string)
    requires s != [] && Decode(s).Some?
    ensures p != [] && p <= s && Decode(s).value != [] && StandsFor(p, Decode(s).value[0])
    ensures Decode(s[|p|..]) == Some(Decode(s).value[1..])
  {
    var t := Decode(s).value;
    if s[0] != '%' {
      p := s[..1];
    } else {
      OctetsAre(s, 1);
      var n := Length(Octets(s, 1).value[0]).value;
      OctetsAre(s, n);
      SameFirst(s, n);
      p := s[..3 * n];
      CharOfOnlyUtf8(Octets(s, n).value, t[0]);
    }
  }

  lemma SameFirst(s: string, n: nat)
    requires n >= 1 && Octets(s, n).Some?
    ensures Octets(s, 1).Some? && |Octets(s, 1).value| == 1 && |Octets(s, n).value| == n
    ensures Octets(s, 1).value[0] == Octets(s, n).value[0]
  {
    OctetsLength(s, n);
    assert Octets(s[3..], 0) == Some([]);
  }

  lemma {:induction false} DecodedIsSpelled(s: string) returns (pieces: seq<string>)
    requires Decode(s).Some?
    ensures var t := Decode(s).value;
      |pieces| == |t| && Concat(pieces) == s && forall i :: 0 <= i < |t| ==> StandsFor(pieces[i], t[i])
    decreases |s|
  {
    if s == [] {
      pieces := [];
    } else {
      var p := FirstPiece(s);
      var rest := DecodedIsSpelled(s[|p|..]);
      pieces := [p] + rest;
      assert pieces[1..] == rest && p + s[|p|..] == s;
    }
  }

  /** A text decodes to t iff it falls into pieces that stand for the characters of t: nothing else decodes, and
      nothing decodes to two texts. */
  lemma DecodesIff(s: string, t: string)
    ensures Decode(s) == Some(t) <==> Spells(s, t)
  {
    if Decode(s) == Some(t) {
      var pieces := DecodedIsSpelled(s);
    }
    if Spells(s, t) {
      var pieces: seq<string> :| |pieces| == |t| && Concat(pieces) == s && forall i :: 0 <= i < |t| ==> StandsFor(pieces[i], t[i]);
      SpelledIsDecoded(pieces, t);
    }
  }

  lemma {:induction false} EncodeJoins(a: string, c: char)
    ensures Encode(a + [c]) == Encode(a) + Encode([c])
  {
    hide EncodeChar;
    assert [c][1..] == [];
    if a == [] {
      assert a + [c] == [c];
    } else {
      assert (a + [c])[0] == a[0] && (a + [c])[1..] == a[1..] + [c];
      EncodeJoins(a[1..], c);
    }
  }

  /** Encoding goes character by character: the unreserved ones stand for themselves, and of the others only the percent form
      with capital digits is written. */
  lemma EncodeIs(a: string, c: char)
    ensures Encode(a + [c]) == Encode(a) + Encode([c])
    ensures IsUnreserved(c) ==> Encode([c]) == [c]
    ensures !IsUnreserved(c) ==>
      IsPercentForm(Encode([c]), Utf8(c)) && forall x :: x in Encode([c]) ==> x in "%0123456789ABCDEF"
  {
    hide Utf8, IsUnreserved, IsPercentForm, Percent;
    EncodeJoins(a, c);
    assert [c][1..] == [] && Encode([c]) == EncodeChar(c);
    PercentForm(Utf8(c));
  }

  lemma {:induction false} PercentForm(bytes: seq<byte>)
    ensures IsPercentForm(Percent(bytes), bytes)
    ensures forall i :: 0 <= i < |Percent(bytes)| ==> Percent(bytes)[i] in "%0123456789ABCDEF"
  {
    if bytes != [] {
      PercentForm(bytes[1..]);
      var s, head := Percent(bytes), ['%', UpperHex(bytes[0] / 16), UpperHex(bytes[0] % 16)];
      HexUndone(bytes[0] / 16);
      HexUndone(bytes[0] % 16);
      assert s[3..] == Percent(bytes[1..]) && s[0..3] == head;
      FormOfMore(s, bytes);
      UpperHexIs(bytes[0] / 16);
      UpperHexIs(bytes[0] % 16);
      forall i | 0 <= i < |s| ensures s[i] in "%0123456789ABCDEF" {
        if i >= 3 { assert s[i] == s[3..][i - 3]; }
      }
    }
  }

  lemma FormOfMore(s: string, bytes: seq<byte>)
    requires bytes != [] && |s| == 3 * |bytes| && IsPercentOf(s[0..3], bytes[0]) && IsPercentForm(s[3..], bytes[1..])
    ensures IsPercentForm(s, bytes)
  {
    forall i | 0 <= i < |bytes| ensures IsPercentOf(s[3 * i..3 * i + 3], bytes[i]) {
      if i > 0 {
        assert IsPercentOf(s[3..][3 * (i - 1)..3 * (i - 1) + 3], bytes[1..][i - 1]);
        ThreeFrom(s, 3 * (i - 1));
      }
    }
  }

  lemma UpperHexIs(n: nat)
    requires n < 16
    ensures UpperHex(n) in "0123456789ABCDEF" && UpperHex(n) in "%0123456789ABCDEF"
  {
    assert UpperHex(n) == "0123456789ABCDEF"[n] && UpperHex(n) == "%0123456789ABCDEF"[n + 1];
  }
}
