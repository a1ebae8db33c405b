/** encodeURIComponent and decodeURIComponent over Unicode scalar values: percent-encoding of
    UTF-8 bytes (section 2.1 of RFC 3986). */
module PercentCoding {
  import opened Wrappers

  type Byte = b: int | 0 <= b < 256

  predicate Unreserved(c: char) {
    'A' <= c <= 'Z' || 'a' <= c <= 'z' || '0' <= c <= '9' || c in "-_.!~*'()"
  }

  function HexDigit(n: int): (d: char)
    requires 0 <= n < 16
  {
    if n < 10 then ('0' as int + n) as char else ('A' as int + n - 10) as char
  }

  function HexValue(c: char): Option<int> {
    if '0' <= c <= '9' then Some(c as int - '0' as int)
    else if 'A' <= c <= 'F' then Some(c as int - 'A' as int + 10)
    else if 'a' <= c <= 'f' then Some(c as int - 'a' as int + 10)
    else None
  }

  function Percent(b: Byte): string {
    ['%', HexDigit(b / 16), HexDigit(b % 16)]
  }

  /** The byte written at the start of the text, if one is. */
  function PercentByte(s: string): Option<Byte> {
    if |s| < 3 || s[0] != '%' || HexValue(s[1]).None? || HexValue(s[2]).None? then None
    else Some(16 * HexValue(s[1]).value + HexValue(s[2]).value)
  }

  /** The bytes carry the value in groups of six bits. */
  function Utf8(c: char): seq<Byte> {
    var cp := c as int;
    var high := cp / 64;
    if cp < 0x80 then [cp]
    else if cp < 0x800 then [0xC0 + high, 0x80 + cp % 64]
    else if cp < 0x10000 then [0xE0 + high / 64, 0x80 + high % 64, 0x80 + cp % 64]
    else [0xF0 + high / 64 / 64, 0x80 + high / 64 % 64, 0x80 + high % 64, 0x80 + cp % 64]
  }

  function PercentAll(bytes: seq<Byte>): string {
    if bytes == [] then "" else Percent(bytes[0]) + PercentAll(bytes[1..])
  }

  function EncodeChar(c: char): string {
    if Unreserved(c) then [c] else PercentAll(Utf8(c))
  }

  function Encode(s: string): string {
    if s == "" then "" else EncodeChar(s[0]) + Encode(s[1..])
  }

  // ---------------------------------------------------------------- decoding

  /** How many bytes a sequence with this first byte has; zero for a byte that cannot start one. */
  function SequenceLength(b: Byte): nat {
    if b < 0x80 then 1 else if 0xC0 <= b < 0xE0 then 2 else if 0xE0 <= b < 0xF0 then 3 else if 0xF0 <= b < 0xF8 then 4 else 0
  }

  /** The continuation byte written at the start of the text. */
  function Continuation(s: string): Option<int> {
    var b := PercentByte(s);
    if b.Some? && 0x80 <= b.value < 0xC0 then Some(b.value - 0x80) else None
  }

  /** Overlong forms, surrogates and values beyond U+10FFFF are malformed. */
  function Scalar(cp: int, length: nat): Option<char> {
    if (length == 2 && cp < 0x80) || (length == 3 && cp < 0x800) || (length == 4 && cp < 0x10000) then None
    else if 0 <= cp < 0xD800 || 0xE000 <= cp <= 0x10FFFF then Some(cp as char)
    else None
  }

  function CodePoint(b: Byte, n: nat, c1: int, c2: int, c3: int): int {
    if n == 1 then b
    else if n == 2 then (b - 0xC0) * 64 + c1
    else if n == 3 then (b - 0xE0) * 4096 + c1 * 64 + c2
    else (b - 0xF0) * 262144 + c1 * 4096 + c2 * 64 + c3
  }

  /** The character the escapes at the start of the text spell, and how long they are. */
  function DecodeEscapes(s: string): Option<(char, nat)> {
    var first := PercentByte(s);
    if first.None? then None
    else
      var n := SequenceLength(first.value);
      if n == 0 || |s| < 3 * n then None
      else
        var c1 := if n >= 2 then Continuation(s[3..]) else Some(0);
        var c2 := if n >= 3 then Continuation(s[6..]) else Some(0);
        var c3 := if n >= 4 then Continuation(s[9..]) else Some(0);
        if c1.None? || c2.None? || c3.None? then None
        else
          var scalar := Scalar(CodePoint(first.value, n, c1.value, c2.value, c3.value), n);
          if scalar.None? then None else Some((scalar.value, 3 * n))
  }

  /** decodeURIComponent; None is its URIError. */
  function Decode(s: string): Option<string>
    decreases |s|
  {
    if s == "" then Some("")
    else if s[0] != '%' then Prefixed(s[0], Decode(s[1..]))
    else
      var d := DecodeEscapes(s);
      if d.None? || d.value.1 == 0 || d.value.1 > |s| then None
      else Prefixed(d.value.0, Decode(s[d.value.1..]))
  }

  function Prefixed(c: char, rest: Option<string>): Option<string> {
    if rest.None? then None else Some([c] + rest.value)
  }

  // ---------------------------------------------------------------- round trip

  lemma {:induction false} PercentAt(b: Byte, bytes: seq<Byte>, rest: string)
    ensures var s := PercentAll([b] + bytes) + rest;
            PercentByte(s) == Some(b) && |s| >= 3 && s[0] == '%' && s[3..] == PercentAll(bytes) + rest
  {
  }

  /** Each escape is found at its place, and the rest behind the last one. */
  lemma {:induction false} PercentsAt(bytes: seq<Byte>, rest: string)
    ensures |PercentAll(bytes) + rest| == 3 * |bytes| + |rest|
    ensures (PercentAll(bytes) + rest)[3 * |bytes|..] == rest
    ensures forall k :: 0 <= k < |bytes| ==> PercentByte((PercentAll(bytes) + rest)[3 * k..]) == Some(bytes[k])
    decreases |bytes|
  {
    var s := PercentAll(bytes) + rest;
    if bytes == [] {
      assert s == rest;
    } else {
      assert bytes == [bytes[0]] + bytes[1..];
      PercentAt(bytes[0], bytes[1..], rest);
      PercentsAt(bytes[1..], rest);
      var t := PercentAll(bytes[1..]) + rest;
      assert s[3..] == t;
      assert s[3 * |bytes|..] == t[3 * |bytes[1..]|..];
      forall k | 0 <= k < |bytes|
        ensures PercentByte(s[3 * k..]) == Some(bytes[k])
      {
        if k == 0 {
          assert s[0..] == s;
        } else {
          assert s[3 * k..] == t[3 * (k - 1)..];
          assert bytes[k] == bytes[1..][k - 1];
        }
      }
    }
  }

  /** The bytes of a character determine it, and are well formed. */
  lemma {:induction false} Utf8Determines(c: char)
    ensures var u, n := Utf8(c), |Utf8(c)|;
            && SequenceLength(u[0]) == n && 1 <= n <= 4
            && (forall k :: 1 <= k < n ==> 0x80 <= u[k] < 0xC0)
            && CodePoint(u[0], n, if n >= 2 then u[1] - 0x80 else 0, if n >= 3 then u[2] - 0x80 else 0,
                         if n >= 4 then u[3] - 0x80 else 0) == c as int
            && Scalar(c as int, n) == Some(c)
  {
  }

  lemma {:induction false} DecodeEscapesOf(c: char, rest: string)
    ensures DecodeEscapes(PercentAll(Utf8(c)) + rest) == Some((c, 3 * |Utf8(c)|))
  {
    var u := Utf8(c);
    var s := PercentAll(u) + rest;
    PercentsAt(u, rest);
    Utf8Determines(c);
    assert s[3 * 0..] == s;
    assert PercentByte(s) == Some(u[0]);
    assert |u| >= 2 ==> PercentByte(s[3 * 1..]) == Some(u[1]);
    assert |u| >= 3 ==> PercentByte(s[3 * 2..]) == Some(u[2]);
    assert |u| >= 4 ==> PercentByte(s[3 * 3..]) == Some(u[3]);
  }

  /** One encoded character is decoded to itself, whatever follows. */
  lemma {:induction false} DecodeOne(c: char, rest: string)
    ensures Decode(EncodeChar(c) + rest) == Prefixed(c, Decode(rest))
  {
    if Unreserved(c) {
      DecodePlain(c, rest);
    } else {
      var s := PercentAll(Utf8(c)) + rest;
      DecodeEscapesOf(c, rest);
      PercentsAt(Utf8(c), rest);
      assert PercentByte(s[3 * 0..]).Some? && s[0..] == s;
    }
  }

  lemma {:induction false} DecodePlain(c: char, rest: string)
    requires c != '%'
    ensures Decode([c] + rest) == Prefixed(c, Decode(rest))
  {
  }

  /** decodeURIComponent undoes encodeURIComponent. */
  lemma {:induction false} DecodeEncode(s: string)
    ensures Decode(Encode(s)) == Some(s)
  {
    if s != "" {
      DecodeOne(s[0], Encode(s[1..]));
      DecodeEncode(s[1..]);
      assert [s[0]] + s[1..] == s;
    }
  }

  // ---------------------------------------------------------------- what the encoding looks like

  lemma {:induction false} UpperCase(c: char)
    ensures c in "ABCDEFGHIJKLMNOPQRSTUVWXYZ" <==> 'A' <= c <= 'Z'
  {
    var letters := "ABCDEFGHIJKLMNOPQRSTUVWXYZ";
    if 'A' <= c <= 'Z' {
      assert letters[c as int - 'A' as int] == c;
    }
  }

  lemma {:induction false} LowerCase(c: char)
    ensures c in "abcdefghijklmnopqrstuvwxyz" <==> 'a' <= c <= 'z'
  {
    var letters := "abcdefghijklmnopqrstuvwxyz";
    if 'a' <= c <= 'z' {
      assert letters[c as int - 'a' as int] == c;
    }
  }

  lemma {:induction false} Digit(c: char)
    ensures c in "0123456789" <==> '0' <= c <= '9'
  {
    var digits := "0123456789";
    if '0' <= c <= '9' {
      assert digits[c as int - '0' as int] == c;
    }
  }

  /** The characters left as they are. */
  lemma {:induction false} UnreservedExactly(c: char)
    ensures Unreserved(c) <==>
              c in "ABCDEFGHIJKLMNOPQRSTUVWXYZ" || c in "abcdefghijklmnopqrstuvwxyz" || c in "0123456789" || c in "-_.!~*'()"
    ensures Unreserved(c) ==> EncodeChar(c) == [c]
  {
    UpperCase(c);
    LowerCase(c);
    Digit(c);
  }

  /** Every other one becomes its bytes, each as a percent sign and two upper-case digits. */
  lemma {:induction false} EscapeShape(b: Byte)
    ensures Percent(b) == ['%', "0123456789ABCDEF"[b / 16], "0123456789ABCDEF"[b % 16]]
  {
  }

  lemma {:induction false} EncodedCharacter(c: char, k: nat)
    requires !Unreserved(c) && k < |Utf8(c)|
    ensures |EncodeChar(c)| == 3 * |Utf8(c)| && EncodeChar(c)[3 * k..3 * k + 3] == Percent(Utf8(c)[k])
  {
    PercentAllAt(Utf8(c), k);
  }

  lemma {:induction false} PercentAllAt(bytes: seq<Byte>, k: nat)
    ensures |PercentAll(bytes)| == 3 * |bytes|
    ensures k < |bytes| ==> PercentAll(bytes)[3 * k..3 * k + 3] == Percent(bytes[k])
    decreases |bytes|
  {
    if bytes != [] {
      PercentAllAt(bytes[1..], if k > 0 then k - 1 else 0);
      if 0 < k < |bytes| {
        assert PercentAll(bytes)[3 * k..3 * k + 3] == PercentAll(bytes[1..])[3 * (k - 1)..3 * (k - 1) + 3];
      }
    }
  }

  // ---------------------------------------------------------------- decoding part of a text

  lemma {:induction false} EscapeHasNoSlash(s: string)
    ensures PercentByte(s).Some? ==> |s| >= 3 && s[0] != '/' && s[1] != '/' && s[2] != '/'
  {
  }

  /** Escapes never reach over a slash. */
  lemma {:induction false} EscapesHaveNoSlash(s: string)
    ensures DecodeEscapes(s).Some? ==> DecodeEscapes(s).value.1 <= |s|
    ensures DecodeEscapes(s).Some? ==> forall k :: 0 <= k < DecodeEscapes(s).value.1 ==> s[k] != '/'
  {
    EscapeHasNoSlash(s);
    if DecodeEscapes(s).Some? {
      var n := DecodeEscapes(s).value.1;
      if n >= 6 {
        EscapeHasNoSlash(s[3..]);
      }
      if n >= 9 {
        EscapeHasNoSlash(s[6..]);
      }
      if n >= 12 {
        EscapeHasNoSlash(s[9..]);
      }
    }
  }

  /** What follows a slash decodes to less than the whole. */
  lemma {:induction false} DecodeAfterSlash(a: string, b: string)
    ensures Decode(a + "/" + b).Some? ==> Decode(b).Some? && |Decode(b).value| < |Decode(a + "/" + b).value|
    decreases |a|
  {
    var s := a + "/" + b;
    if a == "" {
      assert s[0] == '/' && s[1..] == b;
    } else if a[0] != '%' {
      assert s[0] == a[0] && s[1..] == a[1..] + "/" + b;
      DecodeAfterSlash(a[1..], b);
    } else {
      assert s[0] == '%' && s[|a|] == '/';
      EscapesHaveNoSlash(s);
      if Decode(s).Some? {
        var n := DecodeEscapes(s).value.1;
        assert s[n..] == a[n..] + "/" + b;
        DecodeAfterSlash(a[n..], b);
      }
    }
  }
}
