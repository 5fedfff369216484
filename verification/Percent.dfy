/** UTF-8 and the two percent-encodings of the frontend: encodeURIComponent with its inverse,
    and the form encoding of URLSearchParams. A JavaScript string is a sequence of Unicode
    scalar values here. */
module Percent {
  import opened Foundations

  // ----- UTF-8 -----

  function Utf8Char(c: char): (b: Bytes)
    ensures 1 <= |b| <= 4
  {
    var n := c as int;
    if n < 0x80 then [n as Byte]
    else if n < 0x800 then [(0xC0 + n / 64) as Byte, (0x80 + n % 64) as Byte]
    else if n < 0x10000 then [(0xE0 + n / 4096) as Byte, (0x80 + n / 64 % 64) as Byte, (0x80 + n % 64) as Byte]
    else [(0xF0 + n / 262144) as Byte, (0x80 + n / 4096 % 64) as Byte,
          (0x80 + n / 64 % 64) as Byte, (0x80 + n % 64) as Byte]
  }

  function Utf8(s: string): Bytes {
    if s == "" then [] else Utf8Char(s[0]) + Utf8(s[1..])
  }

  /** The rest of a multi-byte sequence: the character, None when it is malformed, and how many
      bytes belong to it. Only the first continuation byte has bounds of its own. */
  function Continuation(b: Bytes, i: nat, needed: nat, lower: Byte, upper: Byte, point: nat): (r: (Option<char>, nat))
    requires i <= |b|
    ensures i <= r.1 <= |b|
    decreases needed
  {
    if needed == 0 then
      (if point < 0xD800 || 0xE000 <= point < 0x110000 then Some(point as char) else None, i)
    else if i == |b| || b[i] < lower || b[i] > upper then (None, i)
    else Continuation(b, i + 1, needed - 1, 0x80, 0xBF, point * 64 + (b[i] as int) % 64)
  }

  /** The first character of a byte string: section 8.1.1 of the WHATWG Encoding Standard. */
  function DecodeOne(b: Bytes): (r: (Option<char>, nat))
    requires b != []
    ensures 1 <= r.1 <= |b|
  {
    var lead := b[0] as int;
    if lead < 0x80 then (Some(lead as char), 1)
    else if 0xC2 <= lead <= 0xDF then Continuation(b, 1, 1, 0x80, 0xBF, lead - 0xC0)
    else if 0xE0 <= lead <= 0xEF then
      Continuation(b, 1, 2, if lead == 0xE0 then 0xA0 else 0x80, if lead == 0xED then 0x9F else 0xBF, lead - 0xE0)
    else if 0xF0 <= lead <= 0xF4 then
      Continuation(b, 1, 3, if lead == 0xF0 then 0x90 else 0x80, if lead == 0xF4 then 0x8F else 0xBF, lead - 0xF0)
    else (None, 1)
  }

  const REPLACEMENT: char := '\U{FFFD}'

  /** UTF-8 decoding that never fails: what is malformed becomes U+FFFD. */
  function DecodeLossy(b: Bytes): string
    decreases |b|
  {
    if b == [] then ""
    else
      var one := DecodeOne(b);
      [if one.0.Some? then one.0.value else REPLACEMENT] + DecodeLossy(b[one.1..])
  }

  lemma ThreeBytes(n: nat)
    requires 0x800 <= n < 0x10000
    ensures (n / 4096 * 64 + n / 64 % 64) * 64 + n % 64 == n
    ensures n / 4096 < 16
    ensures n < 0x1000 ==> n / 4096 == 0 && n / 64 % 64 >= 0x20
    ensures n / 4096 == 13 && n < 0xD800 ==> n / 64 % 64 < 0x20
  {
  }

  lemma FourBytes(n: nat)
    requires 0x10000 <= n < 0x110000
    ensures ((n / 262144 * 64 + n / 4096 % 64) * 64 + n / 64 % 64) * 64 + n % 64 == n
    ensures n / 262144 <= 4
    ensures n / 262144 == 0 ==> n / 4096 % 64 >= 0x10
    ensures n / 262144 == 4 ==> n / 4096 % 64 < 0x10
  {
  }

  lemma ContinueOne(b: Bytes, i: nat, needed: nat, lower: Byte, upper: Byte, point: nat)
    requires i < |b| && needed > 0 && lower <= b[i] <= upper
    ensures Continuation(b, i, needed, lower, upper, point)
            == Continuation(b, i + 1, needed - 1, 0x80, 0xBF, point * 64 + (b[i] as int) % 64)
  {
  }

  lemma DecodeTwo(h: nat, l: nat, rest: Bytes)
    requires 2 <= h < 32 && l < 64
    ensures DecodeOne([(0xC0 + h) as Byte, (0x80 + l) as Byte] + rest) == (Some((h * 64 + l) as char), 2)
  {
    var b := [(0xC0 + h) as Byte, (0x80 + l) as Byte] + rest;
    ContinueOne(b, 1, 1, 0x80, 0xBF, h);
  }

  lemma DecodeThree(h: nat, m: nat, l: nat, rest: Bytes)
    requires h < 16 && m < 64 && l < 64 && (h == 0 ==> m >= 0x20) && (h == 13 ==> m < 0x20)
    requires var n := (h * 64 + m) * 64 + l; n < 0xD800 || 0xE000 <= n < 0x110000
    ensures DecodeOne([(0xE0 + h) as Byte, (0x80 + m) as Byte, (0x80 + l) as Byte] + rest)
            == (Some(((h * 64 + m) * 64 + l) as char), 3)
  {
    var b := [(0xE0 + h) as Byte, (0x80 + m) as Byte, (0x80 + l) as Byte] + rest;
    ContinueOne(b, 1, 2, if h == 0 then 0xA0 else 0x80, if h == 13 then 0x9F else 0xBF, h);
    ContinueOne(b, 2, 1, 0x80, 0xBF, h * 64 + m);
  }

  lemma DecodeFour(h: nat, m: nat, l: nat, o: nat, rest: Bytes)
    requires h <= 4 && m < 64 && l < 64 && o < 64 && (h == 0 ==> m >= 0x10) && (h == 4 ==> m < 0x10)
    requires var n := ((h * 64 + m) * 64 + l) * 64 + o; 0xE000 <= n < 0x110000
    ensures DecodeOne([(0xF0 + h) as Byte, (0x80 + m) as Byte, (0x80 + l) as Byte, (0x80 + o) as Byte] + rest)
            == (Some((((h * 64 + m) * 64 + l) * 64 + o) as char), 4)
  {
    var b := [(0xF0 + h) as Byte, (0x80 + m) as Byte, (0x80 + l) as Byte, (0x80 + o) as Byte] + rest;
    ContinueOne(b, 1, 3, if h == 0 then 0x90 else 0x80, if h == 4 then 0x8F else 0xBF, h);
    ContinueOne(b, 2, 2, 0x80, 0xBF, h * 64 + m);
    ContinueOne(b, 3, 1, 0x80, 0xBF, (h * 64 + m) * 64 + l);
  }

  lemma EncodedThree(c: char, rest: Bytes)
    requires 0x800 <= c as int < 0x10000
    ensures DecodeOne(Utf8Char(c) + rest) == (Some(c), 3)
  {
    var n := c as int;
    var h, m, l := n / 4096, n / 64 % 64, n % 64;
    ThreeBytes(n);
    assert Utf8Char(c) == [(0xE0 + h) as Byte, (0x80 + m) as Byte, (0x80 + l) as Byte];
    DecodeThree(h, m, l, rest);
  }

  lemma EncodedFour(c: char, rest: Bytes)
    requires 0x10000 <= c as int
    ensures DecodeOne(Utf8Char(c) + rest) == (Some(c), 4)
  {
    var n := c as int;
    var h, m, l, o := n / 262144, n / 4096 % 64, n / 64 % 64, n % 64;
    FourBytes(n);
    assert Utf8Char(c) == [(0xF0 + h) as Byte, (0x80 + m) as Byte, (0x80 + l) as Byte, (0x80 + o) as Byte];
    DecodeFour(h, m, l, o, rest);
  }

  lemma EncodedSize(c: char)
    ensures var n := c as int;
            |Utf8Char(c)| == if n < 0x80 then 1 else if n < 0x800 then 2 else if n < 0x10000 then 3 else 4
  {
  }

  /** Decoding undoes encoding, whatever follows. */
  lemma DecodeEncoded(c: char, rest: Bytes)
    ensures DecodeOne(Utf8Char(c) + rest) == (Some(c), |Utf8Char(c)|)
  {
    var n := c as int;
    EncodedSize(c);
    if n >= 0x10000 {
      EncodedFour(c, rest);
    } else if n >= 0x800 {
      EncodedThree(c, rest);
    } else if n >= 0x80 {
      DecodeTwo(n / 64, n % 64, rest);
    }
  }

  lemma {:induction false} LossyUtf8(s: string)
    ensures DecodeLossy(Utf8(s)) == s
    decreases |s|
  {
    if s != "" {
      var b, rest := Utf8Char(s[0]), Utf8(s[1..]);
      DecodeEncoded(s[0], rest);
      assert (b + rest)[|b|..] == rest;
      LossyUtf8(s[1..]);
    }
  }

  // ----- escapes -----

  function HexChar(n: nat): char
    requires n < 16
  {
    if n < 10 then (48 + n) as char else (55 + n) as char
  }

  function HexValue(c: char): Option<nat> {
    if '0' <= c <= '9' then Some(c as int - 48)
    else if 'A' <= c <= 'F' then Some(c as int - 55)
    else if 'a' <= c <= 'f' then Some(c as int - 87)
    else None
  }

  function Escape(b: Byte): string {
    ['%', HexChar(b as int / 16), HexChar(b as int % 16)]
  }

  /** The byte a string's first three characters escape, if they do. */
  function EscapeAt(s: string): (r: Option<Byte>)
    ensures r.Some? ==> |s| >= 3
  {
    if |s| >= 3 && s[0] == '%' && HexValue(s[1]).Some? && HexValue(s[2]).Some?
    then Some((HexValue(s[1]).value * 16 + HexValue(s[2]).value) as Byte) else None
  }

  lemma EscapeRead(b: Byte, rest: string)
    ensures EscapeAt(Escape(b) + rest) == Some(b)
  {
    var s := Escape(b) + rest;
    assert s[0] == '%' && s[1] == HexChar(b as int / 16) && s[2] == HexChar(b as int % 16);
  }

  function Escapes(b: Bytes): string {
    if b == [] then "" else Escape(b[0]) + Escapes(b[1..])
  }

  /** The bytes of the escapes a string begins with. */
  function EscapedRun(s: string): Bytes
    decreases |s|
  {
    if EscapeAt(s).None? then [] else [EscapeAt(s).value] + EscapedRun(s[3..])
  }

  lemma {:induction false} EscapesLength(b: Bytes)
    ensures |Escapes(b)| == 3 * |b|
    decreases |b|
  {
    if b != [] { EscapesLength(b[1..]); }
  }

  lemma RunStep(b: Byte, tail: string)
    ensures EscapedRun(Escape(b) + tail) == [b] + EscapedRun(tail)
  {
    EscapeRead(b, tail);
    assert (Escape(b) + tail)[3..] == tail;
  }

  lemma {:induction false} RunOfEscapes(b: Bytes, rest: string)
    ensures EscapedRun(Escapes(b) + rest) == b + EscapedRun(rest)
    decreases |b|
  {
    if b == [] {
      assert Escapes(b) + rest == rest && b + EscapedRun(rest) == EscapedRun(rest);
    } else {
      var tail := Escapes(b[1..]) + rest;
      assert Escapes(b) + rest == Escape(b[0]) + tail;
      RunStep(b[0], tail);
      RunOfEscapes(b[1..], rest);
      assert [b[0]] + (b[1..] + EscapedRun(rest)) == b + EscapedRun(rest);
    }
  }

  // ----- encodeURIComponent and decodeURIComponent -----

  predicate Alphanumeric(c: char) {
    '0' <= c <= '9' || 'A' <= c <= 'Z' || 'a' <= c <= 'z'
  }

  /** The characters encodeURIComponent leaves alone: section 2.3 of RFC 3986 and five more. */
  predicate Unreserved(c: char) {
    Alphanumeric(c) || c in {'-', '_', '.', '!', '~', '*', '\'', '(', ')'}
  }

  function EncodeComponent(s: string): string {
    if s == "" then ""
    else (if Unreserved(s[0]) then [s[0]] else Escapes(Utf8Char(s[0]))) + EncodeComponent(s[1..])
  }

  /** decodeURIComponent; None is the URIError. */
  function DecodeComponent(s: string): Option<string>
    decreases |s|
  {
    if s == "" then Some("")
    else if s[0] != '%' then
      (match DecodeComponent(s[1..]) case None => None case Some(rest) => Some([s[0]] + rest))
    else if EscapedRun(s) == [] then None
    else
      var one := DecodeOne(EscapedRun(s));
      RunFits(s);
      if one.0.None? then None
      else match DecodeComponent(s[3 * one.1..]) case None => None case Some(rest) => Some([one.0.value] + rest)
  }

  lemma {:induction false} RunFits(s: string)
    ensures 3 * |EscapedRun(s)| <= |s|
    decreases |s|
  {
    if EscapeAt(s).Some? { RunFits(s[3..]); }
  }

  /** decodeURIComponent undoes encodeURIComponent on every string. */
  lemma {:induction false} ComponentRoundTrip(s: string)
    ensures DecodeComponent(EncodeComponent(s)) == Some(s)
    decreases |s|
  {
    if s != "" {
      var rest := EncodeComponent(s[1..]);
      ComponentRoundTrip(s[1..]);
      assert s == [s[0]] + s[1..];
      if Unreserved(s[0]) {
        assert ([s[0]] + rest)[1..] == rest;
      } else {
        EscapedCharDecodes(s[0], rest);
      }
    }
  }

  lemma EscapedCharDecodes(c: char, rest: string)
    requires DecodeComponent(rest).Some?
    ensures DecodeComponent(Escapes(Utf8Char(c)) + rest) == Some([c] + DecodeComponent(rest).value)
  {
    var b := Utf8Char(c);
    var s := Escapes(b) + rest;
    RunOfEscapes(b, rest);
    EscapesLength(b);
    DecodeEncoded(c, EscapedRun(rest));
    assert s[0] == Escape(b[0])[0];
    assert s[3 * |b|..] == rest;
  }

  // ----- the form encoding -----

  predicate FormSafe(b: Byte) {
    var n := b as int;
    48 <= n <= 57 || 65 <= n <= 90 || 97 <= n <= 122 || n in {42, 45, 46, 95}
  }

  /** Section 5.2 of the WHATWG URL Standard. */
  function FormByte(b: Byte): string {
    if b == 0x20 then "+" else if FormSafe(b) then [b as int as char] else Escape(b)
  }

  function FormBytes(b: Bytes): string {
    if b == [] then "" else FormByte(b[0]) + FormBytes(b[1..])
  }

  function FormEncode(s: string): string {
    FormBytes(Utf8(s))
  }

  /** Section 5.1 of the WHATWG URL Standard: plus is space, a bad escape stands for itself. */
  function FormReadBytes(s: string): Bytes
    decreases |s|
  {
    if s == "" then []
    else if s[0] == '+' then [0x20] + FormReadBytes(s[1..])
    else if EscapeAt(s).Some? then [EscapeAt(s).value] + FormReadBytes(s[3..])
    else Utf8Char(s[0]) + FormReadBytes(s[1..])
  }

  function FormDecode(s: string): string {
    DecodeLossy(FormReadBytes(s))
  }

  lemma {:induction false} FormBytesRead(b: Bytes)
    ensures FormReadBytes(FormBytes(b)) == b
    decreases |b|
  {
    if b != [] {
      var tail := FormBytes(b[1..]);
      var s := FormByte(b[0]) + tail;
      FormBytesRead(b[1..]);
      if b[0] == 0x20 || FormSafe(b[0]) {
        assert s[1..] == tail;
      } else {
        EscapeRead(b[0], tail);
        assert s[3..] == tail;
      }
    }
  }

  /** Reading a form value undoes writing it, for every string. */
  lemma FormRoundTrip(s: string)
    ensures FormDecode(FormEncode(s)) == s
  {
    FormBytesRead(Utf8(s));
    LossyUtf8(s);
  }

  // ----- which characters an encoding can produce -----

  /** Letters, digits and the few signs both encodings use: nothing that delimits a URL. */
  predicate Inert(c: char) {
    Unreserved(c) || c == '%' || c == '+'
  }

  predicate AllInert(s: string) {
    forall i :: 0 <= i < |s| ==> Inert(s[i])
  }

  lemma {:induction false} EscapesInert(b: Bytes)
    ensures AllInert(Escapes(b))
    decreases |b|
  {
    if b != [] { EscapesInert(b[1..]); }
  }

  lemma {:induction false} EncodeInert(s: string)
    ensures AllInert(EncodeComponent(s))
    ensures s != "" ==> EncodeComponent(s) != ""
    decreases |s|
  {
    if s != "" {
      EncodeInert(s[1..]);
      EscapesInert(Utf8Char(s[0]));
      EscapesLength(Utf8Char(s[0]));
    }
  }

  lemma {:induction false} FormInert(b: Bytes)
    ensures AllInert(FormBytes(b))
    decreases |b|
  {
    if b != [] { FormInert(b[1..]); }
  }
}
