/** What the encodings of the frontend produce, character by character, and what they accept. */
module Encodings {
  import opened Foundations
  import opened Percent

  // ----- UTF-8 -----

  ghost predicate Follows(b: Byte) {
    0x80 <= b <= 0xBF
  }

  /** The four forms of section 3 of RFC 3629: the bytes of a character carry the bits of its number,
      and the shortest form is used. */
  lemma Utf8Is(c: char)
    ensures
      var n, b := c as int, Utf8Char(c);
      match |b|
      case 1 => n < 0x80 && b[0] as int == n
      case 2 => 0x80 <= n < 0x800 && 0xC2 <= b[0] <= 0xDF && Follows(b[1])
                && n == (b[0] as int - 0xC0) * 64 + (b[1] as int - 0x80)
      case 3 => 0x800 <= n < 0x10000 && 0xE0 <= b[0] <= 0xEF && Follows(b[1]) && Follows(b[2])
                && n == (b[0] as int - 0xE0) * 4096 + (b[1] as int - 0x80) * 64 + (b[2] as int - 0x80)
      case 4 => 0x10000 <= n && 0xF0 <= b[0] <= 0xF4 && Follows(b[1]) && Follows(b[2]) && Follows(b[3])
                && n == (b[0] as int - 0xF0) * 262144 + (b[1] as int - 0x80) * 4096
                        + (b[2] as int - 0x80) * 64 + (b[3] as int - 0x80)
      case _ => false
  {
    var n := c as int;
    EncodedSize(c);
    if n >= 0x10000 { FourBytes(n); } else if n >= 0x800 { ThreeBytes(n); }
  }

  lemma OneMore(b: Bytes, i: nat, needed: nat, lower: Byte, upper: Byte, point: nat)
    requires i <= |b| && needed > 0 && Continuation(b, i, needed, lower, upper, point).0.Some?
    ensures i < |b| && lower <= b[i] <= upper
    ensures Continuation(b, i, needed, lower, upper, point)
            == Continuation(b, i + 1, needed - 1, 0x80, 0xBF, point * 64 + (b[i] as int) % 64)
  {
  }

  lemma AtTheEnd(b: Bytes, i: nat, lower: Byte, upper: Byte, point: nat)
    requires i <= |b| && Continuation(b, i, 0, lower, upper, point).0.Some?
    ensures Continuation(b, i, 0, lower, upper, point) == (Some(point as char), i)
    ensures point < 0xD800 || 0xE000 <= point < 0x110000
  {
  }

  lemma Rebuilt(h: nat, l: nat)
    requires l < 64
    ensures (h * 64 + l) / 64 == h && (h * 64 + l) % 64 == l
  {
  }

  lemma DecodedTwo(b: Bytes)
    requires b != [] && 0xC2 <= b[0] <= 0xDF && DecodeOne(b).0.Some?
    ensures DecodeOne(b).1 == 2 && b[..2] == Utf8Char(DecodeOne(b).0.value)
  {
    var h := b[0] as int - 0xC0;
    OneMore(b, 1, 1, 0x80, 0xBF, h);
    var l := b[1] as int % 64;
    AtTheEnd(b, 2, 0x80, 0xBF, h * 64 + l);
    Rebuilt(h, l);
  }

  lemma ReadThree(b: Bytes) returns (h: nat, m: nat, l: nat)
    requires b != [] && 0xE0 <= b[0] <= 0xEF && DecodeOne(b).0.Some?
    ensures |b| >= 3 && h < 16 && m < 64 && l < 64 && (h == 0 ==> m >= 0x20)
    ensures b[0] as int == 0xE0 + h && b[1] as int == 0x80 + m && b[2] as int == 0x80 + l
    ensures (h * 64 + m) * 64 + l < 0xD800 || 0xE000 <= (h * 64 + m) * 64 + l < 0x110000
    ensures DecodeOne(b) == (Some(((h * 64 + m) * 64 + l) as char), 3)
  {
    h := b[0] as int - 0xE0;
    OneMore(b, 1, 2, if h == 0 then 0xA0 else 0x80, if h == 13 then 0x9F else 0xBF, h);
    m := b[1] as int % 64;
    OneMore(b, 2, 1, 0x80, 0xBF, h * 64 + m);
    l := b[2] as int % 64;
    AtTheEnd(b, 3, 0x80, 0xBF, (h * 64 + m) * 64 + l);
  }

  lemma ThreePlaces(h: nat, m: nat, l: nat)
    requires h < 16 && m < 64 && l < 64 && (h == 0 ==> m >= 0x20)
    ensures
      var n := (h * 64 + m) * 64 + l;
      0x800 <= n < 0x10000 && n / 4096 == h && n / 64 % 64 == m && n % 64 == l
  {
  }

  lemma DecodedThree(b: Bytes)
    requires b != [] && 0xE0 <= b[0] <= 0xEF && DecodeOne(b).0.Some?
    ensures DecodeOne(b).1 == 3 && b[..3] == Utf8Char(DecodeOne(b).0.value)
  {
    var h, m, l := ReadThree(b);
    ThreePlaces(h, m, l);
    WrittenThree(h, m, l, ((h * 64 + m) * 64 + l) as char);
  }

  lemma WrittenThree(h: nat, m: nat, l: nat, c: char)
    requires h < 16 && m < 64 && l < 64 && c as int == (h * 64 + m) * 64 + l && 0x800 <= c as int < 0x10000
    requires c as int / 4096 == h && c as int / 64 % 64 == m && c as int % 64 == l
    ensures Utf8Char(c) == [(0xE0 + h) as Byte, (0x80 + m) as Byte, (0x80 + l) as Byte]
  {
  }

  lemma TwoMore(b: Bytes, i: nat, point: nat) returns (l: nat, o: nat)
    requires i <= |b| && Continuation(b, i, 2, 0x80, 0xBF, point).0.Some?
    ensures l < 64 && o < 64 && i + 2 <= |b| && b[i] as int == 0x80 + l && b[i + 1] as int == 0x80 + o
    ensures
      var n := (point * 64 + l) * 64 + o;
      (n < 0xD800 || 0xE000 <= n < 0x110000) && Continuation(b, i, 2, 0x80, 0xBF, point) == (Some(n as char), i + 2)
  {
    OneMore(b, i, 2, 0x80, 0xBF, point);
    l := b[i] as int % 64;
    OneMore(b, i + 1, 1, 0x80, 0xBF, point * 64 + l);
    o := b[i + 1] as int % 64;
    AtTheEnd(b, i + 2, 0x80, 0xBF, (point * 64 + l) * 64 + o);
  }

  lemma ReadFour(b: Bytes) returns (h: nat, m: nat, l: nat, o: nat)
    requires b != [] && 0xF0 <= b[0] <= 0xF4 && DecodeOne(b).0.Some?
    ensures |b| >= 4 && h <= 4 && m < 64 && l < 64 && o < 64 && (h == 0 ==> m >= 0x10)
    ensures b[0] as int == 0xF0 + h && b[1] as int == 0x80 + m && b[2] as int == 0x80 + l && b[3] as int == 0x80 + o
    ensures
      var n := ((h * 64 + m) * 64 + l) * 64 + o;
      (n < 0xD800 || 0xE000 <= n < 0x110000) && DecodeOne(b) == (Some(n as char), 4)
  {
    h := b[0] as int - 0xF0;
    OneMore(b, 1, 3, if h == 0 then 0x90 else 0x80, if h == 4 then 0x8F else 0xBF, h);
    m := b[1] as int % 64;
    l, o := TwoMore(b, 2, h * 64 + m);
  }

  lemma FourPlaces(h: nat, m: nat, l: nat, o: nat)
    requires h <= 4 && m < 64 && l < 64 && o < 64 && (h == 0 ==> m >= 0x10)
    ensures
      var n := ((h * 64 + m) * 64 + l) * 64 + o;
      n >= 0x10000 && n / 262144 == h && n / 4096 % 64 == m && n / 64 % 64 == l && n % 64 == o
  {
  }

  lemma WrittenFour(h: nat, m: nat, l: nat, o: nat, c: char)
    requires h <= 4 && m < 64 && l < 64 && o < 64 && c as int >= 0x10000
    requires c as int / 262144 == h && c as int / 4096 % 64 == m && c as int / 64 % 64 == l && c as int % 64 == o
    ensures Utf8Char(c) == [(0xF0 + h) as Byte, (0x80 + m) as Byte, (0x80 + l) as Byte, (0x80 + o) as Byte]
  {
  }

  lemma DecodedFour(b: Bytes)
    requires b != [] && 0xF0 <= b[0] <= 0xF4 && DecodeOne(b).0.Some?
    ensures DecodeOne(b).1 == 4 && b[..4] == Utf8Char(DecodeOne(b).0.value)
  {
    var h, m, l, o := ReadFour(b);
    FourPlaces(h, m, l, o);
    WrittenFour(h, m, l, o, (((h * 64 + m) * 64 + l) * 64 + o) as char);
  }

  /** Decoding accepts a character exactly where its own encoding stands: longer forms, halves of
      surrogate pairs and numbers over the last character are refused. */
  lemma DecodesOnlyEncoded(b: Bytes, c: char)
    requires b != []
    ensures DecodeOne(b).0 == Some(c) <==> Utf8Char(c) <= b
    ensures DecodeOne(b).0 == Some(c) ==> DecodeOne(b).1 == |Utf8Char(c)|
  {
    if DecodeOne(b).0 == Some(c) {
      if b[0] >= 0xF0 { DecodedFour(b); }
      else if b[0] >= 0xE0 { DecodedThree(b); }
      else if b[0] >= 0x80 { DecodedTwo(b); }
    }
    if Utf8Char(c) <= b {
      assert b == Utf8Char(c) + b[|Utf8Char(c)|..];
      DecodeEncoded(c, b[|Utf8Char(c)|..]);
    }
  }

  /** The bytes that may come second: table 3-7 of the Unicode Standard, for longer forms. */
  ghost predicate Second(lead: Byte, b: Byte) {
    if lead == 0xE0 then 0xA0 <= b <= 0xBF else if lead == 0xED then 0x80 <= b <= 0x9F
    else if lead == 0xF0 then 0x90 <= b <= 0xBF else if lead == 0xF4 then 0x80 <= b <= 0x8F else Follows(b)
  }

  /** A byte that does not belong stops the reading in front of it. */
  lemma StopsOrGoesOn(b: Bytes, i: nat, needed: nat, lower: Byte, upper: Byte, point: nat)
    requires i <= |b| && needed > 0 && 0x80 <= lower && upper <= 0xBF
    ensures i == |b| || !(lower <= b[i] <= upper) ==>
              Continuation(b, i, needed, lower, upper, point) == (None, i)
    ensures i < |b| && lower <= b[i] <= upper ==>
              Continuation(b, i, needed, lower, upper, point)
              == Continuation(b, i + 1, needed - 1, 0x80, 0xBF, point * 64 + b[i] as int % 64)
  {
  }

  lemma MalformedThree(b: Bytes)
    requires b != [] && 0xE0 <= b[0] <= 0xEF && DecodeOne(b).0.None?
    ensures DecodeOne(b).1 == if |b| >= 2 && Second(b[0], b[1]) then 2 else 1
  {
    var h := b[0] as int - 0xE0;
    StopsOrGoesOn(b, 1, 2, if h == 0 then 0xA0 else 0x80, if h == 13 then 0x9F else 0xBF, h);
    if |b| >= 2 && Second(b[0], b[1]) {
      StopsOrGoesOn(b, 2, 1, 0x80, 0xBF, h * 64 + b[1] as int % 64);
    }
  }

  lemma MalformedFour(b: Bytes)
    requires b != [] && 0xF0 <= b[0] <= 0xF4 && DecodeOne(b).0.None?
    ensures DecodeOne(b).1 ==
            if |b| < 2 || !Second(b[0], b[1]) then 1 else if |b| >= 3 && Follows(b[2]) then 3 else 2
  {
    var h := b[0] as int - 0xF0;
    StopsOrGoesOn(b, 1, 3, if h == 0 then 0x90 else 0x80, if h == 4 then 0x8F else 0xBF, h);
    if |b| >= 2 && Second(b[0], b[1]) {
      var two := h * 64 + b[1] as int % 64;
      StopsOrGoesOn(b, 2, 2, 0x80, 0xBF, two);
      if |b| >= 3 && Follows(b[2]) { StopsOrGoesOn(b, 3, 1, 0x80, 0xBF, two * 64 + b[2] as int % 64); }
    }
  }

  /** How much one replacement character stands for: the bytes that could still have become a
      character, and at least one. */
  lemma MalformedIs(b: Bytes)
    requires b != [] && DecodeOne(b).0.None?
    ensures
      var more := |b| >= 2 && 0xE0 <= b[0] <= 0xF4 && Second(b[0], b[1]);
      DecodeOne(b).1 == if !more then 1 else if |b| >= 3 && b[0] >= 0xF0 && Follows(b[2]) then 3 else 2
  {
    if 0xF0 <= b[0] <= 0xF4 {
      MalformedFour(b);
    } else if 0xE0 <= b[0] <= 0xEF {
      MalformedThree(b);
    } else if 0xC2 <= b[0] <= 0xDF {
      StopsOrGoesOn(b, 1, 1, 0x80, 0xBF, b[0] as int - 0xC0);
    }
  }

  // ----- escapes -----

  /** A percent sign and two uppercase hexadecimal digits. */
  ghost function Escaped(b: Byte): string {
    ['%', "0123456789ABCDEF"[b as int / 16], "0123456789ABCDEF"[b as int % 16]]
  }

  lemma EscapeIs(b: Byte)
    ensures Escape(b) == Escaped(b)
  {
    HexCharIs(b as int / 16);
    HexCharIs(b as int % 16);
  }

  lemma HexCharIs(n: nat)
    requires n < 16
    ensures HexChar(n) == "0123456789ABCDEF"[n]
  {
  }

  /** Both cases of a hexadecimal digit are read. */
  lemma HexValueIs(c: char, n: nat)
    ensures HexValue(c) == Some(n) <==> n < 16 && (c == "0123456789ABCDEF"[n] || c == "0123456789abcdef"[n])
  {
  }

  /** The characters encodeURIComponent leaves alone, and what becomes of all others. */
  lemma EncodedCharIs(c: char)
    ensures
      var plain := '0' <= c <= '9' || 'A' <= c <= 'Z' || 'a' <= c <= 'z'
                   || c in {'-', '_', '.', '!', '~', '*', '\'', '(', ')'};
      EncodeComponent([c]) == if plain then [c] else Escapes(Utf8Char(c))
  {
    assert [c][1..] == "";
    assert EncodeComponent("") == "";
  }

  lemma {:induction false} EncodedCharByChar(a: string, c: char)
    ensures EncodeComponent(a + [c]) == EncodeComponent(a) + EncodeComponent([c])
    decreases |a|
  {
    if a == "" {
      assert a + [c] == [c];
    } else {
      assert (a + [c])[1..] == a[1..] + [c];
      EncodedCharByChar(a[1..], c);
    }
  }

  /** The bytes a form-encoded value leaves alone; a space becomes a plus sign. */
  lemma FormByteIs(b: Byte)
    ensures
      var c := b as int as char;
      FormByte(b) ==
        if c == ' ' then "+"
        else if '0' <= c <= '9' || 'A' <= c <= 'Z' || 'a' <= c <= 'z' || c in {'*', '-', '.', '_'} then [c]
        else Escaped(b)
  {
    EscapeIs(b);
  }
}
