/** What the comparisons and conversions of Python's scalars, and the texts built on them, mean. */
module Scalars {
  import opened Foundations

  /** The documents that equal the integer n: the integer itself, the float of that value in lowest
      terms, and True or False for 1 or 0. */
  ghost predicate IsNumber(j: Json, n: int) {
    j == Int(n) || j == Float(Halves(n, 0)) || (n == 1 && j == Bool(true)) || (n == 0 && j == Bool(false))
  }

  /** A number halved k times is the integer n only if the numerator is n * 2^k, so an odd one never is. */
  lemma {:induction false} OddNeverWhole(numerator: int, halvings: nat, n: int)
    requires halvings > 0 && numerator % 2 != 0
    ensures Halved(numerator, halvings) != n as real
    decreases halvings
  {
    if halvings == 1 {
      assert Halved(numerator, 0) == numerator as real;
    } else if Halved(numerator, halvings) == n as real {
      assert Halved(numerator, halvings - 1) == (2 * n) as real;
      OddNeverWhole(numerator, halvings - 1, 2 * n);
    }
  }

  /** `value == n` holds of exactly these documents. */
  lemma EqualsIntIff(j: Json, n: int)
    ensures EqualsInt(j, n) <==> IsNumber(j, n)
  {
    if j.Float? {
      var f := j.fraction;
      if f.halvings > 0 { OddNeverWhole(f.numerator, f.halvings, n); }
    }
  }

  /** bool(value) is false of exactly these documents. */
  lemma FalsyIff(j: Json)
    ensures !Truthy(j) <==>
            j in {Null, Bool(false), Int(0), Float(Halves(0, 0)), Str(""), Arr([]), Obj(map[])}
  {
  }

  /** int(value) of a float cuts the fraction off. */
  lemma TruncateCuts(r: real)
    ensures
      var n := Truncate(r) as real;
      if r >= 0.0 then 0.0 <= n <= r < n + 1.0 else n - 1.0 < r <= n <= 0.0
  {
  }

  /** int(value) accepts numbers and texts of numbers, and nothing else. */
  lemma IntCastIs(k: Platform, j: Json)
    ensures j.Int? ==> IntCast(k, j) == Some(j.number)
    ensures j.Bool? ==> IntCast(k, j) == Some(if j.truth then 1 else 0)
    ensures j.Float? ==> IntCast(k, j) == Some(Truncate(FloatValue(j.fraction)))
    ensures j.Str? ==> IntCast(k, j) == k.IntText(j.text)
    ensures j.Hash? ==> IntCast(k, j) == k.IntText(k.Text(j))
    ensures j.Null? || j.Arr? || j.Obj? ==> IntCast(k, j) == None
    ensures IntValue(j) == if j.Int? then Some(j.number) else if j.Bool? then IntCast(k, j) else None
  {
  }

  /** Different documents are equal only as numbers. */
  lemma EqualsIff(a: Json, b: Json)
    ensures Equals(a, b) <==>
            || a == b
            || (Number(a).Some? && Number(b).Some? && Number(a).value == Number(b).value)
    ensures a.Int? ==> Number(a) == Some(a.number as real)
    ensures a.Bool? ==> Number(a) == Some(if a.truth then 1.0 else 0.0)
    ensures a.Float? ==> Number(a) == Some(FloatValue(a.fraction))
    ensures a.Null? || a.Str? || a.Hash? || a.Arr? || a.Obj? ==> Number(a) == None
  {
  }

  /** The bytes of lowercase hexadecimal digits. */
  lemma HexByteIff(b: Byte)
    ensures IsHexByte(b) <==> var c := b as int as char; '0' <= c <= '9' || 'a' <= c <= 'f'
  {
  }

  ghost predicate Letter(c: char) {
    '0' <= c <= '9' || 'A' <= c <= 'Z' || 'a' <= c <= 'z'
  }

  /** A letter or digit, 3 to 126 letters, digits or hyphens, and a letter or digit. */
  ghost predicate RunIdOf(s: string, first: char, middle: string, last: char) {
    && s == [first] + middle + [last] && Letter(first) && Letter(last) && 3 <= |middle| <= 126
    && forall i :: 0 <= i < |middle| ==> Letter(middle[i]) || middle[i] == '-'
  }

  /** Exactly such texts are run ids. */
  lemma RunIdIff(s: string)
    ensures ValidRunId(s) <==> exists first, middle, last :: RunIdOf(s, first, middle, last)
  {
    if ValidRunId(s) {
      var middle := s[1..|s| - 1];
      assert RunIdOf(s, s[0], middle, s[|s| - 1]);
    }
    if first, middle, last :| RunIdOf(s, first, middle, last) { RunIdValid(s, first, middle, last); }
  }

  lemma RunIdValid(s: string, first: char, middle: string, last: char)
    requires RunIdOf(s, first, middle, last)
    ensures ValidRunId(s)
  {
    forall i | 0 <= i < |s| ensures IsAlphaNumeric(s[i]) || s[i] == '-' {
      if 0 < i < |s| - 1 { assert s[i] == middle[i - 1]; }
    }
  }

  /** A blank of ASCII: tab to carriage return, the four separators, the space. */
  ghost predicate BlankByte(b: Byte) {
    9 <= b <= 13 || 28 <= b <= 32
  }

  ghost predicate Blank(s: Bytes) {
    forall i :: 0 <= i < |s| ==> BlankByte(s[i])
  }

  ghost predicate Stripped(s: Bytes) {
    s != [] ==> !BlankByte(s[0]) && !BlankByte(s[|s| - 1])
  }

  ghost predicate Padded(s: Bytes, front: Bytes, inner: Bytes, back: Bytes) {
    Blank(front) && Blank(back) && s == front + inner + back
  }

  lemma MoreInFront(s: Bytes, front: Bytes, inner: Bytes, back: Bytes)
    requires s != [] && BlankByte(s[0]) && Padded(s[1..], front, inner, back)
    ensures Padded(s, [s[0]] + front, inner, back)
  {
    assert s == [s[0]] + s[1..];
  }

  lemma MoreBehind(s: Bytes, front: Bytes, inner: Bytes, back: Bytes)
    requires s != [] && BlankByte(s[|s| - 1]) && Padded(s[..|s| - 1], front, inner, back)
    ensures Padded(s, front, inner, back + [s[|s| - 1]])
  {
    assert s == s[..|s| - 1] + [s[|s| - 1]];
  }

  /** Stripping takes blanks off both ends, and leaves none there. */
  lemma {:induction false} StripIs(s: Bytes) returns (front: Bytes, back: Bytes)
    ensures Stripped(Strip(s)) && Padded(s, front, Strip(s), back)
    decreases |s|
  {
    if s != [] && IsBlankByte(s[0]) {
      front, back := StripIs(s[1..]);
      MoreInFront(s, front, Strip(s[1..]), back);
      front := [s[0]] + front;
    } else if s != [] && IsBlankByte(s[|s| - 1]) {
      front, back := StripIs(s[..|s| - 1]);
      MoreBehind(s, front, Strip(s[..|s| - 1]), back);
      back := back + [s[|s| - 1]];
    } else {
      front, back := [], [];
      assert s == [] + s + [];
    }
  }
}
