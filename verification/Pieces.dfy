/** Cutting a string at every occurrence of a separator, and putting the pieces together again. */
module Pieces {

  predicate Free(sep: char, s: string) {
    sep !in s
  }

  predicate AllFree(sep: char, parts: seq<string>) {
    forall p :: p in parts ==> Free(sep, p)
  }

  function Join(sep: char, parts: seq<string>): string
    requires parts != []
  {
    if |parts| == 1 then parts[0] else parts[0] + [sep] + Join(sep, parts[1..])
  }

  /** str.split(sep): the piece being read, then the rest. */
  function SplitFrom(sep: char, piece: string, s: string): (parts: seq<string>)
    requires Free(sep, piece)
    ensures parts != [] && AllFree(sep, parts)
    ensures forall p, c :: p in parts && c in p ==> c in piece || c in s
    decreases |s|
  {
    if s == "" then [piece]
    else if s[0] == sep then [piece] + SplitFrom(sep, "", s[1..])
    else SplitFrom(sep, piece + [s[0]], s[1..])
  }

  function Split(sep: char, s: string): seq<string> {
    SplitFrom(sep, "", s)
  }

  lemma {:induction false} SplitFirst(sep: char, piece: string, first: string, rest: string)
    requires Free(sep, piece) && Free(sep, first)
    requires rest == "" || rest[0] == sep
    ensures SplitFrom(sep, piece, first + rest) ==
            if rest == "" then [piece + first] else [piece + first] + Split(sep, rest[1..])
    decreases |first|
  {
    if first == "" {
      assert first + rest == rest && piece + first == piece;
    } else {
      assert (first + rest)[1..] == first[1..] + rest;
      SplitFirst(sep, piece + [first[0]], first[1..], rest);
      assert piece + [first[0]] + first[1..] == piece + first;
    }
  }

  /** Splitting undoes joining. */
  lemma {:induction false} SplitJoin(sep: char, parts: seq<string>)
    requires parts != [] && AllFree(sep, parts)
    ensures Split(sep, Join(sep, parts)) == parts
    decreases |parts|
  {
    if |parts| == 1 {
      SplitFirst(sep, "", parts[0], "");
      assert parts[0] + "" == parts[0] && "" + parts[0] == parts[0];
    } else {
      var tail := [sep] + Join(sep, parts[1..]);
      SplitFirst(sep, "", parts[0], tail);
      assert parts[0] + tail == Join(sep, parts) && "" + parts[0] == parts[0];
      assert tail[1..] == Join(sep, parts[1..]);
      SplitJoin(sep, parts[1..]);
    }
  }

  lemma JoinInjective(sep: char, a: seq<string>, b: seq<string>)
    requires a != [] && b != [] && AllFree(sep, a) && AllFree(sep, b)
    requires Join(sep, a) == Join(sep, b)
    ensures a == b
  {
    SplitJoin(sep, a);
    SplitJoin(sep, b);
  }

  lemma {:induction false} JoinConcat(sep: char, a: seq<string>, b: seq<string>)
    requires a != [] && b != []
    ensures Join(sep, a + b) == Join(sep, a) + [sep] + Join(sep, b)
    decreases |a|
  {
    if |a| == 1 {
      assert (a + b)[1..] == b;
    } else {
      assert (a + b)[1..] == a[1..] + b;
      JoinConcat(sep, a[1..], b);
    }
  }

  /** str.rstrip(sep) */
  function TrimEnd(sep: char, s: string): string {
    if s != "" && s[|s| - 1] == sep then TrimEnd(sep, s[..|s| - 1]) else s
  }

  /** What is left ends in no separator, and only separators were cut off. */
  lemma {:induction false} TrimEndIs(sep: char, s: string) returns (cut: string)
    ensures s == TrimEnd(sep, s) + cut && forall i :: 0 <= i < |cut| ==> cut[i] == sep
    ensures TrimEnd(sep, s) != "" ==> TrimEnd(sep, s)[|TrimEnd(sep, s)| - 1] != sep
    decreases |s|
  {
    cut := "";
    if s != "" && s[|s| - 1] == sep {
      cut := TrimEndIs(sep, s[..|s| - 1]);
      assert s == s[..|s| - 1] + [sep];
      cut := cut + [sep];
    }
  }
}
