/** URLSearchParams: a list of name-value pairs, written as a query string and read back. */
module Query {
  import opened Foundations
  import opened Percent
  import opened Pieces

  type Params = seq<(string, string)>

  /** The first value of a name. */
  function Lookup(params: Params, name: string): Option<string> {
    if params == [] then None
    else if params[0].0 == name then Some(params[0].1)
    else Lookup(params[1..], name)
  }

  function PairText(pair: (string, string)): string {
    FormEncode(pair.0) + "=" + FormEncode(pair.1)
  }

  function PairTexts(params: Params): seq<string> {
    if params == [] then [] else [PairText(params[0])] + PairTexts(params[1..])
  }

  /** URLSearchParams.toString */
  function Serialize(params: Params): string {
    if params == [] then "" else Join('&', PairTexts(params))
  }

  /** The place of the first equals sign, or the length. */
  function FirstEquals(s: string): (i: nat)
    ensures i <= |s|
  {
    if s == "" || s[0] == '=' then 0 else 1 + FirstEquals(s[1..])
  }

  function ReadPair(s: string): (string, string) {
    var i := FirstEquals(s);
    (FormDecode(s[..i]), FormDecode(if i < |s| then s[i + 1..] else ""))
  }

  function ReadPairs(pieces: seq<string>): Params {
    if pieces == [] then []
    else (if pieces[0] == "" then [] else [ReadPair(pieces[0])]) + ReadPairs(pieces[1..])
  }

  /** new URLSearchParams(text): one leading question mark does not count. */
  function ParseQuery(text: string): Params {
    ReadPairs(Split('&', if text != "" && text[0] == '?' then text[1..] else text))
  }

  lemma {:induction false} EqualsAfter(s: string, rest: string)
    requires '=' !in s
    ensures FirstEquals(s + "=" + rest) == |s|
    decreases |s|
  {
    if s != "" {
      assert (s + "=" + rest)[1..] == s[1..] + "=" + rest;
      EqualsAfter(s[1..], rest);
    }
  }

  lemma InertHasNoDelimiter(s: string)
    requires AllInert(s)
    ensures '=' !in s && '&' !in s && '?' !in s && '#' !in s && '/' !in s
  {
  }

  lemma PairReadsBack(pair: (string, string))
    ensures ReadPair(PairText(pair)) == pair
    ensures Free('&', PairText(pair)) && PairText(pair) != ""
  {
    FormInert(Utf8(pair.0));
    FormInert(Utf8(pair.1));
    var name, value := FormEncode(pair.0), FormEncode(pair.1);
    InertHasNoDelimiter(name);
    InertHasNoDelimiter(value);
    EqualsAfter(name, value);
    var s := PairText(pair);
    assert s[..|name|] == name && s[|name| + 1..] == value;
    FormRoundTrip(pair.0);
    FormRoundTrip(pair.1);
  }

  lemma {:induction false} PairsReadBack(params: Params)
    ensures |PairTexts(params)| == |params|
    ensures AllFree('&', PairTexts(params)) && ReadPairs(PairTexts(params)) == params
    decreases |params|
  {
    if params != [] {
      PairsReadBack(params[1..]);
      PairReadsBack(params[0]);
      var texts := PairTexts(params);
      assert texts[1..] == PairTexts(params[1..]) && texts[0] == PairText(params[0]);
      assert params == [params[0]] + params[1..];
    }
  }

  /** Reading a query string undoes writing it, for every list of pairs, with or without the
      leading question mark. */
  lemma QueryRoundTrip(params: Params)
    ensures ParseQuery(Serialize(params)) == params
    ensures params != [] ==> ParseQuery("?" + Serialize(params)) == params
  {
    PairsReadBack(params);
    if params == [] {
      assert Split('&', "") == [""];
      assert ReadPairs([""]) == ReadPairs([""][1..]);
    } else {
      SerializedShape(params);
      SplitJoin('&', PairTexts(params));
      var text := Serialize(params);
      assert ("?" + text)[1..] == text;
    }
  }

  /** A written query is not empty, does not begin with a question mark, and holds no delimiter
      of the URL around it. */
  lemma {:induction false} SerializedShape(params: Params)
    requires params != []
    ensures Serialize(params) != "" && Serialize(params)[0] != '?'
    ensures '#' !in Serialize(params)
    decreases |params|
  {
    var pair := params[0];
    FormInert(Utf8(pair.0));
    FormInert(Utf8(pair.1));
    InertHasNoDelimiter(FormEncode(pair.0));
    InertHasNoDelimiter(FormEncode(pair.1));
    PairReadsBack(pair);
    var texts := PairTexts(params);
    assert texts[0] == PairText(pair) && texts[1..] == PairTexts(params[1..]);
    if |params| > 1 {
      SerializedShape(params[1..]);
      PairsReadBack(params);
      assert Serialize(params) == PairText(pair) + ['&'] + Serialize(params[1..]);
    } else {
      PairsReadBack(params);
    }
  }
}
