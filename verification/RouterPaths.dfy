/** How a printed path becomes a location, and what the router reads out of one. */
module RouterPaths {
  import opened Foundations
  import opened Percent
  import opened Pieces
  import opened Query

  /** The part of a URL the router looks at. */
  datatype Location = Location(pathname: string, search: string)

  /** The part of a string before the first c. */
  function Before(c: char, s: string): string {
    if s == "" || s[0] == c then "" else [s[0]] + Before(c, s[1..])
  }

  /** The part of a string from the first c on. */
  function From(c: char, s: string): string {
    if s == "" || s[0] == c then s else From(c, s[1..])
  }

  /** A segment that spells one dot, escaped or not. */
  predicate Dot(segment: string) {
    DecodeComponent(segment) == Some(".")
  }

  predicate DotDot(segment: string) {
    DecodeComponent(segment) == Some("..")
  }

  /** The path one segment further: a dot stays, two dots go up, and either at the end leaves an
      empty segment. */
  function After(path: seq<string>, segment: string, isLast: bool): seq<string> {
    var end := if isLast then [""] else [];
    if DotDot(segment) then (if path == [] then [] else path[..|path| - 1]) + end
    else if Dot(segment) then path + end
    else path + [segment]
  }

  /** The segments that are left when the dots among `rest` are followed from `path`. */
  function Resolve(path: seq<string>, rest: seq<string>): seq<string>
    decreases |rest|
  {
    if rest == [] then path else Resolve(After(path, rest[0], |rest| == 1), rest[1..])
  }

  /** `new URL(path, base)`: the fragment is cut off first, then the query, and dot segments of
      the path are followed. */
  function Locate(path: string): Location {
    var plain := Before('#', path);
    var pieces := Split('/', Before('?', plain));
    var segments := if pieces[0] == "" then pieces[1..] else pieces;
    Location(Join('/', [""] + Resolve([], segments)), From('?', plain))
  }

  /** pathnameOf: trailing slashes do not count. */
  function Pathname(location: Location): string {
    if TrimEnd('/', location.pathname) == "" then "/" else TrimEnd('/', location.pathname)
  }

  /** The segments of the path, the empty one before the first slash included. */
  function SegmentsOf(location: Location): seq<string> {
    Split('/', Pathname(location))
  }

  function QuerySuffix(params: Params): string {
    if Serialize(params) == "" then "" else "?" + Serialize(params)
  }

  /** The path with these segments and parameters. */
  function PathText(segments: seq<string>, params: Params): string {
    Join('/', [""] + segments) + QuerySuffix(params)
  }

  predicate PlainSegment(s: string) {
    Free('/', s) && '?' !in s && '#' !in s
  }

  predicate PlainSegments(segments: seq<string>) {
    forall i :: 0 <= i < |segments| ==> PlainSegment(segments[i])
  }

  /** No segment is a dot segment. */
  predicate NoDots(segments: seq<string>) {
    forall i :: 0 <= i < |segments| ==> !Dot(segments[i]) && !DotDot(segments[i])
  }

  /** A word does not begin like a dot segment. */
  lemma WordIsNoDot(s: string)
    requires s != "" && s[0] != '.' && s[0] != '%'
    ensures !Dot(s) && !DotDot(s)
  {
    assert DecodeComponent(s).Some? ==> DecodeComponent(s).value[0] == s[0];
  }

  /** Only the last segment is followed when the others are no dots. */
  lemma {:induction false} ResolveLast(path: seq<string>, rest: seq<string>, last: string)
    requires NoDots(rest)
    ensures Resolve(path, rest + [last]) == After(path + rest, last, true)
    decreases |rest|
  {
    var whole := rest + [last];
    if rest == [] {
      assert whole[1..] == [] && path + rest == path;
    } else {
      assert whole[0] == rest[0] && whole[1..] == rest[1..] + [last];
      ResolveLast(path + [rest[0]], rest[1..], last);
      assert path + [rest[0]] + rest[1..] == path + rest;
    }
  }

  lemma ResolvePlain(segments: seq<string>)
    requires segments != [] && NoDots(segments)
    ensures Resolve([], segments) == segments
  {
    var last := |segments| - 1;
    ResolveLast([], segments[..last], segments[last]);
    assert segments[..last] + [segments[last]] == segments;
    assert [] + segments[..last] == segments[..last];
  }

  lemma {:induction false} BeforeFree(c: char, s: string)
    requires c !in s
    ensures Before(c, s) == s && From(c, s) == ""
    decreases |s|
  {
    if s != "" { BeforeFree(c, s[1..]); }
  }

  lemma {:induction false} BeforeFirst(c: char, s: string, rest: string)
    requires c !in s
    ensures Before(c, s + [c] + rest) == s && From(c, s + [c] + rest) == [c] + rest
    decreases |s|
  {
    if s != "" {
      assert (s + [c] + rest)[1..] == s[1..] + [c] + rest;
      BeforeFirst(c, s[1..], rest);
    } else {
      assert "" + [c] + rest == [c] + rest;
    }
  }

  lemma {:induction false} JoinPlain(segments: seq<string>)
    requires segments != [] && PlainSegments(segments)
    ensures '?' !in Join('/', segments) && '#' !in Join('/', segments)
    decreases |segments|
  {
    if |segments| > 1 {
      JoinPlain(segments[1..]);
      assert PlainSegment(segments[0]);
    }
  }

  lemma {:induction false} JoinEnd(segments: seq<string>)
    requires segments != [] && segments[|segments| - 1] != ""
    ensures
      var text, last := Join('/', segments), segments[|segments| - 1];
      text != "" && text[|text| - 1] == last[|last| - 1]
    decreases |segments|
  {
    if |segments| > 1 {
      JoinEnd(segments[1..]);
    }
  }

  lemma PathPieces(segments: seq<string>)
    requires segments != [] && PlainSegments(segments)
    ensures Split('/', Join('/', [""] + segments)) == [""] + segments
  {
    var parts := [""] + segments;
    forall p | p in parts ensures Free('/', p) {
      var i :| 0 <= i < |parts| && parts[i] == p;
      if i > 0 { assert PlainSegment(segments[i - 1]); }
    }
    SplitJoin('/', parts);
  }

  /** A printed path is cut into its segments and its parameters. */
  lemma PathCuts(segments: seq<string>, params: Params)
    requires segments != [] && PlainSegments(segments)
    ensures Before('?', Before('#', PathText(segments, params))) == Join('/', [""] + segments)
    ensures ParseQuery(From('?', Before('#', PathText(segments, params)))) == params
  {
    var path := Join('/', [""] + segments);
    JoinPlain([""] + segments);
    QueryRoundTrip(params);
    if params == [] {
      assert path + "" == path;
      BeforeFree('#', path);
      BeforeFree('?', path);
    } else {
      SerializedShape(params);
      var query := Serialize(params);
      var text := path + ("?" + query);
      assert text == path + ['?'] + query;
      BeforeFree('#', text);
      BeforeFirst('?', path, query);
    }
  }

  /** A printed path is located where its segments lead. */
  lemma PathLocates(segments: seq<string>, params: Params)
    requires segments != [] && PlainSegments(segments)
    ensures Locate(PathText(segments, params)).pathname == Join('/', [""] + Resolve([], segments))
    ensures ParseQuery(Locate(PathText(segments, params)).search) == params
  {
    PathCuts(segments, params);
    PathPieces(segments);
    assert ([""] + segments)[1..] == segments;
  }

  lemma NoTrailingSlash(path: string, last: string)
    requires path != "" && last != "" && PlainSegment(last) && path[|path| - 1] == last[|last| - 1]
    ensures TrimEnd('/', path) == path
  {
    assert last[|last| - 1] in last;
  }

  lemma SplitPath(segments: seq<string>)
    requires segments != [] && PlainSegments(segments) && segments[|segments| - 1] != ""
    ensures TrimEnd('/', Join('/', [""] + segments)) == Join('/', [""] + segments) != ""
    ensures Split('/', Join('/', [""] + segments)) == [""] + segments
  {
    var last := segments[|segments| - 1];
    JoinEnd([""] + segments);
    NoTrailingSlash(Join('/', [""] + segments), last);
    PathPieces(segments);
  }

  /** The router reads back the segments and parameters of a printed path without dots. */
  lemma PathReadsBack(segments: seq<string>, params: Params)
    requires segments != [] && PlainSegments(segments) && NoDots(segments) && segments[|segments| - 1] != ""
    ensures SegmentsOf(Locate(PathText(segments, params))) == [""] + segments
    ensures ParseQuery(Locate(PathText(segments, params)).search) == params
  {
    PathLocates(segments, params);
    ResolvePlain(segments);
    SplitPath(segments);
  }

  lemma TrimSlash(path: string)
    ensures TrimEnd('/', path + ['/']) == TrimEnd('/', path)
  {
    assert (path + ['/'])[..|path|] == path;
  }

  lemma JoinEmptyLast(segments: seq<string>)
    ensures Join('/', [""] + (segments + [""])) == Join('/', [""] + segments) + ['/']
  {
    assert [""] + (segments + [""]) == ([""] + segments) + [""];
    JoinConcat('/', [""] + segments, [""]);
    var path := Join('/', [""] + segments) + ['/'];
    assert path + "" == path;
  }

  /** A location that ends in a slash has the segments before it. */
  lemma SlashIsLost(segments: seq<string>, location: Location)
    requires PlainSegments(segments) && (segments != [] ==> segments[|segments| - 1] != "")
    requires location.pathname == Join('/', [""] + (segments + [""]))
    ensures SegmentsOf(location) == [""] + if segments == [] then [""] else segments
  {
    JoinEmptyLast(segments);
    TrimSlash(Join('/', [""] + segments));
    if segments == [] {
      assert [""] + segments == [""];
      assert Pathname(location) == Join('/', [""] + [""]);
      PathPieces([""]);
    } else {
      SplitPath(segments);
    }
  }

  /** A last segment that is empty or a dot is lost. */
  lemma EmptyLastIsLost(segments: seq<string>, last: string, params: Params)
    requires segments != [] && PlainSegments(segments) && NoDots(segments) && segments[|segments| - 1] != ""
    requires last == "" || (Dot(last) && PlainSegment(last))
    ensures SegmentsOf(Locate(PathText(segments + [last], params))) == [""] + segments
    ensures ParseQuery(Locate(PathText(segments + [last], params)).search) == params
  {
    PathLocates(segments + [last], params);
    ResolveLast([], segments, last);
    assert [] + segments == segments;
    SlashIsLost(segments, Locate(PathText(segments + [last], params)));
  }

  /** Two dots at the end take the segment before them away as well. */
  lemma ParentIsLeft(parents: seq<string>, path: seq<string>, last: string, whole: seq<string>, params: Params)
    requires path != [] && parents == path[..|path| - 1] && whole == path + [last]
    requires PlainSegments(path) && NoDots(path)
    requires parents != [] ==> parents[|parents| - 1] != ""
    requires DotDot(last) && PlainSegment(last)
    ensures SegmentsOf(Locate(PathText(whole, params))) == [""] + if parents == [] then [""] else parents
    ensures ParseQuery(Locate(PathText(whole, params)).search) == params
  {
    ParentResolves(parents, path, last);
    PathLocates(whole, params);
    assert PlainSegments(parents);
    SlashIsLost(parents, Locate(PathText(whole, params)));
  }

  lemma ParentResolves(parents: seq<string>, path: seq<string>, last: string)
    requires path != [] && parents == path[..|path| - 1] && NoDots(path) && DotDot(last)
    ensures Resolve([], path + [last]) == parents + [""]
  {
    ResolveLast([], path, last);
    assert [] + path == path;
  }

  lemma EncodedIsPlain(s: string)
    ensures PlainSegment(EncodeComponent(s))
    ensures s != "" ==> EncodeComponent(s) != ""
    ensures Dot(EncodeComponent(s)) <==> s == "."
    ensures DotDot(EncodeComponent(s)) <==> s == ".."
  {
    EncodeInert(s);
    InertHasNoDelimiter(EncodeComponent(s));
    ComponentRoundTrip(s);
  }

  // ----- parameters -----

  /** A value that JavaScript counts as true. */
  predicate Given(value: Option<string>) {
    value.Some? && value.value != ""
  }

  /** `value || undefined` */
  function OrNone(value: Option<string>): Option<string> {
    if Given(value) then value else None
  }

  /** `value || default` */
  function Or(value: Option<string>, default: string): string {
    if Given(value) then value.value else default
  }

  function Remove(params: Params, name: string): Params {
    if params == [] then []
    else (if params[0].0 == name then [] else [params[0]]) + Remove(params[1..], name)
  }

  /** URLSearchParams.set: the first value is replaced, others of the name go, or it is appended. */
  function SetParam(params: Params, name: string, value: string): Params {
    if params == [] then [(name, value)]
    else if params[0].0 == name then [(name, value)] + Remove(params[1..], name)
    else [params[0]] + SetParam(params[1..], name, value)
  }

  /** `if (value) params.set(name, value)` */
  function With(params: Params, name: string, value: Option<string>): Params {
    if Given(value) then SetParam(params, name, value.value) else params
  }

  lemma {:induction false} LookupSet(params: Params, name: string, value: string, asked: string)
    ensures Lookup(SetParam(params, name, value), asked) == if asked == name then Some(value) else Lookup(params, asked)
    decreases |params|
  {
    if params != [] {
      if params[0].0 == name {
        var rest := Remove(params[1..], name);
        assert ([(name, value)] + rest)[1..] == rest;
        if asked != name { LookupRemove(params[1..], name, asked); }
      } else {
        LookupSet(params[1..], name, value, asked);
        var rest := SetParam(params[1..], name, value);
        assert ([params[0]] + rest)[1..] == rest;
      }
    } else {
      assert [(name, value)][1..] == [];
    }
  }

  lemma {:induction false} LookupRemove(params: Params, name: string, asked: string)
    requires asked != name
    ensures Lookup(Remove(params, name), asked) == Lookup(params, asked)
    decreases |params|
  {
    if params != [] {
      LookupRemove(params[1..], name, asked);
      var rest := Remove(params[1..], name);
      assert ([params[0]] + rest)[1..] == rest && [] + rest == rest;
    }
  }

  /** Reading a name after a conditional set. */
  lemma LookupWith(params: Params, name: string, value: Option<string>, asked: string)
    ensures Lookup(With(params, name, value), asked) ==
            if asked == name && Given(value) then value else Lookup(params, asked)
  {
    if Given(value) { LookupSet(params, name, value.value, asked); }
  }

  /** What safeReturnTo lets through: a text that begins with one slash, not with two. A browser
      reads a backslash after that slash like a second one, and this check does not. */
  function SafeReturn(value: Option<string>): Option<string> {
    if value.Some? && "/" <= value.value && !("//" <= value.value) then value else None
  }

  // ----- String.prototype.trim -----

  predicate IsSpace(c: char) {
    var n := c as int;
    || 9 <= n <= 13 || n == 0x20 || n == 0xA0 || n == 0x1680 || 0x2000 <= n <= 0x200A
    || n == 0x2028 || n == 0x2029 || n == 0x202F || n == 0x205F || n == 0x3000 || n == 0xFEFF
  }

  function Trim(s: string): (t: string)
    ensures t != "" ==> !IsSpace(t[0]) && !IsSpace(t[|t| - 1])
    decreases |s|
  {
    if s != "" && IsSpace(s[0]) then Trim(s[1..])
    else if s != "" && IsSpace(s[|s| - 1]) then Trim(s[..|s| - 1])
    else s
  }
}
