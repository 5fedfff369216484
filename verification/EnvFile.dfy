/** The community setup's `.env` file: reading it, writing it, and filling in secrets. */
module EnvFile {
  import opened Foundations

  // ----- text -----

  /** The characters str.splitlines breaks at. */
  predicate IsBreak(c: char) {
    var n := c as int;
    10 <= n <= 13 || 28 <= n <= 30 || n == 0x85 || n == 0x2028 || n == 0x2029
  }

  /** The characters str.strip removes. */
  predicate IsBlank(c: char) {
    var n := c as int;
    || 9 <= n <= 13 || 28 <= n <= 32 || n == 0x85 || n == 0xA0 || n == 0x1680 || 0x2000 <= n <= 0x200A
    || n == 0x2028 || n == 0x2029 || n == 0x202F || n == 0x205F || n == 0x3000
  }

  predicate OneLine(s: string) {
    forall i :: 0 <= i < |s| ==> !IsBreak(s[i])
  }

  function TrimRight(s: string): string {
    if s != "" && IsBlank(s[|s| - 1]) then TrimRight(s[..|s| - 1]) else s
  }

  function TrimLeft(s: string): string {
    if s != "" && IsBlank(s[0]) then TrimLeft(s[1..]) else s
  }

  /** str.strip */
  function Trim(s: string): string {
    TrimLeft(TrimRight(s))
  }

  function LinesFrom(piece: string, s: string): (lines: seq<string>)
    ensures lines != []
    decreases |s|
  {
    if s == "" then [piece]
    else if IsBreak(s[0]) then [piece] + LinesFrom("", s[1..])
    else LinesFrom(piece + [s[0]], s[1..])
  }

  /** str.splitlines, with an empty line more where the text ends in a break. Empty lines mean nothing here. */
  function Lines(s: string): (lines: seq<string>)
    ensures lines != []
  {
    LinesFrom("", s)
  }

  // ----- dictionaries that remember the order of their keys -----

  datatype Dict = Dict(order: seq<string>, entries: map<string, string>)

  const EMPTY := Dict([], map[])

  /** Assignment keeps the place of a key that is there, and appends one that is not. */
  function Put(d: Dict, key: string, value: string): Dict {
    Dict(if key in d.entries then d.order else d.order + [key], d.entries[key := value])
  }

  /** The order lists every key once. */
  ghost predicate Orderly(d: Dict) {
    && (forall k :: k in d.entries <==> k in d.order)
    && forall i, j :: 0 <= i < j < |d.order| ==> d.order[i] != d.order[j]
  }

  // ----- reading -----

  function FirstEquals(s: string): (i: nat)
    ensures i <= |s|
  {
    if s == "" || s[0] == '=' then 0 else 1 + FirstEquals(s[1..])
  }

  /** What one line assigns, if anything. */
  function Assignment(raw: string): Option<(string, string)> {
    var line := Trim(raw);
    var i := FirstEquals(line);
    if line == "" || line[0] == '#' || i == |line| then None
    else Some((Trim(line[..i]), Trim(line[i + 1..])))
  }

  /** How a line is read. */
  type Reader = string -> Option<(string, string)>

  function LineReader(): Reader {
    (raw: string) => Assignment(raw)
  }

  function Absorb(read: Reader, d: Dict, raw: string): Dict {
    match read(raw)
    case None => d
    case Some(pair) => Put(d, pair.0, pair.1)
  }

  function AbsorbAll(read: Reader, d: Dict, lines: seq<string>): Dict
    decreases |lines|
  {
    if lines == [] then d else AbsorbAll(read, Absorb(read, d, lines[0]), lines[1..])
  }

  /** _parse_env */
  function Parse(text: string): Dict {
    AbsorbAll(LineReader(), EMPTY, Lines(text))
  }

  /** The loop over the lines of a file. */
  method FillFrom(read: Reader, lines: seq<string>) returns (values: Dict)
    ensures values == AbsorbAll(read, EMPTY, lines)
  {
    values := EMPTY;
    assert lines[0..] == lines;
    for i := 0 to |lines|
      invariant AbsorbAll(read, values, lines[i..]) == AbsorbAll(read, EMPTY, lines)
    {
      assert lines[i..][0] == lines[i] && lines[i..][1..] == lines[i + 1..];
      var pair := read(lines[i]);
      if pair.None? { continue; }
      values := Put(values, pair.value.0, pair.value.1);
    }
  }

  method ParseEnv(text: string) returns (values: Dict)
    ensures values == Parse(text)
  {
    values := FillFrom(LineReader(), Lines(text));
  }

  // ----- writing -----

  function Line(key: string, value: string): string {
    key + "=" + value
  }

  function Extras(order: seq<string>, known: seq<string>): seq<string> {
    if order == [] then []
    else (if order[0] in known then [] else [order[0]]) + Extras(order[1..], known)
  }

  /** The keys in the order they are written: those of the example first. */
  function WriteOrder(example: seq<string>, d: Dict): seq<string> {
    example + Extras(d.order, example)
  }

  function LinesFor(keys: seq<string>, d: Dict): seq<string> {
    if keys == [] then []
    else (if keys[0] in d.entries then [Line(keys[0], d.entries[keys[0]])] else []) + LinesFor(keys[1..], d)
  }

  function JoinLines(lines: seq<string>): string {
    if lines == [] then "" else if |lines| == 1 then lines[0] else lines[0] + "\n" + JoinLines(lines[1..])
  }

  /** _write_env: the text of the file, given the keys of the example file. */
  function Write(example: seq<string>, d: Dict): string {
    JoinLines(LinesFor(WriteOrder(example, d), d)) + "\n"
  }

  // ----- setup -----

  predicate Placeholder(value: string) {
    value == "" || "change-me" <= value || "replace-me" <= value || "placeholder" <= value
  }

  /** A secret is put in on a first run, and where it is missing or a placeholder. */
  function FillOne(first: bool, d: Dict, secret: (string, string)): Dict {
    if first || secret.0 !in d.entries || Placeholder(d.entries[secret.0]) then Put(d, secret.0, secret.1) else d
  }

  /** The secret-filling loop. */
  function Fill(first: bool, d: Dict, generated: seq<(string, string)>): Dict
    decreases |generated|
  {
    if generated == [] then d else Fill(first, FillOne(first, d, generated[0]), generated[1..])
  }

  /** dict.update */
  function Update(d: Dict, updates: seq<(string, string)>): Dict
    decreases |updates|
  {
    if updates == [] then d else Update(Put(d, updates[0].0, updates[0].1), updates[1..])
  }

  /** The values a setup run writes: those of the `.env` file, or of the example on a first run,
      with missing and placeholder secrets generated and the command's settings put in. */
  function SetupValues(
      example: string, env: Option<string>, generated: seq<(string, string)>, updates: seq<(string, string)>): Dict
  {
    Update(Fill(env.None?, Parse(if env.Some? then env.value else example), generated), updates)
  }

  function Setup(
      example: string, env: Option<string>, generated: seq<(string, string)>, updates: seq<(string, string)>): string
  {
    Write(Parse(example).order, SetupValues(example, env, generated, updates))
  }

  /** main, as far as the file goes: the dictionary is filled in place. */
  method RunSetup(
      example: string, env: Option<string>, generated: seq<(string, string)>, updates: seq<(string, string)>)
    returns (text: string)
    ensures text == Setup(example, env, generated, updates)
  {
    var first := env.None?;
    var values := ParseEnv(if env.Some? then env.value else example);
    ghost var start := values;
    assert generated[0..] == generated && updates[0..] == updates;
    for i := 0 to |generated|
      invariant Fill(first, values, generated[i..]) == Fill(first, start, generated)
    {
      var (key, value) := generated[i];
      assert generated[i..][0] == generated[i] && generated[i..][1..] == generated[i + 1..];
      if first || key !in values.entries || Placeholder(values.entries[key]) {
        values := Put(values, key, value);
      }
    }
    ghost var filled := values;
    for i := 0 to |updates|
      invariant Update(values, updates[i..]) == Update(filled, updates)
    {
      assert updates[i..][0] == updates[i] && updates[i..][1..] == updates[i + 1..];
      values := Put(values, updates[i].0, updates[i].1);
    }
    var known := ParseEnv(example);
    text := Write(known.order, values);
  }
}
