/** How a line of the `.env` file is read, and which value a setup run gives to each key. */
module EnvValues {
  import opened Foundations
  import opened EnvFile
  import opened EnvTheorems
  import opened EnvSetup
  import opened CommunitySetup

  // ----- reading -----

  /** Where str.splitlines breaks. */
  lemma BreaksAre(c: char)
    ensures IsBreak(c) <==>
            c in {'\n', '\U{000B}', '\U{000C}', '\r', '\U{001C}', '\U{001D}', '\U{001E}', '\U{0085}', '\U{2028}',
                  '\U{2029}'}
  {
  }

  /** What str.strip removes: every break but one, and these blanks. */
  lemma BlanksAre(c: char)
    ensures IsBlank(c) <==>
            || IsBreak(c)
            || c in {'\t', ' ', '\U{001F}', '\U{00A0}', '\U{1680}', '\U{202F}', '\U{205F}', '\U{3000}'}
            || '\U{2000}' <= c <= '\U{200A}'
  {
  }

  /** The last line of a text is what follows its last break. */
  lemma {:induction false} LastLine(piece: string, a: string, c: char, line: string)
    requires IsBreak(c) && OneLine(line)
    ensures LinesFrom(piece, a + [c] + line) == LinesFrom(piece, a) + [line]
    decreases |a|
  {
    if a == "" {
      assert (a + [c] + line)[0] == c && (a + [c] + line)[1..] == line;
      OneLineIs(line);
    } else {
      assert (a + [c] + line)[0] == a[0] && (a + [c] + line)[1..] == a[1..] + [c] + line;
      LastLine(if IsBreak(a[0]) then "" else piece + [a[0]], a[1..], c, line);
    }
  }

  /** A line assigns a value exactly when it is a trimmed text, not a comment, with an equals sign: the
      key is what stands before the first one, the value what follows, both trimmed. */
  ghost predicate Reads(raw: string, key: string, value: string, left: string, right: string) {
    && EnvFile.Trim(raw) == left + "=" + right && '=' !in left && !("#" <= EnvFile.Trim(raw))
    && key == EnvFile.Trim(left) && value == EnvFile.Trim(right)
  }

  lemma {:induction false} EqualsAt(s: string)
    ensures var i := EnvFile.FirstEquals(s); i < |s| ==> s[i] == '='
    decreases |s|
  {
    if s != "" && s[0] != '=' { EqualsAt(s[1..]); }
  }

  /** A line is cut at its first equals sign, and only there. */
  lemma CutAtEquals(line: string, left: string, right: string)
    ensures line == left + "=" + right && '=' !in left <==>
            var i := EnvFile.FirstEquals(line);
            i < |line| && left == line[..i] && right == line[i + 1..]
  {
    var i := EnvFile.FirstEquals(line);
    FirstEqualsIs(line);
    EqualsAt(line);
    if i < |line| && left == line[..i] && right == line[i + 1..] {
      CutHere(line, i);
    }
    if line == left + "=" + right && '=' !in left {
      EqualsAfterKey(left, right);
      assert line[..|left|] == left && line[|left| + 1..] == right;
    }
  }

  lemma CutHere(s: string, i: nat)
    requires i < |s| && s[i] == '='
    ensures s == s[..i] + "=" + s[i + 1..]
  {
  }

  lemma AssignmentIff(raw: string, key: string, value: string)
    ensures Assignment(raw) == Some((key, value)) <==> exists left, right :: Reads(raw, key, value, left, right)
  {
    var line := EnvFile.Trim(raw);
    var i := EnvFile.FirstEquals(line);
    if i < |line| && Assignment(raw) == Some((key, value)) {
      CutAtEquals(line, line[..i], line[i + 1..]);
      assert Reads(raw, key, value, line[..i], line[i + 1..]);
    }
    if left, right :| Reads(raw, key, value, left, right) { CutAtEquals(line, left, right); }
  }

  // ----- the values of a setup run -----

  ghost predicate OnePerKey(pairs: seq<(string, string)>) {
    forall i, j :: 0 <= i < j < |pairs| ==> pairs[i].0 != pairs[j].0
  }

  /** Nothing, or a text that only holds a place. */
  ghost predicate Vacant(value: string) {
    value == "" || "change-me" <= value || "replace-me" <= value || "placeholder" <= value
  }

  ghost function ValueIn(d: Dict, k: string): Option<string> {
    if k in d.entries then Some(d.entries[k]) else None
  }

  /** What the secret loop makes of one key. */
  ghost function Secret(first: bool, before: Option<string>, generated: Option<string>): Option<string> {
    if generated.Some? && (first || before.None? || Vacant(before.value)) then generated else before
  }

  lemma {:induction false} FilledValue(first: bool, d: Dict, generated: seq<(string, string)>, k: string)
    requires OnePerKey(generated)
    ensures ValueIn(Fill(first, d, generated), k) == Secret(first, ValueIn(d, k), LastValue(generated, k))
    decreases |generated|
  {
    if generated != [] {
      var rest := generated[1..];
      assert forall i :: 0 <= i < |rest| ==> rest[i] == generated[i + 1];
      FilledValue(first, FillOne(first, d, generated[0]), rest, k);
      if k == generated[0].0 { NoLater(rest, k); }
    }
  }

  lemma {:induction false} NoLater(pairs: seq<(string, string)>, k: string)
    requires forall i :: 0 <= i < |pairs| ==> pairs[i].0 != k
    ensures LastValue(pairs, k) == None
    decreases |pairs|
  {
    if pairs != [] {
      assert forall i :: 0 <= i < |pairs[1..]| ==> pairs[1..][i] == pairs[i + 1];
      NoLater(pairs[1..], k);
    }
  }

  /** Every key of the written file has the value of the settings where they name it; else the
      generated secret on a first run, or where the file had none or only a placeholder; else the
      value of the file that was there, or of the example on a first run. */
  lemma SetupValueIs(
      example: string, env: Option<string>, generated: seq<(string, string)>, updates: seq<(string, string)>, k: string)
    requires OnePerKey(generated)
    ensures
      var before := Parse(if env.Some? then env.value else example);
      ValueIn(SetupValues(example, env, generated, updates), k) ==
        if LastValue(updates, k).Some? then LastValue(updates, k)
        else Secret(env.None?, ValueIn(before, k), LastValue(generated, k))
  {
    var before := Parse(if env.Some? then env.value else example);
    FilledValue(env.None?, before, generated, k);
    UpdateAt(Fill(env.None?, before, generated), updates, k);
  }

  /** What the community setup puts in on every run. */
  lemma SettingsAre(slug: string, name: string, port: nat)
    ensures
      var settings := Settings(slug, name, port);
      && LastValue(settings, "APP_ENVIRONMENT") == Some("development")
      && LastValue(settings, "DEFAULT_ORGANIZATION_SLUG") == Some(slug)
      && LastValue(settings, "DEFAULT_ORGANIZATION_NAME") == Some(name)
      && LastValue(settings, "HTTP_PORT") == Some(Decimal(port))
      && LastValue(settings, "CORS_ORIGINS") == Some("[\"http://localhost:" + Decimal(port) + "\"]")
      && LastValue(settings, "OFFER_PUBLIC_BASE_URL") == Some("http://localhost:" + Decimal(port))
  {
    var s := Settings(slug, name, port);
    NamesDiffer();
    assert s == [s[0], s[1], s[2], s[3], s[4], s[5]];
    SixValues(s[0], s[1], s[2], s[3], s[4], s[5], "APP_ENVIRONMENT");
    SixValues(s[0], s[1], s[2], s[3], s[4], s[5], "DEFAULT_ORGANIZATION_SLUG");
    SixValues(s[0], s[1], s[2], s[3], s[4], s[5], "DEFAULT_ORGANIZATION_NAME");
    SixValues(s[0], s[1], s[2], s[3], s[4], s[5], "HTTP_PORT");
    SixValues(s[0], s[1], s[2], s[3], s[4], s[5], "CORS_ORIGINS");
    SixValues(s[0], s[1], s[2], s[3], s[4], s[5], "OFFER_PUBLIC_BASE_URL");
    assert "[\"" + ("http://localhost:" + Decimal(port)) + "\"]" == "[\"http://localhost:" + Decimal(port) + "\"]";
  }
}
