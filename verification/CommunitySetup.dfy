/** The community setup script: its six settings, and when running it again is safe. */
module CommunitySetup {
  import opened Foundations
  import opened EnvFile
  import opened EnvTheorems
  import opened EnvBlocks
  import opened EnvSetup
  import opened EnvExact

  const SLUG := "DEFAULT_ORGANIZATION_SLUG"
  const NAME := "DEFAULT_ORGANIZATION_NAME"

  /** The values the script sets on every run; the last two repeat the port. */
  function Settings(slug: string, name: string, port: nat): Pairs {
    var base := "http://localhost:" + Decimal(port);
    [("APP_ENVIRONMENT", "development"), (SLUG, slug), (NAME, name),
     ("HTTP_PORT", Decimal(port)), ("CORS_ORIGINS", "[\"" + base + "\"]"), ("OFFER_PUBLIC_BASE_URL", base)]
  }

  // ----- the names and the values of one line -----

  /** Uppercase letters and underscores: the names in the setup script. */
  predicate PlainName(s: string) {
    s != "" && forall i :: 0 <= i < |s| ==> 'A' <= s[i] <= 'Z' || s[i] == '_'
  }

  lemma PlainIsGood(s: string)
    requires PlainName(s)
    ensures GoodKey(s)
  {
  }

  lemma PlainNames()
    ensures PlainName("APP_ENVIRONMENT") && PlainName(SLUG) && PlainName(NAME)
    ensures PlainName("HTTP_PORT") && PlainName("CORS_ORIGINS") && PlainName("OFFER_PUBLIC_BASE_URL")
  {
  }

  /** The six names are told apart by their lengths, two of them by a letter. */
  lemma NamesDiffer()
    ensures |"APP_ENVIRONMENT"| == 15 && |SLUG| == 25 && |NAME| == 25 && SLUG != NAME
    ensures |"HTTP_PORT"| == 9 && |"CORS_ORIGINS"| == 12 && |"OFFER_PUBLIC_BASE_URL"| == 21
  {
    assert SLUG[21] != NAME[21];
  }

  lemma {:induction false} DecimalIsOneLine(n: nat)
    ensures OneLine(Decimal(n))
  {
    if n >= 10 { DecimalIsOneLine(n / 10); }
  }

  lemma OneLineConcat(a: string, b: string)
    requires OneLine(a) && OneLine(b)
    ensures OneLine(a + b)
  {
  }

  /** What the port is put into has one line. */
  lemma PortValues(port: nat)
    ensures
      var base := "http://localhost:" + Decimal(port);
      OneLine(Decimal(port)) && OneLine(base) && OneLine("[\"" + base + "\"]")
  {
    var base := "http://localhost:" + Decimal(port);
    DecimalIsOneLine(port);
    assert OneLine("http://localhost:");
    OneLineConcat("http://localhost:", Decimal(port));
    assert OneLine("[\"") && OneLine("\"]");
    OneLineConcat("[\"", base);
    OneLineConcat("[\"" + base, "\"]");
  }

  lemma SettingsAreNamed(slug: string, name: string, port: nat)
    ensures GoodNames(Settings(slug, name, port))
  {
    var settings := Settings(slug, name, port);
    PlainNames();
    forall i | 0 <= i < |settings| ensures GoodKey(settings[i].0) { PlainIsGood(settings[i].0); }
  }

  /** The last value of a name among six pairs with six names. */
  lemma SixValues(
      a: (string, string), b: (string, string), c: (string, string), d: (string, string), e: (string, string),
      f: (string, string), k: string)
    requires a.0 != b.0 && a.0 != c.0 && a.0 != d.0 && a.0 != e.0 && a.0 != f.0
    requires b.0 != c.0 && b.0 != d.0 && b.0 != e.0 && b.0 != f.0
    requires c.0 != d.0 && c.0 != e.0 && c.0 != f.0 && d.0 != e.0 && d.0 != f.0 && e.0 != f.0
    ensures LastValue([a, b, c, d, e, f], k) ==
      if k == a.0 then Some(a.1) else if k == b.0 then Some(b.1) else if k == c.0 then Some(c.1)
      else if k == d.0 then Some(d.1) else if k == e.0 then Some(e.1) else if k == f.0 then Some(f.1) else None
  {
    ValueBefore(f, [], [f], k);
    ValueBefore(e, [f], [e, f], k);
    ValueBefore(d, [e, f], [d, e, f], k);
    ValueBefore(c, [d, e, f], [c, d, e, f], k);
    ValueBefore(b, [c, d, e, f], [b, c, d, e, f], k);
    ValueBefore(a, [b, c, d, e, f], [a, b, c, d, e, f], k);
  }

  lemma ValueBefore(pair: (string, string), rest: Pairs, whole: Pairs, k: string)
    requires whole == [pair] + rest
    ensures LastValue(whole, k)
            == if LastValue(rest, k).Some? then LastValue(rest, k) else if pair.0 == k then Some(pair.1) else None
  {
    assert whole[1..] == rest;
  }

  /** The settings that the script takes from its command line as they are given. */
  lemma SettingValue(slug: string, name: string, port: nat, k: string)
    ensures k == SLUG ==> LastValue(Settings(slug, name, port), k) == Some(slug)
    ensures k == NAME ==> LastValue(Settings(slug, name, port), k) == Some(name)
    ensures
      var value := LastValue(Settings(slug, name, port), k);
      k != SLUG && k != NAME && value.Some? ==> OneLine(value.value)
  {
    var s := Settings(slug, name, port);
    NamesDiffer();
    PortValues(port);
    SixValues(s[0], s[1], s[2], s[3], s[4], s[5], k);
    assert s == [s[0], s[1], s[2], s[3], s[4], s[5]];
    assert OneLine("development");
  }

  lemma OneLineNeverStrays(s: string, value: string, k: string)
    requires OneLine(value)
    ensures !Strays(s, value, k)
  {
    OneLineIs(value);
  }

  /** Only the organization's slug and name can stray. */
  lemma StraysOf(slug: string, name: string, port: nat, s: string, k: string)
    ensures StrayAt(Settings(slug, name, port), s, k)
            <==> (s == SLUG && Strays(SLUG, slug, k)) || (s == NAME && Strays(NAME, name, k))
  {
    NamesDiffer();
    SettingValue(slug, name, port, s);
    var value := LastValue(Settings(slug, name, port), s);
    if s != SLUG && s != NAME && value.Some? { OneLineNeverStrays(s, value.value, k); }
  }

  lemma HarmlessNeverStrays(s: string, value: string)
    ensures Harmless(s, value) <==> forall k :: !Strays(s, value, k)
  {
    var lines := Continuation(value);
    if !Harmless(s, value) {
      var i :| 0 <= i < |lines| && !OwnOrNone(s, lines[i]);
      assert Assigns(lines[i], Assignment(lines[i]).value.0);
      assert Strays(s, value, Assignment(lines[i]).value.0);
    }
    if k :| Strays(s, value, k) {
      var j :| 0 <= j < |lines| && Assigns(lines[j], k);
      assert !OwnOrNone(s, lines[j]);
    }
  }

  // ----- running the script again -----

  /** A key that a further line of the setting s assigns does no harm: the example lists it, and
      it is one of the six settings, or a secret listed after s. */
  ghost predicate Placed(known: seq<string>, secrets: set<string>, settings: Pairs, s: string, k: string) {
    k in known && (LastValue(settings, k).Some? || (k in secrets && ComesBefore(known, s, k)))
  }

  /** Exactly when running the community setup again changes nothing, whatever the `.env` file
      holds: every key that a further line of the organization's slug or name assigns is placed. */
  lemma CommunitySetupIsIdempotentIff(
      example: string, generated: Pairs, again: Pairs, slug: string, name: string, port: nat)
    requires GoodSecrets(generated) && GoodSecrets(again) && KeysOf(generated) == KeysOf(again)
    ensures
      var known, settings := Parse(example).order, Settings(slug, name, port);
      (forall env :: SameAgain(example, env, generated, again, settings)) <==>
      (forall k :: (Strays(SLUG, slug, k) ==> Placed(known, KeysOf(generated), settings, SLUG, k))
                && (Strays(NAME, name, k) ==> Placed(known, KeysOf(generated), settings, NAME, k)))
  {
    var known, settings := Parse(example).order, Settings(slug, name, port);
    SettingsAreNamed(slug, name, port);
    SetupIsIdempotentIff(example, generated, again, settings);
    SettledSettings(known, KeysOf(generated), settings, slug, name, port);
  }

  lemma SettledSettings(
      known: seq<string>, secrets: set<string>, settings: Pairs, slug: string, name: string, port: nat)
    requires settings == Settings(slug, name, port)
    ensures Settled(known, secrets, settings) <==>
      (forall k :: (Strays(SLUG, slug, k) ==> Placed(known, secrets, settings, SLUG, k))
                && (Strays(NAME, name, k) ==> Placed(known, secrets, settings, NAME, k)))
  {
    forall s, k ensures StrayAt(settings, s, k)
      <==> (s == SLUG && Strays(SLUG, slug, k)) || (s == NAME && Strays(NAME, name, k))
    {
      StraysOf(slug, name, port, s, k);
    }
    if Settled(known, secrets, settings) {
      forall k ensures Strays(SLUG, slug, k) ==> Placed(known, secrets, settings, SLUG, k)
               ensures Strays(NAME, name, k) ==> Placed(known, secrets, settings, NAME, k)
      {
        assert Strays(SLUG, slug, k) ==> StrayAt(settings, SLUG, k);
        assert Strays(NAME, name, k) ==> StrayAt(settings, NAME, k);
      }
    }
  }

  /** A key that a further line assigns keeps its place in this file: it was written already, and it
      is one of the six settings or what is read for it is what was written. */
  ghost predicate KeptIn(known: seq<string>, d: Dict, again: Pairs, settings: Pairs, k: string) {
    var refilled := Fill(false, ReadBack(known, d), again);
    k in d.entries
    && (LastValue(settings, k).Some? || (k in refilled.entries && refilled.entries[k] == d.entries[k]))
  }

  /** The same for one given `.env` file, or none, by what the first run writes: every key that a
      further line of the slug or name assigns is kept, and the keys that the example does not list
      are read in the order they were written. */
  lemma OneEnvFileIff(
      example: string, env: Option<string>, generated: Pairs, again: Pairs, slug: string, name: string, port: nat)
    requires GoodSecrets(generated) && GoodSecrets(again) && KeysOf(generated) == KeysOf(again)
    ensures
      var known, settings := Parse(example).order, Settings(slug, name, port);
      var d := SetupValues(example, env, generated, settings);
      SameAgain(example, env, generated, again, settings) <==>
      (forall k :: Strays(SLUG, slug, k) || Strays(NAME, name, k) ==> KeptIn(known, d, again, settings, k))
      && Extras(ReadBack(known, d).order, known) == Extras(d.order, known)
  {
    var known, settings := Parse(example).order, Settings(slug, name, port);
    var d := SetupValues(example, env, generated, settings);
    SettingsAreNamed(slug, name, port);
    OneFileIff(example, env, generated, again, settings);
    KeptSettings(known, d, again, settings, slug, name, port);
  }

  lemma KeptSettings(
      known: seq<string>, d: Dict, again: Pairs, settings: Pairs, slug: string, name: string, port: nat)
    requires settings == Settings(slug, name, port)
    ensures StraysKept(known, d, again, settings) <==>
      (forall k :: Strays(SLUG, slug, k) || Strays(NAME, name, k) ==> KeptIn(known, d, again, settings, k))
      && Extras(ReadBack(known, d).order, known) == Extras(d.order, known)
  {
    forall s, k ensures StrayAt(settings, s, k)
      <==> (s == SLUG && Strays(SLUG, slug, k)) || (s == NAME && Strays(NAME, name, k))
    {
      StraysOf(slug, name, port, s, k);
    }
    if StraysKept(known, d, again, settings) {
      forall k | Strays(SLUG, slug, k) || Strays(NAME, name, k) ensures KeptIn(known, d, again, settings, k) {
        assert StrayAt(settings, SLUG, k) || StrayAt(settings, NAME, k);
      }
    }
  }

  /** Over every example file as well: exactly the slugs and names no further line of which assigns
      another key. One-line slugs and names are among them. */
  lemma EveryFileIff(generated: Pairs, again: Pairs, slug: string, name: string, port: nat)
    requires GoodSecrets(generated) && GoodSecrets(again) && KeysOf(generated) == KeysOf(again)
    ensures
      (forall example, env :: SameAgain(example, env, generated, again, Settings(slug, name, port)))
      <==> Harmless(SLUG, slug) && Harmless(NAME, name)
    ensures OneLine(slug) && OneLine(name) ==> Harmless(SLUG, slug) && Harmless(NAME, name)
  {
    var settings := Settings(slug, name, port);
    SettingsAreNamed(slug, name, port);
    EveryExampleIff(generated, again, settings);
    forall s, k ensures StrayAt(settings, s, k)
      <==> (s == SLUG && Strays(SLUG, slug, k)) || (s == NAME && Strays(NAME, name, k))
    {
      StraysOf(slug, name, port, s, k);
    }
    NoStrays(settings, slug, name);
    HarmlessNeverStrays(SLUG, slug);
    HarmlessNeverStrays(NAME, name);
    if OneLine(slug) { OneLineIsHarmless(SLUG, slug); }
    if OneLine(name) { OneLineIsHarmless(NAME, name); }
  }

  lemma NoStrays(settings: Pairs, slug: string, name: string)
    requires forall s, k :: StrayAt(settings, s, k) <==>
      (s == SLUG && Strays(SLUG, slug, k)) || (s == NAME && Strays(NAME, name, k))
    ensures HarmlessSettings(settings) <==> forall k :: !Strays(SLUG, slug, k) && !Strays(NAME, name, k)
  {
    if HarmlessSettings(settings) {
      forall k ensures !Strays(SLUG, slug, k) && !Strays(NAME, name, k) {
        assert !StrayAt(settings, SLUG, k) && !StrayAt(settings, NAME, k);
      }
    }
  }

  /** An organization name of two lines, the second of which assigns k: running the script again
      changes nothing, whatever the `.env` file holds, exactly when k is placed. */
  lemma LineBreakInName(
      example: string, generated: Pairs, again: Pairs, slug: string, first: string, k: string, value: string, port: nat)
    requires GoodSecrets(generated) && GoodSecrets(again) && KeysOf(generated) == KeysOf(again)
    requires OneLine(slug) && OneLine(first) && GoodKey(k) && GoodValue(value) && k != NAME
    ensures
      var settings := Settings(slug, first + ("\n" + Line(k, value)), port);
      (forall env :: SameAgain(example, env, generated, again, settings))
      <==> Placed(Parse(example).order, KeysOf(generated), settings, NAME, k)
  {
    var name := first + ("\n" + Line(k, value));
    CommunitySetupIsIdempotentIff(example, generated, again, slug, name, port);
    forall j ensures !Strays(SLUG, slug, j) && (Strays(NAME, name, j) <==> j == k) {
      OneLineNeverStrays(SLUG, slug, j);
      TwoLineStrays(first, k, value, j);
    }
  }

  lemma TwoLineStrays(first: string, k: string, value: string, j: string)
    requires OneLine(first) && GoodKey(k) && GoodValue(value) && k != NAME
    ensures Strays(NAME, first + ("\n" + Line(k, value)), j) <==> j == k
  {
    var line := Line(k, value);
    OneLineIs(first);
    OneLineIs(line);
    LinesBefore("", first, line);
    LineReadsBack(k, value);
    assert ([first] + [line])[1..] == [line];
    assert Assigns([line][0], k);
  }
}
