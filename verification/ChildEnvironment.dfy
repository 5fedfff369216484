/** The environment handed to a child process, and why building it cannot fail for the names
    and values of a restore binding. */
module ChildEnvironment {
  import opened Foundations
  import opened RestoreBinding

  predicate FoundAt(s: string, part: string, i: int) {
    0 <= i <= |s| - |part| && s[i..i + |part|] == part
  }

  predicate Contains(s: string, part: string) {
    exists i :: 0 <= i <= |s| - |part| && FoundAt(s, part, i)
  }

  /** The names of secrets, matched without regard to case; all names here are uppercase. */
  predicate Sensitive(name: string) {
    || "AWS_" <= name || Contains(name, "PASSWORD") || Contains(name, "SECRET") || Contains(name, "TOKEN")
    || Contains(name, "KEY") || Contains(name, "CREDENTIAL") || Contains(name, "RCLONE_CONFIG_PASS")
    || Contains(name, "PGPASSWORD")
  }

  /** [A-Z][A-Z0-9_]* */
  predicate PlainName(name: string) {
    && name != "" && 'A' <= name[0] <= 'Z'
    && forall i :: 0 <= i < |name| ==> 'A' <= name[i] <= 'Z' || '0' <= name[i] <= '9' || name[i] == '_'
  }

  predicate PlainValue(value: string) {
    value != "" && '\0' !in value
  }

  /** _sanitized_child_environment; None is an error. */
  function BuildEnvironment(base: map<string, string>, values: seq<(string, string)>): Option<map<string, string>>
    decreases |values|
  {
    if values == [] then Some(base)
    else if !PlainName(values[0].0) || Sensitive(values[0].0) || !PlainValue(values[0].1) then None
    else BuildEnvironment(base[values[0].0 := values[0].1], values[1..])
  }

  const RUN_NAME := "B2B3_BACKUP_RUN_ID"
  const GENERATION_NAME := "B2B3_RECOVERY_GENERATION_ID"
  const RESTORE_NAME := "B2B3_RESTORE_ID"

  function RuntimeValues(b: Binding): seq<(string, string)> {
    [(RUN_NAME, b.run), (GENERATION_NAME, b.generation), (RESTORE_NAME, b.restoreId)]
  }

  /** A name without one of the letters of a pattern does not contain the pattern. */
  lemma LacksLetter(name: string, part: string, j: nat)
    requires j < |part| && part[j] !in name
    ensures !Contains(name, part)
  {
    forall i | 0 <= i <= |name| - |part| ensures !FoundAt(name, part, i) {
      assert name[i..i + |part|][j] == name[i + j];
      assert name[i + j] in name;
    }
  }

  /** Letters that no sensitive pattern can do without. */
  lemma NotSensitive(name: string)
    requires 'W' !in name && 'L' !in name && |name| > 0 && name[0] == 'B'
    requires 'S' !in name || 'C' !in name
    requires 'T' !in name || 'K' !in name
    requires 'Y' !in name || 'K' !in name
    ensures !Sensitive(name)
  {
    LacksLetter(name, "PASSWORD", 4);
    LacksLetter(name, "PGPASSWORD", 6);
    LacksLetter(name, "CREDENTIAL", 9);
    LacksLetter(name, "RCLONE_CONFIG_PASS", 2);
    if 'S' !in name { LacksLetter(name, "SECRET", 0); } else { LacksLetter(name, "SECRET", 2); }
    if 'T' !in name { LacksLetter(name, "TOKEN", 0); } else { LacksLetter(name, "TOKEN", 2); }
    if 'K' !in name { LacksLetter(name, "KEY", 0); } else { LacksLetter(name, "KEY", 2); }
    assert "AWS_"[0] == 'A';
  }

  lemma RunName()
    ensures PlainName(RUN_NAME) && !Sensitive(RUN_NAME)
  {
    assert forall i :: 0 <= i < |RUN_NAME| ==> RUN_NAME[i] !in {'W', 'L', 'S', 'T', 'Y'};
    NotSensitive(RUN_NAME);
  }

  lemma GenerationName()
    ensures PlainName(GENERATION_NAME) && !Sensitive(GENERATION_NAME)
  {
    assert forall i :: 0 <= i < |GENERATION_NAME| ==> GENERATION_NAME[i] !in {'W', 'L', 'S', 'K'};
    NotSensitive(GENERATION_NAME);
  }

  lemma RestoreName()
    ensures PlainName(RESTORE_NAME) && !Sensitive(RESTORE_NAME)
  {
    assert forall i :: 0 <= i < |RESTORE_NAME| ==> RESTORE_NAME[i] !in {'W', 'L', 'C', 'K'};
    NotSensitive(RESTORE_NAME);
  }

  lemma RunIdIsPlainValue(s: string)
    requires ValidRunId(s)
    ensures PlainValue(s)
  {
  }

  /** Between its handlers, the re-deletion protocol builds this environment: it exists for every
      valid binding, whatever the base environment, and adds run, generation and restore id to it. */
  lemma EnvironmentExists(k: Platform, b: Binding, base: map<string, string>)
    requires LawfulUuid(k) && ValidBinding(k, b)
    ensures BuildEnvironment(base, RuntimeValues(b))
            == Some(base["B2B3_BACKUP_RUN_ID" := b.run]["B2B3_RECOVERY_GENERATION_ID" := b.generation]
                        ["B2B3_RESTORE_ID" := b.restoreId])
  {
    RunName();
    GenerationName();
    RestoreName();
    RunIdIsPlainValue(b.run);
    RunIdIsPlainValue(b.generation);
    var values := RuntimeValues(b);
    var base1 := base[RUN_NAME := b.run];
    var base2 := base1[GENERATION_NAME := b.generation];
    var base3 := base2[RESTORE_NAME := b.restoreId];
    assert BuildEnvironment(base3, values[1..][1..][1..]) == Some(base3);
    assert BuildEnvironment(base2, values[1..][1..]) == Some(base3);
    assert BuildEnvironment(base1, values[1..]) == Some(base3);
  }

  // ----- which environments are built -----

  /** The text occurs in the name. */
  ghost predicate Occurs(part: string, name: string) {
    exists front, back :: name == front + part + back
  }

  lemma ContainsIff(name: string, part: string)
    ensures Contains(name, part) <==> Occurs(part, name)
  {
    if i :| 0 <= i <= |name| - |part| && FoundAt(name, part, i) {
      assert name == name[..i] + part + name[i + |part|..];
    }
    if front, back :| name == front + part + back {
      assert FoundAt(name, part, |front|);
    }
  }

  /** The names of secrets: they begin with AWS_ or hold one of these words. */
  lemma SensitiveIff(name: string)
    ensures Sensitive(name) <==>
            || "AWS_" <= name || Occurs("PASSWORD", name) || Occurs("SECRET", name) || Occurs("TOKEN", name)
            || Occurs("KEY", name) || Occurs("CREDENTIAL", name) || Occurs("RCLONE_CONFIG_PASS", name)
            || Occurs("PGPASSWORD", name)
  {
    ContainsIff(name, "PASSWORD");
    ContainsIff(name, "SECRET");
    ContainsIff(name, "TOKEN");
    ContainsIff(name, "KEY");
    ContainsIff(name, "CREDENTIAL");
    ContainsIff(name, "RCLONE_CONFIG_PASS");
    ContainsIff(name, "PGPASSWORD");
  }

  /** The name begins with an uppercase letter and goes on with letters, digits and underscores, it
      names no secret, and the value is a text without NUL that is not empty. */
  ghost predicate Passable(pair: (string, string)) {
    && pair.0 != "" && 'A' <= pair.0[0] <= 'Z' && !Sensitive(pair.0)
    && (forall i :: 0 <= i < |pair.0| ==> 'A' <= pair.0[i] <= 'Z' || '0' <= pair.0[i] <= '9' || pair.0[i] == '_')
    && pair.1 != "" && '\0' !in pair.1
  }

  /** An environment is built exactly when every value may be passed on; a name then has the last
      value given for it, or the one of the base. */
  lemma {:induction false} EnvironmentIff(base: map<string, string>, values: seq<(string, string)>)
    ensures BuildEnvironment(base, values).Some? <==> forall i :: 0 <= i < |values| ==> Passable(values[i])
    ensures BuildEnvironment(base, values).Some? ==>
              forall name :: Named(BuildEnvironment(base, values).value, name) == Given(base, values, name)
    decreases |values|
  {
    if values != [] {
      var next := base[values[0].0 := values[0].1];
      EnvironmentIff(next, values[1..]);
      forall name ensures Given(base, values, name) == Given(next, values[1..], name) {
        GivenFirst(base, values, name);
      }
      assert values == [values[0]] + values[1..];
      assert forall i :: 0 < i < |values| ==> values[1..][i - 1] == values[i];
    }
  }

  lemma {:induction false} GivenFirst(base: map<string, string>, values: seq<(string, string)>, name: string)
    requires values != []
    ensures Given(base, values, name) == Given(base[values[0].0 := values[0].1], values[1..], name)
    decreases |values|
  {
    var front, rest := values[..|values| - 1], values[1..];
    if front != [] {
      GivenFirst(base, front, name);
      assert rest[..|rest| - 1] == front[1..];
    }
  }

  ghost function Named(environment: map<string, string>, name: string): Option<string> {
    if name in environment then Some(environment[name]) else None
  }

  /** The last value given for a name, or the one of the base. */
  ghost function Given(base: map<string, string>, values: seq<(string, string)>, name: string): Option<string> {
    if values == [] then Named(base, name)
    else if values[|values| - 1].0 == name then Some(values[|values| - 1].1)
    else Given(base, values[..|values| - 1], name)
  }
}
