/** Running the setup again: exactly the settings that leave the file as it is. A setting that
    spans lines is read back as several entries; what decides is which keys its further lines
    assign, and where the example file lists them. */
module EnvExact {
  import opened Foundations
  import opened EnvFile
  import opened EnvTheorems
  import opened EnvBlocks
  import opened EnvSetup

  type Pairs = seq<(string, string)>

  /** A second run with the same settings, and secrets drawn anew, writes the same file. */
  ghost predicate SameAgain(example: string, env: Option<string>, generated: Pairs, again: Pairs, updates: Pairs) {
    Setup(example, Some(Setup(example, env, generated, updates)), again, updates)
    == Setup(example, env, generated, updates)
  }

  /** The setting s assigns the other key k on a further line of its value. */
  predicate StrayAt(updates: Pairs, s: string, k: string) {
    LastValue(updates, s).Some? && Strays(s, LastValue(updates, s).value, k)
  }

  predicate ComesBefore(keys: seq<string>, s: string, k: string) {
    exists i, j :: 0 <= i < j < |keys| && keys[i] == s && keys[j] == k
  }

  /** Every stray key is listed in the example, and its value is put right after the stray line:
      it is a setting itself, or it is a generated secret listed after the setting it strays from. */
  ghost predicate Settled(known: seq<string>, secrets: set<string>, updates: Pairs) {
    forall s, k :: StrayAt(updates, s, k) ==>
      k in known && (LastValue(updates, k).Some? || (k in secrets && ComesBefore(known, s, k)))
  }

  // ----- strays come from settings -----

  lemma StrayIsSetting(d: Dict, generated: Pairs, updates: Pairs, keys: seq<string>, k: string) returns (s: string)
    requires SetupOf(d, generated, updates) && StraysIn(d, keys, k)
    ensures s in keys && StrayAt(updates, s, k)
  {
    s :| s in keys && s in d.entries && Strays(s, d.entries[s], k);
    if LastValue(updates, s).None? { OneLineIs(d.entries[s]); }
  }

  lemma SettingStrays(d: Dict, generated: Pairs, updates: Pairs, keys: seq<string>, s: string, k: string)
    requires SetupOf(d, generated, updates) && StrayAt(updates, s, k) && s in keys
    ensures s in d.entries && StraysIn(d, keys, k)
  {
    assert s in d.entries && d.entries[s] == LastValue(updates, s).value;
  }

  // ----- what is settled stays -----

  lemma WrittenOrder(known: seq<string>, d: Dict)
    requires Orderly(d) && Distinct(known)
    ensures
      var order := WriteOrder(known, d);
      && Distinct(order) && known <= order
      && (forall k :: k in d.entries ==> k in order)
      && (forall k :: k in Extras(d.order, known) ==> k !in known && k in d.entries)
  {
    WriteOrderIs(known, d);
    ExtrasMembers(d.order, known);
  }

  lemma SplitAt(keys: seq<string>, k: string) returns (before: seq<string>, after: seq<string>)
    requires k in keys && Distinct(keys)
    ensures keys == before + ([k] + after) && k !in before && k !in after
  {
    var i :| 0 <= i < |keys| && keys[i] == k;
    before, after := keys[..i], keys[i + 1..];
    assert keys == before + ([k] + after);
  }

  /** What is listed before k in the example is not written after k. */
  lemma NotAfter(known: seq<string>, order: seq<string>, before: seq<string>, k: string, after: seq<string>, s: string)
    requires known <= order == before + ([k] + after) && Distinct(order) && ComesBefore(known, s, k)
    ensures s !in after
  {
    var i, j :| 0 <= i < j < |known| && known[i] == s && known[j] == k;
    assert order[i] == s && order[j] == k && order[|before|] == k;
    assert j == |before|;
    forall l | 0 <= l < |after| ensures after[l] != s { assert order[|before| + 1 + l] == after[l]; }
  }

  /** The values a settled file is read back with. */
  lemma SettledValue(known: seq<string>, d: Dict, generated: Pairs, updates: Pairs, k: string)
    requires SetupOf(d, generated, updates) && Distinct(known) && Settled(known, KeysOf(generated), updates)
    ensures
      var read := Blocks(EMPTY, WriteOrder(known, d), d);
      && (k in read.entries <==> k in d.entries)
      && (k in d.entries && LastValue(updates, k).None? ==> k in read.entries && read.entries[k] == d.entries[k])
  {
    var order := WriteOrder(known, d);
    WrittenOrder(known, d);
    BlocksAt(EMPTY, order, d, k);
    if StraysIn(d, order, k) {
      var s := StrayIsSetting(d, generated, updates, order, k);
    }
    if k in d.entries && LastValue(updates, k).None? {
      var before, after := SplitAt(order, k);
      if StraysIn(d, after, k) {
        var s := StrayIsSetting(d, generated, updates, after, k);
        NotAfter(known, order, before, k, after, s);
        assert false;
      }
      TrimIs(d.entries[k]);
      BlocksKeep(before, k, after, d);
    }
  }

  lemma SettledOrder(known: seq<string>, d: Dict, generated: Pairs, updates: Pairs)
    requires SetupOf(d, generated, updates) && Distinct(known) && Settled(known, KeysOf(generated), updates)
    ensures Extras(Blocks(EMPTY, WriteOrder(known, d), d).order, known) == Extras(d.order, known)
  {
    var order := WriteOrder(known, d);
    WrittenOrder(known, d);
    forall k | StraysIn(d, order, k) ensures k in known {
      var s := StrayIsSetting(d, generated, updates, order, k);
    }
    BlocksExtras(EMPTY, order, d, known);
    assert [] + Extras(Listed(order, d), known) == Extras(Listed(order, d), known);
    OrderIsStable(known, d);
  }

  /** The second run on a dictionary with the same keys, and the same values but for the settings. */
  ghost predicate ReadLike(read: Dict, d: Dict, updates: Pairs) {
    && read.entries.Keys == d.entries.Keys
    && forall k :: k in d.entries && LastValue(updates, k).None? ==> read.entries[k] == d.entries[k]
  }

  lemma SecondValues(read: Dict, d: Dict, generated: Pairs, again: Pairs, updates: Pairs)
    requires SetupOf(d, generated, updates) && ReadLike(read, d, updates)
    requires GoodSecrets(again) && KeysOf(again) == KeysOf(generated)
    ensures Update(Fill(false, read, again), updates).entries == d.entries
  {
    var refilled := Fill(false, read, again);
    var result := Update(refilled, updates);
    forall k ensures k in result.entries <==> k in d.entries
             ensures k in d.entries && k in result.entries ==> result.entries[k] == d.entries[k]
    {
      UpdateAt(refilled, updates, k);
      FillAt(false, read, again, k);
    }
  }

  lemma SecondOrder(read: Dict, d: Dict, generated: Pairs, again: Pairs, updates: Pairs)
    requires SetupOf(d, generated, updates) && ReadLike(read, d, updates)
    requires GoodSecrets(again) && KeysOf(again) == KeysOf(generated)
    ensures Update(Fill(false, read, again), updates).order == read.order
  {
    FillOrder(false, read, again);
    forall k | k in KeysOf(updates) ensures k in Fill(false, read, again).entries {
      LastValueIff(updates, k);
      FillAt(false, read, again, k);
    }
    UpdateOrder(Fill(false, read, again), updates);
  }

  lemma SettledIsIdempotent(
      example: string, env: Option<string>, generated: Pairs, again: Pairs, updates: Pairs)
    requires GoodSecrets(generated) && GoodSecrets(again) && KeysOf(generated) == KeysOf(again) && GoodNames(updates)
    requires Settled(Parse(example).order, KeysOf(generated), updates)
    ensures SameAgain(example, env, generated, again, updates)
  {
    var known := Parse(example).order;
    var d := SetupValues(example, env, generated, updates);
    var read := Parse(Write(known, d));
    SetupIs(example, env, generated, updates);
    ParsedIsOrderly(example);
    ParsedBlocks(known, d);
    forall k
      ensures k in read.entries <==> k in d.entries
      ensures k in d.entries && LastValue(updates, k).None? ==> k in read.entries && read.entries[k] == d.entries[k]
    {
      SettledValue(known, d, generated, updates, k);
    }
    SecondValues(read, d, generated, again, updates);
    SecondOrder(read, d, generated, again, updates);
    SettledOrder(known, d, generated, updates);
    SameText(known, Update(Fill(false, read, again), updates), d);
  }

  // ----- what two runs with the same text have in common -----

  lemma {:induction false} TextListed(keys: seq<string>, d: Dict)
    ensures Text(keys, d) == Text(Listed(keys, d), d)
    decreases |keys|
  {
    if keys != [] {
      TextListed(keys[1..], d);
      var rest := Listed(keys[1..], d);
      if keys[0] in d.entries {
        assert ([keys[0]] + rest)[1..] == rest;
      } else {
        assert [] + rest == rest;
        assert Text(keys, d) == Text(keys[1..], d);
      }
    }
  }

  lemma {:induction false} ListedIn(keys: seq<string>, d: Dict)
    ensures forall k :: k in Listed(keys, d) <==> k in keys && k in d.entries
    decreases |keys|
  {
    if keys != [] {
      assert keys == [keys[0]] + keys[1..];
      ListedIn(keys[1..], d);
    }
  }

  lemma SetupsAreAlike(d: Dict, generated: Pairs, e: Dict, again: Pairs, updates: Pairs, k: string)
    requires SetupOf(d, generated, updates) && SetupOf(e, again, updates) && k in d.entries && k in e.entries
    ensures AlikeAt(d, e, k)
  {
  }

  lemma WritesText(known: seq<string>, d: Dict, k: string)
    requires Orderly(d) && Distinct(known) && k in d.entries
    ensures Write(known, d) == Text(Listed(WriteOrder(known, d), d), d)
  {
    var order := WriteOrder(known, d);
    WrittenOrder(known, d);
    WriteIsText(known, d);
    TextListed(order, d);
    ListedIn(order, d);
    TextEmpty(Listed(order, d), d);
  }

  /** The written keys are those of the dictionary. */
  lemma WrittenKeys(known: seq<string>, d: Dict, k: string)
    requires Orderly(d) && Distinct(known)
    ensures k in Listed(WriteOrder(known, d), d) <==> k in d.entries
  {
    WrittenOrder(known, d);
    ListedIn(WriteOrder(known, d), d);
  }

  /** Two runs with the same settings write the same text only with the same keys in the same
      order, and the same values. */
  lemma SameWrite(known: seq<string>, d: Dict, generated: Pairs, e: Dict, again: Pairs, updates: Pairs, s: string)
    requires SetupOf(d, generated, updates) && SetupOf(e, again, updates) && Distinct(known)
    requires LastValue(updates, s).Some? && Write(known, d) == Write(known, e)
    ensures Listed(WriteOrder(known, d), d) == Listed(WriteOrder(known, e), e)
    ensures forall k :: k in d.entries <==> k in e.entries
    ensures forall k :: k in d.entries && k in e.entries ==> d.entries[k] == e.entries[k]
  {
    var a, b := Listed(WriteOrder(known, d), d), Listed(WriteOrder(known, e), e);
    WritesText(known, d, s);
    WritesText(known, e, s);
    forall k ensures k in a <==> k in d.entries { WrittenKeys(known, d, k); }
    forall k ensures k in b <==> k in e.entries { WrittenKeys(known, e, k); }
    ListsAgree(a, d, generated, b, e, again, updates);
  }

  lemma ListsAgree(a: seq<string>, d: Dict, generated: Pairs, b: seq<string>, e: Dict, again: Pairs, updates: Pairs)
    requires SetupOf(d, generated, updates) && SetupOf(e, again, updates)
    requires forall k :: k in a <==> k in d.entries
    requires forall k :: k in b <==> k in e.entries
    requires Text(a, d) == Text(b, e)
    ensures a == b && forall k :: k in a ==> d.entries[k] == e.entries[k]
  {
    forall k | k in a ensures k in d.entries && NoEquals(k) && (k in b ==> AlikeAt(d, e, k)) {
      assert GoodKey(k);
      if k in b { SetupsAreAlike(d, generated, e, again, updates, k); }
    }
    forall k | k in b ensures k in e.entries && NoEquals(k) { assert GoodKey(k); }
    SameTextSameEntries(a, d, b, e);
  }

  // ----- names and values that are new -----

  lemma {:induction false} Longer(names: set<string>) returns (n: nat)
    ensures forall s :: s in names ==> |s| < n
    decreases names
  {
    if names == {} {
      n := 0;
    } else {
      var s :| s in names;
      n := Longer(names - {s});
      n := if n > |s| then n else |s| + 1;
      assert forall t :: t in names ==> t == s || t in names - {s};
    }
  }

  /** A name that is a good key, a good value and no placeholder, and not among these. */
  lemma Fresh(names: set<string>) returns (f: string)
    ensures f !in names && GoodKey(f) && Usable(f)
  {
    var n := Longer(names);
    f := seq(n + 1, i => 'F');
    assert f[0] == 'F';
    assert !("change-me" <= f) && !("replace-me" <= f) && !("placeholder" <= f) by {
      assert "change-me"[0] == 'c' && "replace-me"[0] == 'r' && "placeholder"[0] == 'p';
    }
  }

  function AssignedKeys(lines: seq<string>): set<string> {
    set j | 0 <= j < |lines| && Assignment(lines[j]).Some? :: Assignment(lines[j]).value.0
  }

  function AssignedValues(lines: seq<string>): set<string> {
    set j | 0 <= j < |lines| && Assignment(lines[j]).Some? :: Assignment(lines[j]).value.1
  }

  function AllKeys(updates: Pairs): set<string> {
    if updates == [] then {} else AssignedKeys(Continuation(updates[0].1)) + AllKeys(updates[1..])
  }

  function AllValues(updates: Pairs): set<string> {
    if updates == [] then {} else AssignedValues(Continuation(updates[0].1)) + AllValues(updates[1..])
  }

  lemma {:induction false} StrayIsAssigned(updates: Pairs, s: string, k: string)
    requires StrayAt(updates, s, k)
    ensures k in AllKeys(updates)
    decreases |updates|
  {
    if StrayAt(updates[1..], s, k) {
      StrayIsAssigned(updates[1..], s, k);
    } else {
      var lines := Continuation(updates[0].1);
      assert Mentioned(lines, k);
      var j :| 0 <= j < |lines| && Assigns(lines[j], k);
    }
  }

  lemma {:induction false} SettingAvoids(updates: Pairs, s: string, k: string, z: string)
    requires LastValue(updates, s).Some? && z !in AllValues(updates)
    ensures NeverGives(Continuation(LastValue(updates, s).value), k, z)
    decreases |updates|
  {
    if LastValue(updates[1..], s).Some? {
      SettingAvoids(updates[1..], s, k, z);
    } else {
      var lines := Continuation(updates[0].1);
      forall j | 0 <= j < |lines| ensures !Gives(lines[j], k, z) {
        assert Assignment(lines[j]).Some? ==> Assignment(lines[j]).value.1 in AssignedValues(lines);
      }
    }
  }

  lemma StrayIsGood(updates: Pairs, s: string, k: string)
    requires StrayAt(updates, s, k)
    ensures GoodKey(k)
  {
    var value := LastValue(updates, s).value;
    LinesAreOneLine("", value);
    var j :| 0 <= j < |Continuation(value)| && Assigns(Continuation(value)[j], k);
    assert Continuation(value)[j] == Lines(value)[j + 1];
    AssignmentIsGood(Continuation(value)[j]);
  }

  // ----- files that the second run changes -----

  /** Reading an entry of one line, then the rest. */
  lemma EntryFirst(start: Dict, key: string, value: string, rest: string)
    requires GoodKey(key) && GoodValue(value)
    ensures AbsorbAll(LineReader(), start, Lines(Line(key, value) + ("\n" + rest)))
            == AbsorbAll(LineReader(), Put(start, key, value), Lines(rest))
  {
    var line := Line(key, value);
    OneLineIs(line);
    LinesBefore("", line, rest);
    LineReadsBack(key, value);
    TrimIs(value);
    assert ([line] + Lines(rest))[1..] == Lines(rest);
  }

  /** An `.env` file of one entry. */
  function OneEntry(key: string, value: string): string {
    Line(key, value) + ("\n" + "")
  }

  lemma OneEntryReads(key: string, value: string)
    requires GoodKey(key) && GoodValue(value)
    ensures Parse(OneEntry(key, value)) == Dict([key], map[key := value])
  {
    EntryFirst(EMPTY, key, value, "");
    EmptyLineMeansNothing(Put(EMPTY, key, value));
    assert [] + [key] == [key];
  }

  /** An `.env` file of two entries with the same value. */
  function TwoEntries(a: string, b: string, value: string): string {
    Line(a, value) + ("\n" + OneEntry(b, value))
  }

  lemma TwoEntriesRead(a: string, b: string, value: string)
    requires GoodKey(a) && GoodKey(b) && GoodValue(value) && a != b
    ensures Parse(TwoEntries(a, b, value)).order == [a, b]
  {
    var one := Put(EMPTY, a, value);
    EntryFirst(EMPTY, a, value, OneEntry(b, value));
    EntryFirst(one, b, value, "");
    EmptyLineMeansNothing(Put(one, b, value));
    assert [] + [a] == [a] && [a] + [b] == [a, b];
  }

  /** What the second run reads, and what it makes of it. */
  lemma SecondRun(
      example: string, env: Option<string>, generated: Pairs, again: Pairs, updates: Pairs, known: seq<string>, d: Dict)
    requires known == Parse(example).order && d == SetupValues(example, env, generated, updates)
    ensures
      var read := Blocks(EMPTY, WriteOrder(known, d), d);
      && Setup(example, env, generated, updates) == Write(known, d)
      && SetupValues(example, Some(Write(known, d)), again, updates) == Update(Fill(false, read, again), updates)
  {
    ParsedBlocks(known, d);
  }

  /** The assumptions of both runs. */
  ghost predicate Runs(generated: Pairs, again: Pairs, updates: Pairs) {
    GoodSecrets(generated) && GoodSecrets(again) && KeysOf(generated) == KeysOf(again) && GoodNames(updates)
  }

  /** If both runs write the same, they have the same keys, order and values. */
  lemma AgainMeans(
      example: string, env: Option<string>, generated: Pairs, again: Pairs, updates: Pairs,
      known: seq<string>, d: Dict, e: Dict, s: string)
    requires Runs(generated, again, updates) && LastValue(updates, s).Some?
    requires known == Parse(example).order && d == SetupValues(example, env, generated, updates)
    requires e == Update(Fill(false, Blocks(EMPTY, WriteOrder(known, d), d), again), updates)
    requires SameAgain(example, env, generated, again, updates)
    ensures Distinct(known) && SetupOf(d, generated, updates) && SetupOf(e, again, updates)
    ensures Listed(WriteOrder(known, d), d) == Listed(WriteOrder(known, e), e)
    ensures forall k :: k in d.entries <==> k in e.entries
    ensures forall k :: k in d.entries && k in e.entries ==> d.entries[k] == e.entries[k]
  {
    SecondRun(example, env, generated, again, updates, known, d);
    SetupIs(example, env, generated, updates);
    SetupIs(example, Some(Write(known, d)), again, updates);
    ParsedIsOrderly(example);
    SameWrite(known, d, generated, e, again, updates, s);
  }

  /** A stray key that is neither a setting nor a secret is a new key in the second run. */
  lemma NewKeyFails(example: string, generated: Pairs, again: Pairs, updates: Pairs, s: string, k: string)
    requires Runs(generated, again, updates) && StrayAt(updates, s, k)
    requires LastValue(updates, k).None? && k !in KeysOf(generated)
    ensures !SameAgain(example, Some(""), generated, again, updates)
  {
    var known := Parse(example).order;
    var d := SetupValues(example, Some(""), generated, updates);
    var order := WriteOrder(known, d);
    var read := Blocks(EMPTY, order, d);
    var e := Update(Fill(false, read, again), updates);
    SetupIs(example, Some(""), generated, updates);
    ParsedIsOrderly(example);
    WrittenOrder(known, d);
    EmptyLineMeansNothing(EMPTY);
    FillAt(false, EMPTY, generated, k);
    UpdateAt(Fill(false, EMPTY, generated), updates, k);
    assert k !in d.entries;
    SettingStrays(d, generated, updates, order, s, k);
    BlocksAt(EMPTY, order, d, k);
    FillAt(false, read, again, k);
    UpdateAt(Fill(false, read, again), updates, k);
    assert k in e.entries;
    if SameAgain(example, Some(""), generated, again, updates) {
      AgainMeans(example, Some(""), generated, again, updates, known, d, e, s);
    }
  }

  /** A secret that a later setting strays to is read back with the stray value. */
  lemma LateStrayFails(example: string, generated: Pairs, again: Pairs, updates: Pairs, s: string, k: string)
    returns (env: string)
    requires Runs(generated, again, updates) && StrayAt(updates, s, k)
    requires LastValue(updates, k).None? && k in KeysOf(generated)
    requires k in Parse(example).order && !ComesBefore(Parse(example).order, s, k)
    ensures !SameAgain(example, Some(env), generated, again, updates)
  {
    var z := Fresh(AllValues(updates) + (set i | 0 <= i < |again| :: again[i].1));
    var known := Parse(example).order;
    StrayIsGood(updates, s, k);
    env := OneEntry(k, z);
    OneEntryReads(k, z);
    var d := SetupValues(example, Some(env), generated, updates);
    var order := WriteOrder(known, d);
    var read := Blocks(EMPTY, order, d);
    var e := Update(Fill(false, read, again), updates);
    SetupIs(example, Some(env), generated, updates);
    FillAt(false, Dict([k], map[k := z]), generated, k);
    UpdateAt(Fill(false, Dict([k], map[k := z]), generated), updates, k);
    assert d.entries[k] == z;
    ParsedIsOrderly(example);
    LateStrayRead(known, d, generated, updates, s, k, z);
    FillGives(false, read, again, k, z);
    UpdateAt(Fill(false, read, again), updates, k);
    assert e.entries[k] != z;
    if SameAgain(example, Some(env), generated, again, updates) {
      AgainMeans(example, Some(env), generated, again, updates, known, d, e, s);
    }
  }

  lemma EntriesAvoid(d: Dict, generated: Pairs, updates: Pairs, k: string, z: string)
    requires SetupOf(d, generated, updates) && z !in AllValues(updates)
    ensures forall t :: t in d.entries ==> NeverGives(Continuation(d.entries[t]), k, z)
  {
    forall t | t in d.entries ensures NeverGives(Continuation(d.entries[t]), k, z) {
      if LastValue(updates, t).Some? { SettingAvoids(updates, t, k, z); } else { OneLineIs(d.entries[t]); }
    }
  }

  lemma LateStrayRead(known: seq<string>, d: Dict, generated: Pairs, updates: Pairs, s: string, k: string, z: string)
    requires SetupOf(d, generated, updates) && Distinct(known) && StrayAt(updates, s, k) && k in d.entries
    requires k in known && !ComesBefore(known, s, k) && z !in AllValues(updates)
    ensures
      var read := Blocks(EMPTY, WriteOrder(known, d), d);
      k in read.entries && read.entries[k] != z
  {
    var head, after := StrayBehind(known, d, generated, updates, s, k);
    EntriesAvoid(d, generated, updates, k, z);
    LateRead(d, head, after, k, z);
  }

  /** The part of the file after k's own entry, where k is assigned once more. */
  lemma StrayBehind(known: seq<string>, d: Dict, generated: Pairs, updates: Pairs, s: string, k: string)
    returns (head: seq<string>, after: seq<string>)
    requires SetupOf(d, generated, updates) && Distinct(known) && StrayAt(updates, s, k) && k in d.entries
    requires k in known && !ComesBefore(known, s, k)
    ensures WriteOrder(known, d) == head + after && k !in after && StraysIn(d, after, k)
  {
    var order := WriteOrder(known, d);
    WrittenOrder(known, d);
    var before, rest := SplitAt(order, k);
    assert s in d.entries;
    StrayIsAfter(known, order, before, k, rest, s);
    SettingStrays(d, generated, updates, rest, s, k);
    head, after := before + [k], rest;
    assert before + ([k] + rest) == (before + [k]) + rest;
  }

  lemma LateRead(d: Dict, before: seq<string>, after: seq<string>, k: string, z: string)
    requires GoodKeys(d) && StraysIn(d, after, k) && k !in after
    requires forall t :: t in d.entries ==> NeverGives(Continuation(d.entries[t]), k, z)
    ensures
      var read := Blocks(EMPTY, before + after, d);
      k in read.entries && read.entries[k] != z
  {
    BlocksConcat(EMPTY, before, after, d);
    BlocksAvoid(Blocks(EMPTY, before, d), after, d, k, z);
  }

  /** What is written and not listed before k in the example, where k is listed, comes after k. */
  lemma StrayIsAfter(
      known: seq<string>, order: seq<string>, before: seq<string>, k: string, after: seq<string>, s: string)
    requires known <= order == before + ([k] + after) && Distinct(order) && k in known && s in order && s != k
    requires !ComesBefore(known, s, k)
    ensures s in after
  {
    var j :| 0 <= j < |known| && known[j] == k;
    assert order[j] == k && order[|before|] == k && j == |before|;
    forall i | 0 <= i < |before| ensures before[i] != s {
      assert order[i] == before[i] && known[i] == before[i];
      assert before[i] == s ==> ComesBefore(known, s, k);
    }
    var l :| 0 <= l < |order| && order[l] == s;
  }

  /** A list that has k before f, or begins otherwise. */
  lemma PrefixHolds(a: seq<string>, f: string, r: seq<string>, b: seq<string>, c: seq<string>, k: string)
    requires a + ([f] + r) == b + c && f !in b && k in b
    ensures k in a
  {
    var whole := a + ([f] + r);
    assert whole[|a|] == f;
    assert forall j :: 0 <= j < |b| ==> whole[j] == b[j] && b[j] in b;
    var i :| 0 <= i < |b| && b[i] == k;
    assert whole[i] == k && a[i] == k;
  }

  /** A file whose first two keys are s and f: f is written after the keys of the example and s. */
  lemma FirstWritten(known: seq<string>, d: Dict, s: string, f: string, own: seq<string>) returns (rest: seq<string>)
    requires Orderly(d) && [s, f] <= d.order && f !in known && own == if s in known then [] else [s]
    ensures WriteOrder(known, d) == (known + own) + ([f] + rest)
    ensures Listed(WriteOrder(known, d), d) == (Listed(known, d) + own) + ([f] + Listed(rest, d))
  {
    var tail := d.order[2..];
    assert d.order == [s, f] + tail && s in d.order && f in d.order;
    rest := Extras(tail, known);
    ExtrasConcat([s, f], tail, known);
    TwoExtras(known, s, f, own);
    assert known + ((own + [f]) + rest) == (known + own) + ([f] + rest);
    ListedAll(own, d);
    FirstListed(known, own, f, rest, d);
  }

  lemma TwoExtras(known: seq<string>, s: string, f: string, own: seq<string>)
    requires f !in known && own == if s in known then [] else [s]
    ensures Extras([s, f], known) == own + [f]
  {
    assert [s, f][1..] == [f] && [f][1..] == [];
    assert Extras([f], known) == [f] + [] == [f];
    assert [] + [f] == [f];
  }

  lemma FirstListed(known: seq<string>, own: seq<string>, f: string, rest: seq<string>, d: Dict)
    requires f in d.entries && Listed(own, d) == own
    ensures Listed((known + own) + ([f] + rest), d) == (Listed(known, d) + own) + ([f] + Listed(rest, d))
  {
    ListedConcat(known + own, [f] + rest, d);
    ListedConcat(known, own, d);
    assert ([f] + rest)[1..] == rest;
  }

  lemma {:induction false} BlocksOrderly(start: Dict, keys: seq<string>, d: Dict)
    requires Orderly(start)
    ensures Orderly(Blocks(start, keys, d))
    decreases |keys|
  {
    if keys != [] {
      if keys[0] in d.entries { AbsorbedIsOrderly(LineReader(), start, Lines(Line(keys[0], d.entries[keys[0]]))); }
      BlocksOrderly(if keys[0] in d.entries then Block(start, keys[0], d.entries[keys[0]]) else start, keys[1..], d);
    }
  }

  /** The order that reading the first entries gives is the beginning of the second run's order. */
  lemma ReadGrows(
      known: seq<string>, d: Dict, again: Pairs, updates: Pairs, e: Dict, own: seq<string>, rest: seq<string>)
    requires WriteOrder(known, d) == (known + own) + rest
    requires e == Update(Fill(false, Blocks(EMPTY, WriteOrder(known, d), d), again), updates)
    ensures Blocks(EMPTY, known + own, d).order <= e.order
  {
    var read := Blocks(EMPTY, WriteOrder(known, d), d);
    BlocksConcat(EMPTY, known + own, rest, d);
    BlocksGrow(Blocks(EMPTY, known + own, d), rest, d);
    FillGrows(false, read, again);
    UpdateGrows(Fill(false, read, again), updates);
  }

  /** Once the entry of s has been read, k has been, and f has not. */
  lemma StrayIsRead(d: Dict, generated: Pairs, updates: Pairs, keys: seq<string>, s: string, k: string, f: string)
    requires SetupOf(d, generated, updates) && StrayAt(updates, s, k) && s in keys
    requires f !in keys && f !in AllKeys(updates)
    ensures k in Blocks(EMPTY, keys, d).order && f !in Blocks(EMPTY, keys, d).order
    ensures Distinct(Blocks(EMPTY, keys, d).order)
  {
    SettingStrays(d, generated, updates, keys, s, k);
    BlocksAt(EMPTY, keys, d, k);
    BlocksAt(EMPTY, keys, d, f);
    BlocksOrderly(EMPTY, keys, d);
    if StraysIn(d, keys, f) {
      var t := StrayIsSetting(d, generated, updates, keys, f);
      StrayIsAssigned(updates, t, f);
    }
  }

  /** The second run writes k right after the keys of the example, before f. */
  lemma StrayFirst(
      known: seq<string>, d: Dict, generated: Pairs, updates: Pairs, e: Dict, s: string, k: string, f: string,
      own: seq<string>)
    returns (more: seq<string>, end: seq<string>)
    requires SetupOf(d, generated, updates) && Orderly(e) && StrayAt(updates, s, k) && k !in known
    requires own == (if s in known then [] else [s]) && f !in known && f != s && f !in AllKeys(updates)
    requires Blocks(EMPTY, known + own, d).order <= e.order
    ensures Listed(WriteOrder(known, e), e) == (Listed(known, e) + more) + end
    ensures k in more && f !in more
  {
    var m := Blocks(EMPTY, known + own, d).order;
    StrayIsRead(d, generated, updates, known + own, s, k, f);
    ExtrasMembers(m, known);
    more, end := OrderFrom(known, m, e);
  }

  /** What is written of an order that begins with m. */
  lemma OrderFrom(known: seq<string>, m: seq<string>, e: Dict) returns (more: seq<string>, end: seq<string>)
    requires m <= e.order && Orderly(e) && Distinct(m)
    ensures more == Extras(m, known) && Listed(WriteOrder(known, e), e) == (Listed(known, e) + more) + end
  {
    var tail := e.order[|m|..];
    assert e.order == m + tail;
    ExtrasMembers(m, known);
    assert forall x :: x in m ==> x in e.order;
    more := Extras(m, known);
    ListedAll(more, e);
    end := Listed(Extras(tail, known), e);
    OrderSplits(known, m, tail, e);
  }

  lemma OrderSplits(known: seq<string>, m: seq<string>, tail: seq<string>, e: Dict)
    requires e.order == m + tail
    ensures Listed(WriteOrder(known, e), e)
            == (Listed(known, e) + Listed(Extras(m, known), e)) + Listed(Extras(tail, known), e)
  {
    var a, b := Extras(m, known), Extras(tail, known);
    ExtrasConcat(m, tail, known);
    assert known + (a + b) == (known + a) + b;
    ListedConcat(known + a, b, e);
    ListedConcat(known, a, e);
  }

  lemma OrderMoves(
      known: seq<string>, d: Dict, generated: Pairs, again: Pairs, updates: Pairs, e: Dict, s: string, k: string,
      f: string)
    requires SetupOf(d, generated, updates) && Orderly(e) && StrayAt(updates, s, k) && k !in known && k != s
    requires [s, f] <= d.order && f !in known && f != s && f !in AllKeys(updates)
    requires e == Update(Fill(false, Blocks(EMPTY, WriteOrder(known, d), d), again), updates)
    ensures Listed(WriteOrder(known, d), d) != Listed(WriteOrder(known, e), e)
  {
    var own := if s in known then [] else [s];
    var rest := FirstWritten(known, d, s, f, own);
    ReadGrows(known, d, again, updates, e, own, [f] + rest);
    var more, end := StrayFirst(known, d, generated, updates, e, s, k, f, own);
    ListedIn(known, e);
    ListedIn(known, d);
    if Listed(WriteOrder(known, d), d) == Listed(WriteOrder(known, e), e) {
      PrefixHolds(Listed(known, d) + own, f, Listed(rest, d), Listed(known, e) + more, end, k);
    }
  }

  /** A stray key that the example does not list moves before a key that was written before it. */
  lemma UnlistedKeyFails(example: string, generated: Pairs, again: Pairs, updates: Pairs, s: string, k: string)
    returns (env: string)
    requires Runs(generated, again, updates) && StrayAt(updates, s, k) && GoodKey(s)
    requires k !in Parse(example).order
    ensures !SameAgain(example, Some(env), generated, again, updates)
  {
    var known := Parse(example).order;
    var f := Fresh((set i | 0 <= i < |known| :: known[i]) + AllKeys(updates) + {s});
    env := TwoEntries(s, f, f);
    TwoEntriesRead(s, f, f);
    FreshKeyMoves(example, env, generated, again, updates, s, k, f);
  }

  lemma FreshKeyMoves(
      example: string, env: string, generated: Pairs, again: Pairs, updates: Pairs, s: string, k: string, f: string)
    requires Runs(generated, again, updates) && StrayAt(updates, s, k) && k !in Parse(example).order
    requires Parse(env).order == [s, f] && f !in Parse(example).order && f != s && f !in AllKeys(updates)
    ensures !SameAgain(example, Some(env), generated, again, updates)
  {
    var known := Parse(example).order;
    var d := SetupValues(example, Some(env), generated, updates);
    var e := Update(Fill(false, Blocks(EMPTY, WriteOrder(known, d), d), again), updates);
    FillGrows(false, Parse(env), generated);
    UpdateGrows(Fill(false, Parse(env), generated), updates);
    if SameAgain(example, Some(env), generated, again, updates) {
      AgainMeans(example, Some(env), generated, again, updates, known, d, e, s);
      OrderMoves(known, d, generated, again, updates, e, s, k, f);
    }
  }

  // ----- exactly when setup is idempotent -----

  lemma UnsettledFails(example: string, generated: Pairs, again: Pairs, updates: Pairs)
    requires Runs(generated, again, updates) && !Settled(Parse(example).order, KeysOf(generated), updates)
    ensures exists env :: !SameAgain(example, env, generated, again, updates)
  {
    var known := Parse(example).order;
    var s, k :| StrayAt(updates, s, k)
      && !(k in known && (LastValue(updates, k).Some? || (k in KeysOf(generated) && ComesBefore(known, s, k))));
    if k !in known {
      SettingIsGood(updates, s);
      var env := UnlistedKeyFails(example, generated, again, updates, s, k);
    } else if k !in KeysOf(generated) {
      NewKeyFails(example, generated, again, updates, s, k);
    } else {
      var env := LateStrayFails(example, generated, again, updates, s, k);
    }
  }

  lemma {:induction false} SettingIsGood(updates: Pairs, s: string)
    requires GoodNames(updates) && LastValue(updates, s).Some?
    ensures GoodKey(s)
    decreases |updates|
  {
    if LastValue(updates[1..], s).Some? {
      assert forall i :: 0 <= i < |updates[1..]| ==> updates[1..][i] == updates[i + 1];
      SettingIsGood(updates[1..], s);
    } else {
      assert GoodKey(updates[0].0);
    }
  }

  /** Exactly when setup is idempotent for an example file: whatever the `.env` file holds, running
      it again with the same settings writes the same file, byte for byte, although it draws new
      secrets, if and only if every key that a further line of a setting assigns is listed in the
      example and has its value put in after that line. */
  lemma SetupIsIdempotentIff(example: string, generated: Pairs, again: Pairs, updates: Pairs)
    requires Runs(generated, again, updates)
    ensures (forall env :: SameAgain(example, env, generated, again, updates))
            <==> Settled(Parse(example).order, KeysOf(generated), updates)
  {
    if Settled(Parse(example).order, KeysOf(generated), updates) {
      forall env ensures SameAgain(example, env, generated, again, updates) {
        SettledIsIdempotent(example, env, generated, again, updates);
      }
    } else {
      UnsettledFails(example, generated, again, updates);
    }
  }

  /** No further line of a setting assigns another key. */
  ghost predicate HarmlessSettings(updates: Pairs) {
    forall s, k :: !StrayAt(updates, s, k)
  }

  /** Over all example files as well: exactly the settings without a stray line. */
  lemma EveryExampleIff(generated: Pairs, again: Pairs, updates: Pairs)
    requires Runs(generated, again, updates)
    ensures (forall example, env :: SameAgain(example, env, generated, again, updates)) <==> HarmlessSettings(updates)
  {
    if HarmlessSettings(updates) {
      forall example, env ensures SameAgain(example, env, generated, again, updates) {
        SettledIsIdempotent(example, env, generated, again, updates);
      }
    } else {
      EmptyLineMeansNothing(EMPTY);
      assert Parse("").order == [];
      SetupIsIdempotentIff("", generated, again, updates);
    }
  }

  // ----- one given file -----

  /** What a first run writes, as it will be read back. */
  function ReadBack(known: seq<string>, d: Dict): Dict {
    Blocks(EMPTY, WriteOrder(known, d), d)
  }

  /** Every stray key is a key of the file already and keeps its final value, and reading the file
      keeps the order of the keys that the example does not list. */
  ghost predicate StraysKept(known: seq<string>, d: Dict, again: Pairs, updates: Pairs) {
    var refilled := Fill(false, ReadBack(known, d), again);
    && (forall s, k :: StrayAt(updates, s, k) ==>
          && k in d.entries
          && (LastValue(updates, k).Some? || (k in refilled.entries && refilled.entries[k] == d.entries[k])))
    && Extras(ReadBack(known, d).order, known) == Extras(d.order, known)
  }

  lemma ReadKeys(known: seq<string>, d: Dict, generated: Pairs, updates: Pairs, k: string)
    requires SetupOf(d, generated, updates) && Distinct(known)
    ensures k in ReadBack(known, d).entries <==> k in d.entries || exists s :: StrayAt(updates, s, k)
  {
    var order := WriteOrder(known, d);
    WrittenOrder(known, d);
    BlocksAt(EMPTY, order, d, k);
    if StraysIn(d, order, k) {
      var s := StrayIsSetting(d, generated, updates, order, k);
    }
    if s :| StrayAt(updates, s, k) {
      SettingStrays(d, generated, updates, order, s, k);
    }
  }

  /** A value that no setting strays to is read back. */
  lemma UnstrayedValue(known: seq<string>, d: Dict, generated: Pairs, updates: Pairs, k: string)
    requires SetupOf(d, generated, updates) && Distinct(known) && k in d.entries && LastValue(updates, k).None?
    requires forall s :: !StrayAt(updates, s, k)
    ensures k in ReadBack(known, d).entries && ReadBack(known, d).entries[k] == d.entries[k]
  {
    var order := WriteOrder(known, d);
    WrittenOrder(known, d);
    var before, after := SplitAt(order, k);
    if StraysIn(d, after, k) {
      var s := StrayIsSetting(d, generated, updates, after, k);
    }
    TrimIs(d.entries[k]);
    BlocksKeep(before, k, after, d);
  }

  /** With no new key, the second run keeps the order it has read. */
  lemma SameKeysOrder(read: Dict, d: Dict, generated: Pairs, again: Pairs, updates: Pairs)
    requires SetupOf(d, generated, updates) && read.entries.Keys == d.entries.Keys
    requires KeysOf(again) == KeysOf(generated) && GoodSecrets(again)
    ensures Update(Fill(false, read, again), updates).order == read.order
  {
    FillOrder(false, read, again);
    forall k | k in KeysOf(updates) ensures k in Fill(false, read, again).entries {
      LastValueIff(updates, k);
      FillAt(false, read, again, k);
    }
    UpdateOrder(Fill(false, read, again), updates);
  }

  lemma KeptKeys(known: seq<string>, d: Dict, generated: Pairs, updates: Pairs)
    requires SetupOf(d, generated, updates) && Distinct(known)
    requires forall s, k :: StrayAt(updates, s, k) ==> k in d.entries
    ensures ReadBack(known, d).entries.Keys == d.entries.Keys
  {
    forall k ensures k in ReadBack(known, d).entries <==> k in d.entries {
      ReadKeys(known, d, generated, updates, k);
    }
  }

  lemma KeptEntries(known: seq<string>, d: Dict, generated: Pairs, again: Pairs, updates: Pairs)
    requires SetupOf(d, generated, updates) && Distinct(known) && StraysKept(known, d, again, updates)
    requires KeysOf(again) == KeysOf(generated) && GoodSecrets(again)
    ensures Update(Fill(false, ReadBack(known, d), again), updates).entries == d.entries
  {
    var read := ReadBack(known, d);
    var refilled := Fill(false, read, again);
    var e := Update(refilled, updates);
    KeptKeys(known, d, generated, updates);
    forall k ensures k in e.entries <==> k in d.entries
             ensures k in d.entries && k in e.entries ==> e.entries[k] == d.entries[k]
    {
      UpdateAt(refilled, updates, k);
      FillAt(false, read, again, k);
      if k in d.entries && LastValue(updates, k).None? && forall s :: !StrayAt(updates, s, k) {
        UnstrayedValue(known, d, generated, updates, k);
      }
    }
  }

  /** Two files with the same keys listed in the same order have the same order beyond the example. */
  lemma SameExtras(known: seq<string>, d: Dict, e: Dict)
    requires Orderly(d) && Orderly(e) && Distinct(known)
    requires (forall k :: k in d.entries <==> k in e.entries)
    requires Listed(WriteOrder(known, d), d) == Listed(WriteOrder(known, e), e)
    ensures Extras(d.order, known) == Extras(e.order, known)
  {
    ListedParts(known, d);
    ListedParts(known, e);
    ListedSame(known, d, e);
    var a, b, c := Listed(known, d), Extras(d.order, known), Extras(e.order, known);
    assert (a + b)[|a|..] == b && (a + c)[|a|..] == c;
  }

  lemma ListedParts(known: seq<string>, d: Dict)
    requires Orderly(d)
    ensures Listed(WriteOrder(known, d), d) == Listed(known, d) + Extras(d.order, known)
  {
    ExtrasMembers(d.order, known);
    ListedConcat(known, Extras(d.order, known), d);
    ListedAll(Extras(d.order, known), d);
  }

  lemma {:induction false} ListedSame(keys: seq<string>, d: Dict, e: Dict)
    requires forall k :: k in d.entries <==> k in e.entries
    ensures Listed(keys, d) == Listed(keys, e)
    decreases |keys|
  {
    if keys != [] { ListedSame(keys[1..], d, e); }
  }

  lemma AgainKeepsStrays(
      example: string, env: Option<string>, generated: Pairs, again: Pairs, updates: Pairs, known: seq<string>,
      d: Dict, e: Dict, s: string)
    requires Runs(generated, again, updates) && LastValue(updates, s).Some?
    requires known == Parse(example).order && d == SetupValues(example, env, generated, updates)
    requires e == Update(Fill(false, ReadBack(known, d), again), updates)
    requires SameAgain(example, env, generated, again, updates)
    ensures StraysKept(known, d, again, updates)
  {
    var read := ReadBack(known, d);
    AgainMeans(example, env, generated, again, updates, known, d, e, s);
    forall t, k | StrayAt(updates, t, k)
      ensures k in d.entries
      ensures LastValue(updates, k).None? ==>
                k in Fill(false, read, again).entries && Fill(false, read, again).entries[k] == d.entries[k]
    {
      ReadKeys(known, d, generated, updates, k);
      FillAt(false, read, again, k);
      UpdateAt(Fill(false, read, again), updates, k);
    }
    KeptKeys(known, d, generated, updates);
    SameKeysOrder(read, d, generated, again, updates);
    SameExtras(known, d, e);
  }

  /** Exactly when setup is idempotent for one given `.env` file, or none: every key that a further
      line of a setting assigns is a key of the written file already and keeps its final value, and
      no such key moves. */
  lemma OneFileIff(example: string, env: Option<string>, generated: Pairs, again: Pairs, updates: Pairs)
    requires Runs(generated, again, updates) && updates != []
    ensures SameAgain(example, env, generated, again, updates) <==>
            StraysKept(Parse(example).order, SetupValues(example, env, generated, updates), again, updates)
  {
    var known, d := Parse(example).order, SetupValues(example, env, generated, updates);
    var e := Update(Fill(false, ReadBack(known, d), again), updates);
    SetupIs(example, env, generated, updates);
    ParsedIsOrderly(example);
    LastValueIff(updates, updates[0].0);
    if SameAgain(example, env, generated, again, updates) {
      AgainKeepsStrays(example, env, generated, again, updates, known, d, e, updates[0].0);
    }
    if StraysKept(known, d, again, updates) {
      SecondRun(example, env, generated, again, updates, known, d);
      KeptEntries(known, d, generated, again, updates);
      KeptKeys(known, d, generated, updates);
      SameKeysOrder(ReadBack(known, d), d, generated, again, updates);
      SameText(known, e, d);
    }
  }
}
