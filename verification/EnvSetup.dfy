/** What a setup run makes of its dictionary: secrets filled in, settings put in. */
module EnvSetup {
  import opened Foundations
  import opened EnvFile
  import opened EnvTheorems
  import opened EnvBlocks

  function KeysOf(pairs: seq<(string, string)>): set<string> {
    set i | 0 <= i < |pairs| :: pairs[i].0
  }

  /** Generated values are non-empty trimmed one-liners and no placeholders. */
  predicate Usable(value: string) {
    GoodValue(value) && !Placeholder(value)
  }

  ghost predicate GoodSecrets(generated: seq<(string, string)>) {
    forall i :: 0 <= i < |generated| ==> GoodKey(generated[i].0) && Usable(generated[i].1)
  }

  ghost predicate GoodNames(updates: seq<(string, string)>) {
    forall i :: 0 <= i < |updates| ==> GoodKey(updates[i].0)
  }

  lemma KeysSplit(pairs: seq<(string, string)>)
    requires pairs != []
    ensures KeysOf(pairs) == {pairs[0].0} + KeysOf(pairs[1..])
  {
    forall k | k in KeysOf(pairs) ensures k in {pairs[0].0} + KeysOf(pairs[1..]) {
      var i :| 0 <= i < |pairs| && pairs[i].0 == k;
      if i > 0 { assert pairs[1..][i - 1] == pairs[i]; }
    }
    forall k | k in KeysOf(pairs[1..]) ensures k in KeysOf(pairs) {
      var i :| 0 <= i < |pairs[1..]| && pairs[1..][i].0 == k;
      assert pairs[i + 1].0 == k;
    }
  }

  // ----- filling in secrets -----

  /** One key after the secrets have been filled in. */
  lemma {:induction false} FillAt(first: bool, d: Dict, generated: seq<(string, string)>, k: string)
    requires forall i :: 0 <= i < |generated| ==> !Placeholder(generated[i].1)
    ensures
      var f := Fill(first, d, generated);
      && (k in f.entries <==> k in d.entries || k in KeysOf(generated))
      && (k !in KeysOf(generated) && k in d.entries ==> f.entries[k] == d.entries[k])
      && (k in KeysOf(generated) ==> !Placeholder(f.entries[k]))
      && (!first && k in d.entries && !Placeholder(d.entries[k]) ==> f.entries[k] == d.entries[k])
    decreases |generated|
  {
    if generated != [] {
      KeysSplit(generated);
      FillAt(first, FillOne(first, d, generated[0]), generated[1..], k);
    }
  }

  /** A filled-in value is the one that was there or one that was generated. */
  lemma {:induction false} FillGives(first: bool, d: Dict, generated: seq<(string, string)>, k: string, z: string)
    requires forall i :: 0 <= i < |generated| ==> generated[i].1 != z
    requires k in d.entries && d.entries[k] != z
    ensures k in Fill(first, d, generated).entries && Fill(first, d, generated).entries[k] != z
    decreases |generated|
  {
    if generated != [] {
      FillGives(first, FillOne(first, d, generated[0]), generated[1..], k, z);
    }
  }

  lemma {:induction false} FillGrows(first: bool, d: Dict, generated: seq<(string, string)>)
    ensures d.order <= Fill(first, d, generated).order
    decreases |generated|
  {
    if generated != [] { FillGrows(first, FillOne(first, d, generated[0]), generated[1..]); }
  }

  lemma {:induction false} UpdateGrows(d: Dict, updates: seq<(string, string)>)
    ensures d.order <= Update(d, updates).order
    decreases |updates|
  {
    if updates != [] { UpdateGrows(Put(d, updates[0].0, updates[0].1), updates[1..]); }
  }

  lemma {:induction false} FillOrder(first: bool, d: Dict, generated: seq<(string, string)>)
    requires KeysOf(generated) <= d.entries.Keys
    ensures Fill(first, d, generated).order == d.order
    decreases |generated|
  {
    if generated != [] {
      KeysSplit(generated);
      FillOrder(first, FillOne(first, d, generated[0]), generated[1..]);
    }
  }

  lemma {:induction false} FillIsGood(
      good: (string, string) -> bool, first: bool, d: Dict, generated: seq<(string, string)>)
    requires All(good, d.entries) && Orderly(d)
    requires forall i :: 0 <= i < |generated| ==> good(generated[i].0, generated[i].1)
    ensures All(good, Fill(first, d, generated).entries) && Orderly(Fill(first, d, generated))
    decreases |generated|
  {
    if generated != [] {
      PutOrderly(d, generated[0].0, generated[0].1);
      FillIsGood(good, first, FillOne(first, d, generated[0]), generated[1..]);
    }
  }

  // ----- putting the settings in -----

  function LastValue(updates: seq<(string, string)>, k: string): Option<string> {
    if updates == [] then None
    else if LastValue(updates[1..], k).Some? then LastValue(updates[1..], k)
    else if updates[0].0 == k then Some(updates[0].1) else None
  }

  lemma {:induction false} LastValueIff(updates: seq<(string, string)>, k: string)
    ensures LastValue(updates, k).Some? <==> k in KeysOf(updates)
    decreases |updates|
  {
    if updates != [] {
      KeysSplit(updates);
      LastValueIff(updates[1..], k);
    }
  }

  /** One key after the settings have been put in. */
  lemma {:induction false} UpdateAt(d: Dict, updates: seq<(string, string)>, k: string)
    ensures
      var u := Update(d, updates);
      && (k in u.entries <==> k in d.entries || LastValue(updates, k).Some?)
      && (k in u.entries ==>
            u.entries[k] == if LastValue(updates, k).Some? then LastValue(updates, k).value else d.entries[k])
    decreases |updates|
  {
    if updates != [] { UpdateAt(Put(d, updates[0].0, updates[0].1), updates[1..], k); }
  }

  lemma {:induction false} UpdateOrder(d: Dict, updates: seq<(string, string)>)
    requires KeysOf(updates) <= d.entries.Keys
    ensures Update(d, updates).order == d.order
    decreases |updates|
  {
    if updates != [] {
      KeysSplit(updates);
      UpdateOrder(Put(d, updates[0].0, updates[0].1), updates[1..]);
    }
  }

  lemma {:induction false} UpdateIsGood(good: (string, string) -> bool, d: Dict, updates: seq<(string, string)>)
    requires All(good, d.entries) && Orderly(d)
    requires forall i :: 0 <= i < |updates| ==> good(updates[i].0, updates[i].1)
    ensures All(good, Update(d, updates).entries) && Orderly(Update(d, updates))
    decreases |updates|
  {
    if updates != [] {
      PutOrderly(d, updates[0].0, updates[0].1);
      UpdateIsGood(good, Put(d, updates[0].0, updates[0].1), updates[1..]);
    }
  }

  // ----- the values of a first run -----

  lemma FilledIsGood(text: string, first: bool, generated: seq<(string, string)>)
    requires GoodSecrets(generated)
    ensures All(GoodEntry(), Fill(first, Parse(text), generated).entries)
    ensures Orderly(Fill(first, Parse(text), generated))
  {
    ParsedIsWellFormed(text);
    ParsedIsOrderly(text);
    forall i | 0 <= i < |generated| ensures GoodEntry()(generated[i].0, generated[i].1) {
      assert GoodKey(generated[i].0) && Usable(generated[i].1);
    }
    FillIsGood(GoodEntry(), first, Parse(text), generated);
  }

  function GoodName(): (string, string) -> bool {
    (key: string, value: string) => GoodKey(key)
  }

  /** What a setup run writes: the settings as they are, everything else a trimmed line; every
      secret is there and no placeholder. */
  ghost predicate SetupOf(d: Dict, generated: seq<(string, string)>, updates: seq<(string, string)>) {
    && Orderly(d) && GoodKeys(d)
    && (forall k :: k in d.entries && LastValue(updates, k).Some? ==> d.entries[k] == LastValue(updates, k).value)
    && (forall k :: k in d.entries && LastValue(updates, k).None? ==> GoodValue(d.entries[k]))
    && KeysOf(generated) <= d.entries.Keys
    && (forall k :: LastValue(updates, k).Some? ==> k in d.entries)
    && (forall k :: k in KeysOf(generated) && LastValue(updates, k).None? ==> !Placeholder(d.entries[k]))
  }

  lemma SetupIs(
      example: string, env: Option<string>, generated: seq<(string, string)>, updates: seq<(string, string)>)
    requires GoodSecrets(generated) && GoodNames(updates)
    ensures SetupOf(SetupValues(example, env, generated, updates), generated, updates)
  {
    var source := if env.Some? then env.value else example;
    var filled := Fill(env.None?, Parse(source), generated);
    FilledIsGood(source, env.None?, generated);
    NamedIsOrderly(filled, updates);
    FilledSecrets(env.None?, Parse(source), generated);
    UpdatedIsSetup(filled, generated, updates);
  }

  lemma NamedIsOrderly(filled: Dict, updates: seq<(string, string)>)
    requires All(GoodEntry(), filled.entries) && Orderly(filled) && GoodNames(updates)
    ensures Orderly(Update(filled, updates)) && GoodKeys(Update(filled, updates))
  {
    var d := Update(filled, updates);
    forall k | k in filled.entries ensures GoodName()(k, filled.entries[k]) {
      assert GoodEntry()(k, filled.entries[k]);
    }
    forall i | 0 <= i < |updates| ensures GoodName()(updates[i].0, updates[i].1) { assert GoodKey(updates[i].0); }
    UpdateIsGood(GoodName(), filled, updates);
    forall k | k in d.entries ensures GoodKey(k) { assert GoodName()(k, d.entries[k]); }
  }

  lemma UpdatedIsSetup(filled: Dict, generated: seq<(string, string)>, updates: seq<(string, string)>)
    requires All(GoodEntry(), filled.entries)
    requires Orderly(Update(filled, updates)) && GoodKeys(Update(filled, updates))
    requires KeysOf(generated) <= filled.entries.Keys
    requires forall k :: k in KeysOf(generated) ==> !Placeholder(filled.entries[k])
    ensures SetupOf(Update(filled, updates), generated, updates)
  {
    var d := Update(filled, updates);
    forall k
      ensures k in d.entries && LastValue(updates, k).Some? ==> d.entries[k] == LastValue(updates, k).value
      ensures k in d.entries && LastValue(updates, k).None? ==> GoodValue(d.entries[k])
      ensures k in filled.entries || LastValue(updates, k).Some? ==> k in d.entries
      ensures k in KeysOf(generated) && LastValue(updates, k).None? && k in d.entries ==> !Placeholder(d.entries[k])
    {
      UpdateAt(filled, updates, k);
      if k in filled.entries { assert GoodEntry()(k, filled.entries[k]); }
    }
  }

  lemma FilledSecrets(first: bool, d: Dict, generated: seq<(string, string)>)
    requires GoodSecrets(generated)
    ensures KeysOf(generated) <= Fill(first, d, generated).entries.Keys
    ensures forall k :: k in KeysOf(generated) ==> !Placeholder(Fill(first, d, generated).entries[k])
  {
    forall k | k in KeysOf(generated)
      ensures k in Fill(first, d, generated).entries && !Placeholder(Fill(first, d, generated).entries[k])
    {
      FillAt(first, d, generated, k);
    }
  }

  // ----- the order of a second run -----

  lemma {:induction false} ListedConcat(a: seq<string>, b: seq<string>, d: Dict)
    ensures Listed(a + b, d) == Listed(a, d) + Listed(b, d)
    decreases |a|
  {
    if a == [] {
      assert a + b == b && [] + Listed(b, d) == Listed(b, d);
    } else {
      assert (a + b)[0] == a[0] && (a + b)[1..] == a[1..] + b;
      ListedConcat(a[1..], b, d);
      var head := if a[0] in d.entries then [a[0]] else [];
      assert head + (Listed(a[1..], d) + Listed(b, d)) == head + Listed(a[1..], d) + Listed(b, d);
    }
  }

  lemma {:induction false} ListedAll(keys: seq<string>, d: Dict)
    requires forall k :: k in keys ==> k in d.entries
    ensures Listed(keys, d) == keys
    decreases |keys|
  {
    if keys != [] {
      assert keys == [keys[0]] + keys[1..] && keys[0] in keys;
      ListedAll(keys[1..], d);
    }
  }

  lemma {:induction false} ExtrasConcat(a: seq<string>, b: seq<string>, known: seq<string>)
    ensures Extras(a + b, known) == Extras(a, known) + Extras(b, known)
    decreases |a|
  {
    if a == [] {
      assert a + b == b && [] + Extras(b, known) == Extras(b, known);
    } else {
      assert (a + b)[0] == a[0] && (a + b)[1..] == a[1..] + b;
      ExtrasConcat(a[1..], b, known);
      var head := if a[0] in known then [] else [a[0]];
      assert head + (Extras(a[1..], known) + Extras(b, known)) == head + Extras(a[1..], known) + Extras(b, known);
    }
  }

  lemma {:induction false} ExtrasNone(keys: seq<string>, known: seq<string>)
    requires forall k :: k in keys ==> k in known
    ensures Extras(keys, known) == []
    decreases |keys|
  {
    if keys != [] {
      assert keys == [keys[0]] + keys[1..] && keys[0] in keys;
      ExtrasNone(keys[1..], known);
    }
  }

  lemma {:induction false} ExtrasAll(keys: seq<string>, known: seq<string>)
    requires forall k :: k in keys ==> k !in known
    ensures Extras(keys, known) == keys
    decreases |keys|
  {
    if keys != [] {
      assert keys == [keys[0]] + keys[1..] && keys[0] in keys;
      ExtrasAll(keys[1..], known);
    }
  }

  lemma {:induction false} ListedMembers(keys: seq<string>, d: Dict)
    ensures forall k :: k in Listed(keys, d) ==> k in keys
    decreases |keys|
  {
    if keys != [] {
      assert keys == [keys[0]] + keys[1..];
      ListedMembers(keys[1..], d);
    }
  }

  /** The written order is stable: reading a file and writing it again keeps its order. */
  lemma OrderIsStable(example: seq<string>, d: Dict)
    requires Orderly(d)
    ensures Extras(Listed(WriteOrder(example, d), d), example) == Extras(d.order, example)
  {
    var extras := Extras(d.order, example);
    ExtrasMembers(d.order, example);
    ListedConcat(example, extras, d);
    ListedAll(extras, d);
    ListedMembers(example, d);
    ExtrasConcat(Listed(example, d), extras, example);
    ExtrasNone(Listed(example, d), example);
    ExtrasAll(extras, example);
    assert [] + extras == extras;
  }

  lemma {:induction false} LinesForSame(keys: seq<string>, a: Dict, b: Dict)
    requires a.entries == b.entries
    ensures LinesFor(keys, a) == LinesFor(keys, b)
    decreases |keys|
  {
    if keys != [] { LinesForSame(keys[1..], a, b); }
  }

  lemma SameText(example: seq<string>, a: Dict, b: Dict)
    requires a.entries == b.entries && Extras(a.order, example) == Extras(b.order, example)
    ensures Write(example, a) == Write(example, b)
  {
    LinesForSame(WriteOrder(example, a), a, b);
  }

  /** A secret that is present and no placeholder is never replaced. */
  lemma SecretsAreKept(
      example: string, env: string, generated: seq<(string, string)>, updates: seq<(string, string)>, key: string)
    requires GoodSecrets(generated)
    requires key in Parse(env).entries && !Placeholder(Parse(env).entries[key]) && key !in KeysOf(updates)
    ensures
      var values := SetupValues(example, Some(env), generated, updates);
      key in values.entries && values.entries[key] == Parse(env).entries[key]
  {
    FillAt(false, Parse(env), generated, key);
    UpdateAt(Fill(false, Parse(env), generated), updates, key);
    LastValueIff(updates, key);
  }
}
