/** Reading a written file entry by entry, whatever the values hold: a value that spans lines may
    assign other keys. And what two files have in common that are the same text. */
module EnvBlocks {
  import opened Foundations
  import opened EnvFile
  import opened EnvTheorems

  // ----- what a list of lines assigns -----

  predicate Assigns(line: string, k: string) {
    Assignment(line).Some? && Assignment(line).value.0 == k
  }

  predicate Mentioned(lines: seq<string>, k: string) {
    exists j :: 0 <= j < |lines| && Assigns(lines[j], k)
  }

  /** Written under `key`, this value assigns the other key k on a further line. */
  predicate Strays(key: string, value: string, k: string) {
    k != key && Mentioned(Continuation(value), k)
  }

  predicate Gives(line: string, k: string, z: string) {
    Assigns(line, k) && Assignment(line).value.1 == z
  }

  predicate NeverGives(lines: seq<string>, k: string, z: string) {
    forall j :: 0 <= j < |lines| ==> !Gives(lines[j], k, z)
  }

  lemma MentionedTail(lines: seq<string>, k: string)
    requires lines != []
    ensures Mentioned(lines, k) <==> Assigns(lines[0], k) || Mentioned(lines[1..], k)
  {
    if Mentioned(lines, k) && !Assigns(lines[0], k) {
      var j :| 0 <= j < |lines| && Assigns(lines[j], k);
      assert lines[1..][j - 1] == lines[j];
    }
    if Mentioned(lines[1..], k) {
      var j :| 0 <= j < |lines[1..]| && Assigns(lines[1..][j], k);
      assert lines[j + 1] == lines[1..][j];
    }
  }

  /** One key after some lines have been read. */
  lemma {:induction false} LinesAt(start: Dict, lines: seq<string>, k: string)
    ensures
      var m := AbsorbAll(LineReader(), start, lines);
      && (k in m.entries <==> k in start.entries || Mentioned(lines, k))
      && (k in start.entries && !Mentioned(lines, k) ==> m.entries[k] == start.entries[k])
    decreases |lines|
  {
    if lines != [] {
      MentionedTail(lines, k);
      LinesAt(Absorb(LineReader(), start, lines[0]), lines[1..], k);
    }
  }

  lemma {:induction false} LinesGrow(start: Dict, lines: seq<string>)
    ensures start.order <= AbsorbAll(LineReader(), start, lines).order
    decreases |lines|
  {
    if lines != [] { LinesGrow(Absorb(LineReader(), start, lines[0]), lines[1..]); }
  }

  /** A value other than z stays other than z under lines that never give z. */
  lemma {:induction false} LinesAvoid(start: Dict, lines: seq<string>, k: string, z: string)
    requires NeverGives(lines, k, z)
    requires (k in start.entries && start.entries[k] != z) || Mentioned(lines, k)
    ensures
      var m := AbsorbAll(LineReader(), start, lines);
      k in m.entries && m.entries[k] != z
    decreases |lines|
  {
    if lines != [] {
      MentionedTail(lines, k);
      assert !Gives(lines[0], k, z);
      assert forall j :: 0 <= j < |lines[1..]| ==> lines[1..][j] == lines[j + 1];
      LinesAvoid(Absorb(LineReader(), start, lines[0]), lines[1..], k, z);
    }
  }

  lemma ExtrasAppend(order: seq<string>, key: string, known: seq<string>)
    ensures Extras(order + [key], known) == Extras(order, known) + if key in known then [] else [key]
    decreases |order|
  {
    if order == [] {
      assert [] + [key] == [key] && [key][1..] == [];
      assert [key] + [] == [key];
    } else {
      assert (order + [key])[0] == order[0] && (order + [key])[1..] == order[1..] + [key];
      ExtrasAppend(order[1..], key, known);
      var head, last := if order[0] in known then [] else [order[0]], if key in known then [] else [key];
      assert head + (Extras(order[1..], known) + last) == head + Extras(order[1..], known) + last;
    }
  }

  /** Lines that only assign known keys leave the order of the others. */
  lemma {:induction false} LinesExtras(start: Dict, lines: seq<string>, known: seq<string>)
    requires forall k :: Mentioned(lines, k) ==> k in known || k in start.entries
    ensures Extras(AbsorbAll(LineReader(), start, lines).order, known) == Extras(start.order, known)
    decreases |lines|
  {
    if lines != [] {
      var next := Absorb(LineReader(), start, lines[0]);
      forall k ensures Mentioned(lines, k) <==> Assigns(lines[0], k) || Mentioned(lines[1..], k) {
        MentionedTail(lines, k);
      }
      if Assignment(lines[0]).Some? {
        var key := Assignment(lines[0]).value.0;
        assert Assigns(lines[0], key);
        ExtrasAppend(start.order, key, known);
        assert Extras(start.order, known) + [] == Extras(start.order, known);
      }
      LinesExtras(next, lines[1..], known);
    }
  }

  // ----- one entry -----

  /** The dictionary after one entry has been read. */
  function Block(start: Dict, key: string, value: string): Dict {
    AbsorbAll(LineReader(), start, Lines(Line(key, value)))
  }

  /** The entry's own line, then its further lines. */
  lemma BlockParts(start: Dict, key: string, value: string)
    requires GoodKey(key)
    ensures Block(start, key, value)
            == AbsorbAll(LineReader(), Put(start, key, Trim(Lines(value)[0])), Continuation(value))
  {
    var first := Lines(value)[0];
    BlockIs(key, value);
    LineReadsBack(key, first);
    assert ([Line(key, first)] + Continuation(value))[1..] == Continuation(value);
  }

  /** One key after one entry has been read. */
  lemma BlockAt(start: Dict, key: string, value: string, k: string)
    requires GoodKey(key)
    ensures
      var m := Block(start, key, value);
      && (k in m.entries <==> k in start.entries || k == key || Strays(key, value, k))
      && (k in start.entries && k != key && !Strays(key, value, k) ==> m.entries[k] == start.entries[k])
      && (k == key && OneLine(value) ==> m.entries[k] == Trim(value))
  {
    BlockParts(start, key, value);
    LinesAt(Put(start, key, Trim(Lines(value)[0])), Continuation(value), k);
    if OneLine(value) { OneLineIs(value); }
  }

  lemma BlockGrows(start: Dict, key: string, value: string)
    ensures start.order <= Block(start, key, value).order
  {
    LinesGrow(start, Lines(Line(key, value)));
  }

  lemma BlockAvoids(start: Dict, key: string, value: string, k: string, z: string)
    requires GoodKey(key) && k != key && NeverGives(Continuation(value), k, z)
    requires (k in start.entries && start.entries[k] != z) || Strays(key, value, k)
    ensures var m := Block(start, key, value); k in m.entries && m.entries[k] != z
  {
    BlockParts(start, key, value);
    LinesAvoid(Put(start, key, Trim(Lines(value)[0])), Continuation(value), k, z);
  }

  lemma BlockExtras(start: Dict, key: string, value: string, known: seq<string>)
    requires GoodKey(key) && forall k :: Strays(key, value, k) ==> k in known
    ensures Extras(Block(start, key, value).order, known)
            == Extras(start.order, known) + if key in known || key in start.entries then [] else [key]
  {
    var put := Put(start, key, Trim(Lines(value)[0]));
    BlockParts(start, key, value);
    forall k | Mentioned(Continuation(value), k) ensures k in known || k in put.entries {
      assert k != key ==> Strays(key, value, k);
    }
    LinesExtras(put, Continuation(value), known);
    ExtrasAppend(start.order, key, known);
    assert Extras(start.order, known) + [] == Extras(start.order, known);
  }

  // ----- all entries -----

  /** The dictionary after the entries of these keys have been read, one after the other. */
  function Blocks(start: Dict, keys: seq<string>, d: Dict): Dict
    decreases |keys|
  {
    if keys == [] then start
    else Blocks(if keys[0] in d.entries then Block(start, keys[0], d.entries[keys[0]]) else start, keys[1..], d)
  }

  lemma {:induction false} ReadBlocks(start: Dict, keys: seq<string>, d: Dict)
    ensures AbsorbAll(LineReader(), start, Lines(Text(keys, d))) == Blocks(start, keys, d)
    decreases |keys|
  {
    if keys == [] {
      EmptyLineMeansNothing(start);
    } else {
      var key, rest := keys[0], Text(keys[1..], d);
      if key in d.entries {
        var line := Line(key, d.entries[key]);
        assert Text(keys, d) == line + ("\n" + rest);
        LinesBefore("", line, rest);
        AbsorbConcat(LineReader(), start, Lines(line), Lines(rest));
        ReadBlocks(Block(start, key, d.entries[key]), keys[1..], d);
      } else {
        assert Text(keys, d) == rest;
        ReadBlocks(start, keys[1..], d);
      }
    }
  }

  lemma EmptyLineMeansNothing(start: Dict)
    ensures AbsorbAll(LineReader(), start, Lines("")) == start
  {
    assert Lines("") == [""] && [""][1..] == [];
    assert Trim("") == "" && Assignment("").None?;
  }

  /** A written file, read entry by entry. */
  lemma ParsedBlocks(example: seq<string>, d: Dict)
    ensures Parse(Write(example, d)) == Blocks(EMPTY, WriteOrder(example, d), d)
  {
    var keys := WriteOrder(example, d);
    WriteIsText(example, d);
    ReadBlocks(EMPTY, keys, d);
    if Text(keys, d) == "" {
      EmptyLineMeansNothing(EMPTY);
      assert "" + ("\n" + "") == "\n";
      LinesBefore("", "", "");
      AbsorbConcat(LineReader(), EMPTY, Lines(""), Lines(""));
    }
  }

  lemma {:induction false} BlocksConcat(start: Dict, a: seq<string>, b: seq<string>, d: Dict)
    ensures Blocks(start, a + b, d) == Blocks(Blocks(start, a, d), b, d)
    decreases |a|
  {
    if a == [] {
      assert a + b == b;
    } else {
      assert (a + b)[0] == a[0] && (a + b)[1..] == a[1..] + b;
      BlocksConcat(if a[0] in d.entries then Block(start, a[0], d.entries[a[0]]) else start, a[1..], b, d);
    }
  }

  lemma {:induction false} BlocksGrow(start: Dict, keys: seq<string>, d: Dict)
    ensures start.order <= Blocks(start, keys, d).order
    decreases |keys|
  {
    if keys != [] {
      if keys[0] in d.entries { BlockGrows(start, keys[0], d.entries[keys[0]]); }
      BlocksGrow(if keys[0] in d.entries then Block(start, keys[0], d.entries[keys[0]]) else start, keys[1..], d);
    }
  }

  ghost predicate GoodKeys(d: Dict) {
    forall k :: k in d.entries ==> GoodKey(k)
  }

  ghost predicate StraysIn(d: Dict, keys: seq<string>, k: string) {
    exists s :: s in keys && s in d.entries && Strays(s, d.entries[s], k)
  }

  lemma StraysTail(d: Dict, keys: seq<string>, k: string)
    requires keys != []
    ensures StraysIn(d, keys, k)
            <==> (keys[0] in d.entries && Strays(keys[0], d.entries[keys[0]], k)) || StraysIn(d, keys[1..], k)
  {
    assert keys == [keys[0]] + keys[1..];
  }

  /** Which keys have been read, and which values the entries have left alone. */
  lemma {:induction false} BlocksAt(start: Dict, keys: seq<string>, d: Dict, k: string)
    requires GoodKeys(d)
    ensures
      var m := Blocks(start, keys, d);
      && (k in m.entries <==> k in start.entries || (k in keys && k in d.entries) || StraysIn(d, keys, k))
      && (k in start.entries && k !in keys && !StraysIn(d, keys, k) ==> m.entries[k] == start.entries[k])
    decreases |keys|
  {
    if keys != [] {
      var key := keys[0];
      assert keys == [key] + keys[1..];
      StraysTail(d, keys, k);
      if key in d.entries { BlockAt(start, key, d.entries[key], k); }
      BlocksAt(if key in d.entries then Block(start, key, d.entries[key]) else start, keys[1..], d, k);
    }
  }

  /** A value of one line is read back, trimmed, if no later entry assigns its key. */
  lemma BlocksKeep(before: seq<string>, key: string, after: seq<string>, d: Dict)
    requires GoodKeys(d) && key in d.entries && OneLine(d.entries[key])
    requires key !in after && !StraysIn(d, after, key)
    ensures
      var m := Blocks(EMPTY, before + ([key] + after), d);
      key in m.entries && m.entries[key] == Trim(d.entries[key])
  {
    var start := Blocks(EMPTY, before, d);
    BlocksConcat(EMPTY, before, [key] + after, d);
    assert ([key] + after)[1..] == after;
    BlockAt(start, key, d.entries[key], key);
    BlocksAt(Block(start, key, d.entries[key]), after, d, key);
  }

  /** Once an entry has assigned another value than z to the key k, later entries that never give
      z keep it so. */
  lemma {:induction false} BlocksAvoid(start: Dict, keys: seq<string>, d: Dict, k: string, z: string)
    requires GoodKeys(d) && k !in keys
    requires forall s :: s in d.entries ==> NeverGives(Continuation(d.entries[s]), k, z)
    requires (k in start.entries && start.entries[k] != z) || StraysIn(d, keys, k)
    ensures var m := Blocks(start, keys, d); k in m.entries && m.entries[k] != z
    decreases |keys|
  {
    if keys != [] {
      var key := keys[0];
      StraysTail(d, keys, k);
      assert k !in keys[1..] by { assert keys == [key] + keys[1..]; }
      if key in d.entries {
        if (k in start.entries && start.entries[k] != z) || Strays(key, d.entries[key], k) {
          BlockAvoids(start, key, d.entries[key], k, z);
        }
        BlocksAvoid(Block(start, key, d.entries[key]), keys[1..], d, k, z);
      } else {
        BlocksAvoid(start, keys[1..], d, k, z);
      }
    }
  }

  /** The order of the keys that are not known is the order they are written in, if the further
      lines of the entries assign known keys only. */
  lemma {:induction false} BlocksExtras(start: Dict, keys: seq<string>, d: Dict, known: seq<string>)
    requires GoodKeys(d) && Distinct(keys)
    requires forall k :: StraysIn(d, keys, k) ==> k in known
    requires forall i :: 0 <= i < |keys| && keys[i] !in known ==> keys[i] !in start.entries
    ensures Extras(Blocks(start, keys, d).order, known)
            == Extras(start.order, known) + Extras(Listed(keys, d), known)
    decreases |keys|
  {
    if keys == [] {
      assert Extras(start.order, known) + [] == Extras(start.order, known);
    } else {
      var key, rest := keys[0], keys[1..];
      var next := if key in d.entries then Block(start, key, d.entries[key]) else start;
      forall k ensures StraysIn(d, keys, k)
        <==> (key in d.entries && Strays(key, d.entries[key], k)) || StraysIn(d, rest, k)
      {
        StraysTail(d, keys, k);
      }
      forall i | 0 <= i < |rest| && rest[i] !in known ensures rest[i] !in next.entries {
        assert rest[i] == keys[i + 1] && rest[i] != key;
        if key in d.entries { BlockAt(start, key, d.entries[key], rest[i]); }
      }
      BlocksExtras(next, rest, d, known);
      var tail := Listed(rest, d);
      if key in d.entries {
        BlockExtras(start, key, d.entries[key], known);
        assert ([key] + tail)[1..] == tail;
        var own := if key in known then [] else [key];
        assert Extras(start.order, known) + own + Extras(tail, known)
               == Extras(start.order, known) + (own + Extras(tail, known));
      } else {
        assert [] + tail == tail;
      }
    }
  }

  // ----- the same text -----

  lemma {:induction false} FirstBreakIs(a: string, b: string, x: string, y: string)
    requires OneLine(a) && OneLine(b) && a + ("\n" + x) == b + ("\n" + y)
    ensures a == b && x == y
    decreases |a|
  {
    var s, t := a + ("\n" + x), b + ("\n" + y);
    assert s[0] == t[0];
    if a == "" {
      assert IsBreak(s[0]);
      assert s[1..] == x && t[1..] == y;
    } else {
      assert s[0] == a[0] && !IsBreak(s[0]);
      assert s[1..] == a[1..] + ("\n" + x) && t[1..] == b[1..] + ("\n" + y);
      FirstBreakIs(a[1..], b[1..], x, y);
      assert a == [a[0]] + a[1..] && b == [b[0]] + b[1..];
    }
  }

  /** Two texts that begin with an entry each: the same key. */
  lemma SameFirstKey(a: string, v: string, x: string, b: string, w: string, y: string)
    requires NoEquals(a) && NoEquals(b)
    requires Line(a, v) + ("\n" + x) == Line(b, w) + ("\n" + y)
    ensures a == b && v + ("\n" + x) == w + ("\n" + y)
  {
    var s, t := v + ("\n" + x), w + ("\n" + y);
    assert Line(a, v) + ("\n" + x) == a + "=" + s && Line(b, w) + ("\n" + y) == b + "=" + t;
    EqualsAfterKey(a, s);
    EqualsAfterKey(b, t);
    var whole := a + "=" + s;
    assert whole[..|a|] == a && (b + "=" + t)[..|b|] == b;
    assert whole[|a| + 1..] == s && (b + "=" + t)[|b| + 1..] == t;
  }

  /** Two entries of one key: the same value, or values of one line. */
  predicate AlikeAt(d: Dict, e: Dict, k: string) {
    && k in d.entries && k in e.entries
    && (d.entries[k] == e.entries[k] || (OneLine(d.entries[k]) && OneLine(e.entries[k])))
  }

  lemma TextEmpty(keys: seq<string>, d: Dict)
    requires forall k :: k in keys ==> k in d.entries
    ensures Text(keys, d) == "" <==> keys == []
  {
    if keys != [] { assert keys[0] in keys; }
  }

  /** Where two dictionaries differ in values of one line only, the same text means the same keys
      in the same order, and the same values. */
  lemma {:induction false} SameTextSameEntries(a: seq<string>, d: Dict, b: seq<string>, e: Dict)
    requires forall k :: k in a ==> k in d.entries && NoEquals(k) && (k in b ==> AlikeAt(d, e, k))
    requires forall k :: k in b ==> k in e.entries && NoEquals(k)
    requires Text(a, d) == Text(b, e)
    ensures a == b && forall k :: k in a ==> d.entries[k] == e.entries[k]
    decreases |a|
  {
    if a == [] {
      TextEmpty(b, e);
    } else {
      TextEmpty(a, d);
      assert a[0] in a && b[0] in b;
      var p, q := a[0], b[0];
      var v, w := d.entries[p], e.entries[q];
      var x, y := Text(a[1..], d), Text(b[1..], e);
      assert Text(a, d) == Line(p, v) + ("\n" + x) && Text(b, e) == Line(q, w) + ("\n" + y);
      SameFirstKey(p, v, x, q, w, y);
      assert AlikeAt(d, e, p);
      if v == w {
        assert (v + ("\n" + x))[|v| + 1..] == x && (w + ("\n" + y))[|w| + 1..] == y;
      } else {
        FirstBreakIs(v, w, x, y);
      }
      assert a == [p] + a[1..] && b == [q] + b[1..];
      SameTextSameEntries(a[1..], d, b[1..], e);
    }
  }
}
