/** Writing and reading an `.env` file. */
module EnvTheorems {
  import opened Foundations
  import opened EnvFile

  // ----- trimming -----

  predicate CleanStart(s: string) {
    s != "" ==> !IsBlank(s[0])
  }

  predicate CleanEnd(s: string) {
    s != "" ==> !IsBlank(s[|s| - 1])
  }

  lemma {:induction false} TrimRightIs(s: string)
    ensures TrimRight(s) <= s && CleanEnd(TrimRight(s))
    ensures CleanEnd(s) ==> TrimRight(s) == s
    decreases |s|
  {
    if s != "" && IsBlank(s[|s| - 1]) { TrimRightIs(s[..|s| - 1]); }
  }

  lemma {:induction false} TrimLeftIs(s: string)
    ensures |TrimLeft(s)| <= |s| && TrimLeft(s) == s[|s| - |TrimLeft(s)|..] && CleanStart(TrimLeft(s))
    ensures CleanStart(s) ==> TrimLeft(s) == s
    ensures CleanEnd(s) ==> CleanEnd(TrimLeft(s))
    decreases |s|
  {
    if s != "" && IsBlank(s[0]) { TrimLeftIs(s[1..]); }
  }

  predicate Trimmed(s: string) {
    CleanStart(s) && CleanEnd(s)
  }

  /** Where a trimmed text lies in the original. */
  lemma TrimIs(s: string)
    ensures Trimmed(Trim(s))
    ensures exists i, j :: 0 <= i <= j <= |s| && Trim(s) == s[i..j]
    ensures Trimmed(s) ==> Trim(s) == s
  {
    TrimRightIs(s);
    TrimLeftIs(TrimRight(s));
    var t, u := TrimRight(s), Trim(s);
    assert u == t[|t| - |u|..|t|] == s[|t| - |u|..|t|];
  }

  // ----- well-formed entries -----

  predicate NoEquals(s: string) {
    forall i :: 0 <= i < |s| ==> s[i] != '='
  }

  predicate GoodKey(key: string) {
    OneLine(key) && NoEquals(key) && Trimmed(key) && (key != "" ==> key[0] != '#')
  }

  predicate GoodValue(value: string) {
    OneLine(value) && Trimmed(value)
  }

  /** Every entry of a dictionary has this property. */
  ghost predicate All(good: (string, string) -> bool, entries: map<string, string>) {
    forall k :: k in entries ==> good(k, entries[k])
  }

  function GoodEntry(): (string, string) -> bool {
    (key: string, value: string) => GoodKey(key) && GoodValue(value)
  }

  /** The lines of a value after its first one. */
  function Continuation(value: string): seq<string> {
    Lines(value)[1..]
  }

  /** Written under this key, no further line of the value assigns another key. */
  predicate Harmless(key: string, value: string) {
    forall i :: 0 <= i < |Continuation(value)| ==> OwnOrNone(key, Continuation(value)[i])
  }

  predicate OwnOrNone(key: string, line: string) {
    Assignment(line).Some? ==> Assignment(line).value.0 == key
  }

  function HarmlessEntry(): (string, string) -> bool {
    (key: string, value: string) => GoodKey(key) && Harmless(key, value)
  }

  // ----- what reading can produce -----

  lemma PartOneLine(s: string, i: nat, j: nat)
    requires i <= j <= |s| && OneLine(s)
    ensures OneLine(s[i..j])
  {
  }

  lemma TrimOneLine(s: string)
    requires OneLine(s)
    ensures OneLine(Trim(s))
  {
    TrimIs(s);
    var i, j :| 0 <= i <= j <= |s| && Trim(s) == s[i..j];
    PartOneLine(s, i, j);
  }

  lemma {:induction false} FirstEqualsIs(s: string)
    ensures NoEquals(s[..FirstEquals(s)])
    decreases |s|
  {
    if s != "" && s[0] != '=' {
      FirstEqualsIs(s[1..]);
      var i := FirstEquals(s[1..]);
      assert forall j :: 0 <= j < i ==> s[1..][..i][j] == s[j + 1];
    }
  }

  lemma TrimKey(left: string)
    requires NoEquals(left) && CleanStart(left) && (left != "" ==> left[0] != '#')
    ensures NoEquals(Trim(left)) && (Trim(left) != "" ==> Trim(left)[0] != '#')
  {
    TrimRightIs(left);
    TrimLeftIs(TrimRight(left));
    assert TrimRight(left) != "" ==> TrimRight(left)[0] == left[0];
    assert TrimLeft(TrimRight(left)) == TrimRight(left);
  }

  lemma AssignmentIsGood(raw: string)
    requires OneLine(raw) && Assignment(raw).Some?
    ensures GoodKey(Assignment(raw).value.0) && GoodValue(Assignment(raw).value.1)
  {
    var line := Trim(raw);
    var i := FirstEquals(line);
    TrimOneLine(raw);
    TrimIs(raw);
    PartOneLine(line, 0, i);
    PartOneLine(line, i + 1, |line|);
    TrimOneLine(line[..i]);
    TrimOneLine(line[i + 1..]);
    TrimIs(line[..i]);
    TrimIs(line[i + 1..]);
    FirstEqualsIs(line);
    TrimKey(line[..i]);
  }

  lemma {:induction false} LinesAreOneLine(piece: string, s: string)
    requires OneLine(piece)
    ensures forall i :: 0 <= i < |LinesFrom(piece, s)| ==> OneLine(LinesFrom(piece, s)[i])
    decreases |s|
  {
    if s != "" {
      if IsBreak(s[0]) { LinesAreOneLine("", s[1..]); } else { LinesAreOneLine(piece + [s[0]], s[1..]); }
    }
  }

  ghost predicate ReadsGood(read: Reader, good: (string, string) -> bool, raw: string) {
    read(raw).Some? ==> good(read(raw).value.0, read(raw).value.1)
  }

  lemma {:induction false} AbsorbedIsGood(read: Reader, good: (string, string) -> bool, d: Dict, lines: seq<string>)
    requires All(good, d.entries) && forall i :: 0 <= i < |lines| ==> ReadsGood(read, good, lines[i])
    ensures All(good, AbsorbAll(read, d, lines).entries)
    decreases |lines|
  {
    if lines != [] {
      assert ReadsGood(read, good, lines[0]);
      assert forall i :: 0 <= i < |lines[1..]| ==> lines[1..][i] == lines[i + 1];
      AbsorbedIsGood(read, good, Absorb(read, d, lines[0]), lines[1..]);
    }
  }

  /** Whatever a file contains, what is read from it is well-formed. */
  lemma ParsedIsWellFormed(text: string)
    ensures All(GoodEntry(), Parse(text).entries)
  {
    LinesAreOneLine("", text);
    var lines := Lines(text);
    forall i | 0 <= i < |lines| ensures ReadsGood(LineReader(), GoodEntry(), lines[i]) {
      if Assignment(lines[i]).Some? { AssignmentIsGood(lines[i]); }
    }
    AbsorbedIsGood(LineReader(), GoodEntry(), EMPTY, lines);
  }

  lemma PutOrderly(d: Dict, key: string, value: string)
    requires Orderly(d)
    ensures Orderly(Put(d, key, value))
  {
    if key !in d.entries {
      forall i | 0 <= i < |d.order| ensures d.order[i] != key { assert d.order[i] in d.order; }
    }
  }

  lemma {:induction false} AbsorbedIsOrderly(read: Reader, d: Dict, lines: seq<string>)
    requires Orderly(d)
    ensures Orderly(AbsorbAll(read, d, lines))
    decreases |lines|
  {
    if lines != [] {
      if read(lines[0]).Some? { PutOrderly(d, read(lines[0]).value.0, read(lines[0]).value.1); }
      AbsorbedIsOrderly(read, Absorb(read, d, lines[0]), lines[1..]);
    }
  }

  lemma ParsedIsOrderly(text: string)
    ensures Orderly(Parse(text))
  {
    AbsorbedIsOrderly(LineReader(), EMPTY, Lines(text));
  }

  // ----- one line -----

  lemma {:induction false} TrimRightLine(front: string, value: string)
    requires front != "" && CleanEnd(front)
    ensures TrimRight(front + value) == front + TrimRight(value)
    decreases |value|
  {
    var s := front + value;
    if value == "" {
      assert s == front && front + "" == front;
    } else {
      assert s[|s| - 1] == value[|value| - 1];
      assert s[..|s| - 1] == front + value[..|value| - 1];
      TrimRightLine(front, value[..|value| - 1]);
    }
  }

  lemma {:induction false} EqualsAfterKey(key: string, rest: string)
    requires NoEquals(key)
    ensures FirstEquals(key + "=" + rest) == |key|
    decreases |key|
  {
    if key != "" {
      assert (key + "=" + rest)[1..] == key[1..] + "=" + rest;
      EqualsAfterKey(key[1..], rest);
    }
  }

  /** A written line, trimmed: only the end of the value can change. */
  lemma LineTrimmed(key: string, value: string)
    requires GoodKey(key)
    ensures Trim(Line(key, value)) == Line(key, TrimRight(value))
  {
    var front := key + "=";
    assert Line(key, value) == front + value;
    TrimRightLine(front, value);
    var line := front + TrimRight(value);
    assert line[0] == if key == "" then '=' else key[0];
    TrimLeftIs(line);
    assert line == Line(key, TrimRight(value));
  }

  /** A written line is read back, its value trimmed. */
  lemma LineReadsBack(key: string, value: string)
    requires GoodKey(key)
    ensures Assignment(Line(key, value)) == Some((key, Trim(value)))
  {
    var kept := TrimRight(value);
    var line := Line(key, kept);
    LineTrimmed(key, value);
    EqualsAfterKey(key, kept);
    LineParts(key, kept);
    TrimIs(key);
    TrimRightIs(value);
    TrimRightIs(kept);
    assert line[0] == if key == "" then '=' else key[0];
  }

  lemma LineParts(key: string, kept: string)
    ensures var line := Line(key, kept); line[..|key|] == key && line[|key| + 1..] == kept && |line| > |key|
  {
  }

  // ----- all lines -----

  lemma {:induction false} LinesBefore(piece: string, first: string, rest: string)
    ensures LinesFrom(piece, first + ("\n" + rest)) == LinesFrom(piece, first) + Lines(rest)
    decreases |first|
  {
    var tail := "\n" + rest;
    if first == "" {
      assert first + tail == tail && tail[0] == '\n' && tail[1..] == rest;
    } else {
      assert (first + tail)[0] == first[0] && (first + tail)[1..] == first[1..] + tail;
      if IsBreak(first[0]) {
        LinesBefore("", first[1..], rest);
        assert [piece] + (LinesFrom("", first[1..]) + Lines(rest)) == [piece] + LinesFrom("", first[1..]) + Lines(rest);
      } else {
        LinesBefore(piece + [first[0]], first[1..], rest);
      }
    }
  }

  lemma {:induction false} PieceFirst(piece: string, s: string)
    ensures LinesFrom(piece, s) == [piece + Lines(s)[0]] + Lines(s)[1..]
    decreases |s|
  {
    if s == "" {
      assert piece + "" == piece;
    } else if IsBreak(s[0]) {
      assert piece + "" == piece;
    } else {
      PieceFirst(piece + [s[0]], s[1..]);
      PieceFirst([s[0]], s[1..]);
      assert "" + [s[0]] == [s[0]];
      assert piece + [s[0]] + Lines(s[1..])[0] == piece + ([s[0]] + Lines(s[1..])[0]);
    }
  }

  lemma {:induction false} OneLineFirst(piece: string, first: string, rest: string)
    requires OneLine(first)
    ensures LinesFrom(piece, first + rest) == LinesFrom(piece + first, rest)
    decreases |first|
  {
    if first == "" {
      assert first + rest == rest && piece + first == piece;
    } else {
      assert (first + rest)[1..] == first[1..] + rest;
      OneLineFirst(piece + [first[0]], first[1..], rest);
      assert piece + [first[0]] + first[1..] == piece + first;
    }
  }

  /** A text of one line has no continuation. */
  lemma OneLineIs(s: string)
    requires OneLine(s)
    ensures Lines(s) == [s] && Continuation(s) == []
  {
    OneLineFirst("", s, "");
    assert s + "" == s && "" + s == s;
  }

  /** The lines of an entry: the key stands before the first line of its value. */
  lemma BlockIs(key: string, value: string)
    requires OneLine(key)
    ensures Lines(Line(key, value)) == [Line(key, Lines(value)[0])] + Continuation(value)
  {
    var front := key + "=";
    assert front + value == Line(key, value) && "" + front == front;
    OneLineFirst("", front, value);
    PieceFirst(front, value);
    assert front + Lines(value)[0] == Line(key, Lines(value)[0]);
  }

  lemma {:induction false} AbsorbConcat(read: Reader, d: Dict, a: seq<string>, b: seq<string>)
    ensures AbsorbAll(read, d, a + b) == AbsorbAll(read, AbsorbAll(read, d, a), b)
    decreases |a|
  {
    if a == [] {
      assert a + b == b;
    } else {
      assert (a + b)[0] == a[0] && (a + b)[1..] == a[1..] + b;
      AbsorbConcat(read, Absorb(read, d, a[0]), a[1..], b);
    }
  }

  ghost predicate Distinct(keys: seq<string>) {
    forall i, j :: 0 <= i < j < |keys| ==> keys[i] != keys[j]
  }

  /** The listed keys that have a value, in order. */
  function Listed(keys: seq<string>, d: Dict): seq<string> {
    if keys == [] then [] else (if keys[0] in d.entries then [keys[0]] else []) + Listed(keys[1..], d)
  }

  /** What a file with these keys of a dictionary holds, entry by entry. */
  function Text(keys: seq<string>, d: Dict): string {
    if keys == [] then ""
    else (if keys[0] in d.entries then Line(keys[0], d.entries[keys[0]]) + "\n" else "") + Text(keys[1..], d)
  }

  lemma {:induction false} JoinedText(keys: seq<string>, d: Dict)
    ensures LinesFor(keys, d) != [] ==> JoinLines(LinesFor(keys, d)) + "\n" == Text(keys, d)
    ensures LinesFor(keys, d) == [] <==> Text(keys, d) == ""
    decreases |keys|
  {
    if keys != [] {
      JoinedText(keys[1..], d);
      var rest := LinesFor(keys[1..], d);
      if keys[0] in d.entries {
        var line := Line(keys[0], d.entries[keys[0]]);
        assert ([line] + rest)[1..] == rest;
        if rest == [] {
          assert line + "\n" + "" == line + "\n";
        } else {
          assert line + "\n" + JoinLines(rest) + "\n" == line + "\n" + (JoinLines(rest) + "\n");
        }
      } else {
        assert LinesFor(keys, d) == rest && Text(keys, d) == Text(keys[1..], d);
      }
    }
  }

  /** The written file; without any entry it is one line break. */
  lemma WriteIsText(example: seq<string>, d: Dict)
    ensures
      var text := Text(WriteOrder(example, d), d);
      Write(example, d) == if text == "" then "\n" else text
  {
    JoinedText(WriteOrder(example, d), d);
    assert "" + "\n" == "\n";
  }

  /** Reading the lines of this entry puts its key and the cleaned value. */
  ghost predicate BlockReads(read: Reader, clean: (string, string) -> string, key: string, value: string) {
    forall start {:trigger AbsorbAll(read, start, Lines(Line(key, value)))} ::
      AbsorbAll(read, start, Lines(Line(key, value))) == Put(start, key, clean(key, value))
  }

  ghost predicate ReadsBack(read: Reader, clean: (string, string) -> string, d: Dict) {
    read("").None? && forall k :: k in d.entries ==> BlockReads(read, clean, k, d.entries[k])
  }

  /** The dictionary that reading the listed keys adds to another one. */
  function PutListed(clean: (string, string) -> string, start: Dict, keys: seq<string>, d: Dict): Dict
    decreases |keys|
  {
    if keys == [] then start
    else
      var next := if keys[0] in d.entries then Put(start, keys[0], clean(keys[0], d.entries[keys[0]])) else start;
      PutListed(clean, next, keys[1..], d)
  }

  lemma {:induction false} ReadText(
      read: Reader, clean: (string, string) -> string, start: Dict, keys: seq<string>, d: Dict)
    requires ReadsBack(read, clean, d)
    ensures AbsorbAll(read, start, Lines(Text(keys, d))) == PutListed(clean, start, keys, d)
    decreases |keys|
  {
    if keys == [] {
      assert Lines("") == [""] && [""][1..] == [];
    } else {
      var key, rest := keys[0], Text(keys[1..], d);
      if key in d.entries {
        var line := Line(key, d.entries[key]);
        assert Text(keys, d) == line + ("\n" + rest);
        LinesBefore("", line, rest);
        assert BlockReads(read, clean, key, d.entries[key]);
        AbsorbConcat(read, start, Lines(line), Lines(rest));
        ReadText(read, clean, Put(start, key, clean(key, d.entries[key])), keys[1..], d);
      } else {
        assert Text(keys, d) == rest;
        ReadText(read, clean, start, keys[1..], d);
      }
    }
  }

  lemma {:induction false} PutListedOrder(clean: (string, string) -> string, start: Dict, keys: seq<string>, d: Dict)
    requires Distinct(keys) && forall i :: 0 <= i < |keys| ==> keys[i] !in start.entries
    ensures PutListed(clean, start, keys, d).order == start.order + Listed(keys, d)
    decreases |keys|
  {
    if keys != [] {
      var key, rest := keys[0], keys[1..];
      var next := if key in d.entries then Put(start, key, clean(key, d.entries[key])) else start;
      forall i | 0 <= i < |rest| ensures rest[i] !in next.entries { assert rest[i] == keys[i + 1]; }
      PutListedOrder(clean, next, rest, d);
      var tail := Listed(rest, d);
      assert start.order + [key] + tail == start.order + ([key] + tail);
      assert [] + tail == tail;
    } else {
      assert start.order + [] == start.order;
    }
  }

  /** The value of one key after the listed ones have been put. */
  lemma {:induction false} PutListedAt(
      clean: (string, string) -> string, start: Dict, keys: seq<string>, d: Dict, k: string)
    ensures
      var result := PutListed(clean, start, keys, d);
      && (k in result.entries <==> k in start.entries || (k in keys && k in d.entries))
      && (k in result.entries ==>
            result.entries[k] == if k in keys && k in d.entries then clean(k, d.entries[k]) else start.entries[k])
    decreases |keys|
  {
    if keys != [] {
      var key := keys[0];
      assert keys == [key] + keys[1..];
      var next := if key in d.entries then Put(start, key, clean(key, d.entries[key])) else start;
      PutListedAt(clean, next, keys[1..], d, k);
    }
  }

  lemma {:induction false} ExtrasMembers(order: seq<string>, known: seq<string>)
    requires Distinct(order)
    ensures forall k :: k in Extras(order, known) <==> k in order && k !in known
    ensures Distinct(Extras(order, known))
    decreases |order|
  {
    if order != [] {
      var rest := Extras(order[1..], known);
      assert Distinct(order[1..]);
      ExtrasMembers(order[1..], known);
      assert order == [order[0]] + order[1..];
      assert order[0] !in order[1..];
      forall j | 0 <= j < |rest| ensures rest[j] != order[0] { assert rest[j] in rest; }
    }
  }

  lemma DistinctConcat(a: seq<string>, b: seq<string>)
    requires Distinct(a) && Distinct(b) && forall k :: k in a ==> k !in b
    ensures Distinct(a + b)
  {
    var c := a + b;
    forall i, j | 0 <= i < j < |c| ensures c[i] != c[j] {
      if i < |a| <= j { assert c[i] in a && c[j] == b[j - |a|] && c[j] in b; }
    }
  }

  lemma WriteOrderIs(example: seq<string>, d: Dict)
    requires Orderly(d) && Distinct(example)
    ensures Distinct(WriteOrder(example, d))
    ensures forall k :: k in d.entries ==> k in WriteOrder(example, d)
  {
    ExtrasMembers(d.order, example);
    DistinctConcat(example, Extras(d.order, example));
  }

  // ----- entries that span lines without harm -----

  /** The value a key keeps after lines that assign nothing or itself. */
  function LastOwn(value: string, lines: seq<string>): string
    decreases |lines|
  {
    if lines == [] then value
    else LastOwn(if Assignment(lines[0]).Some? then Assignment(lines[0]).value.1 else value, lines[1..])
  }

  /** The value an entry is read back with. */
  function ReadValue(value: string): string {
    LastOwn(Trim(Lines(value)[0]), Continuation(value))
  }

  function ValueRead(): (string, string) -> string {
    (key: string, value: string) => ReadValue(value)
  }

  lemma {:induction false} OwnLines(start: Dict, key: string, value: string, lines: seq<string>)
    requires forall i :: 0 <= i < |lines| ==> OwnOrNone(key, lines[i])
    ensures AbsorbAll(LineReader(), Put(start, key, value), lines) == Put(start, key, LastOwn(value, lines))
    decreases |lines|
  {
    if lines != [] {
      assert OwnOrNone(key, lines[0]);
      var next := if Assignment(lines[0]).Some? then Assignment(lines[0]).value.1 else value;
      assert Absorb(LineReader(), Put(start, key, value), lines[0]) == Put(start, key, next);
      OwnLines(start, key, next, lines[1..]);
    }
  }

  lemma HarmlessBlock(start: Dict, key: string, value: string)
    requires GoodKey(key) && Harmless(key, value)
    ensures AbsorbAll(LineReader(), start, Lines(Line(key, value))) == Put(start, key, ReadValue(value))
  {
    var first, more := Lines(value)[0], Continuation(value);
    BlockIs(key, value);
    LineReadsBack(key, first);
    assert ([Line(key, first)] + more)[1..] == more;
    OwnLines(start, key, Trim(first), more);
  }

  lemma OneLineIsHarmless(key: string, value: string)
    requires OneLine(value)
    ensures Harmless(key, value) && ReadValue(value) == Trim(value)
  {
    OneLineIs(value);
  }

  lemma HarmlessBlockReads(key: string, value: string)
    requires HarmlessEntry()(key, value)
    ensures BlockReads(LineReader(), ValueRead(), key, value)
  {
    forall start
      ensures AbsorbAll(LineReader(), start, Lines(Line(key, value))) == Put(start, key, ValueRead()(key, value))
    {
      HarmlessBlock(start, key, value);
    }
  }

  lemma EntriesReadBack(read: Reader, clean: (string, string) -> string, good: (string, string) -> bool, d: Dict)
    requires All(good, d.entries) && read("").None?
    requires forall k, v :: good(k, v) ==> BlockReads(read, clean, k, v)
    ensures ReadsBack(read, clean, d)
  {
  }

  lemma HarmlessReadsBack(d: Dict)
    requires All(HarmlessEntry(), d.entries)
    ensures ReadsBack(LineReader(), ValueRead(), d)
  {
    assert Trim("") == "" && Assignment("").None?;
    forall k, v | HarmlessEntry()(k, v) ensures BlockReads(LineReader(), ValueRead(), k, v) {
      HarmlessBlockReads(k, v);
    }
    EntriesReadBack(LineReader(), ValueRead(), HarmlessEntry(), d);
  }

  lemma ReadWritten(read: Reader, clean: (string, string) -> string, example: seq<string>, d: Dict)
    requires ReadsBack(read, clean, d)
    ensures AbsorbAll(read, EMPTY, Lines(Write(example, d))) == PutListed(clean, EMPTY, WriteOrder(example, d), d)
  {
    var keys := WriteOrder(example, d);
    WriteIsText(example, d);
    ReadText(read, clean, EMPTY, keys, d);
    if Text(keys, d) == "" {
      assert "\n"[1..] == "" && Lines("\n") == ["", ""] && Lines("") == [""];
      assert ["", ""][1..] == [""] && [""][1..] == [];
    }
  }

  /** The same keys, in the order they were written, each with its cleaned value. */
  ghost predicate ReadOf(clean: (string, string) -> string, example: seq<string>, d: Dict, read: Dict) {
    && (forall k :: k in read.entries <==> k in d.entries)
    && (forall k :: k in d.entries && k in read.entries ==> read.entries[k] == clean(k, d.entries[k]))
    && read.order == Listed(WriteOrder(example, d), d)
  }

  lemma PutListedIs(clean: (string, string) -> string, example: seq<string>, d: Dict)
    requires Orderly(d) && Distinct(example)
    ensures ReadOf(clean, example, d, PutListed(clean, EMPTY, WriteOrder(example, d), d))
  {
    var keys := WriteOrder(example, d);
    WriteOrderIs(example, d);
    PutListedOrder(clean, EMPTY, keys, d);
    assert EMPTY.order + Listed(keys, d) == Listed(keys, d);
    var read := PutListed(clean, EMPTY, keys, d);
    forall k ensures k in read.entries <==> k in d.entries
             ensures k in d.entries && k in read.entries ==> read.entries[k] == clean(k, d.entries[k])
    {
      PutListedAt(clean, EMPTY, keys, d, k);
    }
  }

  /** What is read from a written file: the same keys, in the order they were written; a value of
      one line comes back trimmed, a longer one as its last line that assigns it says. */
  lemma WrittenReadsBack(example: seq<string>, d: Dict)
    requires Orderly(d) && Distinct(example) && All(HarmlessEntry(), d.entries)
    ensures ReadOf(ValueRead(), example, d, Parse(Write(example, d)))
    ensures
      var read := Parse(Write(example, d));
      forall k :: k in d.entries && k in read.entries && OneLine(d.entries[k]) ==> read.entries[k] == Trim(d.entries[k])
  {
    var read := Parse(Write(example, d));
    HarmlessReadsBack(d);
    ReadWritten(LineReader(), ValueRead(), example, d);
    PutListedIs(ValueRead(), example, d);
    forall k | k in d.entries && k in read.entries && OneLine(d.entries[k])
      ensures read.entries[k] == Trim(d.entries[k])
    {
      OneLineIsHarmless(k, d.entries[k]);
    }
  }

  lemma GoodIsHarmless(entries: map<string, string>)
    requires All(GoodEntry(), entries)
    ensures All(HarmlessEntry(), entries)
    ensures forall k :: k in entries ==> OneLine(entries[k]) && Trim(entries[k]) == entries[k]
  {
    forall k | k in entries
      ensures HarmlessEntry()(k, entries[k]) && OneLine(entries[k]) && Trim(entries[k]) == entries[k]
    {
      assert GoodEntry()(k, entries[k]);
      assert GoodKey(k) && GoodValue(entries[k]) && Trimmed(entries[k]);
      OneLineIsHarmless(k, entries[k]);
      TrimIs(entries[k]);
    }
  }

  /** Reading back what was written gives the same map exactly when every key is trimmed, has no
      equals sign and does not begin with a hash, every value is trimmed, and none spans lines. */
  lemma RoundTripIff(example: seq<string>, d: Dict)
    requires Orderly(d) && Distinct(example)
    ensures Parse(Write(example, d)).entries == d.entries <==> All(GoodEntry(), d.entries)
  {
    ParsedIsWellFormed(Write(example, d));
    if All(GoodEntry(), d.entries) {
      GoodIsHarmless(d.entries);
      WrittenReadsBack(example, d);
      SameEntries(d.entries, Parse(Write(example, d)).entries);
    }
  }

  lemma SameEntries(a: map<string, string>, b: map<string, string>)
    requires forall k :: k in b <==> k in a
    requires forall k :: k in a ==> b[k] == a[k]
    ensures a == b
  {
  }
}
