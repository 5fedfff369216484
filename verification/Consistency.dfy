/** The laws assumed of the library calls can be met: a platform with all of them exists, so no
    theorem that assumes them is empty. Documents are turned into binary trees, and trees into
    bytes so that no tree's bytes begin with another's. */
module Consistency {
  import opened Foundations

  // ----- trees as bytes -----

  datatype Tree = Leaf(n: nat) | Node(left: Tree, right: Tree)

  /** The digits 0 and 1, so that these bytes are hexadecimal text as well. */
  const ZERO: Byte := 48
  const ONE: Byte := 49

  function EncodeNat(n: nat): Bytes {
    if n == 0 then [ZERO] else [ONE] + EncodeNat(n - 1)
  }

  lemma {:induction false} NatPrefix(a: nat, b: nat, x: Bytes, y: Bytes)
    requires EncodeNat(a) + x == EncodeNat(b) + y
    ensures a == b && x == y
    decreases a
  {
    var s, t := EncodeNat(a) + x, EncodeNat(b) + y;
    assert s[0] == t[0];
    if a == 0 {
      assert s[1..] == x && t[1..] == y;
    } else {
      assert s[1..] == EncodeNat(a - 1) + x && t[1..] == EncodeNat(b - 1) + y;
      NatPrefix(a - 1, b - 1, x, y);
    }
  }

  function EncodeTree(t: Tree): Bytes {
    match t
    case Leaf(n) => [ZERO] + EncodeNat(n)
    case Node(l, r) => [ONE] + (EncodeTree(l) + EncodeTree(r))
  }

  /** No tree's bytes begin with another's. */
  lemma {:induction false} TreePrefix(a: Tree, b: Tree, x: Bytes, y: Bytes)
    requires EncodeTree(a) + x == EncodeTree(b) + y
    ensures a == b && x == y
    decreases a
  {
    var s, t := EncodeTree(a) + x, EncodeTree(b) + y;
    assert s[0] == t[0];
    if a.Leaf? {
      assert s[1..] == EncodeNat(a.n) + x && t[1..] == EncodeNat(b.n) + y;
      NatPrefix(a.n, b.n, x, y);
    } else {
      var p, q := EncodeTree(a.right) + x, EncodeTree(b.right) + y;
      assert s[1..] == EncodeTree(a.left) + p && t[1..] == EncodeTree(b.left) + q;
      TreePrefix(a.left, b.left, p, q);
      TreePrefix(a.right, b.right, x, y);
    }
  }

  lemma TreesDiffer(a: Tree, b: Tree)
    requires EncodeTree(a) == EncodeTree(b)
    ensures a == b
  {
    assert EncodeTree(a) + [] == EncodeTree(b) + [];
    TreePrefix(a, b, [], []);
  }

  lemma {:induction false} NatIsHexText(n: nat)
    ensures IsHexText(EncodeNat(n))
  {
    if n > 0 { NatIsHexText(n - 1); }
  }

  lemma {:induction false} TreeIsHexText(t: Tree)
    ensures IsHexText(EncodeTree(t))
    decreases t
  {
    match t {
      case Leaf(n) => NatIsHexText(n);
      case Node(l, r) => TreeIsHexText(l); TreeIsHexText(r);
    }
  }

  // ----- field names as numbers -----

  function FieldNumber(field: Field): nat {
    match field
    case SchemaVersion => 0
    case BackupRunId => 1
    case RunState => 2
    case BackupCutoff => 3
    case ScheduleHours => 4
    case Toolchain => 5
    case Database => 6
    case BusinessPart => 7
    case ReferencePart => 8
    case LedgerPart => 9
    case RetentionPart => 10
    case Gates => 11
    case Image => 12
    case ImageDigest => 13
    case Postgres => 14
    case MinioClient => 15
    case DestinationClient => 16
    case Format => 17
    case ContentHash => 18
    case SizeBytes => 19
    case ListEntries => 20
    case ObjectCount => 21
    case InventoryHash => 22
    case ValidatorId => 23
    case QueryFingerprint => 24
    case Expected => 25
    case Checked => 26
    case Mismatches => 27
    case ArchiveRunId => 28
    case CutoffUtc => 29
    case ManifestHash => 30
    case KeyVersions => 31
    case WindowDays => 32
    case PolicyVersion => 33
    case ListGate => 34
    case HashGate => 35
    case InventoryGate => 36
    case ReferenceGate => 37
    case Objects => 38
    case KeyHash => 39
    case ArchiveHash => 40
    case EntryCount => 41
    case KeyVersion => 42
    case LifecyclePolicy => 43
    case Versions => 44
    case ActiveKeyVersion => 45
    case Version => 46
    case Status => 47
    case LedgerRunId => 48
    case BusinessRunId => 49
    case GenerationId => 50
    case RestoredEntries => 51
    case CompleteFlag => 52
    case ValidFlag => 53
    case CompleteOrder => 54
    case RestoreId => 55
    case BackupManifestHash => 56
    case LedgerManifestHash => 57
    case TrafficOpen => 58
    case ObjectsGate => 59
    case LedgerGate => 60
    case Checks => 61
    case Counts => 62
    case ObjectsAbsent => 63
    case DatabaseRedacted => 64
    case LedgerConsistent => 65
    case RecoveryCompleted => 66
    case PreparedCount => 67
    case CompletedCount => 68
    case DeletedCount => 69
    case ErrorCode => 70
    case TrafficDecision => 71
    case PointCount => 72
    case Other(_) => 73
  }

  function Row0(n: nat): Field {
    if n == 0 then SchemaVersion else if n == 1 then BackupRunId else if n == 2 then RunState
    else if n == 3 then BackupCutoff else if n == 4 then ScheduleHours else if n == 5 then Toolchain
    else if n == 6 then Database else if n == 7 then BusinessPart else if n == 8 then ReferencePart
    else LedgerPart
  }

  function Row1(n: nat): Field {
    if n == 10 then RetentionPart else if n == 11 then Gates else if n == 12 then Image
    else if n == 13 then ImageDigest else if n == 14 then Postgres else if n == 15 then MinioClient
    else if n == 16 then DestinationClient else if n == 17 then Format else if n == 18 then ContentHash
    else SizeBytes
  }

  function Row2(n: nat): Field {
    if n == 20 then ListEntries else if n == 21 then ObjectCount else if n == 22 then InventoryHash
    else if n == 23 then ValidatorId else if n == 24 then QueryFingerprint else if n == 25 then Expected
    else if n == 26 then Checked else if n == 27 then Mismatches else if n == 28 then ArchiveRunId
    else CutoffUtc
  }

  function Row3(n: nat): Field {
    if n == 30 then ManifestHash else if n == 31 then KeyVersions else if n == 32 then WindowDays
    else if n == 33 then PolicyVersion else if n == 34 then ListGate else if n == 35 then HashGate
    else if n == 36 then InventoryGate else if n == 37 then ReferenceGate else if n == 38 then Objects
    else KeyHash
  }

  function Row4(n: nat): Field {
    if n == 40 then ArchiveHash else if n == 41 then EntryCount else if n == 42 then KeyVersion
    else if n == 43 then LifecyclePolicy else if n == 44 then Versions else if n == 45 then ActiveKeyVersion
    else if n == 46 then Version else if n == 47 then Status else if n == 48 then LedgerRunId else BusinessRunId
  }

  function Row5(n: nat): Field {
    if n == 50 then GenerationId else if n == 51 then RestoredEntries else if n == 52 then CompleteFlag
    else if n == 53 then ValidFlag else if n == 54 then CompleteOrder else if n == 55 then RestoreId
    else if n == 56 then BackupManifestHash else if n == 57 then LedgerManifestHash
    else if n == 58 then TrafficOpen else ObjectsGate
  }

  function Row6(n: nat): Field {
    if n == 60 then LedgerGate else if n == 61 then Checks else if n == 62 then Counts
    else if n == 63 then ObjectsAbsent else if n == 64 then DatabaseRedacted
    else if n == 65 then LedgerConsistent else if n == 66 then RecoveryCompleted
    else if n == 67 then PreparedCount else if n == 68 then CompletedCount else DeletedCount
  }

  function Row7(n: nat): Field {
    if n == 70 then ErrorCode else if n == 71 then TrafficDecision else PointCount
  }

  function NumberedField(n: nat): Field {
    if n < 10 then Row0(n)
    else if n < 20 then Row1(n)
    else if n < 30 then Row2(n)
    else if n < 40 then Row3(n)
    else if n < 50 then Row4(n)
    else if n < 60 then Row5(n)
    else if n < 70 then Row6(n)
    else if n < 73 then Row7(n)
    else Other("")
  }

  lemma Row0Back(field: Field)
    requires 0 <= FieldNumber(field) < 10
    ensures Row0(FieldNumber(field)) == field
  {
  }

  lemma Row1Back(field: Field)
    requires 10 <= FieldNumber(field) < 20
    ensures Row1(FieldNumber(field)) == field
  {
  }

  lemma Row2Back(field: Field)
    requires 20 <= FieldNumber(field) < 30
    ensures Row2(FieldNumber(field)) == field
  {
  }

  lemma Row3Back(field: Field)
    requires 30 <= FieldNumber(field) < 40
    ensures Row3(FieldNumber(field)) == field
  {
  }

  lemma Row4Back(field: Field)
    requires 40 <= FieldNumber(field) < 50
    ensures Row4(FieldNumber(field)) == field
  {
  }

  lemma Row5Back(field: Field)
    requires 50 <= FieldNumber(field) < 60
    ensures Row5(FieldNumber(field)) == field
  {
  }

  lemma Row6Back(field: Field)
    requires 60 <= FieldNumber(field) < 70
    ensures Row6(FieldNumber(field)) == field
  {
  }

  lemma Row7Back(field: Field)
    requires 70 <= FieldNumber(field) < 73
    ensures Row7(FieldNumber(field)) == field
  {
  }

  lemma NumberedBack(field: Field)
    requires !field.Other?
    ensures NumberedField(FieldNumber(field)) == field
  {
    var n := FieldNumber(field);
    if n < 10 {
      Row0Back(field);
    } else if n < 20 {
      Row1Back(field);
    } else if n < 30 {
      Row2Back(field);
    } else if n < 40 {
      Row3Back(field);
    } else if n < 50 {
      Row4Back(field);
    } else if n < 60 {
      Row5Back(field);
    } else if n < 70 {
      Row6Back(field);
    } else if n < 73 {
      Row7Back(field);
    }
  }

  // ----- documents as trees -----

  function NatsTree(s: seq<nat>): Tree {
    if s == [] then Leaf(0) else Node(Leaf(s[0]), NatsTree(s[1..]))
  }

  lemma {:induction false} NatsTreesDiffer(a: seq<nat>, b: seq<nat>)
    requires NatsTree(a) == NatsTree(b)
    ensures a == b
    decreases |a|
  {
    if a != [] {
      NatsTreesDiffer(a[1..], b[1..]);
      assert a == [a[0]] + a[1..] && b == [b[0]] + b[1..];
    }
  }

  function TextTree(s: string): Tree {
    NatsTree(seq(|s|, i requires 0 <= i < |s| => s[i] as int))
  }

  lemma TextTreesDiffer(a: string, b: string)
    requires TextTree(a) == TextTree(b)
    ensures a == b
  {
    var s: seq<nat> := seq(|a|, i requires 0 <= i < |a| => a[i] as int);
    var t: seq<nat> := seq(|b|, i requires 0 <= i < |b| => b[i] as int);
    NatsTreesDiffer(s, t);
    assert |s| == |t|;
    forall i | 0 <= i < |a| ensures a[i] == b[i] { assert s[i] == t[i]; }
  }

  function BytesTree(s: Bytes): Tree {
    NatsTree(seq(|s|, i requires 0 <= i < |s| => s[i] as int))
  }

  lemma BytesTreesDiffer(a: Bytes, b: Bytes)
    requires BytesTree(a) == BytesTree(b)
    ensures a == b
  {
    var s: seq<nat> := seq(|a|, i requires 0 <= i < |a| => a[i] as int);
    var t: seq<nat> := seq(|b|, i requires 0 <= i < |b| => b[i] as int);
    NatsTreesDiffer(s, t);
    assert |s| == |t|;
    forall i | 0 <= i < |a| ensures a[i] == b[i] { assert s[i] == t[i]; }
  }

  function IntTree(n: int): Tree {
    if n >= 0 then Node(Leaf(0), Leaf(n)) else Node(Leaf(1), Leaf(-n))
  }

  function FieldTree(field: Field): Tree {
    if field.Other? then Node(Leaf(0), TextTree(field.text)) else Leaf(FieldNumber(field))
  }

  lemma FieldTreesDiffer(a: Field, b: Field)
    requires FieldTree(a) == FieldTree(b)
    ensures a == b
  {
    if a.Other? {
      TextTreesDiffer(a.text, b.text);
    } else {
      NumberedBack(a);
      NumberedBack(b);
    }
  }

  ghost function PickKey(m: map<Field, Json>): (key: Field)
    requires m != map[]
    ensures key in m
  {
    var key :| key in m;
    key
  }

  ghost function DocumentTree(j: Json): Tree
    decreases j, 1
  {
    match j
    case Null => Leaf(0)
    case Bool(t) => Node(Leaf(1), Leaf(if t then 1 else 0))
    case Int(n) => Node(Leaf(2), IntTree(n))
    case Float(f) => Node(Leaf(3), Node(IntTree(f.numerator), Leaf(f.halvings)))
    case Str(s) => Node(Leaf(4), TextTree(s))
    case Hash(d) => Node(Leaf(5), BytesTree(d.preimage))
    case Arr(items) => Node(Leaf(6), ItemsTree(j, items))
    case Obj(fields) => Node(Leaf(7), FieldsTree(j, fields))
  }

  ghost function ItemsTree(owner: Json, items: seq<Json>): Tree
    requires forall i :: 0 <= i < |items| ==> items[i] < owner
    decreases owner, 0, |items|
  {
    if items == [] then Leaf(0) else Node(DocumentTree(items[0]), ItemsTree(owner, items[1..]))
  }

  ghost function FieldsTree(owner: Json, m: map<Field, Json>): Tree
    requires forall key :: key in m ==> m[key] < owner
    decreases owner, 0, |m|
  {
    if m == map[] then Leaf(0)
    else
      var key := PickKey(m);
      Node(FieldTree(key), Node(DocumentTree(m[key]), FieldsTree(owner, m - {key})))
  }

  lemma {:induction false} DocumentTreesDiffer(a: Json, b: Json)
    requires DocumentTree(a) == DocumentTree(b)
    ensures a == b
    decreases a, 1
  {
    match a {
      case Str(s) => TextTreesDiffer(s, b.text);
      case Hash(d) => BytesTreesDiffer(d.preimage, b.digest.preimage);
      case Arr(items) => ItemsTreesDiffer(a, items, b, b.items);
      case Obj(fields) => FieldsTreesDiffer(a, fields, b, b.fields);
      case _ =>
    }
  }

  lemma {:induction false} ItemsTreesDiffer(a: Json, m: seq<Json>, b: Json, n: seq<Json>)
    requires forall i :: 0 <= i < |m| ==> m[i] < a
    requires forall i :: 0 <= i < |n| ==> n[i] < b
    requires ItemsTree(a, m) == ItemsTree(b, n)
    ensures m == n
    decreases a, 0, |m|
  {
    if m != [] {
      DocumentTreesDiffer(m[0], n[0]);
      ItemsTreesDiffer(a, m[1..], b, n[1..]);
      assert m == [m[0]] + m[1..] && n == [n[0]] + n[1..];
    }
  }

  lemma {:induction false} FieldsTreesDiffer(a: Json, m: map<Field, Json>, b: Json, n: map<Field, Json>)
    requires forall key :: key in m ==> m[key] < a
    requires forall key :: key in n ==> n[key] < b
    requires FieldsTree(a, m) == FieldsTree(b, n)
    ensures m == n
    decreases a, 0, |m|
  {
    if m != map[] {
      var i, j := PickKey(m), PickKey(n);
      FieldTreesDiffer(i, j);
      DocumentTreesDiffer(m[i], n[i]);
      FieldsTreesDiffer(a, m - {i}, b, n - {i});
      assert m == (m - {i})[i := m[i]] && n == (n - {i})[i := n[i]];
    }
  }

  // ----- a platform -----

  ghost function Encode(j: Json): Bytes {
    EncodeTree(DocumentTree(j))
  }

  lemma EncodingsDiffer(a: Json, b: Json)
    requires Encode(a) == Encode(b)
    ensures a == b
  {
    TreesDiffer(DocumentTree(a), DocumentTree(b));
    DocumentTreesDiffer(a, b);
  }

  ghost function Decode(b: Bytes): Option<Json> {
    if exists j :: Encode(j) == b then var j :| Encode(j) == b; Some(j) else None
  }

  function TextOf(j: Json): string {
    match j
    case Str(s) => s
    case Hash(d) => seq(|d.preimage|, i requires 0 <= i < |d.preimage| => (d.preimage[i] as int) as char)
    case _ => ""
  }

  lemma HashTextsDiffer(a: Digest, b: Digest)
    requires TextOf(Hash(a)) == TextOf(Hash(b))
    ensures a == b
  {
    var s, t := TextOf(Hash(a)), TextOf(Hash(b));
    assert |s| == |a.preimage| && |t| == |b.preimage|;
    forall i | 0 <= i < |a.preimage| ensures a.preimage[i] == b.preimage[i] { assert s[i] == t[i]; }
  }

  predicate PlainText(s: string) {
    s != "" && '\0' !in s
  }

  function DigestTree(d: Digest): Tree {
    BytesTree(d.preimage)
  }

  function TagTree(t: Tag): Tree {
    Node(BytesTree(t.key), BytesTree(t.payload))
  }

  ghost function Witness(): Platform {
    Platform(
      b => Decode(b), j => Encode(j), d => EncodeTree(DigestTree(d)), t => EncodeTree(TagTree(t)),
      s => EncodeTree(TextTree(s)), s => if s == "" then None else Some(|s|), s => None, j => TextOf(j), s => true,
      s => if PlainText(s) then Some("uuid") else None, s => s, s => '@' in s)
  }

  lemma TagsDiffer(s: Tag, t: Tag)
    requires EncodeTree(TagTree(s)) == EncodeTree(TagTree(t))
    ensures s == t
  {
    TreesDiffer(TagTree(s), TagTree(t));
    BytesTreesDiffer(s.key, t.key);
    BytesTreesDiffer(s.payload, t.payload);
  }

  lemma WitnessIsLawful()
    ensures Lawful(Witness())
  {
    var k := Witness();
    forall j ensures k.Parse(k.Print(j)) == Some(j) {
      EncodingsDiffer(Decode(Encode(j)).value, j);
    }
    forall d ensures IsHexText(k.Hex(d)) { TreeIsHexText(DigestTree(d)); }
    forall t ensures IsHexText(k.TagHex(t)) { TreeIsHexText(TagTree(t)); }
    forall a, b | k.Text(Hash(a)) == k.Text(Hash(b)) ensures a == b { HashTextsDiffer(a, b); }
  }

  /** The laws are consistent: this platform satisfies all of them, and no two tags or digests are
      spelled alike. */
  lemma LawsAreConsistent()
    ensures Lawful(Witness()) && LawfulUuid(Witness()) && InjectiveUtf8(Witness())
    ensures forall s, t :: Witness().TagHex(s) == Witness().TagHex(t) ==> s == t
    ensures forall s, t :: Witness().Hex(s) == Witness().Hex(t) ==> s == t
  {
    var k := Witness();
    WitnessIsLawful();
    forall s, t | k.TagHex(s) == k.TagHex(t) ensures s == t { TagsDiffer(s, t); }
    forall s, t | k.Hex(s) == k.Hex(t) ensures s == t {
      TreesDiffer(DigestTree(s), DigestTree(t));
      BytesTreesDiffer(s.preimage, t.preimage);
    }
    forall a, b | k.Utf8(a) == k.Utf8(b) ensures a == b {
      TreesDiffer(TextTree(a), TextTree(b));
      TextTreesDiffer(a, b);
    }
  }
}
