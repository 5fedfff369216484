/** Vocabulary shared by every part of the model: bytes, digests, JSON documents,
    and the few library functions whose internals are outside the model. */
module Foundations {

  datatype Option<+T> = None | Some(value: T)

  datatype Result<+T, +E> = Ok(value: T) | Err(error: E)

  newtype Byte = b: int | 0 <= b < 256

  type Bytes = seq<Byte>

  /** SHA-256 as a free constructor: equal digests have equal preimages. */
  datatype Digest = Sha256(preimage: Bytes)

  /** HMAC-SHA256 as a free constructor of its key and payload. */
  datatype Tag = Hmac(key: Bytes, payload: Bytes)

  /** A field name: one the contracts speak about (with its spelling), or any other text. */
  datatype Field =
    | SchemaVersion      // schema_version
    | BackupRunId        // backup_run_id
    | RunState           // state
    | BackupCutoff       // backup_cutoff_utc
    | ScheduleHours      // schedule_interval_hours
    | Toolchain          // toolchain
    | Database           // database
    | BusinessPart       // business_snapshot
    | ReferencePart      // reference_validation
    | LedgerPart         // ledger_archive
    | RetentionPart      // retention
    | Gates              // gates
    | Image              // image
    | ImageDigest        // image_digest
    | Postgres           // postgres
    | MinioClient        // minio_client
    | DestinationClient  // destination_client
    | Format             // format
    | ContentHash        // sha256
    | SizeBytes          // size_bytes
    | ListEntries        // restore_list_entries
    | ObjectCount        // object_count
    | InventoryHash      // inventory_sha256
    | ValidatorId        // validator_id
    | QueryFingerprint   // query_fingerprint
    | Expected           // expected
    | Checked            // checked
    | Mismatches         // mismatches
    | ArchiveRunId       // archive_run_id
    | CutoffUtc          // cutoff_utc
    | ManifestHash       // manifest_sha256
    | KeyVersions        // signing_key_versions
    | WindowDays         // backup_window_days
    | PolicyVersion      // policy_version
    | ListGate           // pg_restore_list
    | HashGate           // hashes
    | InventoryGate      // object_inventory
    | ReferenceGate      // references
    | Objects            // objects
    | KeyHash            // key_hash
    | ArchiveHash        // archive_sha256
    | EntryCount         // entry_count
    | KeyVersion         // signing_key_version
    | LifecyclePolicy    // lifecycle_policy_version
    | Versions           // versions
    | ActiveKeyVersion   // active_key_version
    | Version            // version
    | Status             // status
    | LedgerRunId        // ledger_archive_run_id
    | BusinessRunId      // business_backup_run_id
    | GenerationId       // recovery_generation_id
    | RestoredEntries    // restored_entry_count
    | CompleteFlag       // complete
    | ValidFlag          // valid
    | CompleteOrder      // complete_order
    | RestoreId          // restore_id
    | BackupManifestHash // backup_manifest_sha256
    | LedgerManifestHash // ledger_manifest_sha256
    | TrafficOpen        // traffic_open
    | ObjectsGate        // business_objects
    | LedgerGate         // ledger_restored_first
    | Checks             // checks
    | Counts             // counts
    | ObjectsAbsent      // objects_absent
    | DatabaseRedacted   // database_redacted
    | LedgerConsistent   // ledger_consistent
    | RecoveryCompleted  // recovery_completed
    | PreparedCount      // prepared_redeletions
    | CompletedCount     // completed_redeletions
    | DeletedCount       // deleted_objects
    | ErrorCode          // safe_error_code
    | TrafficDecision    // production_traffic_decision
    | PointCount         // valid_restore_points
    | Other(text: string)

  /** A binary fraction: an integer halved a number of times, in lowest terms. */
  datatype Halves = Halves(numerator: int, halvings: nat)

  type Fraction = h: Halves | h.halvings == 0 || h.numerator % 2 != 0 witness Halves(0, 0)

  /** A JSON document. `Hash` is a string that spells a SHA-256 digest; every other
      string is a `Str`. */
  datatype Json =
    | Null
    | Bool(truth: bool)
    | Int(number: int)
    | Float(fraction: Fraction)
    | Str(text: string)
    | Hash(digest: Digest)
    | Arr(items: seq<Json>)
    | Obj(fields: map<Field, Json>)

  /** The library calls whose code is not part of the repository. Every theorem holds
      for every choice of them that satisfies the laws it names.
      - `Parse` and `Print` are json.loads and the canonical json.dumps, with floats of any
        precision: that every document is read back as it was printed idealises the codec in
        this one point;
      - `Hex` and `TagHex` spell a digest or a tag in lowercase hexadecimal ASCII;
      - `Utf8` is str.encode, `Utc` is strptime with the fixed UTC format;
      - `IntText` is int(str), `Text` is str(value);
      - `DigestText` is the pattern of 64 lowercase hexadecimal digits. Digests are a free
        constructor here, so there are infinitely many; nothing is said about the length of
        the texts that spell them, only that they match the pattern and differ;
      - `Uuid` is str(UUID(text)), None when that is an error;
      - `Lower` is str.lower;
      - `Leaks` says that a string matches the person-or-secret screen of manifests. */
  datatype Platform = Platform(
    Parse: Bytes -> Option<Json>,
    Print: Json -> Bytes,
    Hex: Digest -> Bytes,
    TagHex: Tag -> Bytes,
    Utf8: string -> Bytes,
    Utc: string -> Option<int>,
    IntText: string -> Option<int>,
    Text: Json -> string,
    DigestText: string -> bool,
    Uuid: string -> Option<string>,
    Lower: string -> string,
    Leaks: string -> bool)

  const NEWLINE: Byte := 10

  predicate IsHexByte(b: Byte) {
    48 <= b <= 57 || 97 <= b <= 102
  }

  predicate IsBlankByte(b: Byte) {
    b == 32 || 9 <= b <= 13 || 28 <= b <= 31
  }

  predicate IsHexText(s: Bytes) {
    s != [] && forall i :: 0 <= i < |s| ==> IsHexByte(s[i])
  }

  /** str.strip on ASCII text: no blank byte is left at either end. */
  function Strip(s: Bytes): Bytes {
    if s != [] && IsBlankByte(s[0]) then Strip(s[1..])
    else if s != [] && IsBlankByte(s[|s| - 1]) then Strip(s[..|s| - 1])
    else s
  }

  /** What the proofs need of the library calls. A platform with these laws exists, as
      Consistency.LawsAreConsistent shows. */
  ghost predicate Lawful(k: Platform) {
    && (forall j :: k.Parse(k.Print(j)) == Some(j))
    && (forall d :: IsHexText(k.Hex(d)))
    && (forall t :: IsHexText(k.TagHex(t)))
    && (forall s :: k.Text(Str(s)) == s)
    && (forall d :: k.DigestText(k.Text(Hash(d))))
    && (forall a, b :: k.Text(Hash(a)) == k.Text(Hash(b)) ==> a == b)
  }

  /** A UUID text is never empty and holds no NUL; its canonical form is canonical. */
  ghost predicate LawfulUuid(k: Platform) {
    && (forall s :: k.Uuid(s).Some? ==> s != "" && '\0' !in s)
    && (forall s :: k.Uuid(s).Some? ==> k.Uuid(k.Uuid(s).value).Some?)
  }

  ghost predicate InjectiveUtf8(k: Platform) {
    forall a, b :: k.Utf8(a) == k.Utf8(b) ==> a == b
  }

  lemma StripHexLine(s: Bytes)
    requires IsHexText(s)
    ensures Strip(s + [NEWLINE]) == s
  {
    var line := s + [NEWLINE];
    assert line[0] == s[0] && line[|line| - 1] == NEWLINE;
    assert line[..|line| - 1] == s;
    assert IsHexByte(s[|s| - 1]);
  }

  // ----- numbers as text -----

  function Digit(n: nat): char
    requires n < 10
  {
    ('0' as int + n) as char
  }

  /** str(n) */
  function Decimal(n: nat): string {
    if n < 10 then [Digit(n)] else Decimal(n / 10) + [Digit(n % 10)]
  }

  // ----- dictionary access -----

  /** dict.get(key) with a default; also the default for a value that is no object. */
  function Get(j: Json, key: Field, default: Json := Null): Json {
    if j.Obj? && key in j.fields then j.fields[key] else default
  }

  predicate HasExactly(j: Json, keys: set<Field>) {
    j.Obj? && j.fields.Keys == keys
  }

  /** The document is an object with this value in this field. */
  predicate Says(j: Json, field: Field, value: Json) {
    j.Obj? && field in j.fields && j.fields[field] == value
  }

  /** The same of the object in a field of the document. */
  predicate SaysIn(j: Json, part: Field, field: Field, value: Json) {
    j.Obj? && part in j.fields && Says(j.fields[part], field, value)
  }

  // ----- Python's view of JSON scalars -----

  function Halved(numerator: int, halvings: nat): real {
    if halvings == 0 then numerator as real else Halved(numerator, halvings - 1) / 2.0
  }

  /** The number a float stands for. */
  function FloatValue(f: Fraction): real {
    Halved(f.numerator, f.halvings)
  }

  /** `value == n` for an integer n: True is 1 and 1.0 is 1. */
  predicate EqualsInt(j: Json, n: int) {
    match j
    case Int(v) => v == n
    case Bool(t) => n == if t then 1 else 0
    case Float(f) => FloatValue(f) == n as real
    case _ => false
  }

  /** isinstance(value, int): True and False are integers. */
  function IntValue(j: Json): Option<int> {
    match j
    case Int(v) => Some(v)
    case Bool(t) => Some(if t then 1 else 0)
    case _ => None
  }

  /** The number a scalar counts as when compared. */
  function Number(j: Json): Option<real> {
    match j
    case Int(v) => Some(v as real)
    case Bool(t) => Some(if t then 1.0 else 0.0)
    case Float(f) => Some(FloatValue(f))
    case _ => None
  }

  /** `a == b`: numbers by value, everything else by structure. */
  predicate Equals(a: Json, b: Json) {
    if Number(a).Some? && Number(b).Some? then Number(a) == Number(b) else a == b
  }

  function Truncate(r: real): int {
    if r >= 0.0 then r.Floor else -((-r).Floor)
  }

  /** int(value); None stands for the TypeError or ValueError. */
  function IntCast(k: Platform, j: Json): Option<int> {
    match j
    case Float(f) => Some(Truncate(FloatValue(f)))
    case Str(s) => k.IntText(s)
    case Hash(_) => k.IntText(k.Text(j))
    case Int(_) => IntValue(j)
    case Bool(_) => IntValue(j)
    case _ => None
  }

  predicate Truthy(j: Json) {
    match j
    case Null => false
    case Bool(t) => t
    case Int(n) => n != 0
    case Float(f) => f.numerator != 0
    case Str(s) => s != ""
    case Hash(_) => true
    case Arr(items) => items != []
    case Obj(fields) => fields != map[]
  }

  /** A string of 64 lowercase hexadecimal digits. */
  predicate IsSha256(k: Platform, j: Json) {
    j.Hash? || (j.Str? && k.DigestText(j.text))
  }

  // ----- run ids -----

  predicate IsAlphaNumeric(c: char) {
    '0' <= c <= '9' || 'A' <= c <= 'Z' || 'a' <= c <= 'z'
  }

  /** RUN_ID_RE: 5 to 128 letters, digits and hyphens, none of them a hyphen at an end. */
  predicate ValidRunId(s: string) {
    && 5 <= |s| <= 128
    && IsAlphaNumeric(s[0])
    && IsAlphaNumeric(s[|s| - 1])
    && forall i :: 0 <= i < |s| ==> IsAlphaNumeric(s[i]) || s[i] == '-'
  }
}
