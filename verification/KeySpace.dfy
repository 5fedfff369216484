/** Destinations and object names: why two clients can only meet on one object if they mean
    the same run, prefix and member. */
module KeySpace {
  import opened Foundations
  import opened GroupRules
  import opened PublisherProtocol
  import opened Pieces

  // ----- destinations -----

  /** The components urlparse finds; an absent user name or password is "". */
  datatype Url = Url(
    scheme: string, username: string, password: string, netloc: string,
    path: string, params: string, query: string, fragment: string)

  datatype Destination = Destination(alias: string, bucket: string, prefix: seq<string>)

  predicate ValidAlias(s: string) {
    && 1 <= |s| <= 64
    && IsAlphaNumeric(s[0])
    && forall i :: 0 <= i < |s| ==> IsAlphaNumeric(s[i]) || s[i] == '_' || s[i] == '-'
  }

  predicate IsBucketEnd(c: char) {
    '0' <= c <= '9' || 'a' <= c <= 'z'
  }

  predicate ValidBucket(s: string) {
    && 3 <= |s| <= 63
    && IsBucketEnd(s[0]) && IsBucketEnd(s[|s| - 1])
    && forall i :: 0 <= i < |s| ==> IsBucketEnd(s[i]) || s[i] == '.' || s[i] == '-'
  }

  /** [unquote(part) for part in path.split("/") if part] */
  function PathParts(unquote: string -> string, pieces: seq<string>): seq<string> {
    if pieces == [] then []
    else (if pieces[0] == "" then [] else [unquote(pieces[0])]) + PathParts(unquote, pieces[1..])
  }

  predicate UnsafePart(part: string) {
    part == "." || part == ".." || '/' in part || '\\' in part
  }

  /** `url` is what urlparse makes of `value`. */
  function ParseDestination(unquote: string -> string, value: string, url: Url): Option<Destination> {
    if '\\' in value || '%' in value then None else
    if url.scheme != "s3" && url.scheme != "minio" then None else
    if url.username != "" || url.password != "" then None else
    if url.query != "" || url.fragment != "" || url.params != "" then None else
    var parts := PathParts(unquote, Split('/', url.path));
    if exists i :: 0 <= i < |parts| && UnsafePart(parts[i]) then None else
    if url.scheme == "minio" && parts == [] then None else
    var alias := if url.scheme == "s3" then "s3" else url.netloc;
    var bucket := if url.scheme == "s3" then url.netloc else parts[0];
    var prefix := if url.scheme == "s3" then parts else parts[1..];
    if ValidAlias(alias) && ValidBucket(bucket) then Some(Destination(alias, bucket, prefix)) else None
  }

  /** The string the code builds for the group root. */
  function GroupRoot(d: Destination): string {
    var prefix := if d.prefix == [] then "" else Join('/', d.prefix);
    d.alias + "/" + d.bucket + if prefix == "" then "" else "/" + prefix
  }

  const LEASE_PREFIX := ".ux09-private-leases"

  function LeaseRoot(d: Destination): string {
    d.alias + "/" + d.bucket + "/" + LEASE_PREFIX
  }

  function MemberName(m: Member): string {
    match m
    case DatabaseDump => "database.dump"
    case BusinessSnapshot => "business.snapshot"
    case Inventory => "inventory.jsonl"
    case ReferenceProof => "reference-proof.json"
    case Manifest => "manifest.json"
    case ManifestSig => "manifest.sig"
    case LedgerArchive => "ledger.archive"
    case LedgerManifest => "ledger-manifest.json"
    case LedgerManifestSig => "ledger-manifest.sig"
    case Complete => "COMPLETE"
  }

  /** The target a publisher with destination `d` uses for an object of the protocol. */
  function TargetText(d: Destination, key: Key): string {
    match key
    case LeaseKey(run) => LeaseRoot(d) + "/" + run
    case MemberKey(_, run, member) => GroupRoot(d) + "/" + run + "/" + MemberName(member)
  }

  /** A key that a publisher with this destination can touch. */
  predicate Names(d: Destination, key: Key) {
    ValidRunId(key.run) && (key.MemberKey? ==> key.prefix == d.prefix)
  }

  predicate NoSlash(s: string) {
    forall i :: 0 <= i < |s| ==> s[i] != '/'
  }

  lemma MemberNames(m: Member)
    ensures Free('/', MemberName(m))
  {
    match m {
      case DatabaseDump => assert NoSlash("database.dump");
      case BusinessSnapshot => assert NoSlash("business.snapshot");
      case Inventory => assert NoSlash("inventory.jsonl");
      case ReferenceProof => assert NoSlash("reference-proof.json");
      case Manifest => assert NoSlash("manifest.json");
      case ManifestSig => assert NoSlash("manifest.sig");
      case LedgerArchive => assert NoSlash("ledger.archive");
      case LedgerManifest => assert NoSlash("ledger-manifest.json");
      case LedgerManifestSig => assert NoSlash("ledger-manifest.sig");
      case Complete => assert NoSlash("COMPLETE");
    }
  }

  /** A character that tells two member names apart. */
  lemma MemberNamesDiffer(a: Member, b: Member)
    requires MemberName(a) == MemberName(b)
    ensures a == b
  {
    var s, t := MemberName(a), MemberName(b);
    assert |s| == |t| && s[0] == t[0];
  }

  lemma {:induction false} PathPartsClean(unquote: string -> string, pieces: seq<string>)
    requires forall s :: '%' !in s ==> unquote(s) == s
    requires AllFree('/', pieces) && forall p :: p in pieces ==> '%' !in p
    ensures AllFree('/', PathParts(unquote, pieces))
    ensures forall p :: p in PathParts(unquote, pieces) ==> p != ""
    decreases |pieces|
  {
    if pieces != [] {
      PathPartsClean(unquote, pieces[1..]);
      assert pieces[0] in pieces;
    }
  }

  lemma RunIdIsSegment(run: string)
    requires ValidRunId(run)
    ensures Free('/', run) && run != LEASE_PREFIX
  {
    assert LEASE_PREFIX[0] == '.';
  }

  predicate CleanDestination(d: Destination) {
    Free('/', d.alias) && Free('/', d.bucket) && AllFree('/', d.prefix) && forall p :: p in d.prefix ==> p != ""
  }

  /** What an accepted destination is made of: slash-free, non-empty names. */
  lemma AcceptedDestination(unquote: string -> string, value: string, url: Url)
    requires forall s :: '%' !in s ==> unquote(s) == s
    requires forall c :: c in url.path ==> c in value
    requires ParseDestination(unquote, value, url).Some?
    ensures CleanDestination(ParseDestination(unquote, value, url).value)
  {
    var d := ParseDestination(unquote, value, url).value;
    var parts := PathParts(unquote, Split('/', url.path));
    assert AllFree('/', parts) && (forall p :: p in parts ==> p != "") by {
      assert '%' !in value;
      PathPartsClean(unquote, Split('/', url.path));
    }
    forall p | p in d.prefix ensures p in parts {
      var i :| 0 <= i < |d.prefix| && d.prefix[i] == p;
      assert p == parts[i] || (url.scheme == "minio" && p == parts[1..][i]);
    }
    AliasIsSegment(d.alias);
    BucketIsSegment(d.bucket);
  }

  lemma AliasIsSegment(s: string)
    requires ValidAlias(s)
    ensures Free('/', s)
  {
  }

  lemma BucketIsSegment(s: string)
    requires ValidBucket(s)
    ensures Free('/', s)
  {
  }

  function PathOf(d: Destination, key: Key): seq<string> {
    match key
    case LeaseKey(run) => [d.alias, d.bucket, LEASE_PREFIX, run]
    case MemberKey(_, run, member) => [d.alias, d.bucket] + d.prefix + [run, MemberName(member)]
  }

  lemma JoinNonEmpty(parts: seq<string>)
    requires parts != [] && parts[0] != ""
    ensures Join('/', parts) != ""
  {
  }

  lemma JoinTwo(a: string, b: string)
    ensures Join('/', [a, b]) == a + "/" + b
  {
    assert [a, b][1..] == [b];
  }

  lemma GroupRootIsPath(d: Destination)
    requires CleanDestination(d)
    ensures GroupRoot(d) == Join('/', [d.alias, d.bucket] + d.prefix)
  {
    JoinTwo(d.alias, d.bucket);
    if d.prefix == [] {
      assert [d.alias, d.bucket] + d.prefix == [d.alias, d.bucket];
      assert GroupRoot(d) == d.alias + "/" + d.bucket;
    } else {
      assert d.prefix[0] in d.prefix;
      JoinNonEmpty(d.prefix);
      JoinConcat('/', [d.alias, d.bucket], d.prefix);
      assert GroupRoot(d) == d.alias + "/" + d.bucket + "/" + Join('/', d.prefix);
    }
  }

  lemma LeaseRootIsPath(d: Destination)
    ensures LeaseRoot(d) == Join('/', [d.alias, d.bucket, LEASE_PREFIX])
  {
    JoinTwo(d.alias, d.bucket);
    JoinConcat('/', [d.alias, d.bucket], [LEASE_PREFIX]);
    assert [d.alias, d.bucket] + [LEASE_PREFIX] == [d.alias, d.bucket, LEASE_PREFIX];
  }

  /** The concatenations in the code spell exactly the slash-joined path. */
  lemma TargetIsPath(d: Destination, key: Key)
    requires CleanDestination(d)
    ensures TargetText(d, key) == Join('/', PathOf(d, key))
  {
    match key {
      case LeaseKey(run) =>
        LeaseRootIsPath(d);
        JoinConcat('/', [d.alias, d.bucket, LEASE_PREFIX], [run]);
        assert PathOf(d, key) == [d.alias, d.bucket, LEASE_PREFIX] + [run];
      case MemberKey(_, run, member) =>
        GroupRootIsPath(d);
        JoinTwo(run, MemberName(member));
        JoinConcat('/', [d.alias, d.bucket] + d.prefix, [run, MemberName(member)]);
        assert GroupRoot(d) + "/" + (run + "/" + MemberName(member))
               == GroupRoot(d) + "/" + run + "/" + MemberName(member);
    }
  }

  lemma PathSegments(d: Destination, key: Key)
    requires CleanDestination(d) && Names(d, key)
    ensures AllFree('/', PathOf(d, key))
  {
    RunIdIsSegment(key.run);
    match key {
      case LeaseKey(_) =>
        var path := PathOf(d, key);
        assert forall c :: c in LEASE_PREFIX ==> c != '/';
        forall p | p in path ensures Free('/', p) {
          assert p == path[0] || p == path[1] || p == path[2] || p == path[3];
        }
      case MemberKey(_, _, member) =>
        MemberNames(member);
    }
  }

  /** Keys of the protocol and provider targets correspond one to one: for every two accepted
      destinations and valid run ids, equal targets mean the same alias, bucket and key. In
      particular no member of a group is ever a lease, whatever its prefix. */
  lemma TargetsAreDistinct(
      unquote: string -> string,
      v1: string, u1: Url, k1: Key,
      v2: string, u2: Url, k2: Key)
    requires forall s :: '%' !in s ==> unquote(s) == s
    requires forall c :: c in u1.path ==> c in v1
    requires forall c :: c in u2.path ==> c in v2
    requires ParseDestination(unquote, v1, u1).Some? && ParseDestination(unquote, v2, u2).Some?
    requires Names(ParseDestination(unquote, v1, u1).value, k1) && Names(ParseDestination(unquote, v2, u2).value, k2)
    requires TargetText(ParseDestination(unquote, v1, u1).value, k1)
             == TargetText(ParseDestination(unquote, v2, u2).value, k2)
    ensures
      var d1, d2 := ParseDestination(unquote, v1, u1).value, ParseDestination(unquote, v2, u2).value;
      d1.alias == d2.alias && d1.bucket == d2.bucket && k1 == k2
  {
    var d1, d2 := ParseDestination(unquote, v1, u1).value, ParseDestination(unquote, v2, u2).value;
    AcceptedDestination(unquote, v1, u1);
    AcceptedDestination(unquote, v2, u2);
    PathsAreDistinct(d1, k1, d2, k2);
  }

  lemma PathsAreDistinct(d1: Destination, k1: Key, d2: Destination, k2: Key)
    requires CleanDestination(d1) && CleanDestination(d2) && Names(d1, k1) && Names(d2, k2)
    requires TargetText(d1, k1) == TargetText(d2, k2)
    ensures d1.alias == d2.alias && d1.bucket == d2.bucket && k1 == k2
  {
    TargetIsPath(d1, k1);
    TargetIsPath(d2, k2);
    PathSegments(d1, k1);
    PathSegments(d2, k2);
    var p1, p2 := PathOf(d1, k1), PathOf(d2, k2);
    JoinInjective('/', p1, p2);
    assert p1[0] == p2[0] && p1[1] == p2[1] && p1[|p1| - 1] == p2[|p2| - 1] && p1[|p1| - 2] == p2[|p2| - 2];
    RunIdIsSegment(k1.run);
    RunIdIsSegment(k2.run);
    if k1.MemberKey? && k2.MemberKey? {
      MemberNamesDiffer(k1.member, k2.member);
      assert d1.prefix == p1[2..|p1| - 2] && d2.prefix == p2[2..|p2| - 2];
    }
  }
}
