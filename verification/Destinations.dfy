/** Which destinations are accepted and what they mean, and the names the objects of a group have. */
module Destinations {
  import opened Foundations
  import opened GroupRules
  import opened PublisherProtocol
  import opened Pieces
  import opened KeySpace
  import opened Scalars

  // ----- destinations -----

  /** A letter or digit, and up to 63 letters, digits, underscores and hyphens. */
  ghost predicate AliasOf(s: string, first: char, rest: string) {
    && s == [first] + rest && Letter(first) && |rest| <= 63
    && forall i :: 0 <= i < |rest| ==> Letter(rest[i]) || rest[i] == '_' || rest[i] == '-'
  }

  lemma AliasIff(s: string)
    ensures ValidAlias(s) <==> exists first, rest :: AliasOf(s, first, rest)
  {
    if ValidAlias(s) { assert AliasOf(s, s[0], s[1..]); }
    if first, rest :| AliasOf(s, first, rest) { assert forall i :: 0 < i < |s| ==> s[i] == rest[i - 1]; }
  }

  ghost predicate BucketEnd(c: char) {
    '0' <= c <= '9' || 'a' <= c <= 'z'
  }

  /** A lowercase letter or digit at each end, and 1 to 61 of these, dots and hyphens between. */
  ghost predicate BucketOf(s: string, first: char, middle: string, last: char) {
    && s == [first] + middle + [last] && BucketEnd(first) && BucketEnd(last) && 1 <= |middle| <= 61
    && forall i :: 0 <= i < |middle| ==> BucketEnd(middle[i]) || middle[i] == '.' || middle[i] == '-'
  }

  lemma BucketIff(s: string)
    ensures ValidBucket(s) <==> exists first, middle, last :: BucketOf(s, first, middle, last)
  {
    if ValidBucket(s) {
      var middle := s[1..|s| - 1];
      assert s == [s[0]] + middle + [s[|s| - 1]];
      assert BucketOf(s, s[0], middle, s[|s| - 1]);
    }
    if first, middle, last :| BucketOf(s, first, middle, last) { BucketValid(s, first, middle, last); }
  }

  lemma BucketValid(s: string, first: char, middle: string, last: char)
    requires BucketOf(s, first, middle, last)
    ensures ValidBucket(s)
  {
    forall i | 0 <= i < |s| ensures IsBucketEnd(s[i]) || s[i] == '.' || s[i] == '-' {
      if 0 < i < |s| - 1 { assert s[i] == middle[i - 1]; }
    }
  }

  /** The pieces that are not empty, unquoted, in their order. */
  lemma {:induction false} PartsAre(unquote: string -> string, front: seq<string>, piece: string)
    ensures PathParts(unquote, []) == []
    ensures PathParts(unquote, front + [piece]) ==
            PathParts(unquote, front) + if piece == "" then [] else [unquote(piece)]
    decreases |front|
  {
    if front == [] {
      assert front + [piece] == [piece] && [piece][1..] == [];
    } else {
      assert (front + [piece])[0] == front[0] && (front + [piece])[1..] == front[1..] + [piece];
      PartsAre(unquote, front[1..], piece);
    }
  }

  /** A URL of these parts names this destination: an s3 URL its host as bucket and its whole path as
      prefix, a minio URL its host as alias and the first part of its path as bucket. */
  ghost predicate Meant(url: Url, parts: seq<string>, d: Destination) {
    || (url.scheme == "s3" && d.alias == "s3" && d.bucket == url.netloc && d.prefix == parts)
    || (url.scheme == "minio" && d.alias == url.netloc && parts == [d.bucket] + d.prefix)
  }

  /** A destination is accepted, and means this, exactly when its text has no backslash and no percent
      sign, its URL is s3 or minio without user, password, query, fragment and parameters, no part of
      its path is a dot segment or holds a slash, and alias and bucket are well formed. */
  lemma DestinationIff(unquote: string -> string, value: string, url: Url, d: Destination)
    ensures ParseDestination(unquote, value, url) == Some(d) <==>
      && '\\' !in value && '%' !in value
      && url.username == "" && url.password == "" && url.query == "" && url.fragment == "" && url.params == ""
      && var parts := PathParts(unquote, Split('/', url.path));
      && (forall i :: 0 <= i < |parts| ==>
            parts[i] != "." && parts[i] != ".." && '/' !in parts[i] && '\\' !in parts[i])
      && Meant(url, parts, d)
      && (exists first, rest :: AliasOf(d.alias, first, rest))
      && (exists first, middle, last :: BucketOf(d.bucket, first, middle, last))
  {
    var parts := PathParts(unquote, Split('/', url.path));
    AliasIff(d.alias);
    BucketIff(d.bucket);
    assert "s3" != "minio" by { assert |"s3"| == 2 && |"minio"| == 5; }
    if url.scheme == "minio" && parts != [] {
      assert parts == [parts[0]] + parts[1..];
      AliasIff(url.netloc);
      BucketIff(parts[0]);
    }
  }

  // ----- object names -----

  ghost function NamesOf(order: seq<Member>): seq<string> {
    seq(|order|, i requires 0 <= i < |order| => MemberName(order[i]))
  }

  /** The first text comes before the second, character by character. */
  ghost predicate SortsBefore(a: string, b: string) {
    exists n :: DiffersAt(a, b, n)
  }

  ghost predicate DiffersAt(a: string, b: string, n: nat) {
    n < |a| && n < |b| && a[..n] == b[..n] && a[n] < b[n]
  }

  /** The objects of a group, by name, in the order they are uploaded and downloaded. */
  lemma OrderOfNames()
    ensures NamesOf(PutOrder(Business)) == ["business.snapshot", "database.dump", "inventory.jsonl", "manifest.json",
                                            "manifest.sig", "reference-proof.json", "COMPLETE"]
    ensures NamesOf(PutOrder(Ledger)) == ["ledger-manifest.json", "ledger-manifest.sig", "ledger.archive", "COMPLETE"]
    ensures NamesOf(FetchOrder(Business)) == ["COMPLETE", "business.snapshot", "database.dump", "inventory.jsonl",
                                              "manifest.json", "manifest.sig", "reference-proof.json"]
    ensures NamesOf(FetchOrder(Ledger)) == ["COMPLETE", "ledger-manifest.json", "ledger-manifest.sig", "ledger.archive"]
  {
  }

  /** Downloads follow the sorted names. */
  lemma NamesAreSorted(kind: Kind, i: nat)
    requires i + 1 < |FetchOrder(kind)|
    ensures SortsBefore(MemberName(FetchOrder(kind)[i]), MemberName(FetchOrder(kind)[i + 1]))
  {
    var a, b := MemberName(FetchOrder(kind)[i]), MemberName(FetchOrder(kind)[i + 1]);
    var n := if i == 0 then 0 else if kind.Business? then (if i == 4 then 9 else 0) else if i == 1 then 16 else 6;
    assert DiffersAt(a, b, n);
  }

  /** Where the objects of a run go, for an s3 destination with one prefix part. */
  lemma TargetsSpelledOut(bucket: string, part: string, run: string)
    requires part != ""
    ensures
      var d := Destination("s3", bucket, [part]);
      && TargetText(d, LeaseKey(run)) == "s3/" + bucket + "/.ux09-private-leases/" + run
      && TargetText(d, MemberKey([part], run, Complete)) == "s3/" + bucket + "/" + part + "/" + run + "/COMPLETE"
  {
    var d := Destination("s3", bucket, [part]);
    assert Join('/', [part]) == part;
    assert LeaseRoot(d) + "/" + run == "s3/" + bucket + "/.ux09-private-leases/" + run;
    assert GroupRoot(d) == "s3/" + bucket + "/" + part;
  }
}
