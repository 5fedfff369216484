/** The certificate that the database refers to exactly the objects in the snapshot. */
module ReferenceProof {
  import opened Foundations

  /** What the certificate is pinned to: the validator's name and the text of its query. */
  datatype Pinned = Pinned(validator: string, query: Bytes)

  function KeyDigest(k: Platform, key: string): string {
    k.Text(Hash(Sha256(k.Utf8(key))))
  }

  function KeySet(keys: seq<string>): set<string> {
    set i | 0 <= i < |keys| :: keys[i]
  }

  predicate Distinct(keys: seq<string>) {
    forall i, j :: 0 <= i < j < |keys| ==> keys[i] != keys[j]
  }

  // ----- the inventory -----

  function HashText(k: Platform, item: Json): string {
    k.Text(Get(item, KeyHash, Str("")))
  }

  /** The key hash of every object in the list that is a JSON object; "" where it is missing. */
  function HashTexts(k: Platform, objects: seq<Json>): seq<string> {
    if objects == [] then []
    else (if objects[0].Obj? then [HashText(k, objects[0])] else []) + HashTexts(k, objects[1..])
  }

  function InventoryHashes(k: Platform, objects: seq<Json>): set<string> {
    KeySet(HashTexts(k, objects))
  }

  function ObjectsOf(inventory: Json): Option<seq<Json>> {
    if Get(inventory, Objects).Arr? then Some(Get(inventory, Objects).items) else None
  }

  /** One hash per object, all of them SHA-256 texts. */
  predicate HashesOk(k: Platform, objects: seq<Json>) {
    && |InventoryHashes(k, objects)| == |objects|
    && forall h :: h in InventoryHashes(k, objects) ==> k.DigestText(h)
  }

  // ----- building and validating the certificate -----

  /** No key is repeated or empty. */
  predicate KeysOk(keys: seq<string>) {
    |KeySet(keys)| == |keys| && "" !in KeySet(keys)
  }

  function DatabaseHashes(k: Platform, keys: seq<string>): set<string> {
    Digests(k, KeySet(keys))
  }

  function Digests(k: Platform, names: set<string>): set<string> {
    set name | name in names :: KeyDigest(k, name)
  }

  function Proof(pinned: Pinned, inventory: Digest, count: int, mismatches: int): Json {
    Obj(map[SchemaVersion := Int(1), ValidatorId := Str(pinned.validator),
            QueryFingerprint := Hash(Sha256(pinned.query)), InventoryHash := Hash(inventory),
            Expected := Int(count), Checked := Int(count), Mismatches := Int(mismatches)])
  }

  /** build_reference_proof; None is an error. */
  function BuildProof(k: Platform, pinned: Pinned, keys: seq<string>, inventory: Json): Option<Json> {
    match ObjectsOf(inventory)
    case None => None
    case Some(objects) =>
      if !HashesOk(k, objects) || !KeysOk(keys) then None else
      var database, listed := DatabaseHashes(k, keys), InventoryHashes(k, objects);
      Some(Proof(pinned, Sha256(k.Print(inventory)), |keys|, |(database - listed) + (listed - database)|))
  }

  /** validate_reference_proof: `expected` is the trusted count, `inventory` the trusted hash. */
  predicate ProofOk(pinned: Pinned, proof: Json, expected: Json, inventory: Json) {
    && HasExactly(proof, {SchemaVersion, ValidatorId, QueryFingerprint, InventoryHash, Expected, Checked, Mismatches})
    && EqualsInt(Get(proof, SchemaVersion), 1)
    && Get(proof, ValidatorId) == Str(pinned.validator)
    && Get(proof, QueryFingerprint) == Hash(Sha256(pinned.query))
    && Get(proof, InventoryHash) == inventory
    && IntValue(expected).Some? && IntValue(expected).value >= 0
    && Equals(Get(proof, Expected), expected) && Equals(Get(proof, Checked), expected)
    && EqualsInt(Get(proof, Mismatches), 0)
  }

  lemma DifferenceEmpty(a: set<string>, b: set<string>)
    ensures |(a - b) + (b - a)| == 0 <==> a == b
  {
    var d := (a - b) + (b - a);
    if d != {} {
      var x :| x in d;
      assert |d - {x}| == |d| - 1;
    } else {
      assert forall x :: x in a <==> x in b by {
        assert forall x :: x in a - b ==> x in d;
        assert forall x :: x in b - a ==> x in d;
      }
    }
  }

  lemma ProofFields(pinned: Pinned, inventory: Digest, count: nat, mismatches: int, file: Digest)
    ensures ProofOk(pinned, Proof(pinned, inventory, count, mismatches), Int(count), Hash(file))
            <==> inventory == file && mismatches == 0
  {
  }

  /** The certificate of the command itself is accepted exactly when both sides list the same
      hashes and the inventory file is the canonical text of what was compared. */
  lemma ProofAcceptedIffHashesAgree(k: Platform, pinned: Pinned, keys: seq<string>, inventory: Json, file: Bytes)
    requires BuildProof(k, pinned, keys, inventory).Some?
    ensures
      var objects := ObjectsOf(inventory).value;
      ProofOk(pinned, BuildProof(k, pinned, keys, inventory).value, Int(|keys|), Hash(Sha256(file)))
      <==> file == k.Print(inventory) && DatabaseHashes(k, keys) == InventoryHashes(k, objects)
  {
    var database, listed := DatabaseHashes(k, keys), InventoryHashes(k, ObjectsOf(inventory).value);
    DifferenceEmpty(database, listed);
    ProofFields(pinned, Sha256(k.Print(inventory)), |keys|, |(database - listed) + (listed - database)|, Sha256(file));
  }

  // ----- from hashes back to keys -----

  lemma DigestInjective(k: Platform, a: string, b: string)
    requires Lawful(k) && InjectiveUtf8(k) && KeyDigest(k, a) == KeyDigest(k, b)
    ensures a == b
  {
    assert k.Text(Hash(Sha256(k.Utf8(a)))) == k.Text(Hash(Sha256(k.Utf8(b))));
  }

  lemma DigestsInjective(k: Platform, a: set<string>, b: set<string>)
    requires Lawful(k) && InjectiveUtf8(k) && Digests(k, a) <= Digests(k, b)
    ensures a <= b
  {
    forall x | x in a ensures x in b {
      assert KeyDigest(k, x) in Digests(k, a);
      var y :| y in b && KeyDigest(k, x) == KeyDigest(k, y);
      DigestInjective(k, x, y);
    }
  }

  lemma KeySetSnoc(front: seq<string>, last: string)
    ensures KeySet(front + [last]) == KeySet(front) + {last}
  {
    var keys := front + [last];
    assert keys[|front|] == last;
    forall x | x in KeySet(front) ensures x in KeySet(keys) {
      var i :| 0 <= i < |front| && front[i] == x;
      assert keys[i] == x;
    }
    forall x | x in KeySet(keys) ensures x in KeySet(front) + {last} {
      var i :| 0 <= i < |keys| && keys[i] == x;
      if i < |front| { assert front[i] == x; }
    }
  }

  /** len(set(keys)) == len(keys) says that no key is repeated. */
  lemma {:induction false} KeyCount(keys: seq<string>)
    ensures |KeySet(keys)| <= |keys|
    ensures |KeySet(keys)| == |keys| <==> Distinct(keys)
    decreases |keys|
  {
    if keys != [] {
      var front, last := keys[..|keys| - 1], keys[|keys| - 1];
      assert keys == front + [last];
      KeyCount(front);
      KeySetSnoc(front, last);
      if last in KeySet(front) {
        var i :| 0 <= i < |front| && front[i] == last;
        assert KeySet(keys) == KeySet(front) && keys[i] == keys[|keys| - 1];
      } else {
        assert Distinct(front) <==> Distinct(keys) by {
          assert forall i :: 0 <= i < |front| ==> front[i] == keys[i];
          forall i | 0 <= i < |front| ensures keys[i] != last {
            assert front[i] in KeySet(front);
          }
        }
      }
    }
  }

  lemma {:induction false} DigestCount(k: Platform, names: set<string>)
    requires Lawful(k) && InjectiveUtf8(k)
    ensures |Digests(k, names)| == |names|
    decreases |names|
  {
    if names != {} {
      var x :| x in names;
      var rest := names - {x};
      DigestCount(k, rest);
      assert Digests(k, names) == Digests(k, rest) + {KeyDigest(k, x)};
      if KeyDigest(k, x) in Digests(k, rest) {
        var y :| y in rest && KeyDigest(k, y) == KeyDigest(k, x);
        DigestInjective(k, x, y);
      }
    }
  }

  /** What the certificate certifies. Let the inventory list the objects named `stored`. The
      command's certificate is accepted, for the number of database keys and the hash of the
      inventory file, exactly when the file is canonical and the database refers to exactly the
      stored objects; then the accepted count is the number of objects. */
  lemma ProofCertifiesEquality(
      k: Platform, pinned: Pinned, keys: seq<string>, inventory: Json, stored: set<string>, file: Bytes)
    requires Lawful(k) && InjectiveUtf8(k)
    requires BuildProof(k, pinned, keys, inventory).Some?
    requires InventoryHashes(k, ObjectsOf(inventory).value) == Digests(k, stored)
    ensures
      var accepted := ProofOk(pinned, BuildProof(k, pinned, keys, inventory).value, Int(|keys|), Hash(Sha256(file)));
      && (accepted <==> file == k.Print(inventory) && KeySet(keys) == stored)
      && (accepted ==> |keys| == |ObjectsOf(inventory).value|)
  {
    ProofAcceptedIffHashesAgree(k, pinned, keys, inventory, file);
    if DatabaseHashes(k, keys) == Digests(k, stored) {
      DigestsInjective(k, KeySet(keys), stored);
      DigestsInjective(k, stored, KeySet(keys));
      DigestCount(k, KeySet(keys));
    }
  }

  lemma {:induction false} HashTextsCount(k: Platform, objects: seq<Json>)
    ensures |HashTexts(k, objects)| <= |objects|
    ensures |HashTexts(k, objects)| == |objects| <==> forall i :: 0 <= i < |objects| ==> objects[i].Obj?
    ensures |HashTexts(k, objects)| == |objects| ==>
              forall i :: 0 <= i < |objects| ==> HashTexts(k, objects)[i] == HashText(k, objects[i])
    decreases |objects|
  {
    if objects != [] {
      HashTextsCount(k, objects[1..]);
      assert objects == [objects[0]] + objects[1..];
      assert (forall i :: 0 <= i < |objects| ==> objects[i].Obj?) <==>
             objects[0].Obj? && (forall i :: 0 <= i < |objects[1..]| ==> objects[1..][i].Obj?);
    }
  }

  /** An inventory object has a readable key hash. */
  predicate Hashed(k: Platform, item: Json) {
    item.Obj? && k.DigestText(HashText(k, item))
  }

  /** Which inventories are fit for comparison: every object has its own SHA-256 key hash. */
  lemma InventoryFitIff(k: Platform, objects: seq<Json>)
    ensures HashesOk(k, objects) <==>
            && (forall i :: 0 <= i < |objects| ==> Hashed(k, objects[i]))
            && (forall i, j :: 0 <= i < j < |objects| ==> HashText(k, objects[i]) != HashText(k, objects[j]))
  {
    var texts := HashTexts(k, objects);
    HashTextsCount(k, objects);
    KeyCount(texts);
    if |texts| == |objects| {
      assert forall i :: 0 <= i < |objects| ==> texts[i] in KeySet(texts);
      assert Distinct(texts) <==>
        (forall i, j :: 0 <= i < j < |objects| ==> HashText(k, objects[i]) != HashText(k, objects[j]));
    }
  }
}
