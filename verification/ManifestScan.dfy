/** The screen every manifest must pass: no field name and no text in it may carry a person,
    an object name or a secret. */
module ManifestScan {
  import opened Foundations

  /** FORBIDDEN_MANIFEST_KEYS */
  predicate Forbidden(name: string) {
    || name == "access_key" || name == "candidate_id" || name == "content"
    || name == "credential" || name == "filename" || name == "object_key"
    || name == "password" || name == "request_id" || name == "secret"
  }

  /** _scan_manifest. A field with a constructor of its own is written in lowercase and is none
      of the forbidden names, so only other names need a look. */
  predicate Clean(k: Platform, j: Json)
    decreases j
  {
    match j
    case Obj(fields) => forall key :: key in fields ==>
      (key.Other? ==> !Forbidden(k.Lower(key.text))) && Clean(k, fields[key])
    case Arr(items) => forall i :: 0 <= i < |items| ==> Clean(k, items[i])
    case Str(text) => !k.Leaks(text)
    case _ => true
  }

  /** `part` is the document itself or lies somewhere within it. */
  ghost predicate Within(part: Json, j: Json)
    decreases j
  {
    part == j ||
    match j
    case Obj(fields) => exists key :: key in fields && Within(part, fields[key])
    case Arr(items) => exists i :: 0 <= i < |items| && Within(part, items[i])
    case _ => false
  }

  /** A text that leaks nothing; an object none of whose fields has a forbidden name. */
  ghost predicate Harmless(k: Platform, part: Json) {
    && (part.Str? ==> !k.Leaks(part.text))
    && (part.Obj? ==> forall key :: key in part.fields && key.Other? ==>
          k.Lower(key.text) !in {"access_key", "candidate_id", "content", "credential", "filename", "object_key",
                                 "password", "request_id", "secret"})
  }

  /** The screen passes exactly the documents that are harmless at every depth. */
  lemma {:induction false} CleanIff(k: Platform, j: Json)
    ensures Clean(k, j) <==> forall part :: Within(part, j) ==> Harmless(k, part)
    decreases j
  {
    match j {
      case Obj(fields) =>
        forall key | key in fields ensures Clean(k, fields[key]) <==> AllHarmless(k, fields[key]) {
          CleanIff(k, fields[key]);
        }
        FieldsHarmless(k, j);
      case Arr(items) =>
        forall i | 0 <= i < |items| ensures Clean(k, items[i]) <==> AllHarmless(k, items[i]) { CleanIff(k, items[i]); }
        ItemsHarmless(k, j);
      case _ => assert Within(j, j);
    }
  }

  ghost predicate AllHarmless(k: Platform, j: Json) {
    forall part :: Within(part, j) ==> Harmless(k, part)
  }

  lemma FieldsHarmless(k: Platform, j: Json)
    requires j.Obj?
    ensures AllHarmless(k, j) <==> Harmless(k, j) && forall key :: key in j.fields ==> AllHarmless(k, j.fields[key])
  {
    assert Within(j, j);
    forall key, part | key in j.fields && Within(part, j.fields[key]) ensures Within(part, j) {}
  }

  lemma ItemsHarmless(k: Platform, j: Json)
    requires j.Arr?
    ensures AllHarmless(k, j) <==> forall i :: 0 <= i < |j.items| ==> AllHarmless(k, j.items[i])
  {
    forall i, part | 0 <= i < |j.items| && Within(part, j.items[i]) ensures Within(part, j) {}
  }
}
