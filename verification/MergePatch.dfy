/** JSON documents, merge patches as section 2 of RFC 7386 applies them, and the two-way
difference the node patcher generates. */
module MergePatch {
  import opened Options

  datatype Json = JNull | JBool(b: bool) | JStr(s: string) | JArr(items: seq<Json>) | JObj(fields: map<string, Json>)

  function FieldsOf(target: Json): map<string, Json> {
    if target.JObj? then target.fields else map[]
  }

  /** MergePatch of section 2 of RFC 7386. */
  function Apply(target: Json, patch: Json): Json
    decreases patch
  {
    if !patch.JObj? then patch
    else
      var base := FieldsOf(target);
      JObj(map k | k in base.Keys + patch.fields.Keys && !(k in patch.fields && patch.fields[k].JNull?) ::
             if k in patch.fields then Apply(if k in base then base[k] else JNull, patch.fields[k]) else base[k])
  }

  /** Applying a merge patch twice is applying it once. */
  lemma {:induction false} ApplyIsIdempotent(target: Json, patch: Json)
    ensures Apply(Apply(target, patch), patch) == Apply(target, patch)
    decreases patch
  {
    if patch.JObj? {
      var base, once := FieldsOf(target), Apply(target, patch);
      forall k | k in patch.fields && !patch.fields[k].JNull?
        ensures Apply(once.fields[k], patch.fields[k]) == once.fields[k]
      {
        ApplyIsIdempotent(if k in base then base[k] else JNull, patch.fields[k]);
      }
      assert Apply(once, patch).fields == once.fields;
    }
  }

  /** The field k of a document, if it is an object with one. */
  function Get(j: Json, k: string): Option<Json> {
    if j.JObj? && k in j.fields then Some(j.fields[k]) else None
  }

  function OrNull(j: Option<Json>): Json {
    if j.Some? then j.value else JNull
  }

  /** The merge patch from one document to another: objects are compared field by field, anything
  else is replaced, a field that is gone becomes null. */
  function Diff(original: Json, modified: Json): Json
    decreases original
  {
    if !original.JObj? || !modified.JObj? then modified
    else
      var o, m := original.fields, modified.fields;
      JObj(map k | k in o.Keys + m.Keys && Get(original, k) != Get(modified, k) ::
             if k !in m then JNull else if k !in o then m[k] else Diff(o[k], m[k]))
  }

  /** No object, at any depth, has a null field: merge patches cannot express those. */
  predicate NoNullFields(j: Json) {
    j.JObj? ==> forall k :: k in j.fields ==> !j.fields[k].JNull? && NoNullFields(j.fields[k])
  }

  lemma {:induction false} ApplyToNothing(target: Json, patch: Json)
    requires !target.JObj? && NoNullFields(patch)
    ensures Apply(target, patch) == patch
    decreases patch
  {
    if patch.JObj? {
      forall k | k in patch.fields ensures Apply(JNull, patch.fields[k]) == patch.fields[k] {
        ApplyToNothing(JNull, patch.fields[k]);
      }
      assert Apply(target, patch).fields == patch.fields;
    }
  }

  /** The patch from a document to another takes the first to the second. */
  lemma {:induction false} DiffThenApply(original: Json, modified: Json)
    requires NoNullFields(modified)
    ensures Apply(original, Diff(original, modified)) == modified
    decreases original
  {
    if !original.JObj? {
      ApplyToNothing(original, modified);
    } else if modified.JObj? {
      var o, m, d := original.fields, modified.fields, Diff(original, modified);
      forall k | k in o.Keys + m.Keys ensures Get(Apply(original, d), k) == Get(modified, k) {
        if k in m && k in o && o[k] != m[k] {
          DiffThenApply(o[k], m[k]);
          DiffOfNonNull(o[k], m[k]);
        } else if k in m && k !in o {
          ApplyToNothing(JNull, m[k]);
        }
      }
      forall k ensures k in Apply(original, d).fields <==> k in m {
        if k in Apply(original, d).fields || k in m { assert k in o.Keys + m.Keys; }
        if k in o.Keys + m.Keys { assert Get(Apply(original, d), k) == Get(modified, k); }
      }
      forall k | k in m ensures Apply(original, d).fields[k] == m[k] {
        assert Get(Apply(original, d), k) == Get(modified, k);
      }
      assert Apply(original, d).fields == m;
    }
  }

  lemma DiffOfNonNull(original: Json, modified: Json)
    requires !modified.JNull?
    ensures !Diff(original, modified).JNull?
  {
  }

  /** What patching any live document does to one field. */
  lemma PatchedField(live: Json, original: Json, modified: Json, k: string)
    requires original.JObj? && modified.JObj? && (k in modified.fields ==> !modified.fields[k].JNull?)
    ensures Get(Apply(live, Diff(original, modified)), k)
         == if Get(original, k) == Get(modified, k) then Get(live, k)
            else if k !in modified.fields then None
            else Some(Apply(OrNull(Get(live, k)), Diff(OrNull(Get(original, k)), modified.fields[k])))
  {
  }
}
