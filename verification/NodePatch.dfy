/** The patch the node patcher writes, and what it can and cannot do to a live node. */
module NodePatch {
  import opened Options
  import opened MergePatch

  datatype Taint = Taint(key: string, value: string, effect: string)

  /** The patchable fields of a node. None is a nil map or slice. */
  datatype Node = Node(
    labels: Option<map<string, string>>,
    annotations: Option<map<string, string>>,
    taints: Option<seq<Taint>>,
    unschedulable: bool,
    resourceVersion: string)

  function StringsJson(m: map<string, string>): Json {
    JObj(map k | k in m :: JStr(m[k]))
  }

  function TaintJson(t: Taint): Json {
    JObj(map["key" := JStr(t.key), "effect" := JStr(t.effect)]
         + if t.value == "" then map[] else map["value" := JStr(t.value)])
  }

  function TaintsJson(ts: seq<Taint>): Json {
    JArr(seq(|ts|, i requires 0 <= i < |ts| => TaintJson(ts[i])))
  }

  function Field(k: string, present: bool, v: Json): map<string, Json> {
    if present then map[k := v] else map[]
  }

  /** Empty lists and false flags are left out of the document. */
  function SpecJson(n: Node): Json {
    JObj(Field("taints", n.taints.Some? && n.taints.value != [], TaintsJson(TaintList(n)))
         + Field("unschedulable", n.unschedulable, JBool(true)))
  }

  function TaintList(n: Node): seq<Taint> {
    if n.taints.Some? then n.taints.value else []
  }

  function Entries(m: Option<map<string, string>>): map<string, string> {
    if m.Some? then m.value else map[]
  }

  /** The metadata of a projection: a map either side carries is kept, even when empty. */
  function MetaJson(n: Node, keepLabels: bool, keepAnnotations: bool, version: string): Json {
    JObj(Field("labels", keepLabels, StringsJson(Entries(n.labels)))
         + Field("annotations", keepAnnotations, StringsJson(Entries(n.annotations)))
         + Field("resourceVersion", version != "", JStr(version)))
  }

  predicate SpecChanged(original: Node, modified: Node) {
    original.taints != modified.taints || original.unschedulable != modified.unschedulable
  }

  predicate KeepLabels(original: Node, modified: Node) {
    original.labels.Some? || modified.labels.Some?
  }

  predicate KeepAnnotations(original: Node, modified: Node) {
    original.annotations.Some? || modified.annotations.Some?
  }

  function Document(meta: Json, spec: Json): Json {
    JObj(map["metadata" := meta, "spec" := spec])
  }

  function OriginalMeta(o: Node, m: Node): Json {
    MetaJson(o, KeepLabels(o, m), KeepAnnotations(o, m), "")
  }

  function ModifiedMeta(o: Node, m: Node): Json {
    MetaJson(m, KeepLabels(o, m), KeepAnnotations(o, m), if SpecChanged(o, m) then o.resourceVersion else "")
  }

  function PatchDocument(o: Node, m: Node): Json {
    Diff(Document(OriginalMeta(o, m), SpecJson(o)), Document(ModifiedMeta(o, m), SpecJson(m)))
  }

  /** NodeMergePatch: None when there is nothing to write. */
  function NodeMergePatch(o: Node, m: Node): Option<Json> {
    if PatchDocument(o, m) == JObj(map[]) then None else Some(PatchDocument(o, m))
  }

  /** What the live document becomes. */
  function Patched(live: Json, o: Node, m: Node): Json {
    if NodeMergePatch(o, m).None? then live else Apply(live, NodeMergePatch(o, m).value)
  }

  function Metadata(doc: Json): Json { OrNull(Get(doc, "metadata")) }

  function Spec(doc: Json): Json { OrNull(Get(doc, "spec")) }

  lemma EmptyPatch(live: Json)
    requires live.JObj?
    ensures Apply(live, JObj(map[])) == live
  {
  }

  lemma PatchedIsApply(live: Json, o: Node, m: Node)
    requires live.JObj?
    ensures Patched(live, o, m) == Apply(live, PatchDocument(o, m))
  {
    EmptyPatch(live);
  }

  lemma {:induction false} DiffOfEqualObjects(a: Json)
    requires a.JObj?
    ensures Diff(a, a) == JObj(map[])
  {
  }

  /** A part of the live document as the patch leaves it. */
  function PatchedPart(live: Json, a: Json, b: Json): Json {
    if a == b then live else Apply(live, Diff(a, b))
  }

  /** Metadata and spec are patched independently, and nothing else is. */
  lemma PatchedDocument(live: Json, meta: Json, spec: Json, meta': Json, spec': Json, k: string)
    requires live.JObj? && !meta'.JNull? && !spec'.JNull?
    ensures var r := Apply(live, Diff(Document(meta, spec), Document(meta', spec')));
      && (k != "metadata" && k != "spec" ==> Get(r, k) == Get(live, k))
      && Metadata(r) == PatchedPart(Metadata(live), meta, meta')
      && Spec(r) == PatchedPart(Spec(live), spec, spec')
  {
    var d, d' := Document(meta, spec), Document(meta', spec');
    PatchedField(live, d, d', k);
    PatchedField(live, d, d', "metadata");
    PatchedField(live, d, d', "spec");
  }

  /** A field of a part as the patch leaves it. */
  lemma PatchedPartField(live: Json, a: Json, b: Json, k: string)
    requires a.JObj? && b.JObj? && (k in b.fields ==> !b.fields[k].JNull?)
    ensures Get(PatchedPart(live, a, b), k)
         == if Get(a, k) == Get(b, k) then Get(live, k)
            else if Get(b, k).None? then None
            else Some(Apply(OrNull(Get(live, k)), Diff(OrNull(Get(a, k)), Get(b, k).value)))
  {
  }

  lemma PatchedParts(live: Json, o: Node, m: Node, k: string)
    requires live.JObj?
    ensures var r := Patched(live, o, m);
      && (k != "metadata" && k != "spec" ==> Get(r, k) == Get(live, k))
      && Metadata(r) == PatchedPart(Metadata(live), OriginalMeta(o, m), ModifiedMeta(o, m))
      && Spec(r) == PatchedPart(Spec(live), SpecJson(o), SpecJson(m))
  {
    PatchedIsApply(live, o, m);
    PatchedDocument(live, OriginalMeta(o, m), SpecJson(o), ModifiedMeta(o, m), SpecJson(m), k);
  }

  lemma PatchedSpec(live: Json, o: Node, m: Node, k: string)
    requires live.JObj?
    ensures var a, b, r := SpecJson(o), SpecJson(m), Spec(Patched(live, o, m));
      Get(r, k) == if Get(a, k) == Get(b, k) then Get(Spec(live), k)
                   else if Get(b, k).None? then None
                   else Some(Apply(OrNull(Get(Spec(live), k)), Diff(OrNull(Get(a, k)), Get(b, k).value)))
  {
    PatchedParts(live, o, m, "spec");
    PatchedPartField(Spec(live), SpecJson(o), SpecJson(m), k);
  }

  function StringAt(m: map<string, string>, k: string): Option<Json> {
    if k in m then Some(JStr(m[k])) else None
  }

  /** One entry of a map that both sides of the difference carry. */
  lemma PatchedEntry(live: Json, a: map<string, string>, b: map<string, string>, k: string)
    ensures Get(Apply(live, Diff(StringsJson(a), StringsJson(b))), k)
         == if StringAt(a, k) == StringAt(b, k) then Get(live, k) else StringAt(b, k)
  {
  }

  /** What becomes of entry k of a map of strings. */
  function EntryAfter(before: Json, a: map<string, string>, b: map<string, string>, k: string): Option<Json> {
    if StringAt(a, k) == StringAt(b, k) then Get(before, k) else StringAt(b, k)
  }

  /** A map under field f that both sides carry or, being empty on both, leave out. */
  lemma PatchedMap(live: Json, x: Json, y: Json, f: string, keep: bool, a: map<string, string>, b: map<string, string>,
                   k: string)
    requires x.JObj? && y.JObj? && (!keep ==> a == b)
    requires Get(x, f) == (if keep then Some(StringsJson(a)) else None)
    requires Get(y, f) == (if keep then Some(StringsJson(b)) else None)
    ensures Get(OrNull(Get(PatchedPart(live, x, y), f)), k) == EntryAfter(OrNull(Get(live, f)), a, b, k)
  {
    PatchedPartField(live, x, y, f);
    StringsJsonInjective(a, b);
    PatchedEntry(OrNull(Get(live, f)), a, b, k);
  }

  /** The label and annotation maps of any live node: an entry changes only if original and
  modified differ on it, and then to what modified says; every other entry stays, also when
  modified has emptied its map. */
  lemma EntriesPatched(live: Json, o: Node, m: Node, k: string)
    requires live.JObj?
    ensures var before, after := Metadata(live), Metadata(Patched(live, o, m));
      && Get(OrNull(Get(after, "labels")), k)
         == EntryAfter(OrNull(Get(before, "labels")), Entries(o.labels), Entries(m.labels), k)
      && Get(OrNull(Get(after, "annotations")), k)
         == EntryAfter(OrNull(Get(before, "annotations")), Entries(o.annotations), Entries(m.annotations), k)
  {
    PatchedParts(live, o, m, "metadata");
    MetaFields(o, m);
    var x, y := OriginalMeta(o, m), ModifiedMeta(o, m);
    PatchedMap(Metadata(live), x, y, "labels", KeepLabels(o, m), Entries(o.labels), Entries(m.labels), k);
    PatchedMap(Metadata(live), x, y, "annotations", KeepAnnotations(o, m),
               Entries(o.annotations), Entries(m.annotations), k);
  }

  function Kept(keep: bool, entries: map<string, string>): Option<Json> {
    if keep then Some(StringsJson(entries)) else None
  }

  lemma MetaFields(o: Node, m: Node)
    ensures var a, b := OriginalMeta(o, m), ModifiedMeta(o, m);
      && Get(a, "labels") == Kept(KeepLabels(o, m), Entries(o.labels))
      && Get(b, "labels") == Kept(KeepLabels(o, m), Entries(m.labels))
      && Get(a, "annotations") == Kept(KeepAnnotations(o, m), Entries(o.annotations))
      && Get(b, "annotations") == Kept(KeepAnnotations(o, m), Entries(m.annotations))
      && Get(a, "resourceVersion") == None
      && Get(b, "resourceVersion")
      == (if SpecChanged(o, m) && o.resourceVersion != "" then Some(JStr(o.resourceVersion)) else None)
  {
  }

  /** Nothing outside the supported fields is touched. */
  lemma OtherFieldsUntouched(live: Json, o: Node, m: Node, k: string)
    requires live.JObj?
    ensures k != "metadata" && k != "spec" ==> Get(Patched(live, o, m), k) == Get(live, k)
    ensures k != "labels" && k != "annotations" && k != "resourceVersion" ==>
      Get(Metadata(Patched(live, o, m)), k) == Get(Metadata(live), k)
    ensures k != "taints" && k != "unschedulable" ==> Get(Spec(Patched(live, o, m)), k) == Get(Spec(live), k)
  {
    PatchedParts(live, o, m, k);
    if k != "labels" && k != "annotations" && k != "resourceVersion" {
      PatchedPartField(Metadata(live), OriginalMeta(o, m), ModifiedMeta(o, m), k);
    }
    PatchedSpec(live, o, m, k);
  }

  /** Taints and cordon state are replaced whole if the caller changed them and kept otherwise. */
  lemma SpecPatched(live: Json, o: Node, m: Node)
    requires live.JObj?
    ensures Get(Spec(Patched(live, o, m)), "taints")
         == if Get(SpecJson(o), "taints") == Get(SpecJson(m), "taints") then Get(Spec(live), "taints")
            else Get(SpecJson(m), "taints")
    ensures Get(Spec(Patched(live, o, m)), "unschedulable")
         == if o.unschedulable == m.unschedulable then Get(Spec(live), "unschedulable")
            else Get(SpecJson(m), "unschedulable")
  {
    PatchedSpec(live, o, m, "taints");
    PatchedSpec(live, o, m, "unschedulable");
  }

  // What a spec document says.

  function TextAt(j: Json, k: string): string {
    if Get(j, k).Some? && Get(j, k).value.JStr? then Get(j, k).value.s else ""
  }

  function ReadTaints(j: Option<Json>): seq<Taint> {
    if j.None? || !j.value.JArr? then []
    else
      var items := j.value.items;
      seq(|items|, i requires 0 <= i < |items| =>
            Taint(TextAt(items[i], "key"), TextAt(items[i], "value"), TextAt(items[i], "effect")))
  }

  function ReadCordoned(spec: Json): bool {
    Get(spec, "unschedulable") == Some(JBool(true))
  }

  lemma TaintReadsBack(t: Taint)
    ensures var j := TaintJson(t);
      TextAt(j, "key") == t.key && TextAt(j, "value") == t.value && TextAt(j, "effect") == t.effect
  {
  }

  /** Nothing of taints and cordon state is lost in the document. */
  lemma SpecReadsBack(n: Node)
    ensures ReadTaints(Get(SpecJson(n), "taints")) == TaintList(n) && ReadCordoned(SpecJson(n)) == n.unschedulable
  {
    var read, ts := ReadTaints(Get(SpecJson(n), "taints")), TaintList(n);
    if ts != [] {
      assert Get(SpecJson(n), "taints") == Some(TaintsJson(ts));
      forall i | 0 <= i < |ts| ensures read[i] == ts[i] { TaintReadsBack(ts[i]); }
    }
  }

  /** On any live node: a changed taint list becomes the caller's and a changed cordon state the
  caller's, read off the patched document; the unchanged stay as the live node has them. */
  lemma PatchedSpecReads(live: Json, o: Node, m: Node)
    requires live.JObj?
    ensures var after := Spec(Patched(live, o, m));
      && (if TaintList(o) != TaintList(m) then ReadTaints(Get(after, "taints")) == TaintList(m)
          else Get(after, "taints") == Get(Spec(live), "taints"))
      && (if o.unschedulable != m.unschedulable then ReadCordoned(after) == m.unschedulable
          else Get(after, "unschedulable") == Get(Spec(live), "unschedulable"))
  {
    SpecPatched(live, o, m);
    SpecReadsBack(o);
    SpecReadsBack(m);
    if TaintList(o) == TaintList(m) { SameTaintsSameDocument(o, m); }
  }

  lemma SameTaintsSameDocument(o: Node, m: Node)
    requires TaintList(o) == TaintList(m)
    ensures Get(SpecJson(o), "taints") == Get(SpecJson(m), "taints")
  {
  }

  /** The version a patch requires the live node to be at. */
  function PinnedVersion(patch: Json): Option<Json> {
    Get(Metadata(patch), "resourceVersion")
  }

  /** The patch carries the original's version exactly when taints or cordon state changed. */
  lemma VersionIsPinned(o: Node, m: Node)
    requires o.resourceVersion != ""
    ensures PinnedVersion(PatchDocument(o, m))
         == if o.taints != m.taints || o.unschedulable != m.unschedulable then Some(JStr(o.resourceVersion)) else None
  {
    MetaFields(o, m);
    PinnedField(OriginalMeta(o, m), SpecJson(o), ModifiedMeta(o, m), SpecJson(m));
  }

  lemma PinnedField(meta: Json, spec: Json, meta': Json, spec': Json)
    requires meta.JObj? && meta'.JObj? && Get(meta, "resourceVersion").None?
    ensures PinnedVersion(Diff(Document(meta, spec), Document(meta', spec'))) == Get(meta', "resourceVersion")
  {
    var d, d' := Document(meta, spec), Document(meta', spec');
    assert Get(d, "metadata") == Some(meta) && Get(d', "metadata") == Some(meta');
    assert Get(Diff(d, d'), "metadata") == if meta == meta' then None else Some(Diff(meta, meta'));
    assert Get(Diff(meta, meta'), "resourceVersion") == Get(meta', "resourceVersion");
  }

  lemma StringsJsonInjective(a: map<string, string>, b: map<string, string>)
    ensures StringsJson(a) == StringsJson(b) <==> a == b
  {
    if StringsJson(a) == StringsJson(b) {
      assert a.Keys == StringsJson(a).fields.Keys && b.Keys == StringsJson(b).fields.Keys;
      forall k | k in a ensures a[k] == b[k] {
        assert StringsJson(a).fields[k] == JStr(a[k]) && StringsJson(b).fields[k] == JStr(b[k]);
      }
    }
  }

  lemma SameSpecIff(o: Node, m: Node)
    ensures SpecJson(o) == SpecJson(m) <==> TaintList(o) == TaintList(m) && o.unschedulable == m.unschedulable
  {
    SpecReadsBack(o);
    SpecReadsBack(m);
  }

  /** No write is issued exactly when the maps agree entry for entry, taints and cordon state agree, and
  no version has to be pinned. Swapping a nil taint list for an empty one therefore still writes. */
  lemma NilPatchIff(o: Node, m: Node)
    ensures NodeMergePatch(o, m).None?
       <==> && Entries(o.labels) == Entries(m.labels) && Entries(o.annotations) == Entries(m.annotations)
            && TaintList(o) == TaintList(m) && o.unschedulable == m.unschedulable
            && (o.taints == m.taints || o.resourceVersion == "")
  {
    EmptyDocumentDiff(OriginalMeta(o, m), SpecJson(o), ModifiedMeta(o, m), SpecJson(m));
    SameMetaIff(o, m);
    SameSpecIff(o, m);
  }

  lemma EmptyDocumentDiff(meta: Json, spec: Json, meta': Json, spec': Json)
    ensures Diff(Document(meta, spec), Document(meta', spec')) == JObj(map[]) <==> meta == meta' && spec == spec'
  {
    var d, d' := Document(meta, spec), Document(meta', spec');
    EmptyDiffIff(d, d');
    assert Get(d, "metadata") == Some(meta) && Get(d', "metadata") == Some(meta');
    assert Get(d, "spec") == Some(spec) && Get(d', "spec") == Some(spec');
  }

  lemma EmptyDiffIff(a: Json, b: Json)
    requires a.JObj? && b.JObj?
    ensures Diff(a, b) == JObj(map[]) <==> a == b
  {
    if Diff(a, b) == JObj(map[]) {
      forall k | k in a.fields.Keys + b.fields.Keys ensures Get(a, k) == Get(b, k) { assert k !in Diff(a, b).fields; }
      forall k ensures k in a.fields <==> k in b.fields {
        if k in a.fields || k in b.fields { assert k in a.fields.Keys + b.fields.Keys && Get(a, k) == Get(b, k); }
      }
      forall k | k in a.fields ensures a.fields[k] == b.fields[k] { assert Get(a, k) == Get(b, k); }
      assert a.fields == b.fields;
    } else if a == b {
      DiffOfEqualObjects(a);
    }
  }

  lemma SameMetaIff(o: Node, m: Node)
    ensures OriginalMeta(o, m) == ModifiedMeta(o, m)
       <==> && Entries(o.labels) == Entries(m.labels) && Entries(o.annotations) == Entries(m.annotations)
            && !(SpecChanged(o, m) && o.resourceVersion != "")
  {
    MetaFields(o, m);
    var version := if SpecChanged(o, m) && o.resourceVersion != "" then Some(JStr(o.resourceVersion)) else None;
    SameMetaParts(OriginalMeta(o, m), ModifiedMeta(o, m), KeepLabels(o, m), Entries(o.labels), Entries(m.labels),
                  KeepAnnotations(o, m), Entries(o.annotations), Entries(m.annotations), version);
  }

  lemma SameKept(keep: bool, x: map<string, string>, y: map<string, string>)
    requires !keep ==> x == y
    ensures Kept(keep, x) == Kept(keep, y) <==> x == y
  {
    StringsJsonInjective(x, y);
  }

  lemma SameMetaParts(a: Json, b: Json, keepLabels: bool, x: map<string, string>, y: map<string, string>,
                      keepAnnotations: bool, u: map<string, string>, v: map<string, string>, version: Option<Json>)
    requires a.JObj? && b.JObj?
    requires a.fields.Keys + b.fields.Keys <= {"labels", "annotations", "resourceVersion"}
    requires Get(a, "labels") == Kept(keepLabels, x) && Get(b, "labels") == Kept(keepLabels, y)
    requires Get(a, "annotations") == Kept(keepAnnotations, u) && Get(b, "annotations") == Kept(keepAnnotations, v)
    requires Get(a, "resourceVersion") == None && Get(b, "resourceVersion") == version
    requires (!keepLabels ==> x == y) && (!keepAnnotations ==> u == v)
    ensures a == b <==> x == y && u == v && version == None
  {
    SameMeta(a, b);
    SameKept(keepLabels, x, y);
    SameKept(keepAnnotations, u, v);
  }

  /** Projected metadata is determined by its three fields. */
  lemma SameMeta(a: Json, b: Json)
    requires a.JObj? && b.JObj?
    requires a.fields.Keys + b.fields.Keys <= {"labels", "annotations", "resourceVersion"}
    ensures a == b <==> Get(a, "labels") == Get(b, "labels") && Get(a, "annotations") == Get(b, "annotations")
                        && Get(a, "resourceVersion") == Get(b, "resourceVersion")
  {
  }

  /** A node with an unchanged but re-allocated empty taint list is written although nothing in it
  differs. */
  lemma EmptyTaintListStillWrites(o: Node)
    requires o.taints == None && o.resourceVersion != ""
    ensures NodeMergePatch(o, o.(taints := Some([]))).Some?
    ensures SpecJson(o) == SpecJson(o.(taints := Some([])))
  {
    NilPatchIff(o, o.(taints := Some([])));
  }
}
