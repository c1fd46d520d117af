/**
 Listing evidence: what one listed upstream object and one catalogued object say about each
 other, the per-key planning decision, and the effect of applying a planned mutation.
 */
module Evidence {
  import opened Values

  type Key = string

  /** `lastModified` is the RFC 3339 text the code compares and stores, not the instant. */
  datatype Listed = Listed(key: Key, etag: string, size: int, lastModified: string, storageClass: string)

  datatype Mutated = Mutated(id: string, key: Key, etag: string, size: int, lastModified: string, storageClass: string)

  /** `upstream` is None when the stored "upstream" attribute is missing or is not an object. */
  datatype Local = Local(
    id: string,
    firstSeen: Option<string>,
    lastSeen: string,
    upstream: Option<map<string, Value>>,
    others: map<string, Value>)

  datatype Kind = Import | Refresh | Remove

  datatype Entry = Entry(kind: Kind, item: Mutated)

  /** The values stored under the nested "s3" object, if there is one. */
  function S3Fields(upstream: map<string, Value>): Option<map<string, Value>> {
    if "s3" in upstream && upstream["s3"].Obj? then Some(upstream["s3"].fields) else None
  }

  function EvidenceOf(listed: Listed): Mutated {
    Mutated("", listed.key, listed.etag, listed.size, listed.lastModified, listed.storageClass)
  }

  function Int64Attribute(value: Option<Value>): int {
    match value
    case Some(Int(n)) => n
    case Some(Float(x)) => Truncate(x)
    case _ => 0
  }

  function StorageClassAttribute(upstream: map<string, Value>): string {
    match S3Fields(upstream)
    case Some(nested) =>
      if "storage_class" in nested && nested["storage_class"].Text? then nested["storage_class"].text else ""
    case None => ""
  }

  predicate ObjectChanged(listed: Listed, local: Local) {
    match local.upstream
    case None => true
    case Some(upstream) =>
      || Lookup(upstream, "etag") != Some(Text(listed.etag))
      || Int64Attribute(Lookup(upstream, "size")) != listed.size
      || Lookup(upstream, "last_modified") != Some(Text(listed.lastModified))
      || StorageClassAttribute(upstream) != listed.storageClass
  }

  /** The one-shot planning decision for a single key. */
  function Decide(key: Key, listed: Option<Listed>, local: Option<Local>): Option<Entry> {
    match (listed, local)
    case (Some(u), None) => Some(Entry(Import, EvidenceOf(u)))
    case (Some(u), Some(o)) =>
      if ObjectChanged(u, o) then Some(Entry(Refresh, EvidenceOf(u).(id := o.id))) else None
    case (None, Some(o)) => Some(Entry(Remove, Mutated(o.id, key, "", 0, "", "")))
    case (None, None) => None
  }

  function Decision(listing: map<Key, Listed>, locals: map<Key, Local>, key: Key): Option<Entry> {
    Decide(key, Lookup(listing, key), Lookup(locals, key))
  }

  /** The whole one-shot plan, as a map from key to the mutation planned for it. */
  function Plan(listing: map<Key, Listed>, locals: map<Key, Local>): map<Key, Entry> {
    map key | key in listing.Keys + locals.Keys && Decision(listing, locals, key).Some?
      :: Decision(listing, locals, key).value
  }

  /** Every listed object is filed under its own key. */
  ghost predicate Keyed(listing: map<Key, Listed>) {
    forall key :: key in listing ==> listing[key].key == key
  }

  ghost predicate KeyedPlan(plan: map<Key, Entry>) {
    forall key :: key in plan ==> plan[key].item.key == key
  }

  lemma PlanIsKeyed(listing: map<Key, Listed>, locals: map<Key, Local>)
    requires Keyed(listing)
    ensures KeyedPlan(Plan(listing, locals))
  {
  }

  /**
   A plan determines the listing it came from: no two different listings of the same keys give the
   same plan. This is what makes a listing that repeats a key with conflicting contents observable.
   */
  lemma PlanDeterminesListing(first: map<Key, Listed>, second: map<Key, Listed>, locals: map<Key, Local>)
    requires Keyed(first) && Keyed(second) && first.Keys == second.Keys
    ensures Plan(first, locals) == Plan(second, locals) <==> first == second
  {
    if Plan(first, locals) == Plan(second, locals) {
      forall key | key in first ensures first[key] == second[key] {
        var a, b := first[key], second[key];
        assert key in Plan(first, locals) <==> key in Plan(second, locals);
        if key in locals && !ObjectChanged(a, locals[key]) {
          assert key !in Plan(first, locals);
          assert !ObjectChanged(b, locals[key]);
        } else {
          assert Plan(first, locals)[key] == Plan(second, locals)[key];
        }
      }
    }
  }

  // ----- Applying an import or a refresh -----

  function SetText(upstream: map<string, Value>, name: string, text: string): map<string, Value> {
    if text == "" then upstream else upstream[name := Text(text)]
  }

  function SetStorageClass(upstream: map<string, Value>, class_: string): map<string, Value> {
    if class_ == "" then upstream
    else
      var nested := match S3Fields(upstream) case Some(fields) => fields case None => map[];
      upstream["s3" := Obj(nested["storage_class" := Text(class_)])]
  }

  /** The HEAD attributes of an object, overlaid with the evidence the listing gave for it. */
  function WithEvidence(head: map<string, Value>, item: Mutated): map<string, Value> {
    var withEtag := SetText(head, "etag", item.etag);
    var withSize := if item.size > 0 then withEtag["size" := Int(item.size)] else withEtag;
    SetStorageClass(SetText(withSize, "last_modified", item.lastModified), item.storageClass)
  }

  /** INSERT … ON CONFLICT (bucket_id, key): a fresh row, or the merge rule for an existing one. */
  function Upsert(existing: Option<Local>, newId: string, seenAt: string, upstream: map<string, Value>): Local {
    match existing
    case None => Local(newId, Some(seenAt), seenAt, Some(upstream), map[])
    case Some(o) =>
      Local(o.id, if o.firstSeen.Some? then o.firstSeen else Some(seenAt), seenAt, Some(upstream), o.others)
  }

  /**
   What the listing must say, or agree with the HEAD about, for an applied object to stop looking
   changed. Empty listing fields are never written, so the HEAD's own value is what remains.
   */
  predicate Settles(listed: Listed, head: map<string, Value>) {
    && (listed.etag == "" ==> Lookup(head, "etag") == Some(Text("")))
    && (listed.size <= 0 ==> Int64Attribute(Lookup(head, "size")) == listed.size)
    && (listed.lastModified == "" ==> Lookup(head, "last_modified") == Some(Text("")))
    && (listed.storageClass == "" ==> StorageClassAttribute(head) == "")
  }

  /** An applied import or refresh stops looking changed exactly when the listing settles it. */
  lemma AppliedLooksChanged(listed: Listed, head: map<string, Value>, local: Local)
    requires local.upstream == Some(WithEvidence(head, EvidenceOf(listed).(id := local.id)))
          || local.upstream == Some(WithEvidence(head, EvidenceOf(listed)))
    ensures ObjectChanged(listed, local) <==> !Settles(listed, head)
  {
    var u1 := SetText(head, "etag", listed.etag);
    var u2 := if listed.size > 0 then u1["size" := Int(listed.size)] else u1;
    var u3 := SetText(u2, "last_modified", listed.lastModified);
    var upstream := local.upstream.value;
    assert upstream == SetStorageClass(u3, listed.storageClass);
    assert "etag" != "size" && "etag" != "last_modified" && "etag" != "s3";
    assert "size" != "last_modified" && "size" != "s3" && "last_modified" != "s3" by {
      assert |"size"| != |"last_modified"|;
    }
    assert Lookup(upstream, "etag") == Lookup(u1, "etag");
    assert Lookup(upstream, "size") == Lookup(u2, "size");
    assert Lookup(upstream, "last_modified") == Lookup(u3, "last_modified");
    assert Lookup(u3, "s3") == Lookup(head, "s3");
  }
}
