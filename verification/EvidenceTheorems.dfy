/** What is planned for a catalogued object and what applying it stores, told on the stored attributes themselves. */
module EvidenceTheorems {
  import opened Values
  import opened Evidence
  import opened MutationPlan
  import opened SyncProtocol

  /** `n` is `x` without its fraction. */
  predicate WithoutFraction(x: real, n: int) {
    if x >= 0.0 then n as real <= x < (n + 1) as real else (n - 1) as real < x <= n as real
  }

  /** A size is stored as a whole number, or as the float that decoding JSON makes of it; anything else counts as zero. */
  predicate SizeIs(upstream: map<string, Value>, size: int) {
    if "size" !in upstream then size == 0
    else
      match upstream["size"]
      case Int(n) => n == size
      case Float(x) => WithoutFraction(x, size)
      case _ => size == 0
  }

  /** The storage class is stored under s3; without a text there it counts as empty. */
  predicate ClassIs(upstream: map<string, Value>, class_: string) {
    if "s3" in upstream && upstream["s3"].Obj? && "storage_class" in upstream["s3"].fields && upstream["s3"].fields["storage_class"].Text?
    then upstream["s3"].fields["storage_class"] == Text(class_)
    else class_ == ""
  }

  /** The stored attributes say what the listing says, in all four fields. */
  predicate Matches(upstream: map<string, Value>, listed: Listed) {
    && "etag" in upstream && upstream["etag"] == Text(listed.etag)
    && SizeIs(upstream, listed.size)
    && "last_modified" in upstream && upstream["last_modified"] == Text(listed.lastModified)
    && ClassIs(upstream, listed.storageClass)
  }

  predicate UpToDate(local: Local, listed: Listed) {
    local.upstream.Some? && Matches(local.upstream.value, listed)
  }

  lemma SizeIff(upstream: map<string, Value>, size: int)
    ensures Int64Attribute(Lookup(upstream, "size")) == size <==> SizeIs(upstream, size)
  {
    if "size" in upstream && upstream["size"].Float? {
      FractionIff(upstream["size"].x, size);
    }
  }

  lemma FractionIff(x: real, n: int)
    ensures Truncate(x) == n <==> WithoutFraction(x, n)
  {
    if x >= 0.0 {
      assert x.Floor as real <= x < (x.Floor + 1) as real;
      if n < x.Floor {
        assert (n + 1) as real <= x.Floor as real;
      } else if n > x.Floor {
        assert (x.Floor + 1) as real <= n as real;
      }
    } else {
      var floor := (-x).Floor;
      assert floor as real <= -x < (floor + 1) as real;
      assert (-floor) as real >= x > (-floor - 1) as real;
      if n < -floor {
        assert n as real <= (-floor - 1) as real;
      } else if n > -floor {
        assert (n - 1) as real >= (-floor) as real;
      }
    }
  }

  /** An object looks changed exactly when one of its four stored fields disagrees with the listing. */
  lemma ChangedIff(listed: Listed, local: Local)
    ensures ObjectChanged(listed, local) <==> !UpToDate(local, listed)
  {
    if local.upstream.Some? {
      SizeIff(local.upstream.value, listed.size);
    }
  }

  ghost predicate Planned(items: seq<Mutated>, key: Key) {
    exists i :: 0 <= i < |items| && items[i].key == key
  }

  /** The lists a planner hands out for a listing and some rows. */
  ghost predicate Parts(listing: map<Key, Listed>, locals: map<Key, Local>, imports: seq<Mutated>, refreshes: seq<Mutated>, removes: seq<Mutated>) {
    && Enumerates(imports, Import, Plan(listing, locals))
    && Enumerates(refreshes, Refresh, Plan(listing, locals))
    && Enumerates(removes, Remove, Plan(listing, locals))
  }

  /**
   A listed and catalogued object is in no part of the plan exactly when its stored fields say what the listing says;
   otherwise it is refreshed under its own id with everything the listing gives, and neither imported nor removed.
   */
  lemma ListedRow(listing: map<Key, Listed>, locals: map<Key, Local>, key: Key,
                  imports: seq<Mutated>, refreshes: seq<Mutated>, removes: seq<Mutated>)
    requires Keyed(listing) && Parts(listing, locals, imports, refreshes, removes) && key in listing && key in locals
    ensures !Planned(imports, key) && !Planned(removes, key)
    ensures Planned(refreshes, key) <==> !UpToDate(locals[key], listing[key])
    ensures !UpToDate(locals[key], listing[key]) ==>
      var u := listing[key]; Mutated(locals[key].id, key, u.etag, u.size, u.lastModified, u.storageClass) in refreshes
  {
    ChangedIff(listing[key], locals[key]);
    var plan := Plan(listing, locals);
    if !UpToDate(locals[key], listing[key]) {
      assert plan[key].item in refreshes;
    }
  }

  /** An object only listed is imported without an id; one only catalogued is removed under its id; no other key is planned. */
  lemma OtherRow(listing: map<Key, Listed>, locals: map<Key, Local>, key: Key,
                 imports: seq<Mutated>, refreshes: seq<Mutated>, removes: seq<Mutated>)
    requires Keyed(listing) && Parts(listing, locals, imports, refreshes, removes) && (key !in listing || key !in locals)
    ensures (Planned(imports, key) <==> key in listing) && !Planned(refreshes, key) && (Planned(removes, key) <==> key in locals)
    ensures key in listing ==>
      var u := listing[key]; Mutated("", key, u.etag, u.size, u.lastModified, u.storageClass) in imports
    ensures key in locals ==> Mutated(locals[key].id, key, "", 0, "", "") in removes
  {
    var plan := Plan(listing, locals);
    if key in listing {
      assert plan[key].item in imports;
    } else if key in locals {
      assert plan[key].item in removes;
    }
  }

  /** The row has the listed texts, and a size stored as a number or as its float. */
  predicate StoredWithSize(local: Local, listed: Listed, n: int) {
    && local.upstream.Some?
    && var upstream := local.upstream.value;
    && "etag" in upstream && upstream["etag"] == Text(listed.etag)
    && "last_modified" in upstream && upstream["last_modified"] == Text(listed.lastModified)
    && "s3" in upstream && upstream["s3"].Obj? && "storage_class" in upstream["s3"].fields
    && upstream["s3"].fields["storage_class"] == Text(listed.storageClass)
    && "size" in upstream && upstream["size"] in {Int(n), Float(n as real)}
  }

  /** A row that differs at most in its size is left out of the plan exactly when the sizes are equal. */
  lemma SizeDecides(listing: map<Key, Listed>, locals: map<Key, Local>, key: Key, n: int,
                    imports: seq<Mutated>, refreshes: seq<Mutated>, removes: seq<Mutated>)
    requires Keyed(listing) && Parts(listing, locals, imports, refreshes, removes) && key in listing && key in locals
    requires StoredWithSize(locals[key], listing[key], n)
    ensures !Planned(imports, key) && !Planned(removes, key) && (Planned(refreshes, key) <==> n != listing[key].size)
  {
    ListedRow(listing, locals, key, imports, refreshes, removes);
    var size := listing[key].size;
    if n < size {
      assert (n + 1) as real <= size as real;
    } else if size < n {
      assert (size + 1) as real <= n as real;
    }
  }

  // ----- What applying stores -----

  /** The named field afterwards: the text the listing gave, if it gave one. */
  predicate TextWritten(head: map<string, Value>, after: map<string, Value>, name: string, text: string) {
    Lookup(after, name) == if text != "" then Some(Text(text)) else Lookup(head, name)
  }

  /** The storage class afterwards, beside whatever else the HEAD said under s3. */
  ghost predicate ClassWritten(head: map<string, Value>, after: map<string, Value>, class_: string) {
    if class_ == "" then Lookup(after, "s3") == Lookup(head, "s3")
    else
      && "s3" in after && after["s3"].Obj?
      && forall name :: Lookup(after["s3"].fields, name) ==
           if name == "storage_class" then Some(Text(class_))
           else if "s3" in head && head["s3"].Obj? then Lookup(head["s3"].fields, name)
           else None
  }

  /** What the listing gave is written over the HEAD; what it left empty, and everything else, is the HEAD's. */
  lemma EvidenceIsWritten(head: map<string, Value>, item: Mutated)
    ensures var after := WithEvidence(head, item);
      && TextWritten(head, after, "etag", item.etag) && TextWritten(head, after, "last_modified", item.lastModified)
      && Lookup(after, "size") == (if item.size > 0 then Some(Int(item.size)) else Lookup(head, "size"))
      && ClassWritten(head, after, item.storageClass)
      && forall name :: name !in {"etag", "size", "last_modified", "s3"} ==> Lookup(after, name) == Lookup(head, name)
  {
    var u1 := SetText(head, "etag", item.etag);
    var u2 := if item.size > 0 then u1["size" := Int(item.size)] else u1;
    var u3 := SetText(u2, "last_modified", item.lastModified);
    assert WithEvidence(head, item) == SetStorageClass(u3, item.storageClass);
    assert |"etag"| == 4 && |"size"| == 4 && |"last_modified"| == 13 && |"s3"| == 2 && "etag"[0] == 'e' && "size"[0] == 's';
    assert Lookup(u3, "s3") == Lookup(head, "s3");
  }

  /** A row an import or refresh has written: seen now, first seen then or now, and known by the same id if it was known. */
  predicate RowWritten(before: Option<Local>, after: Local, newId: string, seenAt: string, upstream: map<string, Value>) {
    && after.upstream == Some(upstream) && after.lastSeen == seenAt
    && after.firstSeen == (if before.Some? && before.value.firstSeen.Some? then before.value.firstSeen else Some(seenAt))
    && after.id == (if before.Some? then before.value.id else newId)
    && after.others == (if before.Some? then before.value.others else map[])
  }

  /** An import or refresh writes its own objects and no others. */
  lemma ChildWrites(cfg: Config, s: State, child: nat, ids: map<Key, string>, seenAt: string, key: Key)
    requires child < |s.children| && s.children[child].kind != Remove
    requires ids.Keys == ItemKeys(s.children[child].items) && ids.Values !! s.usedIds
    ensures var t := Apply(cfg, s, ApplyChild(child, ids, seenAt));
      if key in ids
      then && key in t.catalogue
           && exists item :: item in s.children[child].items && item.key == key &&
                RowWritten(Lookup(s.catalogue, key), t.catalogue[key], ids[key], seenAt, WithEvidence(cfg.head(key), item))
      else Lookup(t.catalogue, key) == Lookup(s.catalogue, key)
    ensures Apply(cfg, s, ApplyChild(child, ids, seenAt)).applied == s.applied + ItemKeys(s.children[child].items)
  {
    if key in ids {
      var item := FindItem(s.children[child].items, key);
      var t := Apply(cfg, s, ApplyChild(child, ids, seenAt));
      assert RowWritten(Lookup(s.catalogue, key), t.catalogue[key], ids[key], seenAt, WithEvidence(cfg.head(key), item));
    }
  }

  /** A removal deletes exactly the rows its items name by id. */
  lemma ChildDeletes(cfg: Config, s: State, child: nat, ids: map<Key, string>, seenAt: string, key: Key)
    requires child < |s.children| && s.children[child].kind == Remove && key in s.catalogue
    ensures var t := Apply(cfg, s, ApplyChild(child, ids, seenAt));
      Lookup(t.catalogue, key) ==
        if exists item :: item in s.children[child].items && item.id == s.catalogue[key].id && item.id != "" then None else Some(s.catalogue[key])
    ensures Apply(cfg, s, ApplyChild(child, ids, seenAt)).applied == s.applied + ItemKeys(s.children[child].items)
  {
  }
}
