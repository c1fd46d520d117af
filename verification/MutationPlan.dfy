/** Planning imports, refreshes and removals by comparing a listing with the catalogue. */
module MutationPlan {
  import opened Values
  import opened Evidence

  function LastWins(listed: seq<Listed>): (byKey: map<Key, Listed>)
    ensures Keyed(byKey)
  {
    if listed == [] then map[]
    else
      var rest := LastWins(listed[1..]);
      if listed[0].key in rest then rest else rest[listed[0].key := listed[0]]
  }

  lemma {:induction false} LastWinsMembers(listed: seq<Listed>)
    ensures forall key :: key in LastWins(listed) ==> LastWins(listed)[key] in listed
    ensures forall item :: item in listed ==> item.key in LastWins(listed)
  {
    if listed != [] {
      LastWinsMembers(listed[1..]);
    }
  }

  /** Listed objects whose key has not been spilled; repeated keys survive or vanish together. */
  function Without(listed: seq<Listed>, spill: set<Key>): seq<Listed> {
    if listed == [] then []
    else if listed[0].key in spill then Without(listed[1..], spill)
    else [listed[0]] + Without(listed[1..], spill)
  }

  lemma {:induction false} LastWinsWithout(listed: seq<Listed>, spill: set<Key>)
    ensures LastWins(Without(listed, spill)) == LastWins(listed) - spill
  {
    if listed != [] {
      LastWinsWithout(listed[1..], spill);
      var kept := Without(listed[1..], spill);
      var first := listed[0];
      if first.key !in spill {
        var all := [first] + kept;
        assert all[1..] == kept;
        assert LastWins(all) == if first.key in LastWins(kept) then LastWins(kept) else LastWins(kept)[first.key := first];
      }
    }
  }

  lemma {:induction false} LastWinsSnoc(listed: seq<Listed>, last: Listed)
    ensures LastWins(listed + [last]) == LastWins(listed)[last.key := last]
  {
    var all := listed + [last];
    if listed == [] {
      assert all == [last] && all[1..] == [];
    } else {
      assert all[1..] == listed[1..] + [last];
      LastWinsSnoc(listed[1..], last);
      var rest := LastWins(listed[1..]);
      assert LastWins(all) == if all[0].key in LastWins(all[1..]) then LastWins(all[1..])
                              else LastWins(all[1..])[all[0].key := all[0]];
    }
  }

  ghost predicate DistinctKeys(items: seq<Mutated>) {
    forall i, j :: 0 <= i < j < |items| ==> items[i].key != items[j].key
  }

  /** `items` lists exactly the mutations of one kind in a plan, each once, keys in `left` not visited yet. */
  ghost predicate EnumeratesBut(items: seq<Mutated>, kind: Kind, plan: map<Key, Entry>, left: set<Key>) {
    && DistinctKeys(items)
    && (forall item :: item in items ==>
          item.key in plan && item.key !in left && plan[item.key] == Entry(kind, item))
    && (forall key :: key in plan && key !in left && plan[key].kind == kind ==> plan[key].item in items)
  }

  ghost predicate Enumerates(items: seq<Mutated>, kind: Kind, plan: map<Key, Entry>) {
    EnumeratesBut(items, kind, plan, {})
  }

  function ByKey(rows: seq<(Key, Local)>): map<Key, Local> {
    if rows == [] then map[]
    else ByKey(rows[..|rows| - 1])[rows[|rows| - 1].0 := rows[|rows| - 1].1]
  }

  /**
   The planner visits both maps in an arbitrary order, as the source language's map iteration does.
   Whatever the order, the three lists are the three parts of the one-shot plan.
   */
  method PlanObjectMutations(upstream: map<Key, Listed>, rows: seq<(Key, Local)>)
    returns (imports: seq<Mutated>, refreshes: seq<Mutated>, removes: seq<Mutated>)
    requires Keyed(upstream)
    ensures Enumerates(imports, Import, Plan(upstream, ByKey(rows)))
    ensures Enumerates(refreshes, Refresh, Plan(upstream, ByKey(rows)))
    ensures Enumerates(removes, Remove, Plan(upstream, ByKey(rows)))
  {
    var locals: map<Key, Local> := map[];
    for i := 0 to |rows|
      invariant locals == ByKey(rows[..i])
    {
      locals := locals[rows[i].0 := rows[i].1];
      assert rows[..i + 1][..i] == rows[..i];
    }
    assert rows[..|rows|] == rows;
    ghost var plan := Plan(upstream, locals);

    imports, refreshes := [], [];
    var left := upstream.Keys;
    while left != {}
      invariant left <= upstream.Keys
      invariant EnumeratesBut(imports, Import, plan, left)
      invariant EnumeratesBut(refreshes, Refresh, plan, left)
      decreases left
    {
      var key :| key in left;
      var evidence := EvidenceOf(upstream[key]);
      assert evidence.key == key;
      if key !in locals {
        assert Decision(upstream, locals, key) == Some(Entry(Import, evidence));
        imports := imports + [evidence];
      } else {
        evidence := evidence.(id := locals[key].id);
        if ObjectChanged(upstream[key], locals[key]) {
          assert Decision(upstream, locals, key) == Some(Entry(Refresh, evidence));
          refreshes := refreshes + [evidence];
        }
      }
      left := left - {key};
    }

    removes := [];
    left := locals.Keys;
    while left != {}
      invariant left <= locals.Keys
      invariant EnumeratesBut(removes, Remove, plan, left)
      decreases left
    {
      var key :| key in left;
      var gone := Mutated(locals[key].id, key, "", 0, "", "");
      if key !in upstream {
        assert Decision(upstream, locals, key) == Some(Entry(Remove, gone));
        removes := removes + [gone];
      } else {
        assert Decision(upstream, locals, key).Some? ==> Decision(upstream, locals, key).value.kind == Refresh;
      }
      left := left - {key};
    }
  }
}
