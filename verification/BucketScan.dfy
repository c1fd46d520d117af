/** A bucket scan from its listing to its verdict. */
module BucketScan {
  import opened Sequences
  import opened ListObjects
  import opened PartitionScan

  /** Everything the bucket holds, page by page. */
  function Everything(pages: seq<Page>): seq<Object> {
    if pages == [] then [] else pages[0].objects + Everything(pages[1..])
  }

  /** A scan lists without a filter. */
  function NoFilter(): Object -> bool {
    (listed: Object) => true
  }

  lemma {:induction false} KeepsAll(objects: seq<Object>)
    ensures Filter(NoFilter(), objects) == objects
    decreases |objects|
  {
    if objects != [] {
      KeepsAll(objects[1..]);
      assert [objects[0]] + objects[1..] == objects;
    }
  }

  lemma {:induction false} AllKeptIsEverything(pages: seq<Page>)
    ensures AllKept(NoFilter(), pages) == Everything(pages)
    decreases |pages|
  {
    if pages != [] {
      KeepsAll(pages[0].objects);
      AllKeptIsEverything(pages[1..]);
    }
  }

  /**
   Handle. A scan that reports a healthy bucket has listed all of it, and if every partition was sampled the catalogue and
   the bucket have the same number of objects and the same number of bytes; a scan that ran out of its budget escalates
   nothing and reports nothing.
   */
  method Scan(hash: Hash, modulus: nat, sampled: seq<nat>, local: seq<Object>, pages: seq<Page>, budget: Budget, late: nat -> bool)
    returns (ok: bool, children: seq<Partition>, healthy: bool, listed: nat)
    requires InRange(hash, modulus) && modulus < UINT32 && forall i :: 0 <= i < |sampled| ==> sampled[i] < modulus
    requires Listing(pages) && budget.objectsListed == 0
    modifies budget
    ensures listed == budget.objectsListed <= |Everything(pages)|
    ensures ok && |Everything(pages)| <= budget.maxObjects && !EverLate(late) ==>
              (healthy <==> Mismatched(hash, modulus, sampled, local, Everything(pages)) == [])
    ensures healthy ==>
              ok && children == [] && listed == |Everything(pages)| && Mismatched(hash, modulus, sampled, local, Everything(pages)) == []
    ensures healthy && (forall i :: 0 <= i < modulus ==> i in sampled) ==> Total(local) == Total(Everything(pages))
    ensures children != [] ==> ok && children == Mismatched(hash, modulus, sampled, local, Everything(pages))
    ensures !ok ==> children == [] && Last(pages).truncated && Last(pages).next == ""
  {
    ok, children, healthy := false, [], false;
    AllKeptIsEverything(pages);
    var outcome, delivered;
    ghost var left;
    outcome, delivered, listed, left := ListAllObjects(NoFilter(), pages, budget, late, 0);
    if outcome == Failed {
      return;
    }
    assert delivered + left == Everything(pages) && (outcome == Complete ==> delivered == Everything(pages)) by {
      assert left == [] ==> delivered + left == delivered;
    }
    var scanned;
    ok, children, scanned, healthy := Evaluate(hash, modulus, sampled, local, delivered, outcome == Complete);
    if healthy && forall i :: 0 <= i < modulus ==> i in sampled {
      HealthyMeansEqual(hash, modulus, sampled, local, Everything(pages));
    }
  }
}
