/** Listing an upstream bucket page by page, filtered and within a budget. */
module ListObjects {
  import opened Sequences

  datatype Object = Object(key: string, size: int)

  /** One page; a truncated one should say where the next begins. */
  datatype Page = Page(objects: seq<Object>, truncated: bool, next: string)

  predicate Stuck(page: Page) {
    page.truncated && page.next == ""
  }

  /** A whole listing: every page but the last says where the next begins. */
  predicate Listing(pages: seq<Page>) {
    pages != [] &&
    if |pages| == 1 then !pages[0].truncated || pages[0].next == ""
    else pages[0].truncated && pages[0].next != "" && Listing(pages[1..])
  }

  function Last(pages: seq<Page>): Page
    requires pages != []
  {
    if |pages| == 1 then pages[0] else Last(pages[1..])
  }

  function AllKept(filter: Object -> bool, pages: seq<Page>): seq<Object> {
    if pages == [] then [] else Filter(filter, pages[0].objects) + AllKept(filter, pages[1..])
  }

  lemma Assoc<T>(a: seq<T>, b: seq<T>, c: seq<T>)
    ensures (a + b) + c == a + (b + c)
  {
  }

  /** ScanBudget; whether the deadline has passed is decided anew at every question. */
  class Budget {
    const maxObjects: nat
    var objectsListed: nat

    constructor (maxObjects: nat)
      ensures this.maxObjects == maxObjects && objectsListed == 0
    {
      this.maxObjects := maxObjects;
      objectsListed := 0;
    }

    predicate Allows(count: nat, late: bool)
      reads this
    {
      !late && (count == 0 || objectsListed + count <= maxObjects)
    }

    method Record(count: nat)
      modifies this
      ensures objectsListed == old(objectsListed) + count
    {
      objectsListed := objectsListed + count;
    }
  }

  ghost predicate EverLate(late: nat -> bool) {
    exists question :: late(question)
  }

  datatype Outcome = Complete | OverBudget | Failed

  /** One page of the loop: its kept objects until the budget refuses one. */
  method DeliverPage(filter: Object -> bool, objects: seq<Object>, budget: Budget, late: nat -> bool, asked: nat)
    returns (delivered: seq<Object>, whole: bool, questions: nat, ghost left: seq<Object>)
    requires budget.objectsListed <= budget.maxObjects
    modifies budget
    ensures Filter(filter, objects) == delivered + left && (whole <==> left == [])
    ensures budget.objectsListed == old(budget.objectsListed) + |delivered| && budget.objectsListed <= budget.maxObjects
    ensures !whole ==> questions > 0 && !budget.Allows(1, late(questions - 1))
  {
    delivered, questions := [], asked;
    for i := 0 to |objects|
      invariant Filter(filter, objects) == delivered + Filter(filter, objects[i..])
      invariant budget.objectsListed == old(budget.objectsListed) + |delivered| && budget.objectsListed <= budget.maxObjects
    {
      assert objects[i..][1..] == objects[i + 1..];
      if filter(objects[i]) {
        questions := questions + 1;
        if !budget.Allows(1, late(questions - 1)) {
          return delivered, false, questions, Filter(filter, objects[i..]);
        }
        budget.Record(1);
        Assoc(delivered, [objects[i]], Filter(filter, objects[i + 1..]));
        delivered := delivered + [objects[i]];
      } else {
        assert [] + Filter(filter, objects[i + 1..]) == Filter(filter, objects[i + 1..]);
      }
    }
    whole, left := true, [];
  }

  /**
   ListAllObjects. What is delivered, and then what is left, is the filtered listing: in order and without repetition.
   Nothing is left when the listing is reported complete, or ends on a page that names no successor.
   */
  method ListAllObjects(filter: Object -> bool, pages: seq<Page>, budget: Budget, late: nat -> bool, start: nat)
    returns (outcome: Outcome, delivered: seq<Object>, listed: nat, ghost left: seq<Object>)
    requires Listing(pages) && budget.objectsListed <= budget.maxObjects
    modifies budget
    ensures AllKept(filter, pages) == delivered + left && listed == start + |delivered|
    ensures outcome == Complete ==> left == [] && !Last(pages).truncated
    ensures outcome == Failed ==> left == [] && Last(pages).truncated && Last(pages).next == ""
    ensures outcome == OverBudget ==> (budget.objectsListed == budget.maxObjects && left != []) || EverLate(late)
    ensures budget.objectsListed == old(budget.objectsListed) + |delivered| && budget.objectsListed <= budget.maxObjects
  {
    delivered, listed := [], start;
    var questions := 0;
    var ahead := pages;
    while true
      invariant Listing(ahead) && Last(ahead) == Last(pages)
      invariant AllKept(filter, pages) == delivered + AllKept(filter, ahead) && listed == start + |delivered|
      invariant budget.objectsListed == old(budget.objectsListed) + |delivered| && budget.objectsListed <= budget.maxObjects
      decreases |ahead|
    {
      ListingGoesOn(ahead);
      var page, later := ahead[0], ahead[1..];
      var objects, whole;
      ghost var rest;
      objects, whole, questions, rest := DeliverPage(filter, page.objects, budget, late, questions);
      left := rest + AllKept(filter, later);
      PageStep(filter, ahead, delivered, objects, rest);
      delivered := delivered + objects;
      listed := listed + |objects|;
      if !whole {
        outcome := OverBudget;
        return;
      }
      WholePage(objects, AllKept(filter, later));
      if Stuck(page) {
        outcome := Failed;
        return;
      }
      if !page.truncated {
        outcome := Complete;
        return;
      }
      questions := questions + 1;
      if !budget.Allows(0, late(questions - 1)) {
        outcome := OverBudget;
        return;
      }
      ahead := later;
    }
  }

  lemma ListingGoesOn(ahead: seq<Page>)
    requires Listing(ahead)
    ensures ahead[0].truncated && !Stuck(ahead[0]) ==> Listing(ahead[1..]) && Last(ahead[1..]) == Last(ahead)
    ensures !ahead[0].truncated || Stuck(ahead[0]) ==> AllEnd(ahead)
  {
  }

  predicate AllEnd(ahead: seq<Page>)
    requires ahead != []
  {
    |ahead| == 1 && Last(ahead) == ahead[0]
  }

  lemma PageStep(filter: Object -> bool, ahead: seq<Page>, delivered: seq<Object>, objects: seq<Object>, rest: seq<Object>)
    requires ahead != [] && Filter(filter, ahead[0].objects) == objects + rest
    ensures delivered + AllKept(filter, ahead) == (delivered + objects) + (rest + AllKept(filter, ahead[1..]))
  {
    var more := AllKept(filter, ahead[1..]);
    Assoc(objects, rest, more);
    Assoc(delivered, objects, rest + more);
  }

  lemma WholePage<T>(objects: seq<T>, more: seq<T>)
    ensures objects + [] == objects && [] + more == more
  {
  }
}
