// The drag-and-drop game of screens/DragAndDropGameScreen.tsx: items are moved
// between named buckets (one per category plus "unassigned"), and "check"
// gives every item in a category bucket a verdict.
module DragAndDrop {
  import opened Common
  import opened Content

  /** An item of the game; its id is its index in the payload. */
  datatype Item = Item(id: nat, text: string, correctCategory: string)

  datatype Verdict = Correct | Incorrect

  const Unassigned: string := "unassigned"

  /** The render guard: the fallback screen shows for a missing payload or a
      payload without a `categories` or an `items` array. */
  predicate IsPlayable(data: Option<DragAndDropGameData>)
    ensures data.None? ==> !IsPlayable(data)
    ensures data.Some? && data.value.categories.None? ==> !IsPlayable(data)
    ensures data.Some? && data.value.items.None? ==> !IsPlayable(data)
    ensures data.Some? && data.value.categories.Some? && data.value.items.Some? ==> IsPlayable(data)
  {
    data.Some? && data.value.categories.Some? && data.value.items.Some?
  }

  /** The items built by the init effect. */
  function InitialItems(xs: seq<DndItem>): (r: seq<Item>)
    ensures |r| == |xs|
    ensures forall i :: 0 <= i < |xs| ==> r[i] == Item(i, xs[i].text, xs[i].category)
  {
    seq(|xs|, i requires 0 <= i < |xs| => Item(i, xs[i].text, xs[i].category))
  }

  predicate IdsAreIndices(items: seq<Item>)
  {
    forall i :: 0 <= i < |items| ==> items[i].id == i
  }

  // ----- buckets -----

  /** Every bucket is duplicate-free and holds items of the game, and no item
      lies in two buckets. */
  ghost predicate WellPlaced(items: seq<Item>, locs: map<string, seq<Item>>)
  {
    && (forall k :: k in locs ==> NoDuplicates(locs[k]))
    && (forall k, it :: k in locs && it in locs[k] ==> it in items)
    && (forall k1, k2, it :: k1 in locs && k2 in locs && it in locs[k1] && it in locs[k2] ==> k1 == k2)
  }

  /** Every item lies in some bucket. */
  ghost predicate AllPlaced(items: seq<Item>, locs: map<string, seq<Item>>)
  {
    forall it :: it in items ==> exists k :: k in locs && it in locs[k]
  }

  /** The buckets of the init effect: "unassigned" holds every item, then each
      category's bucket is set to empty, in order. */
  function InitialLocations(items: seq<Item>, categories: seq<string>): (locs: map<string, seq<Item>>)
    ensures locs.Keys == {Unassigned} + (set c | c in categories)
    ensures forall c :: c in categories ==> locs[c] == []
    ensures Unassigned !in categories ==> locs[Unassigned] == items
  {
    map k | k in {Unassigned} + (set c | c in categories) :: if k in categories then [] else items
  }

  /** `categories.forEach(cat => initialLocations[cat] = [])`. */
  method BuildLocations(items: seq<Item>, categories: seq<string>) returns (locs: map<string, seq<Item>>)
    ensures locs == InitialLocations(items, categories)
  {
    locs := map[Unassigned := items];
    var i := 0;
    while i < |categories|
      invariant 0 <= i <= |categories|
      invariant locs.Keys == {Unassigned} + (set c | c in categories[..i])
      invariant forall k :: k in locs ==> locs[k] == if k in categories[..i] then [] else items
    {
      assert categories[..i + 1] == categories[..i] + [categories[i]];
      locs := locs[categories[i] := []];
      i := i + 1;
    }
    assert categories[..i] == categories;
  }

  /** A bucket without the item whose id is `id` (`filter(i => i.id !== id)`). */
  function Without(s: seq<Item>, id: nat): (r: seq<Item>)
    ensures forall x :: x in r <==> x in s && x.id != id
    ensures NoDuplicates(s) ==> NoDuplicates(r)
  {
    if s == [] then []
    else if s[0].id == id then Without(s[1..], id)
    else [s[0]] + Without(s[1..], id)
  }

  /** `handleDrop` for a dragged item: it is filtered out of every bucket and
      appended to the target bucket, which is created if missing. */
  function DropInto(locs: map<string, seq<Item>>, d: Item, target: string): (r: map<string, seq<Item>>)
    ensures r.Keys == locs.Keys + {target}
    ensures |r[target]| > 0 && r[target][|r[target]| - 1] == d
    ensures forall k, x :: k in r && x in r[k] <==>
              (k == target && x == d) || (k in locs && x in locs[k] && x.id != d.id)
  {
    var filtered := map k | k in locs :: Without(locs[k], d.id);
    filtered[target := (if target in filtered then filtered[target] else []) + [d]]
  }

  /** A drop keeps the buckets well placed and every item placed; the dragged
      item ends up in the target bucket only, every other item stays where it was. */
  lemma {:induction false} DropKeepsPlacement(items: seq<Item>, locs: map<string, seq<Item>>, d: Item, target: string)
    requires IdsAreIndices(items) && WellPlaced(items, locs) && d in items
    ensures WellPlaced(items, DropInto(locs, d, target))
    ensures AllPlaced(items, locs) ==> AllPlaced(items, DropInto(locs, d, target))
    ensures target in DropInto(locs, d, target) && d in DropInto(locs, d, target)[target]
    ensures forall k :: k in DropInto(locs, d, target) && d in DropInto(locs, d, target)[k] ==> k == target
    ensures forall k, it :: it != d ==>
              (k in DropInto(locs, d, target) && it in DropInto(locs, d, target)[k] <==> k in locs && it in locs[k])
  {
    var r := DropInto(locs, d, target);
    DropIntoContents(locs, d, target);
    SameIdSameItem(items);
    forall k | k in r
      ensures NoDuplicates(r[k])
    {
      if k == target {
        var base := if target in locs then Without(locs[target], d.id) else [];
        assert r[k] == base + [d];
      }
    }
    forall it | it in items && AllPlaced(items, locs)
      ensures exists k :: k in r && it in r[k]
    {
      if it == d {
        assert d in r[target];
      } else {
        var k :| k in locs && it in locs[k];
        assert it in r[k];
      }
    }
  }

  /** The buckets after a drop: the target holds the dragged item, and every
      bucket holds what it held before except items with the dragged id. */
  lemma DropIntoContents(locs: map<string, seq<Item>>, d: Item, target: string)
    ensures forall k :: k in DropInto(locs, d, target) <==> k in locs || k == target
    ensures forall k, it :: k in DropInto(locs, d, target) ==>
              (it in DropInto(locs, d, target)[k] <==> (k == target && it == d) || (k in locs && it in locs[k] && it.id != d.id))
  {
  }

  /** Items of the game with the same id are the same item. */
  lemma SameIdSameItem(items: seq<Item>)
    requires IdsAreIndices(items)
    ensures forall a, b :: a in items && b in items && a.id == b.id ==> a == b
  {
  }

  /** After the init effect every item sits in exactly one bucket, unless a
      category is literally named "unassigned": its empty bucket then replaces
      the one holding the items, and no item can be placed at all. */
  lemma {:induction false} InitialPlacement(xs: seq<DndItem>, categories: seq<string>)
    ensures WellPlaced(InitialItems(xs), InitialLocations(InitialItems(xs), categories))
    ensures Unassigned !in categories ==> AllPlaced(InitialItems(xs), InitialLocations(InitialItems(xs), categories))
    ensures Unassigned in categories ==>
              forall k, it :: k in InitialLocations(InitialItems(xs), categories) ==>
                it !in InitialLocations(InitialItems(xs), categories)[k]
  {
    var items := InitialItems(xs);
    var locs := InitialLocations(items, categories);
    forall i, j | 0 <= i < j < |items|
      ensures items[i] != items[j]
    {
      assert items[i].id != items[j].id;
    }
    if Unassigned !in categories {
      forall it | it in items
        ensures exists k :: k in locs && it in locs[k]
      {
        assert it in locs[Unassigned];
      }
    }
  }

  // ----- checking -----

  /** The verdict for an item lying in bucket `category`. */
  function VerdictFor(it: Item, category: string): (v: Verdict)
    ensures v == Correct <==> it.correctCategory == category
  {
    if it.correctCategory == category then Correct else Incorrect
  }

  /** No id occurs twice across all buckets. */
  predicate IdsPlacedOnce(locs: map<string, seq<Item>>)
  {
    forall k1, k2, i, j ::
      (k1 in locs && k2 in locs && 0 <= i < |locs[k1]| && 0 <= j < |locs[k2]| && locs[k1][i].id == locs[k2][j].id)
      ==> k1 == k2 && i == j
  }

  lemma WellPlacedIdsOnce(items: seq<Item>, locs: map<string, seq<Item>>)
    requires IdsAreIndices(items) && WellPlaced(items, locs)
    ensures IdsPlacedOnce(locs)
  {
    SameIdSameItem(items);
    forall k1, k2, i, j | k1 in locs && k2 in locs && 0 <= i < |locs[k1]| && 0 <= j < |locs[k2]|
      && locs[k1][i].id == locs[k2][j].id
      ensures k1 == k2 && i == j
    {
      assert locs[k1][i] in locs[k1] && locs[k2][j] in locs[k2];
    }
  }

  /** The verdicts of "check": every item in a category bucket has one, matching
      its bucket, and nothing else has one. */
  ghost predicate IsCheckResult(locs: map<string, seq<Item>>, fb: map<nat, Verdict>)
  {
    && (forall k, i :: k in locs && k != Unassigned && 0 <= i < |locs[k]| ==>
          locs[k][i].id in fb && fb[locs[k][i].id] == VerdictFor(locs[k][i], k))
    && (forall id :: id in fb ==>
          exists k, i :: k in locs && k != Unassigned && 0 <= i < |locs[k]| && locs[k][i].id == id)
  }

  /** The nested `forEach` loops of `checkAnswers`. */
  method CheckBuckets(locs: map<string, seq<Item>>) returns (fb: map<nat, Verdict>)
    requires IdsPlacedOnce(locs)
    ensures IsCheckResult(locs, fb)
  {
    fb := map[];
    var keys := locs.Keys;
    ghost var done: set<string> := {};
    while keys != {}
      invariant keys + done == locs.Keys && keys !! done
      invariant forall k, i :: k in done && k != Unassigned && 0 <= i < |locs[k]| ==>
                  locs[k][i].id in fb && fb[locs[k][i].id] == VerdictFor(locs[k][i], k)
      invariant forall id :: id in fb ==>
                  exists k, i :: k in done && k != Unassigned && 0 <= i < |locs[k]| && locs[k][i].id == id
      decreases keys
    {
      var category :| category in keys;
      if category != Unassigned {
        var bucket := locs[category];
        var j := 0;
        while j < |bucket|
          invariant 0 <= j <= |bucket|
          invariant forall k, i :: k in done && k != Unassigned && 0 <= i < |locs[k]| ==>
                      locs[k][i].id in fb && fb[locs[k][i].id] == VerdictFor(locs[k][i], k)
          invariant forall i :: 0 <= i < j ==> bucket[i].id in fb && fb[bucket[i].id] == VerdictFor(bucket[i], category)
          invariant forall id :: id in fb ==>
                      (exists k, i :: k in done && k != Unassigned && 0 <= i < |locs[k]| && locs[k][i].id == id)
                      || (exists i :: 0 <= i < j && bucket[i].id == id)
        {
          fb := fb[bucket[j].id := VerdictFor(bucket[j], category)];
          j := j + 1;
        }
      }
      keys := keys - {category};
      done := done + {category};
    }
  }

  /** The class of an item in a category bucket. */
  datatype ItemClass = GreenBorder | RedBorder | PlainBorder

  function FeedbackClass(fb: map<nat, Verdict>, id: nat): (k: ItemClass)
    ensures k == GreenBorder <==> id in fb && fb[id] == Correct
    ensures k == RedBorder <==> id in fb && fb[id] == Incorrect
  {
    if id in fb && fb[id] == Correct then GreenBorder
    else if id in fb && fb[id] == Incorrect then RedBorder
    else PlainBorder
  }

  class Game {
    const categories: seq<string>
    var items: seq<Item>
    var locations: map<string, seq<Item>>
    var draggedItem: Option<Item>
    var feedback: map<nat, Verdict>

    ghost predicate Valid()
      reads this
    {
      && IdsAreIndices(items)
      && WellPlaced(items, locations)
      && (Unassigned !in categories ==> AllPlaced(items, locations))
      && (draggedItem.Some? ==> draggedItem.value in items)
    }

    /** Mounting the screen: the init effect runs only for a playable payload. */
    constructor (data: Option<DragAndDropGameData>)
      ensures IsPlayable(data) ==>
                (categories == data.value.categories.value
                 && items == InitialItems(data.value.items.value)
                 && locations == InitialLocations(items, categories))
      ensures !IsPlayable(data) ==> categories == [] && items == [] && locations == map[]
      ensures draggedItem == None && feedback == map[]
      ensures Valid()
    {
      if IsPlayable(data) {
        var its := InitialItems(data.value.items.value);
        var locs := BuildLocations(its, data.value.categories.value);
        InitialPlacement(data.value.items.value, data.value.categories.value);
        categories := data.value.categories.value;
        items := its;
        locations := locs;
      } else {
        categories := [];
        items := [];
        locations := map[];
      }
      draggedItem := None;
      feedback := map[];
    }

    /** Picking up an item shown in some bucket. */
    method DragStart(item: Item)
      requires Valid() && exists k :: k in locations && item in locations[k]
      modifies this
      ensures Valid() && draggedItem == Some(item)
      ensures items == old(items) && locations == old(locations) && feedback == old(feedback)
    {
      draggedItem := Some(item);
    }

    /** Dropping on the bucket `target`; nothing happens with nothing dragged. */
    method Drop(target: string)
      requires Valid()
      modifies this
      ensures Valid() && items == old(items)
      ensures old(draggedItem).None? ==> locations == old(locations) && feedback == old(feedback)
      ensures old(draggedItem).Some? ==> locations == DropInto(old(locations), old(draggedItem).value, target)
                                         && feedback == map[]
      ensures draggedItem == None
    {
      if draggedItem.None? {
        return;
      }
      DropKeepsPlacement(items, locations, draggedItem.value, target);
      locations := DropInto(locations, draggedItem.value, target);
      draggedItem := None;
      feedback := map[];
    }

    /** "Check Answers". */
    method CheckAnswers()
      requires Valid()
      modifies this
      ensures Valid() && IsCheckResult(locations, feedback)
      ensures items == old(items) && locations == old(locations) && draggedItem == old(draggedItem)
    {
      WellPlacedIdsOnce(items, locations);
      feedback := CheckBuckets(locations);
    }
  }
}
