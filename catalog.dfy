/**
 * The catalog record the admin pages and the home page share, the
 * `{ earings: [...] }` document they read and write, and the id rule both
 * admin pages use for a new entry.
 */
module Catalog {
  import opened Options

  /** The folder the product photos are served from. */
  const PhotoFolder: string := "assets/earings"
  /** The prefix of a product photo's path. */
  const ImageDir: string := PhotoFolder + "/"

  /** The bundled catalog file, also the name an exported catalog is downloaded under. */
  const DataFileName: string := "earings-data.json"

  /** One earring of the catalog, with the fields the admin form writes. */
  datatype Item = Item(
    id: int,
    name: string,
    price: string,
    description: string,
    material: string,
    size: string,
    weight: string,
    closure: string,
    hypoallergenic: string,
    care: string,
    category: string,
    popularity: int,
    inStock: bool,
    images: seq<string>)

  /**
   * A parsed catalog document `{ earings: [...] }`; `earings` is `None` when
   * the key is missing or does not hold an array.
   */
  datatype Document = Document(earings: Option<seq<Item>>)

  /** What a download hands to the browser: the file name and the document saved in it. */
  datatype Download = Download(fileName: string, doc: Document)

  /** `Math.max(...items.map(e => e.id))` on a non-empty list. */
  function MaxId(items: seq<Item>): (m: int)
    requires |items| > 0
    ensures forall i :: 0 <= i < |items| ==> items[i].id <= m
    ensures exists i :: 0 <= i < |items| && items[i].id == m
  {
    if |items| == 1 then items[0].id
    else
      var rest := MaxId(items[1..]);
      assert forall i :: 1 <= i < |items| ==> items[i] == items[1..][i - 1];
      if items[0].id >= rest then items[0].id else rest
  }

  /** The id a new entry gets: one more than the largest id, or 1 for an empty list. */
  function NextId(items: seq<Item>): (r: int)
    ensures forall i :: 0 <= i < |items| ==> items[i].id < r
    ensures |items| == 0 ==> r == 1
    ensures |items| > 0 ==> exists i :: 0 <= i < |items| && items[i].id == r - 1
  {
    if |items| > 0 then MaxId(items) + 1 else 1
  }

  /** No two entries share an id. */
  predicate UniqueIds(items: seq<Item>) {
    forall i, j :: 0 <= i < j < |items| ==> items[i].id != items[j].id
  }

  /** Appending an entry that carries the next id keeps ids unique. */
  lemma AppendNextIdKeepsUnique(items: seq<Item>, item: Item)
    requires UniqueIds(items)
    requires item.id == NextId(items)
    ensures UniqueIds(items + [item])
  {
  }

  /**
   * Ids handed out one after another from an empty list are exactly 1..N:
   * when the ids so far are 1..n, the next one is n + 1.
   */
  lemma {:induction false} NextIdOfSequentialIds(items: seq<Item>)
    requires forall i :: 0 <= i < |items| ==> items[i].id == i + 1
    ensures NextId(items) == |items| + 1
  {
    if |items| > 0 {
      assert items[|items| - 1].id == |items|;
    }
  }

  /** `items.filter(e => e.id !== id)`. */
  function RemoveId(items: seq<Item>, id: int): (r: seq<Item>)
    ensures forall e :: e in r <==> e in items && e.id != id
    ensures |r| <= |items|
    ensures (forall e :: e in items ==> e.id != id) ==> r == items
  {
    if items == [] then []
    else if items[0].id == id then RemoveId(items[1..], id)
    else [items[0]] + RemoveId(items[1..], id)
  }

  /** Filtering works piecewise, so the kept entries stay in their original order. */
  lemma {:induction false} RemoveIdAppend(xs: seq<Item>, ys: seq<Item>, id: int)
    ensures RemoveId(xs + ys, id) == RemoveId(xs, id) + RemoveId(ys, id)
  {
    if xs != [] {
      assert (xs + ys)[1..] == xs[1..] + ys;
      RemoveIdAppend(xs[1..], ys, id);
    } else {
      assert xs + ys == ys;
    }
  }

  /** Removing entries never creates a duplicate id. */
  lemma {:induction false} RemoveIdKeepsUnique(items: seq<Item>, id: int)
    requires UniqueIds(items)
    ensures UniqueIds(RemoveId(items, id))
  {
    if items != [] {
      RemoveIdKeepsUnique(items[1..], id);
      if items[0].id != id {
        var rest := RemoveId(items[1..], id);
        forall e | e in rest ensures e.id != items[0].id {
          var k :| 1 <= k < |items| && items[k] == e;
        }
      }
    }
  }

  /**
   * Ids are reused: deleting the newest entry and then adding one hands out
   * the deleted id again, because the next id is computed from the list
   * as it is after the delete.
   */
  lemma DeleteNewestThenNextIdReuses(xs: seq<Item>, e: Item)
    requires e.id == NextId(xs)
    ensures NextId(RemoveId(xs + [e], e.id)) == e.id
  {
    RemoveIdAppend(xs, [e], e.id);
    assert [e][1..] == [];
  }

  /** `items.find(e => e.id === id)`: the first entry carrying `id`. */
  function FindById(items: seq<Item>, id: int): (r: Option<Item>)
    ensures r.None? <==> forall i :: 0 <= i < |items| ==> items[i].id != id
    ensures r.Some? ==> exists k :: 0 <= k < |items| && items[k] == r.value && r.value.id == id &&
                          forall i :: 0 <= i < k ==> items[i].id != id
  {
    if items == [] then None
    else if items[0].id == id then Some(items[0])
    else
      var r := FindById(items[1..], id);
      assert forall i :: 1 <= i < |items| ==> items[i] == items[1..][i - 1];
      r
  }
}
