/**
 * Facts about a level's item list: where items lie, the removal tests of
 * the item pass, and finding the item under the player.
 */
module ItemLists {
  import opened Utils
  import opened GameMap
  import opened Items

  function Pos(item: Item): Point
  {
    Point(item.x, item.y)
  }

  /** Whether two items lie on the same tile, for no two items of a level. */
  ghost predicate ItemsApart(items: seq<Item>)
  {
    forall i, j | 0 <= i < j < |items| :: Pos(items[i]) != Pos(items[j])
  }

  /** Every item lies on an item spot of the map. */
  ghost predicate OnItemSpots(m: Map, items: seq<Item>)
  {
    forall i | 0 <= i < |items| :: ItemSpot(m, Pos(items[i]))
  }

  /**
   * removeElement on an item list: the item at k goes, and the rest stay on
   * their spots and apart.
   */
  lemma RemoveItemAt(m: Map, items: seq<Item>, k: nat)
    requires OnItemSpots(m, items) && ItemsApart(items) && k < |items|
    ensures RemoveElement(items[k], items) == items[..k] + items[k + 1..]
    ensures OnItemSpots(m, items[..k] + items[k + 1..]) && ItemsApart(items[..k] + items[k + 1..])
  {
    RemoveFromDistinct(items, k);
    ApartWithout(items, k);
    OnSpotsWithout(m, items, k);
  }

  lemma ApartWithout(items: seq<Item>, k: nat)
    requires ItemsApart(items) && k < |items|
    ensures ItemsApart(items[..k] + items[k + 1..])
  {
    var r := items[..k] + items[k + 1..];
    forall i, j | 0 <= i < j < |r| ensures Pos(r[i]) != Pos(r[j]) {
      var i' := if i < k then i else i + 1;
      var j' := if j < k then j else j + 1;
      assert r[i] == items[i'] && r[j] == items[j'];
    }
  }

  lemma OnSpotsWithout(m: Map, items: seq<Item>, k: nat)
    requires OnItemSpots(m, items) && k < |items|
    ensures OnItemSpots(m, items[..k] + items[k + 1..])
  {
    var r := items[..k] + items[k + 1..];
    forall i | 0 <= i < |r| ensures ItemSpot(m, Pos(r[i])) {
      assert r[i] == items[if i < k then i else i + 1];
    }
  }

  /** The removal tests of updateEntities' item pass: the gems whose destroy timer has fired. */
  function DestroyedFlags(items: seq<Item>, now: int): (d: seq<bool>)
    ensures |d| == |items| && forall i | 0 <= i < |items| :: d[i] == Destroyed(items[i], now)
  {
    if |items| == 0 then [] else [Destroyed(items[0], now)] + DestroyedFlags(items[1..], now)
  }

  /** The index of the first item at (x, y), or -1 when there is none. */
  function ItemIndexAt(items: seq<Item>, x: int, y: int): (j: int)
    ensures -1 <= j < |items|
    ensures j >= 0 ==> items[j].x == x && items[j].y == y
    ensures forall i | 0 <= i < |items| && (j < 0 || i < j) :: !(items[i].x == x && items[i].y == y)
  {
    if |items| == 0 then -1
    else if items[0].x == x && items[0].y == y then 0
    else
      var j := ItemIndexAt(items[1..], x, y);
      if j < 0 then -1 else j + 1
  }

  /** With the items apart, once the item at k is removed no item is left on its tile. */
  lemma NothingLeftUnder(items: seq<Item>, k: nat)
    requires ItemsApart(items) && k < |items|
    ensures ItemIndexAt(items[..k] + items[k + 1..], items[k].x, items[k].y) < 0
  {
    var r := items[..k] + items[k + 1..];
    forall i | 0 <= i < |r| ensures Pos(r[i]) != Pos(items[k]) {
      assert r[i] == items[if i < k then i else i + 1];
    }
  }
}
