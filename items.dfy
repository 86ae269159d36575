/**
 * The collectable items (key, heart, gem) and createItems, which places
 * them on the map.
 */
module Items {
  import opened Geometry
  import opened Utils
  import opened GameMap

  datatype ItemKind = Key | Heart | Gem

  /**
   * An item at a tile corner. `createdAt` is the clock time (ms) at which
   * the item was created; the gem's two timers run from that moment.
   */
  datatype Item = Item(kind: ItemKind, x: int, y: int, createdAt: int)

  /** The gem timers: it fades after 2500 ms and is destroyed 1500 ms later. */
  const GEM_FADE_TIME: int := 2500
  const GEM_DESTROY_TIME: int := GEM_FADE_TIME + 1500

  /** Whether the gem's fade timer has fired by clock time `now`. */
  predicate Fading(item: Item, now: int)
  {
    item.kind == Gem && now - item.createdAt >= GEM_FADE_TIME
  }

  /** Whether the gem's destroy timer has fired by clock time `now`; only gems are ever destroyed. */
  predicate Destroyed(item: Item, now: int)
  {
    item.kind == Gem && now - item.createdAt >= GEM_DESTROY_TIME
  }

  /**
   * The gem's life: neither fading nor destroyed before 2500 ms, fading
   * from then on, destroyed from 4000 ms, and never destroyed without
   * having faded first.
   */
  lemma GemTimeline(item: Item, now: int, later: int)
    requires item.kind == Gem && now <= later
    ensures now - item.createdAt < 2500 ==> !Fading(item, now) && !Destroyed(item, now)
    ensures 2500 <= now - item.createdAt < 4000 ==> Fading(item, now) && !Destroyed(item, now)
    ensures now - item.createdAt >= 4000 ==> Fading(item, now) && Destroyed(item, now)
    ensures Fading(item, now) ==> Fading(item, later)
    ensures Destroyed(item, now) ==> Destroyed(item, later)
  {
  }

  /** The nearRock test of createItems: within one step of the rock in both directions. */
  predicate NearRock(t: Tile, rock: Point)
  {
    t.x <= rock.x + X_STEP && t.x >= rock.x - X_STEP && t.y <= rock.y + Y_STEP && t.y >= rock.y - Y_STEP
  }

  predicate NearAnyRock(t: Tile, rocks: seq<Point>)
  {
    exists i :: 0 <= i < |rocks| && NearRock(t, rocks[i])
  }

  /** createItems' rule: not water, not the start tile, not the door tile, not next to a rock. */
  predicate ItemCandidate(m: Map, t: Tile)
  {
    && t.kind != Water
    && (t.x != m.start.x || t.y != m.start.y)
    && (t.x != m.end.x || t.y != m.end.y)
    && !NearAnyRock(t, m.rocks)
  }


  /** The filter of createItems: the coordinates of every candidate tile, in tile order. */
  function ItemSpots(m: Map, ts: seq<Tile>): (spots: seq<Point>)
    ensures forall p :: p in spots <==> exists t :: t in ts && ItemCandidate(m, t) && Coords(t) == p
  {
    if |ts| == 0 then []
    else
      var rest := ItemSpots(m, ts[..|ts| - 1]);
      assert forall t :: t in ts <==> t in ts[..|ts| - 1] || t == ts[|ts| - 1] by {
        assert ts == ts[..|ts| - 1] + [ts[|ts| - 1]];
      }
      if ItemCandidate(m, ts[|ts| - 1]) then rest + [Coords(ts[|ts| - 1])] else rest
  }

  /** Whether createItems may place an item at p: p is among the coordinates its filter keeps. */
  predicate ItemSpot(m: Map, p: Point)
  {
    p in ItemSpots(m, m.tiles)
  }

  lemma {:induction false} ItemSpotsDistinct(m: Map, ts: seq<Tile>)
    requires forall a, b | 0 <= a < b < |ts| :: Coords(ts[a]) != Coords(ts[b])
    ensures NoRepeats(ItemSpots(m, ts))
  {
    if |ts| > 0 {
      var n := |ts| - 1;
      ItemSpotsDistinct(m, ts[..n]);
      forall t | t in ts[..n] && ItemCandidate(m, t) ensures Coords(t) != Coords(ts[n]) {
        var a :| 0 <= a < n && ts[..n][a] == t;
        assert Coords(ts[a]) != Coords(ts[n]);
      }
      if ItemCandidate(m, ts[n]) {
        NoRepeatsAppend(ItemSpots(m, ts[..n]), Coords(ts[n]));
      }
    }
  }

  /**
   * An item spot is safe: there is no water there, it is neither the start
   * point nor the door, and no rock lies on it or on any of its eight
   * neighbouring tiles.
   */
  lemma ItemSpotIsSafe(m: Map, p: Point)
    requires ValidMap(m) && ItemSpot(m, p)
    ensures HasTile(m, p.x, p.y) && !IsWater(m, p.x, p.y)
    ensures p != m.start && p != m.end
    ensures forall r | r in m.rocks :: !(r.x - X_STEP <= p.x <= r.x + X_STEP && r.y - Y_STEP <= p.y <= r.y + Y_STEP)
    ensures p !in m.rocks
  {
    LayoutCoordinates(StartCol(m), EndCol(m));
    var t :| t in m.tiles && ItemCandidate(m, t) && Coords(t) == p;
    var k :| 0 <= k < |m.tiles| && m.tiles[k] == t;
    forall j | 0 <= j < |m.tiles| && m.tiles[j].x == p.x && m.tiles[j].y == p.y
      ensures m.tiles[j].kind != Water
    {
      assert Coords(m.tiles[j]) == Coords(m.tiles[k]);
    }
    forall r | r in m.rocks
      ensures !(r.x - X_STEP <= p.x <= r.x + X_STEP && r.y - Y_STEP <= p.y <= r.y + Y_STEP)
    {
      var i :| 0 <= i < |m.rocks| && m.rocks[i] == r;
      assert !NearRock(t, m.rocks[i]);
    }
  }

  /** Whether the rock lies close enough to row `row` to rule out item spots in it. */
  predicate AffectsRow(rock: Point, row: int)
  {
    rock.y - Y_STEP <= row * Y_STEP <= rock.y + Y_STEP
  }

  /** A grass tile in row 1 or 4 two columns or more from the only rock near that row is an item spot. */
  lemma SpotInRow(m: Map, row: int, c: int, col: int)
    requires ValidMap(m) && (row == 1 || row == 4) && 0 <= col < 7
    requires col - c > 1 || c - col > 1
    requires forall i | 0 <= i < |m.rocks| && AffectsRow(m.rocks[i], row) :: m.rocks[i].x == c * X_STEP
    ensures Point(col * X_STEP, row * Y_STEP) in ItemSpots(m, m.tiles)
  {
    LayoutAt(StartCol(m), EndCol(m), row, col);
    var t := m.tiles[7 * row + col];
    forall i | 0 <= i < |m.rocks| ensures !NearRock(t, m.rocks[i]) {
      if AffectsRow(m.rocks[i], row) {
        assert m.rocks[i].x == c * X_STEP;
      }
    }
    assert ItemCandidate(m, t);
  }

  /** If at most one rock, in column c, is near row 1 or 4, three tiles of that row are item spots. */
  lemma ThreeInRow(m: Map, row: int, c: int)
    requires ValidMap(m) && (row == 1 || row == 4) && 0 <= c < 7
    requires forall i | 0 <= i < |m.rocks| && AffectsRow(m.rocks[i], row) :: m.rocks[i].x == c * X_STEP
    ensures |ItemSpots(m, m.tiles)| >= 3
  {
    var a, b, d := if c <= 2 then 4 else 0, if c <= 2 then 5 else 1, if c <= 2 then 6 else if c == 3 then 5 else 2;
    SpotInRow(m, row, c, a);
    SpotInRow(m, row, c, b);
    SpotInRow(m, row, c, d);
    AtLeastThree(ItemSpots(m, m.tiles), Point(a * X_STEP, row * Y_STEP), Point(b * X_STEP, row * Y_STEP), Point(d * X_STEP, row * Y_STEP));
  }

  /**
   * Every valid map has at least three distinct item spots, so createItems
   * can always place the key, the gem and the heart. Each rock is near row
   * 1 or row 4 but not both; with at most three rocks one of these rows is
   * near at most one rock, and three of its tiles stay free.
   */
  lemma ItemSpotsOfMap(m: Map)
    requires ValidMap(m)
    ensures NoRepeats(ItemSpots(m, m.tiles)) && |ItemSpots(m, m.tiles)| >= 3
  {
    LayoutCoordinates(StartCol(m), EndCol(m));
    ItemSpotsDistinct(m, m.tiles);
    var rocks := m.rocks;
    forall i | 0 <= i < |rocks|
      ensures rocks[i].y in {83, 166, 249, 332} && OnGrid(rocks[i].x, rocks[i].y)
      ensures rocks[i].x == (rocks[i].x / X_STEP) * X_STEP && 0 <= rocks[i].x / X_STEP < 7
      ensures AffectsRow(rocks[i], 1) <==> !AffectsRow(rocks[i], 4)
    {
      assert rocks[i] in rocks;
      var t :| t in m.tiles && RockCandidate(m, t) && Coords(t) == rocks[i];
      RockCandidateRows(m, t);
    }
    var n := |rocks|;
    if n == 0 {
      ThreeInRow(m, 1, 0);
    } else if n == 1 {
      ThreeInRow(m, 1, rocks[0].x / X_STEP);
    } else if n == 2 {
      if !AffectsRow(rocks[0], 1) {
        ThreeInRow(m, 1, rocks[1].x / X_STEP);
      } else if !AffectsRow(rocks[1], 1) {
        ThreeInRow(m, 1, rocks[0].x / X_STEP);
      } else {
        ThreeInRow(m, 4, 0);
      }
    } else {
      var low0, low1, low2 := AffectsRow(rocks[0], 1), AffectsRow(rocks[1], 1), AffectsRow(rocks[2], 1);
      if !low0 && !low1 {
        ThreeInRow(m, 1, rocks[2].x / X_STEP);
      } else if !low0 && !low2 {
        ThreeInRow(m, 1, rocks[1].x / X_STEP);
      } else if !low1 && !low2 {
        ThreeInRow(m, 1, rocks[0].x / X_STEP);
      } else if low0 && low1 {
        ThreeInRow(m, 4, rocks[2].x / X_STEP);
      } else if low0 && low2 {
        ThreeInRow(m, 4, rocks[1].x / X_STEP);
      } else {
        ThreeInRow(m, 4, rocks[0].x / X_STEP);
      }
    }
  }

  /** The filter loop of createItems, with its inner loop over the rocks. */
  method CollectItemSpots(m: Map) returns (itemCoords: seq<Point>)
    ensures itemCoords == ItemSpots(m, m.tiles)
  {
    var tiles := m.tiles;
    itemCoords := [];
    var k := 0;
    while k < |tiles|
      invariant 0 <= k <= |tiles|
      invariant itemCoords == ItemSpots(m, tiles[..k])
    {
      var tile := tiles[k];
      var nearRock := false;
      if tile.kind != Water && (tile.x != m.start.x || tile.y != m.start.y) && (tile.x != m.end.x || tile.y != m.end.y) {
        var r := 0;
        while r < |m.rocks|
          invariant 0 <= r <= |m.rocks|
          invariant nearRock <==> exists i :: 0 <= i < r && NearRock(tile, m.rocks[i])
        {
          var rock := m.rocks[r];
          if tile.x <= rock.x + X_STEP && tile.x >= rock.x - X_STEP {
            if tile.y <= rock.y + Y_STEP && tile.y >= rock.y - Y_STEP {
              nearRock := true;
            }
          }
          r := r + 1;
        }
        if !nearRock {
          itemCoords := itemCoords + [Point(tile.x, tile.y)];
        }
      }
      assert tiles[..k + 1][..k] == tiles[..k];
      k := k + 1;
    }
    assert tiles[..k] == tiles;
  }

  /** Whether createItems adds a heart: on every fifth level, when the coin draw exceeds one half. */
  predicate HeartLevel(level: int, heartCoin: real)
  {
    level % 5 == 0 && heartCoin > 0.5
  }

  /**
   * createItems: a key and a gem, and on heart levels a heart, each drawn
   * without replacement from the item spots, so no two share a tile.
   */
  method CreateItems(m: Map, level: int, now: int, keyPick: nat, gemPick: nat, heartCoin: real, heartPick: nat)
    returns (items: seq<Item>)
    requires ValidMap(m)
    ensures |items| == (if HeartLevel(level, heartCoin) then 3 else 2)
    ensures items[0].kind == Key && items[1].kind == Gem && (|items| == 3 ==> items[2].kind == Heart)
    ensures forall i | 0 <= i < |items| :: ItemSpot(m, Point(items[i].x, items[i].y)) && items[i].createdAt == now
    ensures forall i, j | 0 <= i < j < |items| :: Point(items[i].x, items[i].y) != Point(items[j].x, items[j].y)
  {
    var itemCoords := CollectItemSpots(m);
    ItemSpotsOfMap(m);
    items := PlaceItems(itemCoords, level, now, keyPick, gemPick, heartCoin, heartPick);
  }

  /**
   * The draws of createItems: key, gem and, on heart levels, heart, each
   * taken from the remaining spots and removed from them.
   */
  method PlaceItems(itemCoords: seq<Point>, level: int, now: int, keyPick: nat, gemPick: nat, heartCoin: real, heartPick: nat)
    returns (items: seq<Item>)
    requires |itemCoords| >= 3 && NoRepeats(itemCoords)
    ensures |items| == (if HeartLevel(level, heartCoin) then 3 else 2)
    ensures items[0].kind == Key && items[1].kind == Gem && (|items| == 3 ==> items[2].kind == Heart)
    ensures forall i | 0 <= i < |items| :: Point(items[i].x, items[i].y) in itemCoords && items[i].createdAt == now
    ensures forall i, j | 0 <= i < j < |items| :: Point(items[i].x, items[i].y) != Point(items[j].x, items[j].y)
  {
    var pool := itemCoords;
    ghost var placed: seq<Point> := [];

    var keyCoords;
    keyCoords, pool := TakeSpot(pool, keyPick);
    items := [Item(Key, keyCoords.x, keyCoords.y, now)];
    placed := [keyCoords];

    var gemCoords;
    gemCoords, pool := TakeSpot(pool, gemPick);
    items := items + [Item(Gem, gemCoords.x, gemCoords.y, now)];
    NoRepeatsAppend(placed, gemCoords);
    placed := placed + [gemCoords];
    assert forall i | 0 <= i < |items| :: Point(items[i].x, items[i].y) == placed[i];

    if level % 5 == 0 {
      if heartCoin > 0.5 {
        var heartCoords;
        heartCoords, pool := TakeSpot(pool, heartPick);
        items := items + [Item(Heart, heartCoords.x, heartCoords.y, now)];
        NoRepeatsAppend(placed, heartCoords);
        placed := placed + [heartCoords];
        assert forall i | 0 <= i < |items| :: Point(items[i].x, items[i].y) == placed[i];
      }
    }
    PlacedApart(items, placed);
  }

  lemma PlacedApart(items: seq<Item>, placed: seq<Point>)
    requires |items| == |placed| && NoRepeats(placed)
    requires forall i | 0 <= i < |items| :: Point(items[i].x, items[i].y) == placed[i]
    ensures forall i, j | 0 <= i < j < |items| :: Point(items[i].x, items[i].y) != Point(items[j].x, items[j].y)
  {
    forall i, j | 0 <= i < j < |items| ensures placed[i] != placed[j] {
      NoRepeatsAt(placed, i, j);
    }
  }

  /**
   * One draw of createItems: choice from the remaining spots, then
   * removeElement of the spot drawn, which (the spots being distinct)
   * deletes exactly the drawn position.
   */
  method TakeSpot(itemCoords: seq<Point>, pick: nat) returns (spot: Point, rest: seq<Point>)
    requires |itemCoords| > 0 && NoRepeats(itemCoords)
    ensures spot == Choice(itemCoords, pick)
    ensures rest == itemCoords[..pick % |itemCoords|] + itemCoords[pick % |itemCoords| + 1..]
    ensures spot in itemCoords && spot !in rest && NoRepeats(rest) && |rest| == |itemCoords| - 1
    ensures forall p | p in rest :: p in itemCoords
  {
    spot := Choice(itemCoords, pick);
    SampleStep(itemCoords, pick);
    rest := RemoveElement(spot, itemCoords);
  }
}
