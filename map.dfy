/**
 * The level map: a 7 by 6 grid of tiles, the start point, the door and the
 * rocks, as built by createMap.
 */
module GameMap {
  import opened Geometry
  import opened Utils

  datatype TileKind = Grass | Stone | Water
  datatype Tile = Tile(kind: TileKind, x: int, y: int)
  datatype Point = Point(x: int, y: int)

  /** The map of one level. `end` is the door the player needs the key for. */
  datatype Map = Map(tiles: seq<Tile>, start: Point, end: Point, rocks: seq<Point>)

  function Coords(t: Tile): Point { Point(t.x, t.y) }

  /**
   * The tile createMap places at pixel position (x, y) of a row it visits,
   * when the start point is at column pixel `mapStart` and the door at
   * `mapEnd`: the top row is water except under the door, rows 1 and 4 are
   * grass, rows 2 and 3 stone, and the bottom row (5) is water except at
   * the start point.
   */
  function TileAt(mapStart: int, mapEnd: int, x: int, y: int): Tile
  {
    if y == 0 then
      (if x == mapEnd then Tile(Stone, x, y) else Tile(Water, x, y))
    else if y == Y_STEP || y == 4 * Y_STEP then
      Tile(Grass, x, y)
    else if y == 2 * Y_STEP || y == 3 * Y_STEP then
      Tile(Stone, x, y)
    else
      (if x == mapStart then Tile(Stone, x, y) else Tile(Water, x, y))
  }

  /** Whether (x, y) is the corner of one of the 42 grid cells. */
  predicate OnGrid(x: int, y: int)
  {
    0 <= x < X_RIGHT && x % X_STEP == 0 && 0 <= y < Y_BOTTOM && y % Y_STEP == 0
  }

  /** The 42 tiles in the order createMap pushes them: row by row, left to right. */
  function Layout(startCol: int, endCol: int): (tiles: seq<Tile>)
    ensures |tiles| == 42
  {
    seq(42, k => TileAt(startCol * X_STEP, endCol * X_STEP, (k % 7) * X_STEP, (k / 7) * Y_STEP))
  }

  lemma LayoutAt(startCol: int, endCol: int, row: int, col: int)
    requires 0 <= row < 6 && 0 <= col < 7
    ensures 0 <= 7 * row + col < 42
    ensures Layout(startCol, endCol)[7 * row + col] == TileAt(startCol * X_STEP, endCol * X_STEP, col * X_STEP, row * Y_STEP)
  {
    var k := 7 * row + col;
    assert k / 7 == row && k % 7 == col;
  }

  /** Every tile of the layout sits on a grid corner, and no two tiles share one. */
  lemma {:induction false} LayoutCoordinates(startCol: int, endCol: int)
    ensures forall k | 0 <= k < 42 :: OnGrid(Layout(startCol, endCol)[k].x, Layout(startCol, endCol)[k].y)
    ensures forall a, b | 0 <= a < 42 && 0 <= b < 42 ::
              Coords(Layout(startCol, endCol)[a]) == Coords(Layout(startCol, endCol)[b]) ==> a == b
  {
    var tiles := Layout(startCol, endCol);
    forall k | 0 <= k < 42
      ensures OnGrid(tiles[k].x, tiles[k].y)
      ensures tiles[k].x == (k % 7) * X_STEP && tiles[k].y == (k / 7) * Y_STEP
    {
    }
    forall a, b | 0 <= a < 42 && 0 <= b < 42 && Coords(tiles[a]) == Coords(tiles[b])
      ensures a == b
    {
      assert a % 7 == b % 7 && a / 7 == b / 7;
    }
  }

  /** Every grid corner carries exactly the layout tile createMap puts there. */
  lemma LayoutCovers(startCol: int, endCol: int, x: int, y: int)
    requires OnGrid(x, y)
    ensures var k := 7 * (y / Y_STEP) + x / X_STEP;
            0 <= k < 42 && Layout(startCol, endCol)[k] == TileAt(startCol * X_STEP, endCol * X_STEP, x, y)
  {
    LayoutAt(startCol, endCol, y / Y_STEP, x / X_STEP);
  }

  /** Whether some tile of the map is at (x, y). */
  predicate HasTile(m: Map, x: int, y: int)
  {
    exists k :: 0 <= k < |m.tiles| && m.tiles[k].x == x && m.tiles[k].y == y
  }

  /** Whether the map has a water tile at (x, y). */
  predicate IsWater(m: Map, x: int, y: int)
  {
    exists k :: 0 <= k < |m.tiles| && m.tiles[k].kind == Water && m.tiles[k].x == x && m.tiles[k].y == y
  }

  function StartCol(m: Map): int { m.start.x / X_STEP }
  function EndCol(m: Map): int { m.end.x / X_STEP }

  /** createMap's rule for rock positions: not water, not in the start or door column. */
  predicate RockCandidate(m: Map, t: Tile)
  {
    t.kind != Water && t.x != m.start.x && t.x != m.end.x
  }

  /**
   * The invariant of every map createMap returns: start on the bottom row and
   * door on the top row, each in an interior column; the tiles laid out as
   * above; at most three distinct rocks, each on a rock candidate tile.
   */
  ghost predicate ValidMap(m: Map)
  {
    && m.start.y == 5 * Y_STEP && m.start.x in {101, 202, 303, 404}
    && m.end.y == Y_TOP && m.end.x in {101, 202, 303, 404}
    && m.tiles == Layout(StartCol(m), EndCol(m))
    && |m.rocks| <= 3 && NoRepeats(m.rocks)
    && forall r | r in m.rocks :: exists t :: t in m.tiles && RockCandidate(m, t) && Coords(t) == r
  }

  /** The start tile and the door tile exist and are stone. */
  lemma StartAndDoorAreStone(m: Map)
    requires ValidMap(m)
    ensures HasTile(m, m.start.x, m.start.y) && !IsWater(m, m.start.x, m.start.y)
    ensures HasTile(m, m.end.x, m.end.y) && !IsWater(m, m.end.x, m.end.y)
  {
    StoneAt(m, m.start.x, m.start.y);
    StoneAt(m, m.end.x, m.end.y);
  }

  /** A grid point whose laid-out tile is stone has a tile in the map, and no water one. */
  lemma StoneAt(m: Map, x: int, y: int)
    requires ValidMap(m) && OnGrid(x, y)
    requires TileAt(m.start.x, m.end.x, x, y).kind == Stone
    ensures HasTile(m, x, y) && !IsWater(m, x, y)
  {
    LayoutCoordinates(StartCol(m), EndCol(m));
    LayoutCovers(StartCol(m), EndCol(m), x, y);
  }

  /** A tile that is not water and lies outside the start and door columns is in rows 1 to 4. */
  lemma RockCandidateRows(m: Map, t: Tile)
    requires ValidMap(m) && t in m.tiles && RockCandidate(m, t)
    ensures t.y in {83, 166, 249, 332} && OnGrid(t.x, t.y)
  {
    var k :| 0 <= k < 42 && m.tiles[k] == t;
    var row, col := k / 7, k % 7;
    assert StartCol(m) * X_STEP == m.start.x && EndCol(m) * X_STEP == m.end.x;
    assert t == TileAt(m.start.x, m.end.x, col * X_STEP, row * Y_STEP);
    assert 1 <= row <= 4;
  }

  /** Filter of createMap's first rock loop: the coordinates of every rock candidate tile, in order. */
  function RockSpots(m: Map, ts: seq<Tile>): (spots: seq<Point>)
    ensures forall p :: p in spots <==> exists t :: t in ts && RockCandidate(m, t) && Coords(t) == p
  {
    if |ts| == 0 then []
    else
      var rest := RockSpots(m, ts[..|ts| - 1]);
      assert forall t :: t in ts <==> t in ts[..|ts| - 1] || t == ts[|ts| - 1] by {
        assert ts == ts[..|ts| - 1] + [ts[|ts| - 1]];
      }
      if RockCandidate(m, ts[|ts| - 1]) then rest + [Coords(ts[|ts| - 1])] else rest
  }

  /** Filtering keeps distinct coordinates distinct. */
  lemma {:induction false} RockSpotsDistinct(m: Map, ts: seq<Tile>)
    requires forall a, b | 0 <= a < b < |ts| :: Coords(ts[a]) != Coords(ts[b])
    ensures NoRepeats(RockSpots(m, ts))
  {
    if |ts| > 0 {
      var n := |ts| - 1;
      RockSpotsDistinct(m, ts[..n]);
      forall t | t in ts[..n] && RockCandidate(m, t) ensures Coords(t) != Coords(ts[n]) {
        var a :| 0 <= a < n && ts[..n][a] == t;
        assert Coords(ts[a]) != Coords(ts[n]);
      }
      if RockCandidate(m, ts[n]) {
        NoRepeatsAppend(RockSpots(m, ts[..n]), Coords(ts[n]));
      }
    }
  }

  /**
   * One step of sampling without replacement, as createMap and createItems
   * do it: choice from the pool, then removeElement of the chosen value.
   */
  lemma SampleStep<T>(pool: seq<T>, draw: nat)
    requires |pool| > 0 && NoRepeats(pool)
    ensures var c := Choice(pool, draw);
            var rest := RemoveElement(c, pool);
            c in pool && c !in rest && NoRepeats(rest) && |rest| == |pool| - 1 &&
            forall x :: x in rest <==> x in pool && x != c
  {
    var c := Choice(pool, draw);
    var k := draw % |pool|;
    RemoveAtSlot(pool, k);
    var rest := pool[..k] + pool[k + 1..];
    assert pool == pool[..k] + [c] + pool[k + 1..];
    forall x ensures x in rest <==> x in pool && x != c {
      if x in rest {
        var i :| 0 <= i < |rest| && rest[i] == x;
        var j := if i < k then i else i + 1;
        assert pool[j] == x;
        NoRepeatsAt(pool, j, k);
      }
    }
  }

  /**
   * createMap: start and door columns drawn from 1..4, the 42 tiles laid out
   * row by row, and above level 15 between one and three rocks drawn without
   * replacement from the rock candidate tiles.
   */
  method CreateMap(level: int, startDraw: nat, endDraw: nat, rockCountDraw: nat, rockPicks: seq<nat>)
    returns (m: Map)
    requires |rockPicks| >= 3
    ensures ValidMap(m)
    ensures StartCol(m) == RandInt(1, 4, startDraw) && EndCol(m) == RandInt(1, 4, endDraw)
    ensures level <= 15 ==> m.rocks == []
    ensures level > 15 ==> |m.rocks| == RandInt(1, 3, rockCountDraw)
  {
    var startCol := RandInt(1, 4, startDraw);
    var endCol := RandInt(1, 4, endDraw);
    var tiles := LayTiles(startCol, endCol);
    m := Map(tiles, Point(startCol * X_STEP, 5 * Y_STEP), Point(endCol * X_STEP, Y_TOP), []);
    if level > 15 {
      var rockNumber := RandInt(1, 3, rockCountDraw);
      var rocks := PlaceRocks(m, rockNumber, rockPicks);
      m := m.(rocks := rocks);
    }
  }

  /** The tile loops of createMap: rows top to bottom, columns left to right. */
  method LayTiles(startCol: int, endCol: int) returns (tiles: seq<Tile>)
    ensures tiles == Layout(startCol, endCol)
  {
    var mapStart := startCol * X_STEP;
    var mapEnd := endCol * X_STEP;
    tiles := [];
    var j := 0;
    ghost var row := 0;
    while j < Y_BOTTOM
      invariant 0 <= row <= 6 && j == row * Y_STEP
      invariant tiles == Layout(startCol, endCol)[..7 * row]
    {
      var i := 0;
      ghost var col := 0;
      while i < X_RIGHT
        invariant 0 <= col <= 7 && i == col * X_STEP
        invariant tiles == Layout(startCol, endCol)[..7 * row + col]
      {
        LayoutAt(startCol, endCol, row, col);
        tiles := tiles + [TileAt(mapStart, mapEnd, i, j)];
        i := i + X_STEP;
        col := col + 1;
      }
      j := j + Y_STEP;
      row := row + 1;
    }
  }

  /**
   * The rock loops of createMap: collect the coordinates of every rock
   * candidate tile, then draw `rockNumber` of them without replacement.
   */
  method PlaceRocks(m: Map, rockNumber: int, rockPicks: seq<nat>) returns (rocks: seq<Point>)
    requires ValidMap(m) && m.rocks == [] && 0 <= rockNumber <= 3 && |rockPicks| >= rockNumber
    ensures ValidMap(m.(rocks := rocks)) && |rocks| == rockNumber
  {
    var allRockCoords := CollectRockSpots(m);
    RockSpotsOfMap(m);
    rocks := [];
    var i := 0;
    while i < rockNumber
      invariant 0 <= i <= rockNumber && |rocks| == i
      invariant |allRockCoords| >= 3 - i
      invariant NoRepeats(allRockCoords) && NoRepeats(rocks)
      invariant forall r | r in rocks :: r !in allRockCoords
      invariant forall p | p in rocks || p in allRockCoords ::
                  exists t :: t in m.tiles && RockCandidate(m, t) && Coords(t) == p
    {
      var rockCoords := Choice(allRockCoords, rockPicks[i]);
      SampleStep(allRockCoords, rockPicks[i]);
      NoRepeatsAppend(rocks, rockCoords);
      rocks := rocks + [rockCoords];
      allRockCoords := RemoveElement(rockCoords, allRockCoords);
      i := i + 1;
    }
  }

  /** The first rock loop of createMap: the coordinates of the rock candidates, in tile order. */
  method CollectRockSpots(m: Map) returns (allRockCoords: seq<Point>)
    ensures allRockCoords == RockSpots(m, m.tiles)
  {
    var tiles := m.tiles;
    allRockCoords := [];
    var k := 0;
    while k < |tiles|
      invariant 0 <= k <= |tiles|
      invariant allRockCoords == RockSpots(m, tiles[..k])
    {
      if tiles[k].kind != Water && tiles[k].x != m.start.x && tiles[k].x != m.end.x {
        allRockCoords := allRockCoords + [Point(tiles[k].x, tiles[k].y)];
      }
      assert tiles[..k + 1][..k] == tiles[..k];
      k := k + 1;
    }
    assert tiles[..k] == tiles;
  }

  /** On a valid map there are at least three distinct rock candidates. */
  lemma RockSpotsOfMap(m: Map)
    requires ValidMap(m)
    ensures NoRepeats(RockSpots(m, m.tiles)) && |RockSpots(m, m.tiles)| >= 3
  {
    LayoutCoordinates(StartCol(m), EndCol(m));
    RockSpotsDistinct(m, m.tiles);
    // Column 0 is never the start or door column, so its three middle rows are candidates.
    LayoutAt(StartCol(m), EndCol(m), 1, 0);
    LayoutAt(StartCol(m), EndCol(m), 2, 0);
    LayoutAt(StartCol(m), EndCol(m), 3, 0);
    var spots := RockSpots(m, m.tiles);
    assert Point(0, 83) in spots && Point(0, 166) in spots && Point(0, 249) in spots;
    AtLeastThree(spots, Point(0, 83), Point(0, 166), Point(0, 249));
  }

  /** A sequence holding three distinct values has at least three elements. */
  lemma AtLeastThree<T>(s: seq<T>, a: T, b: T, c: T)
    requires a in s && b in s && c in s && a != b && b != c && a != c
    ensures |s| >= 3
  {
    var i :| 0 <= i < |s| && s[i] == a;
    var j :| 0 <= j < |s| && s[j] == b;
    var k :| 0 <= k < |s| && s[k] == c;
    assert i != j && j != k && i != k;
  }
}
