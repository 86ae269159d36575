/**
 * The player: a position on the tile grid, lives, the key and the cheat
 * flags, and the one-tile move that the arrow keys trigger.
 */
module Players {
  import opened Geometry
  import opened GameMap

  /**
   * The input names the key listener passes on: the arrow keys and the
   * letters p, c, a, d, q and e; every other key arrives as `Unmapped`
   * (undefined in the listener's table).
   */
  datatype Input = Left | Up | Right | Down | P | C | A | D | Q | E | Unmapped

  /** The listener's table from key codes to inputs. */
  function AllowedKey(keyCode: int): (input: Input)
    ensures input == Unmapped <==> keyCode !in {37, 38, 39, 40, 80, 67, 65, 68, 81, 69}
  {
    if keyCode == 37 then Left
    else if keyCode == 38 then Up
    else if keyCode == 39 then Right
    else if keyCode == 40 then Down
    else if keyCode == 80 then P
    else if keyCode == 67 then C
    else if keyCode == 65 then A
    else if keyCode == 68 then D
    else if keyCode == 81 then Q
    else if keyCode == 69 then E
    else Unmapped
  }

  predicate IsDirection(input: Input)
  {
    input == Left || input == Right || input == Up || input == Down
  }

  function Opposite(input: Input): Input
  {
    match input
    case Left => Right
    case Right => Left
    case Up => Down
    case Down => Up
    case _ => input
  }

  /**
   * The candidate position of move: one step in the input's direction,
   * then, under the time machine cheat, two steps back.
   */
  function Step(x: int, y: int, direction: Input, timeCheat: bool): Point
  {
    var newX := if direction == Left then x - X_STEP else if direction == Right then x + X_STEP else x;
    var newY := if direction == Up then y - Y_STEP else if direction == Down then y + Y_STEP else y;
    if timeCheat then
      Point(if direction == Left then newX + 2 * X_STEP else if direction == Right then newX - 2 * X_STEP else newX,
            if direction == Up then newY + 2 * Y_STEP else if direction == Down then newY - 2 * Y_STEP else newY)
    else
      Point(newX, newY)
  }

  /** Reference definition of a one-tile step in a compass direction. */
  function Neighbour(x: int, y: int, direction: Input): Point
  {
    match direction
    case Left => Point(x - X_STEP, y)
    case Right => Point(x + X_STEP, y)
    case Up => Point(x, y - Y_STEP)
    case Down => Point(x, y + Y_STEP)
    case _ => Point(x, y)
  }

  /** Without the cheat a move aims at the neighbouring tile; with it, at the opposite neighbour. */
  lemma StepDirection(x: int, y: int, direction: Input)
    ensures Step(x, y, direction, false) == Neighbour(x, y, direction)
    ensures Step(x, y, direction, true) == Neighbour(x, y, Opposite(direction))
    ensures !IsDirection(direction) ==> Step(x, y, direction, true) == Step(x, y, direction, false) == Point(x, y)
  {
  }

  /**
   * When move lets the player onto a position: it is a tile of the map
   * (water included), not the door unless the player holds the key, and
   * not a rock.
   */
  predicate MoveAllowed(m: Map, target: Point, hasKey: bool)
  {
    && HasTile(m, target.x, target.y)
    && !(target.x == m.end.x && target.y == m.end.y && !hasKey)
    && target !in m.rocks
  }

  class Player {
    const maxLives: int
    var x: int
    var y: int
    var lives: int
    var isInvincible: bool
    var isUdacious: bool
    var hasKey: bool
    var godMode: bool

    /** new Player(): at the map's start point with 3 of at most 5 lives and no key. */
    constructor (m: Map)
      ensures x == m.start.x && y == m.start.y
      ensures maxLives == 5 && lives == 3
      ensures !isInvincible && !isUdacious && !hasKey && !godMode
    {
      maxLives := 5;
      lives := 3;
      isInvincible := false;
      isUdacious := false;
      hasKey := false;
      godMode := false;
      x := m.start.x;
      y := m.start.y;
    }

    /** The player's edges: 40 pixels wide from x + 20, 80 pixels tall. */
    function Bounds(): (b: Box)
      reads this
      ensures b.WellFormed() && b.Width() == 40.0 && b.Height() == 80.0
    {
      Box((x + 20) as real, (x + 60) as real, y as real, (y + 80) as real)
    }

    /**
     * move: all or nothing. The player goes to the candidate position
     * exactly when that position is allowed; otherwise nothing changes.
     */
    method Move(direction: Input, m: Map, timeCheat: bool)
      modifies this`x, this`y
      ensures var target := Step(old(x), old(y), direction, timeCheat);
              if MoveAllowed(m, target, hasKey) then x == target.x && y == target.y
              else x == old(x) && y == old(y)
    {
      var target := Step(x, y, direction, timeCheat);
      var newX, newY := target.x, target.y;
      var onMap := false;
      var i := 0;
      while i < |m.tiles|
        invariant 0 <= i <= |m.tiles|
        invariant onMap <==> exists k :: 0 <= k < i && m.tiles[k].x == newX && m.tiles[k].y == newY
      {
        if newX == m.tiles[i].x && newY == m.tiles[i].y {
          onMap := true;
        }
        i := i + 1;
      }
      if onMap {
        if newX == m.end.x && newY == m.end.y && !hasKey {
          return;
        }
        var hitRock := false;
        var j := 0;
        while j < |m.rocks|
          invariant 0 <= j <= |m.rocks|
          invariant hitRock <==> Point(newX, newY) in m.rocks[..j]
        {
          if newX == m.rocks[j].x && newY == m.rocks[j].y {
            hitRock := true;
          }
          assert m.rocks[..j + 1] == m.rocks[..j] + [m.rocks[j]];
          j := j + 1;
        }
        assert m.rocks[..j] == m.rocks;
        if !hitRock {
          x := newX;
          y := newY;
        }
      }
    }
  }

  /** A move with an input that is not a direction leaves the player where it is. */
  lemma NonDirectionStaysPut(m: Map, x: int, y: int, input: Input, timeCheat: bool, hasKey: bool)
    requires !IsDirection(input)
    ensures var target := Step(x, y, input, timeCheat);
            target == Point(x, y) &&
            (if MoveAllowed(m, target, hasKey) then target else Point(x, y)) == Point(x, y)
  {
  }

  /**
   * On a valid map, an allowed move keeps the player on the tile grid,
   * one tile away from where it was.
   */
  lemma AllowedMoveIsOneTile(m: Map, x: int, y: int, direction: Input, timeCheat: bool, hasKey: bool)
    requires ValidMap(m) && IsDirection(direction)
    requires MoveAllowed(m, Step(x, y, direction, timeCheat), hasKey)
    ensures var t := Step(x, y, direction, timeCheat);
            && OnGrid(t.x, t.y)
            && ((t.y == y && (t.x == x - X_STEP || t.x == x + X_STEP)) ||
                (t.x == x && (t.y == y - Y_STEP || t.y == y + Y_STEP)))
  {
    var t := Step(x, y, direction, timeCheat);
    StepDirection(x, y, direction);
    LayoutCoordinates(StartCol(m), EndCol(m));
    var k :| 0 <= k < |m.tiles| && m.tiles[k].x == t.x && m.tiles[k].y == t.y;
    assert OnGrid(m.tiles[k].x, m.tiles[k].y);
  }
}
