/**
 * The enemies: the basic bug and its five variants (charger, backtracker,
 * sidestepper, slowpoke, centipede). Each enemy is an object whose position,
 * speed and sprite are updated in place by the frame update and by the
 * bodies of its random timers.
 *
 * Positions are reals; speeds are integers in pixels per second. The game
 * speed factor is an integer in hundredths (100 is the normal speed).
 */
module Enemies {
  import opened Geometry
  import opened Utils

  datatype EnemyKind = Basic | Charger | Backtracker | Sidestepper | Slowpoke | Centipede

  datatype Sprite =
    | Bug | ChargerSprite | ChargerCharging | SidestepperSprite
    | BacktrackerSprite | BacktrackerReverse | SlowpokeSprite | CentipedeSprite
    | Cow | CowReverse | CowCentipede

  const ENEMY_HEIGHT: int := 80
  /** Speed of a charging charger. */
  const CHARGE_SPEED: int := 700
  /** Vertical speed of a sidestepper changing rows. */
  const SIDESTEP_SPEED: int := 100

  /** The starting columns -3..4 and rows 1..4 the constructor builds. */
  const X_START_OPTIONS: seq<int> := seq(8, i => (i - 3) * X_STEP)
  const Y_START_OPTIONS: seq<int> := [Y_STEP, 2 * Y_STEP, 3 * Y_STEP, 4 * Y_STEP]

  function MinSpeed(kind: EnemyKind): int { if kind == Slowpoke then 15 else 50 }
  function MaxSpeed(kind: EnemyKind): int { if kind == Slowpoke then 25 else 200 }
  function KindWidth(kind: EnemyKind): int { if kind == Centipede then 270 else 90 }

  /** The sprite a new enemy of this kind gets, with the cow cheat on or off. */
  function InitialSprite(kind: EnemyKind, cow: bool): Sprite
  {
    match kind
    case Basic => if cow then Cow else Bug
    case Charger => if cow then Cow else ChargerSprite
    case Backtracker => if cow then Cow else BacktrackerSprite
    case Sidestepper => if cow then Cow else SidestepperSprite
    case Slowpoke => if cow then Cow else SlowpokeSprite
    case Centipede => if cow then CowCentipede else CentipedeSprite
  }

  /** The backtracker sprite that faces the direction of `speed`. */
  function FacingSprite(speed: int, cow: bool): Sprite
  {
    if speed > 0 then (if cow then Cow else BacktrackerSprite)
    else (if cow then CowReverse else BacktrackerReverse)
  }

  /** One of the four enemy rows. */
  predicate IsRow(y: real)
  {
    y == 83.0 || y == 166.0 || y == 249.0 || y == 332.0
  }

  /** Distance covered in `dt` seconds: dt * speed * gamestate.speed, the last in hundredths. */
  function Displacement(dt: real, speed: int, gameSpeed: int): (d: real)
    requires dt >= 0.0 && gameSpeed > 0
    ensures speed > 0 ==> d >= 0.0
    ensures speed < 0 ==> d <= 0.0
    ensures speed == 0 || dt == 0.0 ==> d == 0.0
  {
    DisplacementSign(dt, speed as real, gameSpeed as real);
    dt * (speed as real) * (gameSpeed as real) / 100.0
  }

  lemma DisplacementSign(dt: real, s: real, g: real)
    requires dt >= 0.0 && g > 0.0
    ensures s > 0.0 ==> dt * s * g >= 0.0
    ensures s < 0.0 ==> dt * s * g <= 0.0
  {
    if s > 0.0 {
      assert dt * s >= 0.0;
    } else if s < 0.0 {
      assert dt * s <= 0.0;
    }
  }

  /** The x-position after a frame: unchanged while the game is paused. */
  function Advance(x: real, dt: real, speed: int, gameSpeed: int, paused: bool): real
    requires dt >= 0.0 && gameSpeed > 0
  {
    if paused then x else x + Displacement(dt, speed, gameSpeed)
  }

  /** Whether a backtracker at x moving with `speed` is past an edge and turns around. */
  predicate Turns(x: real, width: int, speed: int)
  {
    (x > (X_RIGHT + 2 * X_STEP) as real && speed > 0) ||
    (x + width as real < (X_LEFT - 2 * X_STEP) as real && speed < 0)
  }

  /** An enemy's moving parts, read at one moment. */
  datatype Motion = Motion(x: real, y: real, speed: int, sprite: Sprite, sideStepSpeed: int, newY: real)

  /**
   * What one frame does to the moving parts of an enemy of this kind, as
   * each kind's update defines it. A backtracker moves and turns around
   * past an edge while moving outward. Every other enemy moves and, past
   * the right edge, restarts three columns left of the screen on row
   * `yDraw`; a sidestepper then moves towards its target row and settles
   * on it.
   */
  function Stepped(kind: EnemyKind, width: int, m: Motion, dt: real, gameSpeed: int, paused: bool, cow: bool, yDraw: nat): (r: Motion)
    requires dt >= 0.0 && gameSpeed > 0
    ensures r.newY == m.newY
    ensures kind != Backtracker ==> r.x <= X_RIGHT as real && r.speed == m.speed && r.sprite == m.sprite
    ensures kind != Backtracker && paused && m.x <= X_RIGHT as real ==> r.x == m.x && r.y == m.y
    ensures kind == Backtracker ==> r.y == m.y && (r.speed == m.speed || r.speed == -m.speed)
    ensures kind != Sidestepper ==> r.sideStepSpeed == m.sideStepSpeed
  {
    var moved := Advance(m.x, dt, m.speed, gameSpeed, paused);
    if kind == Backtracker then
      if Turns(moved, width, m.speed) then Motion(moved, m.y, -m.speed, FacingSprite(-m.speed, cow), m.sideStepSpeed, m.newY)
      else Motion(moved, m.y, m.speed, m.sprite, m.sideStepSpeed, m.newY)
    else
      var wrap := moved > X_RIGHT as real;
      var x := if wrap then (-3 * X_STEP) as real else moved;
      var y := if wrap then Choice(Y_START_OPTIONS, yDraw) as real else m.y;
      if kind != Sidestepper || paused then Motion(x, y, m.speed, m.sprite, m.sideStepSpeed, m.newY)
      else
        var y' := y + Displacement(dt, m.sideStepSpeed, gameSpeed);
        if (m.sideStepSpeed > 0 && y' > m.newY) || (m.sideStepSpeed < 0 && y' < m.newY) then Motion(x, m.newY, m.speed, m.sprite, 0, m.newY)
        else Motion(x, y', m.speed, m.sprite, m.sideStepSpeed, m.newY)
  }

  /** Speeds an enemy of this kind can have. */
  predicate SpeedOk(kind: EnemyKind, speed: int)
  {
    match kind
    case Backtracker => MinSpeed(kind) <= speed <= MaxSpeed(kind) || MinSpeed(kind) <= -speed <= MaxSpeed(kind)
    case Charger => MinSpeed(kind) <= speed <= MaxSpeed(kind) || speed == CHARGE_SPEED
    case _ => MinSpeed(kind) <= speed <= MaxSpeed(kind)
  }

  /** The loops of the Enemy constructor that list the starting columns and rows. */
  method StartOptions() returns (xStartOptions: seq<int>, yStartOptions: seq<int>)
    ensures xStartOptions == X_START_OPTIONS && yStartOptions == Y_START_OPTIONS
  {
    xStartOptions := [];
    var i := -3;
    while i < 5
      invariant -3 <= i <= 5 && xStartOptions == X_START_OPTIONS[..i + 3]
    {
      xStartOptions := xStartOptions + [i * X_STEP];
      i := i + 1;
    }
    yStartOptions := [];
    var j := 1;
    while j < 5
      invariant 1 <= j <= 5 && yStartOptions == Y_START_OPTIONS[..j - 1]
    {
      yStartOptions := yStartOptions + [j * Y_STEP];
      j := j + 1;
    }
  }

  class Enemy {
    const kind: EnemyKind
    const width: int
    /** The speed a charger returns to after a charge: the one it had when built. */
    const originalSpeed: int
    var x: real
    var y: real
    var speed: int
    var sprite: Sprite
    /** Sidestepper only: vertical speed (0 when not changing rows) and target row. */
    var sideStepSpeed: int
    var newY: real

    /**
     * The enemy invariant: the width of its kind, a speed its kind allows
     * (negative only for a backtracker), a row or a position between rows,
     * a target row, and (except for a backtracker) never past the right edge.
     */
    ghost predicate Valid()
      reads this
    {
      && width == KindWidth(kind)
      && MinSpeed(kind) <= originalSpeed <= MaxSpeed(kind)
      && SpeedOk(kind, speed)
      && (kind != Backtracker ==> x <= X_RIGHT as real)
      && 83.0 <= y <= 332.0 && IsRow(newY)
      && (sideStepSpeed == 0 || sideStepSpeed == SIDESTEP_SPEED || sideStepSpeed == -SIDESTEP_SPEED)
      && (kind != Sidestepper ==> sideStepSpeed == 0)
      && (sideStepSpeed == 0 ==> IsRow(y))
    }

    /** The enemy's moving parts as a value. */
    function State(): Motion
      reads this
    {
      Motion(x, y, speed, sprite, sideStepSpeed, newY)
    }

    function Bounds(): (b: Box)
      reads this
      requires Valid()
      ensures b.WellFormed() && b.Width() == width as real && b.Height() == ENEMY_HEIGHT as real
    {
      Box(x, x + width as real, y, y + ENEMY_HEIGHT as real)
    }

    /**
     * new Enemy() and its subclasses: a random starting column and row, a
     * random speed between the kind's bounds and the kind's sprite. The
     * charger keeps the speed it starts with; the sidestepper starts still.
     */
    constructor (kind: EnemyKind, xDraw: nat, yDraw: nat, speedDraw: nat, cow: bool)
      ensures this.kind == kind && Valid()
      ensures x == Choice(X_START_OPTIONS, xDraw) as real && y == Choice(Y_START_OPTIONS, yDraw) as real
      ensures speed == RandInt(MinSpeed(kind), MaxSpeed(kind), speedDraw) && originalSpeed == speed
      ensures sprite == InitialSprite(kind, cow)
      ensures sideStepSpeed == 0 && newY == y
    {
      var xStartOptions, yStartOptions := StartOptions();
      var s := RandInt(MinSpeed(kind), MaxSpeed(kind), speedDraw);
      this.kind := kind;
      width := KindWidth(kind);
      originalSpeed := s;
      x := Choice(xStartOptions, xDraw) as real;
      y := Choice(yStartOptions, yDraw) as real;
      speed := s;
      sprite := InitialSprite(kind, cow);
      sideStepSpeed := 0;
      new;
      newY := y;
    }

    /**
     * Enemy.update: move by speed unless paused; past the right edge,
     * restart three columns left of the screen on a random row.
     */
    method MoveAndWrap(dt: real, gameSpeed: int, paused: bool, yDraw: nat)
      requires dt >= 0.0 && gameSpeed > 0
      modifies this`x, this`y
      ensures var moved := Advance(old(x), dt, speed, gameSpeed, paused);
              && x == (if moved > X_RIGHT as real then (-3 * X_STEP) as real else moved)
              && y == (if moved > X_RIGHT as real then Choice(Y_START_OPTIONS, yDraw) as real else old(y))
      ensures x <= X_RIGHT as real
      ensures paused && old(x) <= X_RIGHT as real ==> x == old(x)
    {
      if !paused {
        x := x + Displacement(dt, speed, gameSpeed);
      }
      if x > X_RIGHT as real {
        x := (-3 * X_STEP) as real;
        y := Choice(Y_START_OPTIONS, yDraw) as real;
      }
    }

    /**
     * The vertical part of Sidestepper.update: move towards the target row
     * and, once at or past it, settle on it and stop.
     */
    method SidestepMove(dt: real, gameSpeed: int, paused: bool)
      requires dt >= 0.0 && gameSpeed > 0
      modifies this`y, this`sideStepSpeed
      ensures var moved := if paused then old(y) else old(y) + Displacement(dt, old(sideStepSpeed), gameSpeed);
              var arrived := !paused && ((old(sideStepSpeed) > 0 && moved > newY) || (old(sideStepSpeed) < 0 && moved < newY));
              && y == (if arrived then newY else moved)
              && sideStepSpeed == (if arrived then 0 else old(sideStepSpeed))
      ensures old(sideStepSpeed) > 0 && old(y) <= newY ==> old(y) <= y <= newY
      ensures old(sideStepSpeed) < 0 && old(y) >= newY ==> newY <= y <= old(y)
    {
      if !paused {
        y := y + Displacement(dt, sideStepSpeed, gameSpeed);
        if (sideStepSpeed > 0 && y > newY) || (sideStepSpeed < 0 && y < newY) {
          y := newY;
          sideStepSpeed := 0;
        }
      }
    }

    /**
     * Backtracker.update: move by speed unless paused, then turn around when
     * past the right edge moving right or past the left edge moving left,
     * flipping the sprite to face the new direction.
     */
    method BacktrackerMove(dt: real, gameSpeed: int, paused: bool, cow: bool)
      requires dt >= 0.0 && gameSpeed > 0 && width >= 0
      modifies this`x, this`speed, this`sprite
      ensures x == Advance(old(x), dt, old(speed), gameSpeed, paused)
      ensures Turns(x, width, old(speed)) ==> speed == -old(speed) && sprite == FacingSprite(speed, cow)
      ensures !Turns(x, width, old(speed)) ==> speed == old(speed) && sprite == old(sprite)
    {
      if !paused {
        x := x + Displacement(dt, speed, gameSpeed);
      }
      if x > (X_RIGHT + 2 * X_STEP) as real && speed > 0 {
        speed := speed * -1;
        if cow {
          sprite := CowReverse;
        } else {
          sprite := BacktrackerReverse;
        }
      }
      if x + width as real < (X_LEFT - 2 * X_STEP) as real && speed < 0 {
        speed := speed * -1;
        if cow {
          sprite := Cow;
        } else {
          sprite := BacktrackerSprite;
        }
      }
    }

    /** The update the game calls every frame, as each kind defines it. */
    method Update(dt: real, gameSpeed: int, paused: bool, cow: bool, yDraw: nat)
      requires Valid() && dt >= 0.0 && gameSpeed > 0
      modifies this
      ensures Valid()
      ensures kind != Backtracker ==> x <= X_RIGHT as real && speed == old(speed)
      ensures kind == Backtracker ==> y == old(y) && (speed == old(speed) || speed == -old(speed))
      ensures kind != Sidestepper ==> sideStepSpeed == 0 && newY == old(newY)
      ensures paused && kind != Backtracker ==> x == old(x)
      ensures State() == Stepped(kind, width, old(State()), dt, gameSpeed, paused, cow, yDraw)
    {
      if kind == Backtracker {
        BacktrackerMove(dt, gameSpeed, paused, cow);
      } else {
        MoveAndWrap(dt, gameSpeed, paused, yDraw);
        if kind == Sidestepper {
          SidestepMove(dt, gameSpeed, paused);
        }
      }
    }

    /**
     * The body of the charger's interval timer: on a draw above one half,
     * charge at 700 (with the charging sprite unless the cow cheat is on).
     */
    method ChargeTimer(willCharge: real, cow: bool)
      requires kind == Charger && Valid()
      modifies this`speed, this`sprite
      ensures Valid()
      ensures speed == (if willCharge > 0.5 then CHARGE_SPEED else old(speed))
      ensures sprite == (if willCharge > 0.5 && !cow then ChargerCharging else old(sprite))
    {
      if willCharge > 0.5 {
        if !cow {
          sprite := ChargerCharging;
        }
        speed := CHARGE_SPEED;
      }
    }

    /**
     * The body of the half-second timeout after a charge: back to the speed
     * the charger was built with, whatever its speed was before charging.
     */
    method EndCharge(cow: bool)
      requires kind == Charger && Valid()
      modifies this`speed, this`sprite
      ensures Valid()
      ensures speed == originalSpeed
      ensures sprite == (if cow then old(sprite) else ChargerSprite)
    {
      speed := originalSpeed;
      if !cow {
        sprite := ChargerSprite;
      }
    }

    /**
     * The body of the sidestepper's interval timer: when still and the first
     * draw exceeds 0.3, aim one row down (second draw at least one half, not
     * from the last enemy row) or one row up (not from the first enemy row).
     */
    method SidestepTimer(willStep: real, upOrDown: real)
      requires kind == Sidestepper && Valid()
      modifies this`newY, this`sideStepSpeed
      ensures Valid()
      ensures var starts := willStep > 0.3 && old(sideStepSpeed) == 0;
              var down := starts && upOrDown >= 0.5 && y < (Y_BOTTOM - 2 * Y_STEP) as real;
              var up := starts && upOrDown < 0.5 && y > (Y_TOP + Y_STEP) as real;
              && (down ==> newY == y + Y_STEP as real && sideStepSpeed == SIDESTEP_SPEED)
              && (up ==> newY == y - Y_STEP as real && sideStepSpeed == -SIDESTEP_SPEED)
              && (!down && !up ==> newY == old(newY) && sideStepSpeed == old(sideStepSpeed))
    {
      if willStep > 0.3 && sideStepSpeed == 0 {
        if upOrDown >= 0.5 && y < (Y_BOTTOM - 2 * Y_STEP) as real {
          newY := y + Y_STEP as real;
          sideStepSpeed := SIDESTEP_SPEED;
        } else if upOrDown < 0.5 && y > (Y_TOP + Y_STEP) as real {
          newY := y - Y_STEP as real;
          sideStepSpeed := -SIDESTEP_SPEED;
        }
      }
    }

    /**
     * The body of the backtracker's interval timer: on a draw above 0.2,
     * turn around and face the new direction.
     */
    method BacktrackTimer(willBacktrack: real, cow: bool)
      requires kind == Backtracker && Valid()
      modifies this`speed, this`sprite
      ensures Valid()
      ensures willBacktrack > 0.2 ==> speed == -old(speed) && sprite == FacingSprite(speed, cow)
      ensures willBacktrack <= 0.2 ==> speed == old(speed) && sprite == old(sprite)
    {
      if willBacktrack > 0.2 {
        speed := speed * -1;
        if !cow {
          if speed > 0 {
            sprite := BacktrackerSprite;
          } else {
            sprite := BacktrackerReverse;
          }
        } else {
          if speed > 0 {
            sprite := Cow;
          } else {
            sprite := CowReverse;
          }
        }
      }
    }

    /**
     * What resetLevel does to each enemy: a new starting column, row and
     * speed; a backtracker faces right again. A sidestepper keeps its
     * vertical speed and target row, and a charger its original speed.
     */
    method Restart(xDraw: nat, yDraw: nat, speedDraw: nat, cow: bool)
      requires Valid()
      modifies this`x, this`y, this`speed, this`sprite
      ensures Valid()
      ensures x == Choice(X_START_OPTIONS, xDraw) as real && y == Choice(Y_START_OPTIONS, yDraw) as real
      ensures speed == RandInt(MinSpeed(kind), MaxSpeed(kind), speedDraw)
      ensures sprite == (if kind == Backtracker then (if cow then Cow else BacktrackerSprite) else old(sprite))
    {
      x := Choice(X_START_OPTIONS, xDraw) as real;
      y := Choice(Y_START_OPTIONS, yDraw) as real;
      speed := RandInt(MinSpeed(kind), MaxSpeed(kind), speedDraw);
      if kind == Backtracker {
        sprite := BacktrackerSprite;
        if cow {
          sprite := Cow;
        }
      }
    }
  }

  /** A backtracker turns at most once per frame: the two edge tests never both apply. */
  lemma TurnsAtMostOnce(x: real, width: int, speed: int)
    requires width >= 0
    ensures !((x > (X_RIGHT + 2 * X_STEP) as real && speed > 0) && (x + width as real < (X_LEFT - 2 * X_STEP) as real && -speed < 0))
  {
  }

  /** Every starting column is left of the right edge, and every starting row is an enemy row. */
  lemma StartOptionsInBounds(xDraw: nat, yDraw: nat)
    ensures -3 * X_STEP <= Choice(X_START_OPTIONS, xDraw) <= 4 * X_STEP < X_RIGHT
    ensures IsRow(Choice(Y_START_OPTIONS, yDraw) as real)
  {
  }
}
