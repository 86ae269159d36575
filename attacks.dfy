/**
 * The attacks the cheats unlock: the hadouken (one row high) and the
 * front-end attack (three rows high). Both fly horizontally from the
 * player's position and stop once off screen.
 */
module Attacks {
  import opened Geometry
  import Enemies

  const ATTACK_SPEED: int := 300
  const ATTACK_WIDTH: int := 80

  datatype AttackKind = HadoukenAttack | FrontEndAttack

  class Attack {
    const kind: AttackKind
    const y: real
    const height: int
    var x: real
    var speed: int

    /** The attack invariant: its kind's height and a speed of 300 either way, or 0 once stopped. */
    ghost predicate Valid()
      reads this
    {
      && height == (if kind == HadoukenAttack then 80 else 210)
      && (speed == ATTACK_SPEED || speed == -ATTACK_SPEED || speed == 0)
    }

    function Bounds(): (b: Box)
      reads this
      requires Valid()
      ensures b.WellFormed() && b.Width() == ATTACK_WIDTH as real && b.Height() == height as real
    {
      Box(x, x + ATTACK_WIDTH as real, y, y + height as real)
    }

    /** new Hadouken(input): at the player, 80 by 80, flying left for 'a' and right for 'd'. */
    constructor Hadouken(playerX: int, playerY: int, toLeft: bool)
      ensures kind == HadoukenAttack && Valid()
      ensures x == playerX as real && y == playerY as real && height == 80
      ensures speed == (if toLeft then -ATTACK_SPEED else ATTACK_SPEED)
    {
      kind := HadoukenAttack;
      x := playerX as real;
      y := playerY as real;
      height := 80;
      speed := if toLeft then -ATTACK_SPEED else ATTACK_SPEED;
    }

    /**
     * new FrontEndAttack(input): its top one row above the player and 210
     * tall, so it spans the row above, the player's row and the top of the
     * row below; flying left for 'q' and right for 'e'.
     */
    constructor FrontEnd(playerX: int, playerY: int, toLeft: bool)
      ensures kind == FrontEndAttack && Valid()
      ensures x == playerX as real && y == (playerY - Y_STEP) as real && height == 210
      ensures y <= playerY as real && (playerY + Y_STEP) as real < y + height as real < (playerY + 2 * Y_STEP) as real
      ensures speed == (if toLeft then -ATTACK_SPEED else ATTACK_SPEED)
    {
      kind := FrontEndAttack;
      x := playerX as real;
      y := (playerY - Y_STEP) as real;
      height := 210;
      speed := if toLeft then -ATTACK_SPEED else ATTACK_SPEED;
    }

    /**
     * Attack.update: move by speed unless paused; once right of the right
     * edge or more than a column left of the left edge, stop.
     */
    method Update(dt: real, gameSpeed: int, paused: bool)
      requires Valid() && dt >= 0.0 && gameSpeed > 0
      modifies this
      ensures Valid()
      ensures x == Enemies.Advance(old(x), dt, old(speed), gameSpeed, paused)
      ensures speed == (if OffScreen(x) then 0 else old(speed))
    {
      if !paused {
        x := x + Enemies.Displacement(dt, speed, gameSpeed);
      }
      if x > X_RIGHT as real || x < (X_LEFT - X_STEP) as real {
        speed := 0;
      }
    }
  }

  /** Where an attack stops: beyond the right edge or a column beyond the left edge. */
  predicate OffScreen(x: real)
  {
    x > X_RIGHT as real || x < (X_LEFT - X_STEP) as real
  }

  /** A stopped attack no longer moves, so it stays off screen until it is removed. */
  lemma StoppedAttackStays(x: real, dt: real, gameSpeed: int, paused: bool)
    requires dt >= 0.0 && gameSpeed > 0
    ensures Enemies.Advance(x, dt, 0, gameSpeed, paused) == x
  {
  }
}
