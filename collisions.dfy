/**
 * checkAllCollisions' enemy pass and the moves of resetLevel, on the
 * player, the enemy list and the attacks: an enemy meeting the player
 * dies under a cheat and otherwise costs a life; an enemy overlapping an
 * attack dies. Enemies are removed from the list while it is traversed,
 * with the visiting order of JavaScript's forEach.
 */
module Collisions {
  import opened Geometry
  import opened Utils
  import opened GameMap
  import opened Enemies
  import opened Players
  import opened Attacks
  import opened EnemyGeneration
  import opened ForEachRemoval

  /**
   * An enemy after Restart with the draws `d`: a start column and row and a
   * speed of its kind from the draws; a backtracker faces right again.
   */
  ghost predicate Restarted(e: Enemy, d: EnemyDraw, cow: bool, oldSprite: Sprite)
    reads e
  {
    && e.x == Choice(X_START_OPTIONS, d.x) as real
    && e.y == Choice(Y_START_OPTIONS, d.y) as real
    && e.speed == RandInt(MinSpeed(e.kind), MaxSpeed(e.kind), d.speed)
    && e.sprite == (if e.kind == Backtracker then (if cow then Cow else BacktrackerSprite) else oldSprite)
  }

  /** resetLevel's loop: each enemy restarts with its own draws. */
  method RestartAll(enemies: seq<Enemy>, restarts: nat -> EnemyDraw, cow: bool)
    requires NoRepeats(enemies) && forall i | 0 <= i < |enemies| :: enemies[i].Valid()
    modifies set i | 0 <= i < |enemies| :: enemies[i]
    ensures forall i | 0 <= i < |enemies| :: enemies[i].Valid()
    ensures forall i | 0 <= i < |enemies| :: Restarted(enemies[i], restarts(i), cow, old(enemies[i].sprite))
  {
    var i := 0;
    while i < |enemies|
      invariant 0 <= i <= |enemies|
      invariant forall j | 0 <= j < |enemies| :: enemies[j].Valid()
      invariant forall j | 0 <= j < i :: Restarted(enemies[j], restarts(j), cow, old(enemies[j].sprite))
      invariant forall j | i <= j < |enemies| :: enemies[j].sprite == old(enemies[j].sprite)
    {
      enemies[i].Restart(restarts(i).x, restarts(i).y, restarts(i).speed, cow);
      forall j | 0 <= j < |enemies| && j != i ensures enemies[j] != enemies[i] {
        NoRepeatsAt(enemies, j, i);
      }
      i := i + 1;
    }
  }

  /** `eb` holds the boxes of the sound enemies, read at this moment. */
  ghost predicate EnemyBoxesAre(enemies: seq<Enemy>, eb: seq<Box>)
    reads enemies
  {
    |eb| == |enemies| && forall i | 0 <= i < |enemies| :: enemies[i].Valid() && eb[i] == enemies[i].Bounds()
  }

  /** `ab` holds the boxes of the sound attacks, read at this moment. */
  ghost predicate AttackBoxesAre(attacks: seq<Attack>, ab: seq<Box>)
    reads attacks
  {
    |ab| == |attacks| && forall j | 0 <= j < |attacks| :: attacks[j].Valid() && ab[j] == attacks[j].Bounds()
  }

  /** Some box of `attacks` overlaps the box e. */
  predicate HitBy(e: Box, attacks: seq<Box>)
  {
    exists j | 0 <= j < |attacks| :: CheckCollision(e, attacks[j])
  }

  /** The player's box pb meets the box of some enemy. */
  predicate MeetsAny(pb: Box, eb: seq<Box>)
  {
    exists i | 0 <= i < |eb| :: CheckCollision(pb, eb[i])
  }

  /**
   * checkAllCollisions' verdict on an enemy with box e when no life is
   * lost: it dies if it meets a player protected by a cheat, or if some
   * attack overlaps it.
   */
  predicate Struck(e: Box, player: Box, protected: bool, attacks: seq<Box>)
  {
    (protected && CheckCollision(player, e)) || HitBy(e, attacks)
  }

  /**
   * The attack loop inside checkAllCollisions for one enemy: whether some
   * attack overlaps it, the attacks' boxes being `ab`.
   */
  method HitByAttack(enemy: Box, attacks: seq<Attack>, ghost ab: seq<Box>) returns (hit: bool)
    requires AttackBoxesAre(attacks, ab)
    ensures hit == HitBy(enemy, ab)
  {
    hit := false;
    for j := 0 to |attacks|
      invariant hit <==> exists i | 0 <= i < j :: CheckCollision(enemy, ab[i])
    {
      if CheckCollision(enemy, attacks[j].Bounds()) {
        hit := true;
      }
    }
  }

  /**
   * The second half of a visit of checkAllCollisions' enemy pass: the
   * enemy in slot k is removed if the player killed it or some attack
   * overlaps it, and the pass moves on.
   */
  method StrikeEnemy(kept: seq<Enemy>, k: nat, ghost s: seq<Enemy>, ghost drop: seq<bool>, ghost passed: seq<bool>,
                     removed: bool, attacks: seq<Attack>, ghost ab: seq<Box>)
      returns (kept': seq<Enemy>, ghost drop': seq<bool>, ghost passed': seq<bool>)
    requires NoRepeats(s) && |passed| < |s| && PassState(s, kept, k, drop, passed)
    requires (forall i | 0 <= i < |s| :: s[i].Valid()) && AttackBoxesAre(attacks, ab)
    ensures PassState(s, kept', k + 1, drop', passed') && drop'[..|passed|] == drop[..|passed|]
    ensures passed' == passed + [false] || passed' == passed + [false, true]
    ensures drop'[|passed|] == (removed || HitBy(s[|passed|].Bounds(), ab))
    ensures NoRepeats(kept') && forall i | 0 <= i < |kept'| :: kept'[i].Valid()
  {
    ghost var o := |passed|;
    PassStateWithin(s, kept, k, drop, passed);
    var enemy := kept[k];
    var hit := HitByAttack(enemy.Bounds(), attacks, ab);
    drop' := drop[o := removed || hit];
    kept', passed' := Visit(s, kept, k, drop, passed, drop', removed || hit);
    PassStateWithin(s, kept', k + 1, drop', passed');
    ValidWithin(kept', s);
  }

  /** Enemies taken from a list of sound enemies are sound. */
  lemma ValidWithin(kept: seq<Enemy>, s: seq<Enemy>)
    requires (forall x | x in kept :: x in s) && forall i | 0 <= i < |s| :: s[i].Valid()
    ensures forall i | 0 <= i < |kept| :: kept[i].Valid()
  {
    forall i | 0 <= i < |kept| ensures kept[i].Valid() {
      assert kept[i] in s;
    }
  }

  /**
   * A player standing on the start row cannot meet an enemy: the lowest
   * enemy row ends at 412, above the start row's top at 415.
   */
  lemma SafeAtStart(m: Map, p: Player, e: Enemy)
    requires m.start.y == 5 * Y_STEP && e.Valid()
    ensures p.y == m.start.y ==> !CheckCollision(p.Bounds(), e.Bounds())
  {
  }

  /**
   * resetLevel's moves: one life less, the player back at the map's start,
   * and each enemy of the list restarted with its own draws.
   */
  method LoseLife(p: Player, m: Map, enemies: seq<Enemy>, cow: bool, restarts: nat -> EnemyDraw)
    requires NoRepeats(enemies) && forall i | 0 <= i < |enemies| :: enemies[i].Valid()
    modifies p`x, p`y, p`lives, set i | 0 <= i < |enemies| :: enemies[i]
    ensures p.lives == old(p.lives) - 1 && p.x == m.start.x && p.y == m.start.y
    ensures forall i | 0 <= i < |enemies| :: enemies[i].Valid()
    ensures forall i | 0 <= i < |enemies| :: Restarted(enemies[i], restarts(i), cow, old(enemies[i].sprite))
  {
    p.lives := p.lives - 1;
    p.x := m.start.x;
    p.y := m.start.y;
    RestartAll(enemies, restarts, cow);
  }

  /** A cheat keeps the player alive when meeting an enemy. */
  ghost predicate Protected(p: Player)
    reads p`isInvincible, p`isUdacious
  {
    p.isInvincible || p.isUdacious
  }

  /**
   * The enemy pass has lost no life so far: the lives it began with, the
   * player's box pb and the enemies of s at their boxes eb.
   */
  ghost predicate Untouched(p: Player, s: seq<Enemy>, eb: seq<Box>, pb: Box, lives0: int)
    reads p, s
  {
    p.lives == lives0 && p.Bounds() == pb && EnemyBoxesAre(s, eb)
  }

  /** The enemy pass has cost one life: the player is back at the start. */
  ghost predicate LifeLost(p: Player, m: Map, lives0: int)
    reads p`x, p`y, p`lives
  {
    p.lives == lives0 - 1 && p.x == m.start.x && p.y == m.start.y
  }

  /**
   * Where the enemy pass stands on the player: no life lost (`lost` false)
   * or one, with every enemy of s sound and a life left.
   */
  ghost predicate Standing(p: Player, m: Map, s: seq<Enemy>, eb: seq<Box>, pb: Box, lives0: int, lost: bool)
    reads p, s
  {
    && (forall i | 0 <= i < |s| :: s[i].Valid())
    && p.lives >= 1
    && (if lost then LifeLost(p, m, lives0) else Untouched(p, s, eb, pb, lives0))
  }

  /**
   * The first half of a visit of the enemy pass, to the enemy in slot o of
   * s while the pass holds the list `kept`: the enemy meets the player.
   * Under a cheat it is to be removed; otherwise the player loses a life,
   * restarting the enemies of `kept`, or, on the last life, the game is
   * over, which is reported and leaves everything as it is. Once a life is
   * lost the player is at the start, out of every enemy's reach.
   */
  method MeetPlayer(p: Player, m: Map, kept: seq<Enemy>, enemy: Enemy, cow: bool, restarts: nat -> EnemyDraw,
                    ghost s: seq<Enemy>, ghost o: nat, ghost eb: seq<Box>, ghost pb: Box, ghost lives0: int, ghost lost: bool,
                    ghost prot: bool, ghost attacks: seq<Attack>, ghost ab: seq<Box>)
      returns (gameOver: bool, removed: bool, ghost lost': bool)
    requires m.start.y == 5 * Y_STEP && o < |s| && enemy == s[o]
    requires NoRepeats(kept) && forall x | x in kept :: x in s
    requires Standing(p, m, s, eb, pb, lives0, lost) && prot == Protected(p)
    requires AttackBoxesAre(attacks, ab)
    modifies p`x, p`y, p`lives, set x | x in s
    ensures Standing(p, m, s, eb, pb, lives0, lost') && prot == Protected(p) && AttackBoxesAre(attacks, ab)
    ensures lost ==> lost' && !gameOver && !removed
    ensures !lost ==> removed == (prot && CheckCollision(pb, eb[o]))
    ensures !lost ==> gameOver == (lives0 == 1 && !prot && CheckCollision(pb, eb[o]))
    ensures !lost ==> lost' == (lives0 > 1 && !prot && CheckCollision(pb, eb[o]))
  {
    SafeAtStart(m, p, enemy);
    removed := false;
    gameOver := false;
    lost' := lost;
    if CheckCollision(p.Bounds(), enemy.Bounds()) {
      if p.isInvincible || p.isUdacious {
        removed := true;
      } else if p.lives - 1 == 0 {
        gameOver := true;
      } else {
        ValidWithin(kept, s);
        LoseLife(p, m, kept, cow, restarts);
        lost' := true;
      }
    }
  }

  /**
   * The verdicts recorded for the slots the pass has visited (those not
   * marked as passed over) are the Struck verdicts on their boxes.
   */
  ghost predicate Decided(drop: seq<bool>, passed: seq<bool>, eb: seq<Box>, pb: Box, prot: bool, ab: seq<Box>)
  {
    && |passed| <= |drop| && |passed| <= |eb|
    && forall i | 0 <= i < |passed| && !passed[i] :: drop[i] == Struck(eb[i], pb, prot, ab)
  }

  /**
   * The verdicts of a whole pass: every slot the traversal did not pass
   * over was removed exactly when Struck.
   */
  ghost predicate Verdicts(drop: seq<bool>, eb: seq<Box>, pb: Box, prot: bool, ab: seq<Box>)
  {
    |drop| <= |eb| && forall i | 0 <= i < |drop| && !Skipped(drop, i) :: drop[i] == Struck(eb[i], pb, prot, ab)
  }

  /** At the end of a pass, the record of the visited slots covers every slot not skipped. */
  lemma DecidedVerdicts(drop: seq<bool>, passed: seq<bool>, eb: seq<Box>, pb: Box, prot: bool, ab: seq<Box>)
    requires Decided(drop, passed, eb, pb, prot, ab) && SkipMarks(drop, passed) && |passed| == |drop|
    ensures Verdicts(drop, eb, pb, prot, ab)
  {
    forall i | 0 <= i < |drop| && !Skipped(drop, i) ensures drop[i] == Struck(eb[i], pb, prot, ab) {
      SkipMarksAreSkipped(drop, passed, i);
    }
  }

  /** One more visited slot, with its verdict, keeps the record. */
  lemma DecidedStep(drop: seq<bool>, drop': seq<bool>, passed: seq<bool>, passed': seq<bool>,
                    eb: seq<Box>, pb: Box, prot: bool, ab: seq<Box>)
    requires passed' == passed + [false] || passed' == passed + [false, true]
    requires Decided(drop, passed, eb, pb, prot, ab) && |passed'| <= |drop| == |drop'| && |passed'| <= |eb|
    requires drop'[..|passed|] == drop[..|passed|] && drop'[|passed|] == Struck(eb[|passed|], pb, prot, ab)
    ensures Decided(drop', passed', eb, pb, prot, ab)
  {
    forall i | 0 <= i < |passed'| && !passed'[i] ensures drop'[i] == Struck(eb[i], pb, prot, ab) {
      if i < |passed| {
        assert drop'[i] == drop'[..|passed|][i];
      }
    }
  }

  /**
   * One visit of checkAllCollisions' enemy pass, to the enemy in slot k of
   * the list `kept` the pass holds: it meets the player, then the attacks.
   * The record of the pass is kept: the verdicts while no life is lost,
   * and the enemy that cost a life or the game.
   */
  method VisitEnemy(p: Player, m: Map, enemies: seq<Enemy>, attacks: seq<Attack>, cow: bool, restarts: nat -> EnemyDraw,
                    kept: seq<Enemy>, k: nat, ghost drop: seq<bool>, ghost passed: seq<bool>,
                    ghost eb: seq<Box>, ghost pb: Box, ghost lives0: int, ghost prot: bool, ghost ab: seq<Box>,
                    ghost lost: bool, ghost culprit: int)
      returns (gameOver: bool, kept': seq<Enemy>, ghost drop': seq<bool>, ghost passed': seq<bool>,
               ghost lost': bool, ghost culprit': int)
    requires m.start.y == 5 * Y_STEP && NoRepeats(enemies) && |passed| < |enemies|
    requires PassState(enemies, kept, k, drop, passed) && NoRepeats(kept)
    requires Standing(p, m, enemies, eb, pb, lives0, lost) && AttackBoxesAre(attacks, ab) && prot == Protected(p)
    requires lost ==> !prot && 0 <= culprit < |eb| && CheckCollision(pb, eb[culprit])
    requires !lost ==> Decided(drop, passed, eb, pb, prot, ab)
    modifies p`x, p`y, p`lives, set x | x in enemies
    ensures Standing(p, m, enemies, eb, pb, lives0, lost') && AttackBoxesAre(attacks, ab) && prot == Protected(p)
    ensures lost' ==> !prot && 0 <= culprit' < |eb| && CheckCollision(pb, eb[culprit'])
    ensures gameOver ==> !lost' && lives0 == 1 && !prot && 0 <= culprit' < |eb| && CheckCollision(pb, eb[culprit'])
    ensures gameOver ==> kept' == kept && drop' == drop && passed' == passed
    ensures !gameOver ==> PassState(enemies, kept', k + 1, drop', passed') && NoRepeats(kept') && |passed| < |passed'|
    ensures !gameOver && !lost' ==> Decided(drop', passed', eb, pb, prot, ab)
  {
    ghost var o := |passed|;
    PassStateWithin(enemies, kept, k, drop, passed);
    var removed;
    gameOver, removed, lost' := MeetPlayer(p, m, kept, kept[k], cow, restarts, enemies, o, eb, pb, lives0, lost, prot, attacks, ab);
    culprit' := if lost' != lost || gameOver then o else culprit;
    if gameOver {
      return gameOver, kept, drop, passed, lost', culprit';
    }
    kept', drop', passed' := StrikeEnemy(kept, k, enemies, drop, passed, removed, attacks, ab);
    if !lost' {
      assert drop'[o] == Struck(eb[o], pb, prot, ab);
      DecidedStep(drop, drop', passed, passed', eb, pb, prot, ab);
    }
  }

  /** checkAllCollisions' pass over the map's tiles: whether a water tile lies at (x, y). */
  method WaterUnder(m: Map, x: int, y: int) returns (water: bool)
    ensures water == IsWater(m, x, y)
  {
    water := false;
    for k := 0 to |m.tiles|
      invariant water <==> exists j :: 0 <= j < k && m.tiles[j].kind == Water && m.tiles[j].x == x && m.tiles[j].y == y
    {
      if m.tiles[k].kind == Water && x == m.tiles[k].x && y == m.tiles[k].y {
        water := true;
      }
    }
  }

  /**
   * checkAllCollisions' enemy pass over the list `enemies`: each enemy the
   * traversal visits meets the player, then the attacks. The pass stops
   * early when the game is lost. Otherwise the list left is the enemies
   * kept; at most one life is lost, and only by meeting an enemy without a
   * cheat. While no life is lost, each visited enemy is removed exactly
   * when Struck, judged on the boxes as the pass began.
   */
  method EnemyPass(p: Player, m: Map, enemies: seq<Enemy>, attacks: seq<Attack>, cow: bool, restarts: nat -> EnemyDraw,
                   ghost eb: seq<Box>, ghost ab: seq<Box>)
      returns (gameOver: bool, kept: seq<Enemy>, ghost lost: bool, ghost drop: seq<bool>)
    requires m.start.y == 5 * Y_STEP && p.lives >= 1 && NoRepeats(enemies)
    requires EnemyBoxesAre(enemies, eb) && AttackBoxesAre(attacks, ab)
    modifies p`x, p`y, p`lives, set x | x in enemies
    ensures |drop| == |enemies| && NoRepeats(kept) && (forall x | x in kept :: x in enemies)
    ensures forall i | 0 <= i < |kept| :: kept[i].Valid()
    ensures AttackBoxesAre(attacks, ab) && Protected(p) == old(Protected(p))
    ensures p.lives >= 1 && (lost ==> LifeLost(p, m, old(p.lives)))
    ensures !lost ==> p.lives == old(p.lives) && p.x == old(p.x) && p.y == old(p.y)
    ensures lost ==> !Protected(p) && MeetsAny(old(p.Bounds()), eb)
    ensures gameOver ==> !lost && old(p.lives) == 1 && !Protected(p) && MeetsAny(old(p.Bounds()), eb)
    ensures !gameOver ==> kept == Kept(enemies, drop, |enemies|)
    ensures !gameOver && !lost ==> Verdicts(drop, eb, old(p.Bounds()), Protected(p), ab)
  {
    ghost var pb := p.Bounds();
    ghost var lives0 := p.lives;
    ghost var prot := Protected(p);
    ghost var passed: seq<bool> := [];
    ghost var culprit := 0;
    drop := seq(|enemies|, _ => false);
    kept := enemies;
    gameOver := false;
    lost := false;
    var k := 0;
    while k < |kept|
      invariant PassState(enemies, kept, k, drop, passed) && NoRepeats(kept)
      invariant Standing(p, m, enemies, eb, pb, lives0, lost) && AttackBoxesAre(attacks, ab) && prot == Protected(p)
      invariant lost ==> !prot && 0 <= culprit < |eb| && CheckCollision(pb, eb[culprit])
      invariant !lost ==> Decided(drop, passed, eb, pb, prot, ab)
      decreases |enemies| - |passed|
    {
      PassStateWithin(enemies, kept, k, drop, passed);
      gameOver, kept, drop, passed, lost, culprit :=
        VisitEnemy(p, m, enemies, attacks, cow, restarts, kept, k, drop, passed, eb, pb, lives0, prot, ab, lost, culprit);
      if gameOver {
        break;
      }
      k := k + 1;
    }
    PassStateWithin(enemies, kept, k, drop, passed);
    ValidWithin(kept, enemies);
    if !gameOver && !lost {
      DecidedVerdicts(drop, passed, eb, pb, prot, ab);
    }
  }
}
