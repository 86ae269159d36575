/**
 * Enemy generation: the level-dependent weights of the six enemy kinds,
 * the weighted pool built from them, the number of enemies per level and
 * createEnemies itself. Weights are in hundredths: a weight of 100 means
 * the whole pool.
 */
module EnemyGeneration {
  import opened Geometry
  import opened Utils
  import opened Enemies

  /** The kinds in the order of calcEnemyWeights' object keys. */
  const ENEMY_NAMES: seq<EnemyKind> := [Basic, Charger, Backtracker, Sidestepper, Slowpoke, Centipede]

  /**
   * The draws one new enemy consumes: its kind from the pool, column, row
   * and speed. A level takes them from a stream, `draws(i)` for the i-th enemy.
   */
  datatype EnemyDraw = EnemyDraw(pick: nat, x: nat, y: nat, speed: nat)

  /**
   * Reference weights: all basic bugs up to level 5; beyond, with
   * n = min(level - 2, 20), basic gets 100 - 5n and each other kind n.
   */
  function ExpectedWeights(level: int): (w: seq<nat>)
    ensures |w| == 6
  {
    if level <= 5 then [100, 0, 0, 0, 0, 0]
    else
      var n := if level - 2 < 20 then level - 2 else 20;
      [100 - 5 * n, n, n, n, n, n]
  }

  /**
   * calcEnemyWeights: from level 6 on, each of the level - 2 rounds moves
   * five hundredths from the basic bug to the five other kinds (one each)
   * while the basic bug still has weight.
   */
  method CalcEnemyWeights(level: int) returns (weights: seq<nat>)
    ensures weights == ExpectedWeights(level)
    ensures Sum(weights) == 100
  {
    var enemy, charger, backtracker, sidestepper, slowpoke, centipede := 100, 0, 0, 0, 0, 0;
    if level > 5 {
      var i := 0;
      while i < level - 2
        invariant 0 <= i <= level - 2
        invariant var n := if i < 20 then i else 20;
                  enemy == 100 - 5 * n && charger == n && backtracker == n &&
                  sidestepper == n && slowpoke == n && centipede == n
        invariant enemy + charger + backtracker + sidestepper + slowpoke + centipede == 100
      {
        if enemy > 0 {
          enemy := enemy - 5;
          charger := charger + 1;
          backtracker := backtracker + 1;
          sidestepper := sidestepper + 1;
          slowpoke := slowpoke + 1;
          centipede := centipede + 1;
        }
        i := i + 1;
      }
    }
    weights := [enemy, charger, backtracker, sidestepper, slowpoke, centipede];
    SumSix(weights);
  }

  lemma SumSix(w: seq<nat>)
    requires |w| == 6
    ensures Sum(w) == w[0] + w[1] + w[2] + w[3] + w[4] + w[5]
  {
    assert w[..5][..4][..3][..2][..1][..0] == [];
    assert Sum(w[..1]) == w[0];
    assert Sum(w[..2]) == w[0] + w[1] by { assert w[..2][..1] == w[..1]; }
    assert Sum(w[..3]) == Sum(w[..2]) + w[2] by { assert w[..3][..2] == w[..2]; }
    assert Sum(w[..4]) == Sum(w[..3]) + w[3] by { assert w[..4][..3] == w[..3]; }
    assert Sum(w[..5]) == Sum(w[..4]) + w[4] by { assert w[..5][..4] == w[..4]; }
    assert w[..6] == w;
  }

  /** The weighted pool createEnemies draws from at a level. */
  function Pool(level: int): seq<EnemyKind>
  {
    Expand(ENEMY_NAMES, ExpectedWeights(level))
  }

  /** The pool always has exactly 100 entries, each kind as many as its weight. */
  lemma PoolCounts(level: int, i: nat)
    requires i < 6
    ensures |Pool(level)| == 100
    ensures multiset(Pool(level))[ENEMY_NAMES[i]] == ExpectedWeights(level)[i]
  {
    ExpandLength(ENEMY_NAMES, ExpectedWeights(level));
    SumSix(ExpectedWeights(level));
    ExpandCountDistinct(ENEMY_NAMES, ExpectedWeights(level), i);
  }

  /** Up to level 5 every enemy drawn is a basic bug. */
  lemma EarlyLevelsOnlyBugs(level: int, pick: nat)
    requires level <= 5
    ensures |Pool(level)| == 100 && Choice(Pool(level), pick) == Basic
  {
    PoolCounts(level, 0);
    PoolCounts(level, 1);
    PoolCounts(level, 2);
    PoolCounts(level, 3);
    PoolCounts(level, 4);
    PoolCounts(level, 5);
    var k := Choice(Pool(level), pick);
    assert multiset(Pool(level))[k] > 0;
  }

  /**
   * From level 22 on, the weights have settled: the basic bug has left the
   * pool and each of the five other kinds holds a fifth of it.
   */
  lemma LateLevelsEvenPool(level: int, i: nat)
    requires level >= 22 && 1 <= i < 6
    ensures multiset(Pool(level))[Basic] == 0
    ensures multiset(Pool(level))[ENEMY_NAMES[i]] == 20
  {
    var w := ExpectedWeights(level);
    assert w[0] == 0 && w[i] == 20;
    PoolCounts(level, 0);
    PoolCounts(level, i);
  }

  /**
   * createEnemies' count: two plus the absolute value of floor(level / 5),
   * and eight on the dark levels beyond 25.
   */
  function EnemyCount(level: int): nat
  {
    if level > DARK_LEVELS then 8
    else
      var q := level / 5;
      2 + (if q < 0 then -q else q)
  }

  /**
   * The count is between 2 and 7 up to level 25 and grows with the level;
   * on the negative levels of the time machine cheat it grows with the
   * distance from zero.
   */
  lemma EnemyCountBounds(level: int, higher: int)
    requires 0 <= level <= higher
    ensures 2 <= EnemyCount(level) <= 8
    ensures level <= DARK_LEVELS ==> EnemyCount(level) <= 7
    ensures EnemyCount(level) <= EnemyCount(higher)
    ensures EnemyCount(-1) == 3 && EnemyCount(-higher) >= EnemyCount(-level)
  {
  }

  /**
   * createEnemies: `EnemyCount(level)` new enemies, the kind of each drawn
   * from the weighted pool and built with its own draws.
   */
  method CreateEnemies(level: int, cow: bool, draws: nat -> EnemyDraw) returns (enemies: seq<Enemy>)
    ensures |Pool(level)| == 100
    ensures |enemies| == EnemyCount(level)
    ensures forall i | 0 <= i < |enemies| :: fresh(enemies[i]) && enemies[i].Valid()
    ensures forall i | 0 <= i < |enemies| :: enemies[i].kind == Choice(Pool(level), draws(i).pick)
    ensures forall i | 0 <= i < |enemies| :: enemies[i].sprite == InitialSprite(enemies[i].kind, cow)
    ensures NoRepeats(enemies)
  {
    var enemyWeights := CalcEnemyWeights(level);
    var weightedEnemyList := GenerateWeightedList(ENEMY_NAMES, enemyWeights);
    ExpandLength(ENEMY_NAMES, enemyWeights);
    var enemyCount := EnemyCount(level);
    enemies := [];
    var i := 0;
    while i < enemyCount
      invariant 0 <= i <= enemyCount && |enemies| == i
      invariant weightedEnemyList == Pool(level) && |Pool(level)| == 100
      invariant forall k | 0 <= k < i :: fresh(enemies[k]) && enemies[k].Valid()
      invariant forall k | 0 <= k < i :: enemies[k].kind == Choice(Pool(level), draws(k).pick)
      invariant forall k | 0 <= k < i :: enemies[k].sprite == InitialSprite(enemies[k].kind, cow)
      invariant NoRepeats(enemies)
    {
      var newSelection := Choice(weightedEnemyList, draws(i).pick);
      var newEnemy := new Enemy(newSelection, draws(i).x, draws(i).y, draws(i).speed, cow);
      NoRepeatsAppend(enemies, newEnemy);
      enemies := enemies + [newEnemy];
      i := i + 1;
    }
  }
}
