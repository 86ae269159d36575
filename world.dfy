/**
 * The game's global state and the engine's steps over it: setting up a
 * game and a level, the per-frame update (entities, collisions, item
 * pickup, level completion), losing a life or the game, and the keyboard
 * with its cheats.
 */
module Game {
  import opened Geometry
  import opened Utils
  import opened GameMap
  import opened Enemies
  import opened Players
  import opened Attacks
  import opened Items
  import opened EnemyGeneration
  import opened Cheats
  import opened ForEachRemoval
  import opened ItemLists
  import opened Collisions

  /** `gamestate.activeCheats`. */
  datatype ActiveCheats = ActiveCheats(cow: bool, hadouken: bool, time: bool, udacity: bool, invincible: bool)

  /**
   * `gamestate`: whether a dialog holds the game, the level, the game
   * speed in hundredths (100 is normal speed), the score, the cheats
   * turned on and whether "HADOUKEN!!!" is being shouted.
   */
  datatype GameState = GameState(paused: bool, level: int, speed: int, score: int,
                                 activeCheats: ActiveCheats, hadouken: bool)

  /** `new GameState()`. */
  const NEW_GAME: GameState :=
    GameState(false, 1, 100, 0, ActiveCheats(false, false, false, false, false), false)

  /** The game speed stops growing at 2.5 and grows by 0.05 per dark level. */
  const MAX_SPEED: int := 250
  const SPEED_STEP: int := 5

  /** The random draws that building one level consumes. */
  datatype LevelDraws = LevelDraws(
    start: nat, end: nat, rockCount: nat, rockPicks: seq<nat>,
    enemies: nat -> EnemyDraw,
    key: nat, gem: nat, heartCoin: real, heart: nat)

  /**
   * The random draws one frame may consume: the row of each enemy that
   * wraps around, the new start of each enemy if a life is lost, and a
   * level if the game is lost or the level is completed.
   */
  datatype FrameDraws = FrameDraws(wrapRows: nat -> nat, restarts: nat -> EnemyDraw, level: LevelDraws)

  predicate DrawsOk(d: LevelDraws)
  {
    |d.rockPicks| >= 3
  }

  /** The level bonus for finishing in `ms` milliseconds: floor(100 - 4 * ms / 1000). */
  function Bonus(ms: int): int
  {
    100 + (-ms) / 250
  }

  /** Bonus is exactly the floor of 100 minus four points per second. */
  lemma BonusIsFloor(ms: int)
    ensures Bonus(ms) as real <= 100.0 - 4.0 * (ms as real) / 1000.0 < (Bonus(ms) + 1) as real
  {
    var q := (-ms) / 250;
    assert 250 * q <= -ms < 250 * q + 250;
  }

  /**
   * The bonus is at most 100 for a non-negative time, falls as the time
   * grows, and is positive (so it changes the score) exactly up to 24.75 s.
   */
  lemma BonusShape(ms: int, later: int)
    requires 0 <= ms <= later
    ensures Bonus(ms) <= 100
    ensures Bonus(later) <= Bonus(ms)
    ensures Bonus(ms) > 0 <==> ms <= 24750
  {
  }

  /**
   * The item pass removing the item it visits, at slot k of the list `kept`
   * it has made of `items` so far: the list stays on the item spots and
   * apart, and the pass resumes at o'.
   */
  lemma RemoveVisited(items: seq<Item>, drop: seq<bool>, o: nat, kept: seq<Item>, m: Map) returns (o': nat)
    requires o < |items| == |drop| && !Skipped(drop, o) && drop[o]
    requires kept == Kept(items, drop, o) + items[o..] && OnItemSpots(m, kept) && ItemsApart(kept)
    ensures var k := |Kept(items, drop, o)|;
            var r := RemoveElement(kept[k], kept);
            && o < o' <= |items| && r == Kept(items, drop, o') + items[o'..]
            && (o' < |items| ==> |Kept(items, drop, o')| == k + 1 && !Skipped(drop, o'))
            && (o' == |items| ==> |r| <= k + 1)
            && OnItemSpots(m, r) && ItemsApart(r)
  {
    var k := |Kept(items, drop, o)|;
    VisitSlot(kept, Kept(items, drop, o), items, o);
    RemoveItemAt(m, kept, k);
    o' := SkipAfterRemoval(items, drop, o, kept[..k] + kept[k + 1..]);
  }

  /** The item pass keeping the item it visits in the list `kept` it has made of `items` so far: it moves on to o + 1. */
  lemma KeepVisited(items: seq<Item>, drop: seq<bool>, o: nat, kept: seq<Item>)
    requires o < |items| == |drop| && !Skipped(drop, o) && !drop[o]
    requires kept == Kept(items, drop, o) + items[o..]
    ensures kept == Kept(items, drop, o + 1) + items[o + 1..]
    ensures |Kept(items, drop, o + 1)| == |Kept(items, drop, o)| + 1 && !Skipped(drop, o + 1)
  {
    KeepAfterVisit(items, drop, o);
  }

  /**
   * The item pass before it visits slot k: `kept` is what it kept of the
   * first o items followed by the items not reached, the slot holds item o,
   * and the list stays on the item spots and apart.
   */
  ghost predicate ItemPassAt(items: seq<Item>, drop: seq<bool>, o: nat, kept: seq<Item>, k: int, m: Map)
  {
    && o <= |items| == |drop|
    && kept == Kept(items, drop, o) + items[o..]
    && (o < |items| ==> k == |Kept(items, drop, o)| && !Skipped(drop, o))
    && (o == |items| ==> k >= |kept|)
    && OnItemSpots(m, kept) && ItemsApart(kept)
  }

  /** One visit of the item pass: the slot's item goes exactly when its gem is destroyed. */
  lemma ItemVisit(items: seq<Item>, drop: seq<bool>, o: nat, kept: seq<Item>, k: nat, m: Map, now: int) returns (o': nat)
    requires drop == DestroyedFlags(items, now) && ItemPassAt(items, drop, o, kept, k, m) && k < |kept|
    ensures ItemPassAt(items, drop, o', if Destroyed(kept[k], now) then RemoveElement(kept[k], kept) else kept, k + 1, m)
  {
    VisitSlot(kept, Kept(items, drop, o), items, o);
    if Destroyed(kept[k], now) {
      o' := RemoveVisited(items, drop, o, kept, m);
    } else {
      KeepVisited(items, drop, o, kept);
      o' := o + 1;
    }
  }

  /** Once every slot is visited, the pass has seen every item. */
  lemma ItemPassEnd(items: seq<Item>, drop: seq<bool>, o: nat, kept: seq<Item>, m: Map)
    requires ItemPassAt(items, drop, o, kept, |items|, m)
    ensures kept == Kept(items, drop, |items|)
  {
    KeptLength(items, drop, o);
    assert o == |items| && items[o..] == [];
  }

  /**
   * updateEntities' item pass: each item visited whose gem has been
   * destroyed is removed from the list; the item after a removed one slides
   * into the visited slot and waits for the next frame.
   */
  method ItemPass(items: seq<Item>, now: int, ghost m: Map) returns (kept: seq<Item>)
    requires OnItemSpots(m, items) && ItemsApart(items)
    ensures kept == Kept(items, DestroyedFlags(items, now), |items|)
    ensures OnItemSpots(m, kept) && ItemsApart(kept)
  {
    ghost var drop := DestroyedFlags(items, now);
    ghost var o: nat := 0;
    kept := items;
    var len := |kept|;
    for k := 0 to len
      invariant len == |items| && ItemPassAt(items, drop, o, kept, k, m)
    {
      if k < |kept| {
        var item := kept[k];
        o := ItemVisit(items, drop, o, kept, k, m, now);
        if Destroyed(item, now) {
          kept := RemoveElement(item, kept);
        }
      }
    }
    ItemPassEnd(items, drop, o, kept, m);
  }

  /** What Attack.update does to an attack that started the frame at x0 with speed s0: it ends at x with speed s. */
  predicate AttackStepped(x: real, s: int, x0: real, s0: int, dt: real, gameSpeed: int, paused: bool)
    requires dt >= 0.0 && gameSpeed > 0
  {
    && x == Enemies.Advance(x0, dt, s0, gameSpeed, paused)
    && s == (if OffScreen(x) then 0 else s0)
  }

  /** For each attack, whether it stands still. */
  ghost function StoppedFlags(attacks: seq<Attack>): (d: seq<bool>)
    reads attacks
    ensures |d| == |attacks| && forall i | 0 <= i < |attacks| :: d[i] == (attacks[i].speed == 0)
  {
    if |attacks| == 0 then [] else [attacks[0].speed == 0] + StoppedFlags(attacks[1..])
  }

  /** Attack i after the pass: untouched if it was passed over, else updated once. */
  predicate AttackDone(x: real, s: int, skipped: bool, x0: real, s0: int, dt: real, gameSpeed: int, paused: bool)
    requires dt >= 0.0 && gameSpeed > 0
  {
    if skipped then x == x0 && s == s0 else AttackStepped(x, s, x0, s0, dt, gameSpeed, paused)
  }

  /**
   * Mid-pass, the attacks at positions xs with speeds ss, that started at
   * x0 with s0: the marked ones are done, the rest untouched.
   */
  ghost predicate PassedSoFar(xs: seq<real>, ss: seq<int>, passed: seq<bool>, x0: seq<real>, s0: seq<int>,
                              dt: real, gameSpeed: int, paused: bool)
    requires dt >= 0.0 && gameSpeed > 0
  {
    && |xs| == |ss| == |x0| == |s0| && |passed| <= |xs|
    && (forall i | 0 <= i < |passed| :: AttackDone(xs[i], ss[i], passed[i], x0[i], s0[i], dt, gameSpeed, paused))
    && (forall i | |passed| <= i < |xs| :: xs[i] == x0[i] && ss[i] == s0[i])
  }

  /** Updating the attack at the first unmarked slot, then marking it and perhaps the one after as passed over. */
  lemma PassedStep(xs: seq<real>, ss: seq<int>, x: real, s: int, passed: seq<bool>, passed': seq<bool>,
                   x0: seq<real>, s0: seq<int>, dt: real, gameSpeed: int, paused: bool)
    requires dt >= 0.0 && gameSpeed > 0
    requires PassedSoFar(xs, ss, passed, x0, s0, dt, gameSpeed, paused) && |passed| < |xs|
    requires AttackStepped(x, s, xs[|passed|], ss[|passed|], dt, gameSpeed, paused)
    requires passed' == passed + [false] || (passed' == passed + [false, true] && |passed| + 1 < |xs|)
    ensures PassedSoFar(xs[|passed| := x], ss[|passed| := s], passed', x0, s0, dt, gameSpeed, paused)
  {
    var xs', ss' := xs[|passed| := x], ss[|passed| := s];
    forall i | 0 <= i < |passed'|
      ensures AttackDone(xs'[i], ss'[i], passed'[i], x0[i], s0[i], dt, gameSpeed, paused)
    {
      if i < |passed| {
        assert passed'[i] == passed[i];
      }
    }
  }

  /** At the end of the pass the marks are the attacks passed over. */
  lemma PassFinished(xs: seq<real>, ss: seq<int>, stopped: seq<bool>, passed: seq<bool>, x0: seq<real>, s0: seq<int>,
                     dt: real, gameSpeed: int, paused: bool)
    requires dt >= 0.0 && gameSpeed > 0
    requires PassedSoFar(xs, ss, passed, x0, s0, dt, gameSpeed, paused) && SkipMarks(stopped, passed)
    requires |passed| == |xs| == |stopped|
    ensures forall i {:trigger xs[i]} | 0 <= i < |xs| :: AttackDone(xs[i], ss[i], Skipped(stopped, i), x0[i], s0[i], dt, gameSpeed, paused)
  {
    forall i | 0 <= i < |xs| ensures AttackDone(xs[i], ss[i], Skipped(stopped, i), x0[i], s0[i], dt, gameSpeed, paused) {
      SkipMarksAreSkipped(stopped, passed, i);
    }
  }

  /** Where the attack pass ends: every attack visited or passed over. */
  lemma AttackPassEnd(attacks: seq<Attack>, kept: seq<Attack>, stopped: seq<bool>, passed: seq<bool>, done: seq<Attack>,
                      xs: seq<real>, ss: seq<int>, x0: seq<real>, s0: seq<int>, dt: real, gameSpeed: int, paused: bool)
    requires dt >= 0.0 && gameSpeed > 0 && NoRepeats(attacks)
    requires AttackPassState(attacks, kept, |attacks|, stopped, passed, done, xs, ss, x0, s0, dt, gameSpeed, paused)
    requires AttacksAt(attacks, xs, ss)
    ensures |stopped| == |attacks| && kept == Kept(attacks, stopped, |attacks|) && NoRepeats(kept)
    ensures forall i | 0 <= i < |attacks| :: attacks[i].Valid() && stopped[i] == (attacks[i].speed == 0)
    ensures forall i | 0 <= i < |attacks| ::
              AttackDone(attacks[i].x, attacks[i].speed, Skipped(stopped, i), x0[i], s0[i], dt, gameSpeed, paused)
  {
    KeptLength(attacks, stopped, |passed|);
    assert |passed| == |attacks|;
    PassFinished(xs, ss, stopped, passed, x0, s0, dt, gameSpeed, paused);
    NoRepeatsKept(attacks, stopped, |attacks|);
  }

  /** The attacks stand at positions xs with speeds ss. */
  ghost predicate AttacksAt(attacks: seq<Attack>, xs: seq<real>, ss: seq<int>)
    reads attacks
  {
    && |xs| == |ss| == |attacks|
    && forall i | 0 <= i < |attacks| :: attacks[i].Valid() && attacks[i].x == xs[i] && attacks[i].speed == ss[i]
  }

  /** `attack.update()` on the attack at slot o of a list without repeats: only that attack changes. */
  method UpdateOne(ghost attacks: seq<Attack>, ghost o: nat, attack: Attack, ghost xs: seq<real>, ghost ss: seq<int>,
                   dt: real, gameSpeed: int, paused: bool)
    requires o < |attacks| && attack == attacks[o] && NoRepeats(attacks) && AttacksAt(attacks, xs, ss)
    requires dt >= 0.0 && gameSpeed > 0
    modifies attack
    ensures AttacksAt(attacks, xs[o := attack.x], ss[o := attack.speed])
    ensures AttackStepped(attack.x, attack.speed, xs[o], ss[o], dt, gameSpeed, paused)
  {
    attack.Update(dt, gameSpeed, paused);
    forall i | 0 <= i < |attacks| && i != o
      ensures attacks[i].Valid() && attacks[i].x == xs[i] && attacks[i].speed == ss[i]
    {
      NoRepeatsAt(attacks, i, o);
    }
  }

  /**
   * The state of the attack pass before visiting slot k: `passed` marks the
   * attacks behind the pass, `done` is what it kept of them, `stopped` holds
   * each attack's final standstill test, and the attacks stand at xs with
   * speeds ss, having started at x0 with s0.
   */
  ghost predicate AttackPassState(attacks: seq<Attack>, kept: seq<Attack>, k: int, stopped: seq<bool>, passed: seq<bool>,
                                  done: seq<Attack>, xs: seq<real>, ss: seq<int>, x0: seq<real>, s0: seq<int>,
                                  dt: real, gameSpeed: int, paused: bool)
    requires dt >= 0.0 && gameSpeed > 0
  {
    && |passed| <= |attacks| == |stopped| && SkipMarks(stopped, passed)
    && done == Kept(attacks, stopped, |passed|)
    && kept == done + attacks[|passed|..]
    && (|passed| < |attacks| ==> k == |done| && !Skipped(stopped, |passed|))
    && (|passed| == |attacks| ==> k >= |kept|)
    && |xs| == |ss| == |attacks|
    && (forall i {:trigger stopped[i]} | 0 <= i < |attacks| :: stopped[i] == (ss[i] == 0))
    && PassedSoFar(xs, ss, passed, x0, s0, dt, gameSpeed, paused)
  }

  /** One visit of the attack pass: update the attack in slot k and remove it once it stands still. */
  method VisitAttack(ghost attacks: seq<Attack>, kept: seq<Attack>, k: nat, ghost stopped: seq<bool>, ghost passed: seq<bool>,
                     ghost done: seq<Attack>, ghost xs: seq<real>, ghost ss: seq<int>, ghost x0: seq<real>, ghost s0: seq<int>,
                     dt: real, gameSpeed: int, paused: bool)
      returns (kept': seq<Attack>, ghost stopped': seq<bool>, ghost passed': seq<bool>, ghost xs': seq<real>, ghost ss': seq<int>)
    requires dt >= 0.0 && gameSpeed > 0 && |passed| < |attacks| && NoRepeats(attacks)
    requires AttackPassState(attacks, kept, k, stopped, passed, done, xs, ss, x0, s0, dt, gameSpeed, paused)
    requires AttacksAt(attacks, xs, ss)
    modifies attacks
    ensures AttacksAt(attacks, xs', ss')
    ensures |passed| < |passed'| <= |attacks| == |stopped'|
    ensures AttackPassState(attacks, kept', k + 1, stopped', passed', Kept(attacks, stopped', |passed'|), xs', ss', x0, s0, dt, gameSpeed, paused)
  {
    ghost var o := |passed|;
    VisitSlot(kept, done, attacks, o);
    var attack := kept[k];
    UpdateOne(attacks, o, attack, xs, ss, dt, gameSpeed, paused);
    xs', ss' := xs[o := attack.x], ss[o := attack.speed];
    stopped' := stopped[o := attack.speed == 0];
    forall i | 0 <= i < |attacks| ensures stopped'[i] == (ss'[i] == 0) {
      if i != o {
        assert stopped'[i] == stopped[i] && ss'[i] == ss[i];
      }
    }
    assert stopped'[..o] == stopped[..o];
    DecideVisited(attacks, stopped, stopped', passed);
    NoRepeatsKept(attacks, stopped', o);
    kept', passed' := PassStep(attacks, stopped', passed, kept, k, attack.speed == 0);
    PassedStep(xs, ss, attack.x, attack.speed, passed, passed', x0, s0, dt, gameSpeed, paused);
  }

  /**
   * updateEntities' attack pass: each attack visited is updated and, once
   * it has stopped, removed; the attack after a removed one slides into
   * the visited slot and is neither updated nor tested until the next
   * frame. `stopped[i]` is whether attack i stands still after the pass.
   */
  method AttackPass(attacks: seq<Attack>, dt: real, gameSpeed: int, paused: bool)
      returns (kept: seq<Attack>, ghost stopped: seq<bool>)
    requires forall i | 0 <= i < |attacks| :: attacks[i].Valid()
    requires NoRepeats(attacks) && dt >= 0.0 && gameSpeed > 0
    modifies attacks
    ensures |stopped| == |attacks| && kept == Kept(attacks, stopped, |attacks|)
    ensures NoRepeats(kept)
    ensures forall i | 0 <= i < |attacks| :: attacks[i].Valid() && stopped[i] == (attacks[i].speed == 0)
    ensures forall i {:trigger attacks[i]} | 0 <= i < |attacks| ::
              AttackDone(attacks[i].x, attacks[i].speed, Skipped(stopped, i), old(attacks[i].x), old(attacks[i].speed), dt, gameSpeed, paused)
  {
    ghost var x0, s0 := Positions(attacks), Speeds(attacks);
    ghost var stopped0 := StoppedFlags(attacks);
    assert AttackPassState(attacks, attacks, 0, stopped0, [], [], x0, s0, x0, s0, dt, gameSpeed, paused);
    ghost var passed, done, xs, ss;
    kept, stopped, passed, done, xs, ss := AttackLoop(attacks, stopped0, x0, s0, dt, gameSpeed, paused);
    AttackPassEnd(attacks, kept, stopped, passed, done, xs, ss, x0, s0, dt, gameSpeed, paused);
  }

  /** The loop of the attack pass, from the state as it began. */
  method AttackLoop(attacks: seq<Attack>, ghost stopped0: seq<bool>, ghost x0: seq<real>, ghost s0: seq<int>,
                    dt: real, gameSpeed: int, paused: bool)
      returns (kept: seq<Attack>, ghost stopped: seq<bool>, ghost passed: seq<bool>, ghost done: seq<Attack>,
               ghost xs: seq<real>, ghost ss: seq<int>)
    requires NoRepeats(attacks) && dt >= 0.0 && gameSpeed > 0
    requires AttackPassState(attacks, attacks, 0, stopped0, [], [], x0, s0, x0, s0, dt, gameSpeed, paused)
    requires AttacksAt(attacks, x0, s0)
    modifies attacks
    ensures AttackPassState(attacks, kept, |attacks|, stopped, passed, done, xs, ss, x0, s0, dt, gameSpeed, paused)
    ensures AttacksAt(attacks, xs, ss)
  {
    stopped, xs, ss := stopped0, x0, s0;
    passed, done := [], [];
    kept := attacks;
    var len := |kept|;
    for k := 0 to len
      invariant |attacks| == len
      invariant AttackPassState(attacks, kept, k, stopped, passed, done, xs, ss, x0, s0, dt, gameSpeed, paused)
      invariant AttacksAt(attacks, xs, ss)
    {
      if k < |kept| {
        kept, stopped, passed, xs, ss := VisitAttack(attacks, kept, k, stopped, passed, done, xs, ss, x0, s0, dt, gameSpeed, paused);
        done := Kept(attacks, stopped, |passed|);
      }
    }
  }

  /** The attacks' positions and speeds, read at one moment, for the attack pass to compare against. */
  ghost function Positions(attacks: seq<Attack>): (r: seq<real>)
    reads attacks
    ensures |r| == |attacks| && forall i | 0 <= i < |attacks| :: r[i] == attacks[i].x
  {
    if |attacks| == 0 then [] else [attacks[0].x] + Positions(attacks[1..])
  }

  ghost function Speeds(attacks: seq<Attack>): (r: seq<int>)
    reads attacks
    ensures |r| == |attacks| && forall i | 0 <= i < |attacks| :: r[i] == attacks[i].speed
  {
    if |attacks| == 0 then [] else [attacks[0].speed] + Speeds(attacks[1..])
  }

  /** The level-1 world of a new game: a new player at the start of a level-1 map, with its enemies and items. */
  method NewGame(now: int, draws: LevelDraws) returns (m: Map, p: Player, enemies: seq<Enemy>, items: seq<Item>)
    requires DrawsOk(draws)
    ensures ValidMap(m) && StartCol(m) == RandInt(1, 4, draws.start) && EndCol(m) == RandInt(1, 4, draws.end) && m.rocks == []
    ensures fresh(p) && p.x == m.start.x && p.y == m.start.y && HasTile(m, p.x, p.y)
    ensures p.maxLives == 5 && p.lives == 3 && !p.hasKey && !p.godMode && !p.isInvincible && !p.isUdacious
    ensures |enemies| == EnemyCount(1) && NoRepeats(enemies)
    ensures forall i | 0 <= i < |enemies| :: fresh(enemies[i]) && enemies[i].Valid()
    ensures |items| == 2 && items[0].kind == Key && items[1].kind == Gem
    ensures OnItemSpots(m, items) && ItemsApart(items)
  {
    m, enemies, items := BuildLevel(1, false, now, draws);
    p := new Player(m);
  }

  /**
   * updateEntities' enemy pass: every enemy updated once, the i-th with the
   * i-th row draw for wrapping around. No enemy other than a backtracker
   * ends up past the right edge, while the game is paused none of them
   * moves sideways, and each one ends where one Stepped frame takes it.
   */
  method UpdateAll(enemies: seq<Enemy>, dt: real, gameSpeed: int, paused: bool, cow: bool, wrapRows: nat -> nat)
    requires dt >= 0.0 && gameSpeed > 0
    requires forall i | 0 <= i < |enemies| :: enemies[i].Valid()
    requires NoRepeats(enemies)
    modifies set i | 0 <= i < |enemies| :: enemies[i]
    ensures forall i | 0 <= i < |enemies| :: enemies[i].Valid()
    ensures forall i | 0 <= i < |enemies| && enemies[i].kind != Backtracker :: enemies[i].x <= X_RIGHT as real
    ensures paused ==> forall i | 0 <= i < |enemies| && enemies[i].kind != Backtracker :: enemies[i].x == old(enemies[i].x)
    ensures forall i | 0 <= i < |enemies| ::
              enemies[i].State() == Stepped(enemies[i].kind, enemies[i].width, old(enemies[i].State()), dt, gameSpeed, paused, cow, wrapRows(i))
  {
    for i := 0 to |enemies|
      invariant forall j | 0 <= j < |enemies| :: enemies[j].Valid()
      invariant paused ==> forall j | 0 <= j < |enemies| && enemies[j].kind != Backtracker :: enemies[j].x == old(enemies[j].x)
      invariant forall j | 0 <= j < i ::
                  enemies[j].State() == Stepped(enemies[j].kind, enemies[j].width, old(enemies[j].State()), dt, gameSpeed, paused, cow, wrapRows(j))
      invariant forall j | i <= j < |enemies| :: enemies[j].State() == old(enemies[j].State())
    {
      forall j | 0 <= j < |enemies| && j != i ensures enemies[j] != enemies[i] {
        NoRepeatsAt(enemies, i, j);
      }
      enemies[i].Update(dt, gameSpeed, paused, cow, wrapRows(i));
    }
  }

  /** What createMap, createEnemies and createItems build for a level from its draws. */
  method BuildLevel(level: int, cow: bool, now: int, draws: LevelDraws) returns (m: Map, enemies: seq<Enemy>, items: seq<Item>)
    requires DrawsOk(draws)
    ensures ValidMap(m) && HasTile(m, m.start.x, m.start.y)
    ensures StartCol(m) == RandInt(1, 4, draws.start) && EndCol(m) == RandInt(1, 4, draws.end)
    ensures level <= 15 ==> m.rocks == []
    ensures |enemies| == EnemyCount(level) && NoRepeats(enemies)
    ensures forall i | 0 <= i < |enemies| :: fresh(enemies[i]) && enemies[i].Valid()
    ensures |items| == (if HeartLevel(level, draws.heartCoin) then 3 else 2)
    ensures items[0].kind == Key && items[1].kind == Gem
    ensures OnItemSpots(m, items) && ItemsApart(items)
  {
    m := CreateMap(level, draws.start, draws.end, draws.rockCount, draws.rockPicks);
    enemies := CreateEnemies(level, cow, draws.enemies);
    items := CreateItems(m, level, now, draws.key, draws.gem, draws.heartCoin, draws.heart);
    StartAndDoorAreStone(m);
  }

  /**
   * The attack handleInput fires: in god mode, a hadouken for 'a' or 'd'
   * once the street fighter cheat is on, a front-end attack for 'q' or
   * 'e' once the udacious cheat is on.
   */
  function Shot(input: Input, godMode: bool, a: ActiveCheats): Option<AttackKind>
  {
    if !godMode then None
    else if a.hadouken && (input == A || input == D) then Some(HadoukenAttack)
    else if a.udacity && (input == Q || input == E) then Some(FrontEndAttack)
    else None
  }

  /**
   * Only god mode fires, only the four attack keys do, and each attack
   * needs its own cheat: a hadouken exactly for 'a' or 'd' under the
   * street fighter cheat, a front-end attack exactly for 'q' or 'e' under
   * the udacious cheat.
   */
  lemma ShotKeys(input: Input, godMode: bool, a: ActiveCheats)
    ensures var r := Shot(input, godMode, a);
            && (r.Some? ==> godMode && input in {A, D, Q, E})
            && (r == Some(HadoukenAttack) <==> godMode && a.hadouken && input in {A, D})
            && (r == Some(FrontEndAttack) <==> godMode && a.udacity && input in {Q, E})
  {
  }

  /** The flag a cheat of the cheats table turns on in `gamestate.activeCheats`. */
  function CheatOn(a: ActiveCheats, c: Cheat): (r: ActiveCheats)
  {
    match c
    case CowLevel => a.(cow := true)
    case Invincible => a.(invincible := true)
    case StreetFighter => a.(hadouken := true)
    case Udacious => a.(udacity := true)
    case TimeMachine => a.(time := true)
  }

  /**
   * Cheats only ever turn flags on: each one turns on its own flag and
   * leaves the others, entering it again changes nothing, and the order in
   * which two cheats are entered does not matter.
   */
  lemma CheatsAccumulate(a: ActiveCheats, c: Cheat, d: Cheat)
    ensures var r := CheatOn(a, c);
            && (a.cow ==> r.cow) && (a.invincible ==> r.invincible) && (a.hadouken ==> r.hadouken)
            && (a.udacity ==> r.udacity) && (a.time ==> r.time)
            && r.cow == (a.cow || c == CowLevel) && r.invincible == (a.invincible || c == Invincible)
            && r.hadouken == (a.hadouken || c == StreetFighter) && r.udacity == (a.udacity || c == Udacious)
            && r.time == (a.time || c == TimeMachine)
    ensures CheatOn(CheatOn(a, c), c) == CheatOn(a, c)
    ensures CheatOn(CheatOn(a, c), d) == CheatOn(CheatOn(a, d), c)
  {
  }

  /** The cow cheat's pass over the enemies: each takes the cow sprite, and nothing else about it changes. */
  method DressAsCows(enemies: seq<Enemy>)
    requires forall i | 0 <= i < |enemies| :: enemies[i].Valid()
    modifies set e | e in enemies
    ensures forall i | 0 <= i < |enemies| :: enemies[i].Valid() && enemies[i].sprite == Cow
    ensures forall i | 0 <= i < |enemies| ::
              enemies[i].x == old(enemies[i].x) && enemies[i].y == old(enemies[i].y) && enemies[i].speed == old(enemies[i].speed)
  {
    for k := 0 to |enemies|
      invariant forall i | 0 <= i < k :: enemies[i].sprite == Cow
      invariant forall i | 0 <= i < |enemies| :: enemies[i].Valid()
      invariant forall i | 0 <= i < |enemies| ::
                  enemies[i].x == old(enemies[i].x) && enemies[i].y == old(enemies[i].y) && enemies[i].speed == old(enemies[i].speed)
    {
      enemies[k].sprite := Cow;
    }
  }

  class World {
    var gamestate: GameState
    /** `map`: the tiles, start, door and rocks of the current level. */
    var levelMap: Map
    var player: Player
    var allEnemies: seq<Enemy>
    var allItems: seq<Item>
    var allAttacks: seq<Attack>
    var levelStartTime: int
    /** The key codes typed since the last unlock. */
    var keys: seq<nat>

    /**
     * The world invariant: lives in 1..5, a speed of 1 to 2.5 in steps of
     * 0.05, a well-formed map with the player on one of its tiles, sound
     * enemies and attacks (each listed once), and items on item spots of
     * the map, no two on one tile.
     */
    ghost predicate Valid()
      reads this, player, allEnemies, allAttacks
    {
      && StatusValid()
      && ValidMap(levelMap)
      && HasTile(levelMap, player.x, player.y)
      && EnemiesValid()
      && AttacksValid()
      && ItemsValid()
    }

    /** Lives in 1..5, and a speed of 1 to 2.5 in steps of 0.05. */
    ghost predicate StatusValid()
      reads this`gamestate, this`player, player
    {
      && player.maxLives == 5 && 1 <= player.lives <= player.maxLives
      && 100 <= gamestate.speed <= MAX_SPEED && gamestate.speed % SPEED_STEP == 0
    }

    ghost predicate EnemiesValid()
      reads this`allEnemies, allEnemies
    {
      && (forall i | 0 <= i < |allEnemies| :: allEnemies[i].Valid())
      && NoRepeats(allEnemies)
    }

    /** Each attack listed once, and every listed attack still flying. */
    ghost predicate AttacksValid()
      reads this`allAttacks, allAttacks
    {
      && (forall i | 0 <= i < |allAttacks| :: allAttacks[i].Valid() && allAttacks[i].speed != 0)
      && NoRepeats(allAttacks)
    }

    ghost predicate ItemsValid()
      reads this`levelMap, this`allItems
    {
      OnItemSpots(levelMap, allItems) && ItemsApart(allItems)
    }

    /**
     * setupNewGame (and the key buffer's initial value): a new game state,
     * a level-1 map, the player at its start, the level's enemies and
     * items, no attacks, and the level clock started.
     */
    constructor (now: int, draws: LevelDraws)
      requires DrawsOk(draws)
      ensures NewGameState(draws) && levelStartTime == now && keys == [] && allAttacks == []
      ensures fresh(player) && forall e | e in allEnemies :: fresh(e)
    {
      var m, p, enemies, items := NewGame(now, draws);
      levelStartTime := now;
      gamestate := NEW_GAME;
      levelMap := m;
      player := p;
      allEnemies := enemies;
      allItems := items;
      allAttacks := [];
      keys := [];
    }

    /**
     * resetGame, up to the dismissal of its dialog: a new game state, a
     * level-1 map, a new player at its start, new enemies and items. The
     * attacks, the level clock and the key buffer are left as they were.
     */
    method ResetGame(now: int, draws: LevelDraws)
      requires AttacksValid() && DrawsOk(draws)
      modifies this
      ensures NewGameState(draws)
      ensures fresh(player) && forall e | e in allEnemies :: fresh(e)
      ensures allAttacks == old(allAttacks) && levelStartTime == old(levelStartTime) && keys == old(keys)
    {
      var m, p, enemies, items := NewGame(now, draws);
      gamestate := NEW_GAME;
      levelMap := m;
      player := p;
      allEnemies := enemies;
      allItems := items;
    }

    /**
     * resetLevel: one life less, the death dialog up (paused), the player
     * back at the start, and every enemy at a new start with a new speed; a
     * backtracker faces right again. Items and attacks stay.
     */
    method ResetLevel(restarts: nat -> EnemyDraw)
      requires Valid() && player.lives > 1
      modifies this`gamestate, player`x, player`y, player`lives, allEnemies
      ensures Valid()
      ensures player.lives == old(player.lives) - 1
      ensures gamestate == old(gamestate).(paused := true)
      ensures player.x == levelMap.start.x && player.y == levelMap.start.y
      ensures allEnemies == old(allEnemies) && allItems == old(allItems) && allAttacks == old(allAttacks)
      ensures forall i | 0 <= i < |allEnemies| :: Restarted(allEnemies[i], restarts(i), gamestate.activeCheats.cow, old(allEnemies[i].sprite))
    {
      gamestate := gamestate.(paused := true);
      LoseLife(player, levelMap, allEnemies, gamestate.activeCheats.cow, restarts);
      StartAndDoorAreStone(levelMap);
    }

    /**
     * setupNewLevel: the bonus for the time taken changes the score when
     * positive (subtracted under the time machine), the level goes up (down
     * under the time machine), the speed rises on dark levels up to 2.5,
     * and a new map, enemies and items replace the old, with the player at
     * the new start, no attacks and no key unless udacious.
     */
    method SetupNewLevel(now: int, draws: LevelDraws)
      requires StatusValid() && DrawsOk(draws)
      modifies this, player
      ensures Valid() && LevelSetUp(now, draws)
    {
      AdvanceLevel(now);
      if !player.isUdacious {
        player.hasKey := false;
      }
      var m, enemies, items := BuildLevel(gamestate.level, gamestate.activeCheats.cow, now, draws);
      InstallLevel(m, enemies, items);
    }

    /** The state setupNewLevel leaves at time `now` with the level draws, from the state before it. */
    twostate predicate LevelSetUp(now: int, draws: LevelDraws)
      reads this, player
    {
      && (var g := old(gamestate);
          var bonus := Bonus(now - old(levelStartTime));
          var level := if g.activeCheats.time then g.level - 1 else g.level + 1;
          gamestate == g.(level := level,
                          score := if bonus <= 0 then g.score else if g.activeCheats.time then g.score - bonus else g.score + bonus,
                          speed := if level > DARK_LEVELS && g.speed < MAX_SPEED then g.speed + SPEED_STEP else g.speed))
      && levelStartTime == now && keys == old(keys)
      && StartCol(levelMap) == RandInt(1, 4, draws.start) && EndCol(levelMap) == RandInt(1, 4, draws.end)
      && player == old(player) && player.x == levelMap.start.x && player.y == levelMap.start.y
      && player.lives == old(player.lives) && player.isUdacious == old(player.isUdacious)
      && player.hasKey == (old(player.hasKey) && player.isUdacious)
      && |allEnemies| == EnemyCount(gamestate.level) && (forall e | e in allEnemies :: fresh(e))
      && |allItems| == (if HeartLevel(gamestate.level, draws.heartCoin) then 3 else 2)
      && allAttacks == []
    }

    /** A new level's map, enemies and items in place, the player at its start, no attacks. */
    method InstallLevel(m: Map, enemies: seq<Enemy>, items: seq<Item>)
      requires StatusValid() && ValidMap(m)
      requires forall i | 0 <= i < |enemies| :: enemies[i].Valid()
      requires NoRepeats(enemies) && OnItemSpots(m, items) && ItemsApart(items)
      modifies this`levelMap, this`allEnemies, this`allItems, this`allAttacks, player`x, player`y
      ensures Valid()
      ensures levelMap == m && allEnemies == enemies && allItems == items && allAttacks == []
      ensures player.x == m.start.x && player.y == m.start.y
    {
      StartAndDoorAreStone(m);
      player.x := m.start.x;
      player.y := m.start.y;
      levelMap := m;
      allEnemies := enemies;
      allItems := items;
      allAttacks := [];
    }

    /**
     * The bookkeeping half of setupNewLevel: score, level, speed and the
     * level clock. The speed stays a multiple of 0.05 between 1 and 2.5.
     */
    method AdvanceLevel(now: int)
      requires 100 <= gamestate.speed <= MAX_SPEED && gamestate.speed % SPEED_STEP == 0
      modifies this`gamestate, this`levelStartTime
      ensures 100 <= gamestate.speed <= MAX_SPEED && gamestate.speed % SPEED_STEP == 0
      ensures var g := old(gamestate);
              var bonus := Bonus(now - old(levelStartTime));
              var level := if g.activeCheats.time then g.level - 1 else g.level + 1;
              gamestate == g.(level := level,
                              score := if bonus <= 0 then g.score else if g.activeCheats.time then g.score - bonus else g.score + bonus,
                              speed := if level > DARK_LEVELS && g.speed < MAX_SPEED then g.speed + SPEED_STEP else g.speed)
      ensures levelStartTime == now
    {
      var addToScore := Bonus(now - levelStartTime);
      if gamestate.activeCheats.time {
        if addToScore > 0 {
          gamestate := gamestate.(score := gamestate.score - addToScore);
        }
        gamestate := gamestate.(level := gamestate.level - 1);
      } else {
        if addToScore > 0 {
          gamestate := gamestate.(score := gamestate.score + addToScore);
        }
        gamestate := gamestate.(level := gamestate.level + 1);
      }
      levelStartTime := now;
      if gamestate.level > DARK_LEVELS && gamestate.speed < MAX_SPEED {
        gamestate := gamestate.(speed := gamestate.speed + SPEED_STEP);
      }
    }

    /** updateEntities' item pass over the world's item list. */
    method RemoveDestroyedItems(now: int)
      requires ItemsValid()
      modifies this`allItems
      ensures ItemsValid()
      ensures allItems == Kept(old(allItems), DestroyedFlags(old(allItems), now), |old(allItems)|)
    {
      allItems := ItemPass(allItems, now, levelMap);
    }

    /**
     * collectItems: the item on the player's tile, if any, is picked up and
     * removed. A key gives the player the key, a heart a life unless all
     * five are there, and a gem 50 points (minus 50 under the time machine
     * cheat). Items lie apart, so at most one is picked up, and none is
     * left under the player.
     */
    method CollectItems()
      requires Valid()
      modifies this`allItems, this`gamestate, player`hasKey, player`lives
      ensures Valid() && ItemIndexAt(allItems, player.x, player.y) < 0
      ensures Collected(old(allItems), old(player.hasKey), old(player.lives), old(gamestate))
    {
      VisitItems();
    }

    /**
     * The state collectItems leaves from items0, key flag key0, lives0 and
     * game state gs0: untouched when no item lies on the player's tile,
     * otherwise that item picked up.
     */
    ghost predicate Collected(items0: seq<Item>, key0: bool, lives0: int, gs0: GameState)
      reads this`allItems, this`gamestate, this`player, player
    {
      var j := ItemIndexAt(items0, player.x, player.y);
      && (j < 0 ==> allItems == items0 && gamestate == gs0 && player.hasKey == key0 && player.lives == lives0)
      && (j >= 0 ==> PickedUp(items0, j, key0, lives0, gs0))
    }

    /** collectItems' forEach over the items, visiting each one on the player's tile. */
    method VisitItems()
      requires ItemsValid() && 1 <= player.lives <= player.maxLives
      modifies this`allItems, this`gamestate, player`hasKey, player`lives
      ensures ItemsValid() && 1 <= player.lives <= player.maxLives && gamestate.speed == old(gamestate.speed)
      ensures ItemIndexAt(allItems, player.x, player.y) < 0
      ensures Collected(old(allItems), old(player.hasKey), old(player.lives), old(gamestate))
    {
      ghost var j := ItemIndexAt(allItems, player.x, player.y);
      ghost var found := false;
      var k := 0;
      while k < |allItems|
        invariant ItemsValid() && 1 <= player.lives <= player.maxLives && gamestate.speed == old(gamestate.speed)
        invariant 0 <= k && |allItems| <= |old(allItems)|
        invariant !found ==> && allItems == old(allItems) && gamestate == old(gamestate)
                             && player.hasKey == old(player.hasKey) && player.lives == old(player.lives)
                             && k <= |allItems| && (j < 0 || k <= j)
        invariant found ==> && 0 <= j < |old(allItems)| && ItemIndexAt(allItems, player.x, player.y) < 0
                            && PickedUp(old(allItems), j, old(player.hasKey), old(player.lives), old(gamestate))
        decreases |old(allItems)| - k
      {
        if player.x == allItems[k].x && player.y == allItems[k].y {
          assert !found && j == k;
          PickUp(k);
          found := true;
        }
        k := k + 1;
      }
    }

    /**
     * The state after picking up the j-th item of items0, from a key flag,
     * lives and game state key0, lives0 and gs0: that item gone, and its
     * kind's effect applied.
     */
    ghost predicate PickedUp(items0: seq<Item>, j: nat, key0: bool, lives0: int, gs0: GameState)
      reads this`allItems, this`gamestate, this`player, player`hasKey, player`lives
      requires j < |items0|
    {
      var kind := items0[j].kind;
      && allItems == items0[..j] + items0[j + 1..]
      && player.hasKey == (key0 || kind == Key)
      && player.lives == (if kind == Heart && lives0 < player.maxLives then lives0 + 1 else lives0)
      && gamestate == if kind != Gem then gs0 else gs0.(score := gs0.score + if gs0.activeCheats.time then -50 else 50)
    }

    /** collectItems' visit of the item at k, which lies on the player's tile. */
    method PickUp(k: nat)
      requires ItemsValid() && k < |allItems| && allItems[k].x == player.x && allItems[k].y == player.y
      requires 1 <= player.lives <= player.maxLives
      modifies this`allItems, this`gamestate, player`hasKey, player`lives
      ensures ItemsValid() && 1 <= player.lives <= player.maxLives && gamestate.speed == old(gamestate.speed)
      ensures ItemIndexAt(allItems, player.x, player.y) < 0 && |allItems| == |old(allItems)| - 1
      ensures PickedUp(old(allItems), k, old(player.hasKey), old(player.lives), old(gamestate))
    {
      var item := allItems[k];
      if item.kind == Key {
        player.hasKey := true;
      } else if item.kind == Heart && player.lives < player.maxLives {
        player.lives := player.lives + 1;
      } else if item.kind == Gem {
        if gamestate.activeCheats.time {
          gamestate := gamestate.(score := gamestate.score - 50);
        } else {
          gamestate := gamestate.(score := gamestate.score + 50);
        }
      }
      DropItem(k);
    }

    /** collectItems' removeElement of the item at k: it goes, and no item is left on its tile. */
    method DropItem(k: nat)
      requires ItemsValid() && k < |allItems|
      modifies this`allItems
      ensures ItemsValid() && allItems == old(allItems)[..k] + old(allItems)[k + 1..]
      ensures ItemIndexAt(allItems, old(allItems)[k].x, old(allItems)[k].y) < 0
    {
      var item := allItems[k];
      RemoveItemAt(levelMap, allItems, k);
      NothingLeftUnder(allItems, k);
      allItems := RemoveElement(item, allItems);
    }

    /**
     * updateEntities' attack pass over the world's attacks: the attacks
     * passed over keep flying, and every attack updated to a standstill is
     * gone, so all attacks left are still flying.
     */
    method UpdateAttacks(dt: real) returns (ghost stopped: seq<bool>)
      requires AttacksValid() && dt >= 0.0 && gamestate.speed > 0
      modifies this`allAttacks, allAttacks
      ensures AttacksValid()
      ensures |stopped| == |old(allAttacks)| && allAttacks == Kept(old(allAttacks), stopped, |old(allAttacks)|)
      ensures var a := old(allAttacks);
              forall i | 0 <= i < |a| ::
                AttackDone(a[i].x, a[i].speed, Skipped(stopped, i), old(a[i].x), old(a[i].speed), dt, gamestate.speed, gamestate.paused)
    {
      ghost var a := allAttacks;
      var kept;
      kept, stopped := AttackPass(allAttacks, dt, gamestate.speed, gamestate.paused);
      forall j | 0 <= j < |kept| ensures kept[j].Valid() && kept[j].speed != 0 {
        KeptFrom(a, stopped, |a|, kept[j]);
        var i :| 0 <= i < |a| && a[i] == kept[j] && !Removed(stopped, i);
        assert AttackDone(a[i].x, a[i].speed, Skipped(stopped, i), old(a[i].x), old(a[i].speed), dt, gamestate.speed, gamestate.paused);
      }
      allAttacks := kept;
    }

    /** updateEntities' enemy pass over the world's enemies. */
    method UpdateEnemies(dt: real, wrapRows: nat -> nat)
      requires EnemiesValid() && dt >= 0.0 && gamestate.speed > 0
      modifies allEnemies
      ensures EnemiesValid()
      ensures forall i | 0 <= i < |allEnemies| && allEnemies[i].kind != Backtracker :: allEnemies[i].x <= X_RIGHT as real
      ensures gamestate.paused ==>
                forall i | 0 <= i < |allEnemies| && allEnemies[i].kind != Backtracker :: allEnemies[i].x == old(allEnemies[i].x)
      ensures EnemiesStepped(dt, wrapRows)
    {
      UpdateAll(allEnemies, dt, gamestate.speed, gamestate.paused, gamestate.activeCheats.cow, wrapRows);
    }

    /** Every enemy, on an unchanged list, where one Stepped frame of the world's speed, pause and cow cheat takes it from where it was. */
    twostate predicate EnemiesStepped(dt: real, wrapRows: nat -> nat)
      requires dt >= 0.0 && gamestate.speed > 0 && allEnemies == old(allEnemies)
      reads this`allEnemies, this`gamestate, allEnemies
    {
      forall i | 0 <= i < |old(allEnemies)| ::
        var e := old(allEnemies)[i];
        e.State() == Stepped(e.kind, e.width, old(e.State()), dt, gamestate.speed, gamestate.paused, gamestate.activeCheats.cow, wrapRows(i))
    }

    /** checkLevelCompletion: standing on the door finishes the level. */
    method CheckLevelCompletion(now: int, draws: LevelDraws)
      requires Valid() && DrawsOk(draws)
      modifies this, player
      ensures Valid()
      ensures var atDoor := old(player.x) == old(levelMap.end.x) && old(player.y) == old(levelMap.end.y);
              && (atDoor ==> LevelSetUp(now, draws))
              && (!atDoor ==> gamestate == old(gamestate) && levelMap == old(levelMap) && allEnemies == old(allEnemies)
                              && allItems == old(allItems) && allAttacks == old(allAttacks)
                              && player.x == old(player.x) && player.y == old(player.y))
      ensures player == old(player) && player.lives == old(player.lives)
    {
      if player.x == levelMap.end.x && player.y == levelMap.end.y {
        SetupNewLevel(now, draws);
      }
    }

    /**
     * update: one frame. updateEntities, then checkAllCollisions, then
     * collectItems and checkLevelCompletion, which a lost game skips. Every
     * frame keeps the world invariant, and one that does not lose the game
     * keeps the player and costs at most one life; a frame that costs a
     * life leaves the death dialog holding the game.
     */
    method Update(dt: real, now: int, draws: FrameDraws) returns (gameOver: bool)
      requires Valid() && dt >= 0.0 && DrawsOk(draws.level)
      modifies this, player, allEnemies, allAttacks
      ensures Valid()
      ensures gameOver ==> NewGameState(draws.level)
      ensures !gameOver ==> player == old(player) && old(player.lives) - 1 <= player.lives <= old(player.lives) + 1
      ensures !gameOver && player.lives < old(player.lives) ==> gamestate.paused
    {
      ghost var stopped := UpdateEntities(dt, now, draws.wrapRows);
      gameOver := Resolve(now, draws);
    }

    /** The rest of a frame once everything has moved: collisions, pick-ups, the door. */
    method Resolve(now: int, draws: FrameDraws) returns (gameOver: bool)
      requires Valid() && DrawsOk(draws.level)
      modifies this, player, allEnemies
      ensures Valid()
      ensures gameOver ==> NewGameState(draws.level)
      ensures !gameOver ==> player == old(player) && old(player.lives) - 1 <= player.lives <= old(player.lives) + 1
      ensures !gameOver && player.lives < old(player.lives) ==> gamestate.paused
    {
      ghost var es, ats := allEnemies, allAttacks;
      ghost var eb := seq(|es|, i requires 0 <= i < |es| && es[i].Valid() reads es => es[i].Bounds());
      ghost var ab := seq(|ats|, i requires 0 <= i < |ats| && ats[i].Valid() reads ats => ats[i].Bounds());
      ghost var drop;
      gameOver, drop := CheckAllCollisions(draws.restarts, now, draws.level, eb, ab);
      if !gameOver {
        CollectItems();
        CheckLevelCompletion(now, draws.level);
      }
    }

    /**
     * updateEntities: every enemy moves, the destroyed items go, and every
     * attack moves, those that stopped going. The player does not change.
     * `stopped` marks, in the order of the old list, the attacks that were
     * dropped.
     */
    method UpdateEntities(dt: real, now: int, wrapRows: nat -> nat) returns (ghost stopped: seq<bool>)
      requires Valid() && dt >= 0.0
      modifies allEnemies, this`allItems, this`allAttacks, allAttacks
      ensures Valid() && allEnemies == old(allEnemies) && EnemiesStepped(dt, wrapRows)
      ensures allItems == Kept(old(allItems), DestroyedFlags(old(allItems), now), |old(allItems)|)
      ensures |stopped| == |old(allAttacks)| && allAttacks == Kept(old(allAttacks), stopped, |old(allAttacks)|)
      ensures var a := old(allAttacks);
              forall i | 0 <= i < |a| ::
                AttackDone(a[i].x, a[i].speed, Skipped(stopped, i), old(a[i].x), old(a[i].speed), dt, gamestate.speed, gamestate.paused)
    {
      UpdateEnemies(dt, wrapRows);
      stopped := UpdateItemsAndAttacks(dt, now);
    }

    /** updateEntities' item and attack passes. */
    method UpdateItemsAndAttacks(dt: real, now: int) returns (ghost stopped: seq<bool>)
      requires Valid() && dt >= 0.0
      modifies this`allItems, this`allAttacks, allAttacks
      ensures Valid()
      ensures allItems == Kept(old(allItems), DestroyedFlags(old(allItems), now), |old(allItems)|)
      ensures |stopped| == |old(allAttacks)| && allAttacks == Kept(old(allAttacks), stopped, |old(allAttacks)|)
      ensures var a := old(allAttacks);
              forall i | 0 <= i < |a| ::
                AttackDone(a[i].x, a[i].speed, Skipped(stopped, i), old(a[i].x), old(a[i].speed), dt, gamestate.speed, gamestate.paused)
    {
      RemoveDestroyedItems(now);
      stopped := UpdateAttacks(dt);
    }

    /**
     * The state handleInput leaves from a game state g0, the player at
     * (x0, y0) and attacks a0. While a dialog holds the game nothing
     * changes. Otherwise the player moves as move decides (on every key:
     * the direction test is always true), 'p' raises the pause dialog and
     * in god mode 'c' the command prompt, and the key of an unlocked attack
     * fires it from the player's new position.
     */
    ghost predicate Handled(input: Input, g0: GameState, x0: int, y0: int, a0: seq<Attack>)
      reads this`gamestate, this`allAttacks, this`player, this`levelMap, player, allAttacks
    {
      if g0.paused then gamestate == g0 && player.x == x0 && player.y == y0 && allAttacks == a0
      else
        var shot := Shot(input, player.godMode, g0.activeCheats);
        && Moved(input, g0.activeCheats.time, x0, y0)
        && gamestate == g0.(paused := input == P || (player.godMode && input == C),
                            hadouken := g0.hadouken || shot == Some(HadoukenAttack))
        && Fired(shot, input, a0)
    }

    /** Where move leaves the player from (x0, y0): at the candidate position when allowed, else in place. */
    ghost predicate Moved(input: Input, timeCheat: bool, x0: int, y0: int)
      reads this`player, this`levelMap, player`x, player`y, player`hasKey
    {
      var target := Step(x0, y0, input, timeCheat);
      if MoveAllowed(levelMap, target, player.hasKey) then player.x == target.x && player.y == target.y
      else player.x == x0 && player.y == y0
    }

    /** move on the world's map, which keeps the player on a tile of it. */
    method MovePlayer(input: Input)
      requires Valid()
      modifies player`x, player`y
      ensures Valid() && Moved(input, gamestate.activeCheats.time, old(player.x), old(player.y))
    {
      player.Move(input, levelMap, gamestate.activeCheats.time);
    }

    /**
     * The attack list after handleInput's attack keys, from the list a0:
     * unchanged when nothing is shot, and otherwise the new attack of that
     * kind appended, at the player's position (a row higher for the
     * front-end attack) and flying left for 'a' and 'q'.
     */
    ghost predicate Fired(shot: Option<AttackKind>, input: Input, a0: seq<Attack>)
      reads this`allAttacks, this`player, player`x, player`y, allAttacks
    {
      if shot.None? then allAttacks == a0
      else
        && |allAttacks| == |a0| + 1 && allAttacks[..|a0|] == a0
        && allAttacks[|a0|].kind == shot.value && allAttacks[|a0|].x == player.x as real
        && allAttacks[|a0|].y == (if shot == Some(HadoukenAttack) then player.y else player.y - Y_STEP) as real
        && allAttacks[|a0|].speed == (if input == A || input == Q then -ATTACK_SPEED else ATTACK_SPEED)
    }

    /** Player.handleInput. */
    method HandleInput(input: Input)
      requires Valid()
      modifies this`gamestate, this`allAttacks, player`x, player`y
      ensures Valid() && Handled(input, old(gamestate), old(player.x), old(player.y), old(allAttacks))
      ensures |allAttacks| > |old(allAttacks)| ==> fresh(allAttacks[|old(allAttacks)|])
    {
      if !gamestate.paused {
        // `input === 'left' || 'right' || …` is always true: every key tries a move.
        MovePlayer(input);
        CommandKeys(input);
      }
    }

    /**
     * handleInput after the move: 'p' raises the pause dialog; in god mode
     * 'c' opens the command prompt, and the key of an unlocked attack fires it.
     */
    method CommandKeys(input: Input)
      requires Valid()
      modifies this`gamestate, this`allAttacks
      ensures Valid()
      ensures var shot := Shot(input, player.godMode, old(gamestate.activeCheats));
              && gamestate == old(gamestate).(paused := old(gamestate.paused) || input == P || (player.godMode && input == C),
                                              hadouken := old(gamestate.hadouken) || shot == Some(HadoukenAttack))
              && Fired(shot, input, old(allAttacks))
      ensures |allAttacks| > |old(allAttacks)| ==> fresh(allAttacks[|old(allAttacks)|])
    {
      if input == P {
        gamestate := gamestate.(paused := true);
      }
      if player.godMode {
        if input == C {
          // enterCommand: the prompt holds the game until AnswerCommand.
          gamestate := gamestate.(paused := true);
        }
        AttackKeys(input);
      }
    }

    /** handleInput's attack keys in god mode: the key of an unlocked attack fires it. */
    method AttackKeys(input: Input)
      requires Valid() && player.godMode
      modifies this`gamestate, this`allAttacks
      ensures Valid()
      ensures var shot := Shot(input, true, old(gamestate.activeCheats));
              && gamestate == old(gamestate).(hadouken := old(gamestate.hadouken) || shot == Some(HadoukenAttack))
              && Fired(shot, input, old(allAttacks))
      ensures |allAttacks| > |old(allAttacks)| ==> fresh(allAttacks[|old(allAttacks)|])
    {
      ghost var shot := Shot(input, true, gamestate.activeCheats);
      if gamestate.activeCheats.hadouken {
        if input == A || input == D {
          assert shot == Some(HadoukenAttack);
          gamestate := gamestate.(hadouken := true);
          var attack := new Attack.Hadouken(player.x, player.y, input == A);
          Launch(attack);
        }
      }
      if gamestate.activeCheats.udacity {
        if input == Q || input == E {
          assert shot == Some(FrontEndAttack);
          var attack := new Attack.FrontEnd(player.x, player.y, input == Q);
          Launch(attack);
        }
      }
    }

    /** `allAttacks.push(attack)` for a new, flying attack. */
    method Launch(attack: Attack)
      requires Valid() && attack.Valid() && attack.speed != 0 && attack !in allAttacks
      modifies this`allAttacks
      ensures Valid() && allAttacks == old(allAttacks) + [attack]
    {
      NoRepeatsAppend(allAttacks, attack);
      allAttacks := allAttacks + [attack];
    }

    /**
     * The keyup listener. Outside god mode the key code joins the buffer,
     * and a buffer that now holds the secret code unlocks god mode, empties
     * the buffer and raises its dialog, which swallows the key itself.
     * Then the key goes to handleInput.
     */
    method KeyUp(keyCode: nat)
      requires Valid()
      modifies this`keys, this`gamestate, this`allAttacks, player`x, player`y, player`godMode
      ensures Valid()
      ensures var unlock := !old(player.godMode) && Unlocks(old(keys) + [keyCode]);
              && player.godMode == (old(player.godMode) || unlock)
              && keys == (if old(player.godMode) || unlock then (if unlock then [] else old(keys)) else old(keys) + [keyCode])
              && (unlock ==> gamestate == old(gamestate).(paused := true) && allAttacks == old(allAttacks)
                             && player.x == old(player.x) && player.y == old(player.y))
              && (!unlock ==> Handled(AllowedKey(keyCode), old(gamestate), old(player.x), old(player.y), old(allAttacks)))
    {
      if !player.godMode {
        keys := keys + [keyCode];
        if Unlocks(keys) {
          player.godMode := true;
          gamestate := gamestate.(paused := true);
          keys := [];
        }
      }
      HandleInput(AllowedKey(keyCode));
    }

    /** handleInput's half-second timer: "HADOUKEN!!!" is no longer shown. */
    method EndHadoukenShout()
      requires Valid()
      modifies this`gamestate
      ensures Valid() && gamestate == old(gamestate).(hadouken := false)
    {
      gamestate := gamestate.(hadouken := false);
    }

    /** Dismissing a dialog that holds the game (pause, death, unlock or cheat message). */
    method Resume()
      requires Valid()
      modifies this`gamestate
      ensures Valid() && gamestate == old(gamestate).(paused := false)
    {
      gamestate := gamestate.(paused := false);
    }

    /**
     * The effect of a cheat from the game state g0 and the player's flags
     * inv0, uda0 and key0: its flag on, the time machine's level -1, the
     * invincible and udacious flags of the player, and the key the
     * udacious cheat hands over.
     */
    ghost predicate Cheated(c: Cheat, g0: GameState, inv0: bool, uda0: bool, key0: bool)
      reads this`gamestate, this`player, player`isInvincible, player`isUdacious, player`hasKey
    {
      && gamestate == g0.(activeCheats := CheatOn(g0.activeCheats, c), level := if c == TimeMachine then -1 else g0.level)
      && player.isInvincible == (inv0 || c == Invincible)
      && player.isUdacious == (uda0 || c == Udacious)
      && player.hasKey == (key0 || c == Udacious)
    }

    /** The functions of the cheats table, the time machine's after its dialog. */
    method ApplyCheat(c: Cheat)
      requires Valid()
      modifies this`gamestate, player`isInvincible, player`isUdacious, player`hasKey, set e | e in allEnemies
      ensures Valid() && allEnemies == old(allEnemies)
      ensures Cheated(c, old(gamestate), old(player.isInvincible), old(player.isUdacious), old(player.hasKey))
      ensures c == CowLevel ==> forall i | 0 <= i < |allEnemies| :: allEnemies[i].sprite == Cow
    {
      match c {
        case CowLevel =>
          gamestate := gamestate.(activeCheats := gamestate.activeCheats.(cow := true));
          DressAsCows(allEnemies);
        case Invincible =>
          gamestate := gamestate.(activeCheats := gamestate.activeCheats.(invincible := true));
          player.isInvincible := true;
        case StreetFighter =>
          gamestate := gamestate.(activeCheats := gamestate.activeCheats.(hadouken := true));
        case Udacious =>
          gamestate := gamestate.(activeCheats := gamestate.activeCheats.(udacity := true));
          player.isUdacious := true;
          player.hasKey := true;
        case TimeMachine =>
          gamestate := gamestate.(activeCheats := gamestate.activeCheats.(time := true), level := -1);
      }
    }

    /**
     * The command prompt's answer (None when cancelled): a command of the
     * cheats table takes effect and its message holds the game until
     * dismissed; anything else lets the game go on.
     */
    method AnswerCommand(command: Option<string>)
      requires Valid()
      modifies this`gamestate, player`isInvincible, player`isUdacious, player`hasKey, set e | e in allEnemies
      ensures Valid() && allEnemies == old(allEnemies)
      ensures var cheat := if command.Some? then CheatFor(command.value) else None;
              && (cheat.None? ==> gamestate == old(gamestate).(paused := false) && player.isInvincible == old(player.isInvincible)
                                  && player.isUdacious == old(player.isUdacious) && player.hasKey == old(player.hasKey))
              && (cheat.Some? ==> Cheated(cheat.value, old(gamestate), old(player.isInvincible), old(player.isUdacious), old(player.hasKey)))
    {
      if command.Some? {
        var cheat := CheatFor(command.value);
        if cheat.Some? {
          ApplyCheat(cheat.value);
        } else {
          gamestate := gamestate.(paused := false);
        }
      } else {
        gamestate := gamestate.(paused := false);
      }
    }

    /**
     * The state resetGame leaves once its dialog is dismissed: a new game
     * state, a level-1 map built from the draws, a new player with 3 lives
     * at its start, and the level's enemies and items.
     */
    ghost predicate NewGameState(draws: LevelDraws)
      reads this, player, allEnemies, allAttacks
    {
      && Valid()
      && gamestate == NEW_GAME
      && StartCol(levelMap) == RandInt(1, 4, draws.start) && EndCol(levelMap) == RandInt(1, 4, draws.end) && levelMap.rocks == []
      && player.x == levelMap.start.x && player.y == levelMap.start.y && player.lives == 3
      && !player.hasKey && !player.godMode && !player.isInvincible && !player.isUdacious
      && |allEnemies| == EnemyCount(1)
      && |allItems| == 2 && allItems[0].kind == Key && allItems[1].kind == Gem
    }

    /** The same player, level, clock and key buffer, and the player's key and cheat flags as they were. */
    twostate predicate SameLevelAndPlayer()
      reads this`player, this`levelMap, this`allItems, this`allAttacks, this`keys, this`levelStartTime, player
    {
      && player == old(player) && levelMap == old(levelMap) && allItems == old(allItems) && allAttacks == old(allAttacks)
      && keys == old(keys) && levelStartTime == old(levelStartTime)
      && player.hasKey == old(player.hasKey) && player.godMode == old(player.godMode)
      && player.isInvincible == old(player.isInvincible) && player.isUdacious == old(player.isUdacious)
    }

    /**
     * checkAllCollisions, with the boxes eb of the enemies and ab of the
     * attacks as it begins: the enemy pass, then the water test. The game
     * is lost when the last life goes, to an enemy met without a cheat or
     * to water without the udacious cheat. Otherwise at most one life is
     * lost, for one of those reasons, with the death dialog holding the
     * game; and while no life is lost the enemies left are those the
     * traversal kept, each visited one removed exactly when Struck.
     */
    method CheckAllCollisions(restarts: nat -> EnemyDraw, now: int, draws: LevelDraws, ghost eb: seq<Box>, ghost ab: seq<Box>)
        returns (gameOver: bool, ghost drop: seq<bool>)
      requires Valid() && DrawsOk(draws) && EnemyBoxesAre(allEnemies, eb) && AttackBoxesAre(allAttacks, ab)
      modifies this, player, set x | x in allEnemies
      ensures Valid() && |drop| == |old(allEnemies)|
      ensures var enemyDeath := !old(Protected(player)) && MeetsAny(old(player.Bounds()), eb);
              var drowned := !old(player.isUdacious) && IsWater(old(levelMap), old(player.x), old(player.y));
              && (gameOver ==> NewGameState(draws) && old(player.lives) == 1 && (enemyDeath || drowned))
              && (!gameOver ==> SameLevelAndPlayer() && old(player.lives) - 1 <= player.lives <= old(player.lives))
              && (!gameOver && player.lives < old(player.lives) ==>
                    gamestate == old(gamestate).(paused := true) && player.x == levelMap.start.x && player.y == levelMap.start.y
                    && (enemyDeath || drowned))
              && (!gameOver && player.lives == old(player.lives) ==>
                    gamestate == old(gamestate) && player.x == old(player.x) && player.y == old(player.y) && !drowned
                    && allEnemies == Kept(old(allEnemies), drop, |drop|)
                    && Verdicts(drop, eb, old(player.Bounds()), Protected(player), ab))
    {
      ghost var lost;
      gameOver, lost, drop := EnemyCollisions(restarts, now, draws, eb, ab, player.Bounds(), Protected(player));
      if !gameOver {
        StartAndDoorAreStone(levelMap);
        gameOver := WaterCollision(restarts, now, draws);
      }
    }

    /**
     * The enemy half of checkAllCollisions, with pb and prot the player's
     * box and cheat protection as it begins: the game reset when the pass
     * ends the game, and otherwise the outcome of InstallPass.
     */
    method EnemyCollisions(restarts: nat -> EnemyDraw, now: int, draws: LevelDraws, ghost eb: seq<Box>, ghost ab: seq<Box>,
                           ghost pb: Box, ghost prot: bool)
        returns (gameOver: bool, ghost lost: bool, ghost drop: seq<bool>)
      requires Valid() && DrawsOk(draws) && EnemyBoxesAre(allEnemies, eb) && AttackBoxesAre(allAttacks, ab)
      requires pb == player.Bounds() && prot == Protected(player)
      modifies this, player`x, player`y, player`lives, set x | x in allEnemies
      ensures Valid() && |drop| == |old(allEnemies)|
      ensures gameOver ==> NewGameState(draws) && old(player.lives) == 1 && !prot && MeetsAny(pb, eb)
      ensures !gameOver ==> SameLevelAndPlayer() && forall x | x in allEnemies :: x in old(allEnemies)
      ensures !gameOver && lost ==>
                && player.lives == old(player.lives) - 1 && gamestate == old(gamestate).(paused := true)
                && player.x == levelMap.start.x && player.y == levelMap.start.y && !prot && MeetsAny(pb, eb)
      ensures !gameOver && !lost ==>
                && player.lives == old(player.lives) && gamestate == old(gamestate)
                && player.x == old(player.x) && player.y == old(player.y)
                && allEnemies == Kept(old(allEnemies), drop, |drop|) && Verdicts(drop, eb, pb, prot, ab)
    {
      var livesBefore := player.lives;
      gameOver, lost, drop := InstallPass(restarts, eb, ab, pb, prot);
      if gameOver {
        ResetGame(now, draws);
      } else if player.lives != livesBefore {
        gamestate := gamestate.(paused := true);
      }
    }

    /**
     * The enemy pass run on the world: when it does not end the game, the
     * enemies it kept replace the list.
     */
    method InstallPass(restarts: nat -> EnemyDraw, ghost eb: seq<Box>, ghost ab: seq<Box>, ghost pb: Box, ghost prot: bool)
        returns (gameOver: bool, ghost lost: bool, ghost drop: seq<bool>)
      requires Valid() && EnemyBoxesAre(allEnemies, eb) && AttackBoxesAre(allAttacks, ab)
      requires pb == player.Bounds() && prot == Protected(player)
      modifies this`allEnemies, player`x, player`y, player`lives, allEnemies
      ensures |drop| == |old(allEnemies)| && AttacksValid()
      ensures gameOver ==> old(player.lives) == 1 && !prot && MeetsAny(pb, eb)
      ensures !gameOver ==> Valid() && forall x | x in allEnemies :: x in old(allEnemies)
      ensures !gameOver && lost ==>
                && player.lives == old(player.lives) - 1
                && player.x == levelMap.start.x && player.y == levelMap.start.y && !prot && MeetsAny(pb, eb)
      ensures !gameOver && !lost ==>
                && player.lives == old(player.lives) && player.x == old(player.x) && player.y == old(player.y)
                && allEnemies == Kept(old(allEnemies), drop, |drop|) && Verdicts(drop, eb, pb, prot, ab)
    {
      var kept;
      gameOver, kept, lost, drop := EnemyPass(player, levelMap, allEnemies, allAttacks, gamestate.activeCheats.cow, restarts, eb, ab);
      if gameOver {
        return;
      }
      StartAndDoorAreStone(levelMap);
      allEnemies := kept;
    }

    /**
     * The water half of checkAllCollisions: on a water tile without the
     * udacious cheat the player drowns, which ends the game on the last
     * life and otherwise costs one life as resetLevel does.
     */
    method WaterCollision(restarts: nat -> EnemyDraw, now: int, draws: LevelDraws) returns (gameOver: bool)
      requires Valid() && DrawsOk(draws)
      modifies this, player`x, player`y, player`lives, allEnemies
      ensures Valid()
      ensures var drowned := !old(player.isUdacious) && IsWater(old(levelMap), old(player.x), old(player.y));
              && gameOver == (drowned && old(player.lives) == 1)
              && (gameOver ==> NewGameState(draws))
              && (!gameOver ==> SameLevelAndPlayer() && allEnemies == old(allEnemies))
              && (!drowned ==> player.lives == old(player.lives) && gamestate == old(gamestate)
                               && player.x == old(player.x) && player.y == old(player.y))
              && (drowned && !gameOver ==> player.lives == old(player.lives) - 1 && gamestate == old(gamestate).(paused := true)
                                           && player.x == levelMap.start.x && player.y == levelMap.start.y)
    {
      gameOver := false;
      var water := WaterUnder(levelMap, player.x, player.y);
      if water && !player.isUdacious {
        if player.lives - 1 == 0 {
          ResetGame(now, draws);
          gameOver := true;
        } else {
          ResetLevel(restarts);
        }
      }
    }

  }
}
