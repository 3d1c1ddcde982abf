/**
 * The game state record and the tick. `Game` holds what the source keeps
 * in module-level variables; its methods are `startGame`,
 * `handlePlayerHit`, `handleCollisions` and the phases of `update`. Each
 * pass and phase states its whole effect in terms of the specification
 * functions of the other modules; the methods that only sequence them
 * (`HandleCollisions`, `StrikeDefences`, `Resolve`, `Advance`,
 * `AdvanceShots` and `Update`) state the invariant and the facts it
 * guarantees across the tick rather than their whole new state.
 */
module Game {
  import opened Basics
  import opened Geometry
  import opened Entities
  import opened Chance
  import opened Level
  import opened Ageing
  import opened Collisions
  import opened LifeCycle
  import opened Fleet
  import opened Ship

  /** The three input intents, sampled once per tick. */
  datatype Input = Input(left: bool, right: bool, fire: bool)

  /** The `Math.random()` values one tick may use, each in `[0, 1)`. */
  datatype Rolls = Rolls(fire: real, shooter: real, bonus: real, frames: real)

  predicate RollsInRange(r: Rolls)
  {
    0.0 <= r.fire < 1.0 && 0.0 <= r.shooter < 1.0 && 0.0 <= r.bonus < 1.0 && 0.0 <= r.frames < 1.0
  }

  /** Probability per tick that some enemy fires. */
  const FireChance: real := 0.02

  /**
   * The enemy fire of one tick: when `fireRoll` is under `FireChance` and
   * some enemy is alive, the living enemy that `shooterRoll` picks fires.
   */
  function Volley(bullets: seq<Bullet>, enemies: seq<Enemy>, fireRoll: real, shooterRoll: real): (r: seq<Bullet>)
    requires 0.0 <= shooterRoll < 1.0
    ensures fireRoll >= FireChance || CountAlive(enemies) == 0 ==> r == bullets
    ensures fireRoll < FireChance && CountAlive(enemies) > 0 ==> |r| == |bullets| + 1
    ensures r != bullets ==> exists e :: e in enemies && e.alive && r == bullets + [EnemyShot(e)]
  {
    var shooters := AliveEnemies(enemies);
    if fireRoll < FireChance && |shooters| > 0 then bullets + [EnemyShot(shooters[PickIndex(shooterRoll, |shooters|)])]
    else bullets
  }

  /** The ship `spawnMystery` creates: off-screen left, faster each wave. */
  function MysteryShipFor(wave: nat): (m: Mystery)
    ensures m.x + m.width < 0.0 && m.speed >= 2.0
  {
    Mystery(-50.0, 20.0, 40.0, 16.0, 2.0 + wave as real * 0.2)
  }

  /** The mystery ship after `dt` ticks of flight to the right. */
  function Flown(m: Mystery, dt: real): Mystery
  {
    m.(x := m.x + m.speed * dt)
  }

  /** The mystery-ship scheduler: the ship in flight, the countdown, and whether its tone plays. */
  datatype Scheduler = Scheduler(ship: Option<Mystery>, timer: int, sounding: bool)

  /** Without a ship the countdown is running; the tone plays only while a ship flies. */
  predicate Scheduled(s: Scheduler)
  {
    (s.ship.None? ==> s.timer >= 1) && (s.sounding ==> s.ship.Some?)
  }

  /**
   * One tick of the scheduler: count down and spawn this wave's ship at zero,
   * or fly the ship and retire it, with a fresh countdown, once past the right edge.
   */
  function SchedulerStep(s: Scheduler, wave: nat, dt: real, framesRoll: real): (r: Scheduler)
    requires 0.0 <= framesRoll < 1.0
    ensures Scheduled(s) ==> Scheduled(r)
    ensures s.ship.None? && r.ship.Some? ==> r.ship.value == MysteryShipFor(wave) && r.sounding
    ensures s.ship.Some? && r.ship.None? ==> 1200 <= r.timer <= 2399 && !r.sounding
    ensures s.ship.Some? && r.ship.Some? ==> r.ship.value.x > s.ship.value.x || s.ship.value.speed * dt <= 0.0
  {
    match s.ship
    case None =>
      if s.timer - 1 <= 0 then Scheduler(Some(MysteryShipFor(wave)), s.timer - 1, true)
      else s.(timer := s.timer - 1)
    case Some(m) =>
      var m' := Flown(m, dt);
      if m'.x > GameW then Scheduler(None, MysteryFrames(framesRoll), false) else s.(ship := Some(m'))
  }

  /** The explosion a shot-down mystery ship leaves, if any. */
  function HitBlast(hit: Option<Bullet>): (r: seq<Explosion>)
    ensures |r| == if hit.Some? then 1 else 0
  {
    if hit.Some? then [Blast(hit.value.x, hit.value.y)] else []
  }

  /** The bonus popup a shot-down mystery ship leaves, if any. */
  function HitPopup(hit: Option<Bullet>, bonus: int): (r: seq<Popup>)
    ensures |r| == if hit.Some? then 1 else 0
  {
    if hit.Some? then [Popup(hit.value.x, hit.value.y, bonus, 0)] else []
  }

  /** Formation speed of a wave. */
  function EnemySpeed(wave: nat): real
  {
    1.0 + (wave as real - 1.0) * 0.5
  }

  function Repeat(e: Explosion, n: nat): (r: seq<Explosion>)
    ensures |r| == n && forall i :: 0 <= i < n ==> r[i] == e
  {
    if n == 0 then [] else Repeat(e, n - 1) + [e]
  }

  // ---------------------------------------------------------------------
  // The breach check: a living enemy reaching the player's row dies and hits the player.

  predicate Breaches(e: Enemy, playerY: real)
  {
    e.alive && e.y + e.height >= playerY
  }

  function BreachBlast(e: Enemy): Explosion
  {
    Blast(e.x + e.width / 2.0, e.y + e.height / 2.0)
  }

  datatype Breach = Breach(enemies: seq<Enemy>, life: LifeState, blasts: seq<Explosion>)

  /** The breach loop over the first `n` enemies. */
  function BreachFold(es: seq<Enemy>, playerY: real, l: LifeState, score: int, n: nat): (b: Breach)
    requires n <= |es|
    ensures |b.enemies| == |es|
    decreases n
  {
    if n == 0 then Breach(es, l, [])
    else
      var o := BreachFold(es, playerY, l, score, n - 1);
      var e := es[n - 1];
      if Breaches(e, playerY) then
        Breach(o.enemies[n - 1 := e.(alive := false)], Hit(o.life, score),
               o.blasts + if o.life.gameOver then [] else [BreachBlast(e)])
      else o
  }

  /** Number of enemies among the first `n` that reach the player's row. */
  function CountBreaches(es: seq<Enemy>, playerY: real, n: nat): (k: nat)
    requires n <= |es|
    ensures k <= n
    decreases n
  {
    if n == 0 then 0 else CountBreaches(es, playerY, n - 1) + if Breaches(es[n - 1], playerY) then 1 else 0
  }

  /**
   * The breach loop kills exactly the living enemies at or below the
   * player's row, and each of them hits the player once.
   */
  lemma {:induction false} BreachAccounting(es: seq<Enemy>, playerY: real, l: LifeState, score: int, n: nat)
    requires n <= |es|
    ensures var b := BreachFold(es, playerY, l, score, n);
      && (forall j :: 0 <= j < |es| ==>
            b.enemies[j] == if j < n && Breaches(es[j], playerY) then es[j].(alive := false) else es[j])
      && b.life == Hits(l, score, CountBreaches(es, playerY, n))
      && |b.blasts| == Registered(l, score, CountBreaches(es, playerY, n))
    decreases n
  {
    if n > 0 {
      BreachAccounting(es, playerY, l, score, n - 1);
    }
  }

  class Game {
    var player: Player
    var enemies: seq<Enemy>
    var enemyBullets: seq<Bullet>
    var shields: seq<Block>
    var explosions: seq<Explosion>
    var popups: seq<Popup>
    var score: int
    var lives: int
    var highscore: int
    var lastscore: int
    var gameOver: bool
    var wave: nat
    var enemySpeed: real
    var enemyDirection: int
    var mystery: Option<Mystery>
    var mysteryTimer: int
    /** Whether the looping mystery-ship tone (`ufoOsc`) is playing. */
    var ufoSounding: bool
    var dropCooldown: int

    /** The invariant every tick keeps, one part per concern. */
    ghost predicate Valid()
      reads this, player
    {
      ScoreOk() && LivesOk() && WaveOk() && FleetOk() && MysteryOk() && ShipOk()
    }

    /** The high score is never below the score, and the score is never negative. */
    ghost predicate ScoreOk()
      reads this`score, this`highscore
    {
      0 <= score <= highscore
    }

    /** At most three lives; the game is over exactly when none are left. */
    ghost predicate LivesOk()
      reads this`lives, this`gameOver, this`player, player`blink
    {
      0 <= lives <= 3 && (gameOver <==> lives == 0) && 0 <= player.blink <= BlinkTicks
    }

    /** The formation speed is the one of the current wave. */
    ghost predicate WaveOk()
      reads this`wave, this`enemySpeed
    {
      wave >= 1 && enemySpeed == EnemySpeed(wave)
    }

    ghost predicate FleetOk()
      reads this`enemyDirection, this`dropCooldown
    {
      (enemyDirection == 1 || enemyDirection == -1) && 0 <= dropCooldown <= DropCooldownTicks
    }

    /** Without a ship the countdown is running; the tone plays only while a ship flies. */
    ghost predicate MysteryOk()
      reads this`mystery, this`mysteryTimer, this`ufoSounding
    {
      Scheduled(Schedule())
    }

    ghost predicate ShipOk()
      reads this`player, player`cooldown
    {
      0 <= player.cooldown <= FireCooldownTicks
    }

    /** The part of the state the mystery-ship scheduler governs. */
    function Schedule(): Scheduler
      reads this`mystery, this`mysteryTimer, this`ufoSounding
    {
      Scheduler(mystery, mysteryTimer, ufoSounding)
    }

    /** The part of the state `handlePlayerHit` governs. */
    function Life(): LifeState
      reads this`lives, this`gameOver, this`lastscore, this`ufoSounding, this`player, player`blink
    {
      LifeState(lives, gameOver, player.blink, lastscore, ufoSounding)
    }

    /** Page load (stored scores) followed by `startGame`. */
    constructor (storedHighscore: nat, storedLastscore: int, framesRoll: real)
      requires 0.0 <= framesRoll < 1.0
      ensures Valid() && player.AtStart()
      ensures !gameOver && score == 0 && lives == 3 && highscore == storedHighscore && lastscore == storedLastscore
      ensures wave == 1 && enemySpeed == 1.0 && enemyDirection == 1 && dropCooldown == 0
      ensures mystery.None? && mysteryTimer == MysteryFrames(framesRoll) && !ufoSounding
      ensures enemies == EnemyGrid(1) && shields == Shields()
      ensures enemyBullets == [] && explosions == [] && popups == []
    {
      player := new Player();
      enemies, enemyBullets, shields, explosions, popups := [], [], [], [], [];
      score, lives, highscore, lastscore := 0, 3, storedHighscore, storedLastscore;
      gameOver, wave, enemySpeed, enemyDirection := false, 1, 1.0, 1;
      mystery, mysteryTimer, ufoSounding, dropCooldown := None, 1, false, 0;
      new;
      StartGame(framesRoll);
    }

    /**
     * `startGame`: silence the mystery tone and reset everything but the last
     * score and the high score. The high score is re-read from storage, which
     * only ever holds the value this game last gave it.
     */
    method StartGame(framesRoll: real)
      requires 0.0 <= framesRoll < 1.0 && 0 <= highscore
      modifies this
      ensures Valid() && fresh(player)
      ensures !gameOver && score == 0 && lives == 3 && highscore == old(highscore) && lastscore == old(lastscore)
      ensures wave == 1 && enemySpeed == 1.0 && enemyDirection == 1 && dropCooldown == 0
      ensures mystery.None? && mysteryTimer == MysteryFrames(framesRoll) && !ufoSounding
      ensures player.AtStart()
      ensures enemies == EnemyGrid(1) && shields == Shields()
      ensures enemyBullets == [] && explosions == [] && popups == []
    {
      ResetRound(framesRoll);
      player := new Player();
      SetUpWave(1);
    }

    /** The counters, flags and lists `startGame` resets. */
    method ResetRound(framesRoll: real)
      requires 0.0 <= framesRoll < 1.0
      modifies this`gameOver, this`score, this`lives, this`enemyDirection, this`dropCooldown
      modifies this`mystery, this`mysteryTimer, this`ufoSounding, this`enemyBullets, this`explosions, this`popups
      ensures !gameOver && score == 0 && lives == 3
      ensures enemyDirection == 1 && dropCooldown == 0
      ensures mystery.None? && mysteryTimer == MysteryFrames(framesRoll) && !ufoSounding
      ensures enemyBullets == [] && explosions == [] && popups == []
    {
      gameOver, score, lives := false, 0, 3;
      enemyDirection, dropCooldown := 1, 0;
      mystery, mysteryTimer, ufoSounding := None, MysteryFrames(framesRoll), false;
      enemyBullets, explosions, popups := [], [], [];
    }

    /** Set wave `w` up: its speed, a fresh `createEnemies` grid and fresh `createShields` shields. */
    method SetUpWave(w: nat)
      modifies this`wave, this`enemySpeed, this`enemies, this`shields
      ensures wave == w && enemySpeed == EnemySpeed(w) && enemies == EnemyGrid(w) && shields == Shields()
    {
      wave := w;
      enemySpeed := EnemySpeed(w);
      enemies := EnemyGrid(w);
      shields := Shields();
    }

    /** `handlePlayerHit`: ignored once the game is over; otherwise an explosion and `Hit`. */
    method HandlePlayerHit(x: real, y: real)
      modifies this`lives, this`gameOver, this`lastscore, this`ufoSounding, this`explosions, player`blink
      ensures Life() == Hit(old(Life()), score)
      ensures explosions == old(explosions) + if old(gameOver) then [] else [Blast(x, y)]
    {
      if gameOver {
        return;
      }
      explosions := explosions + [Blast(x, y)];
      lives := if 0 > lives - 1 then 0 else lives - 1;
      player.blink := BlinkTicks;
      if lives == 0 {
        gameOver := true;
        ufoSounding := false;
        lastscore := score;
      }
    }

    /** `n` enemy bullets struck the player in one pass; each calls `handlePlayerHit` at the ship's top centre. */
    method ApplyPlayerHits(n: nat)
      requires LivesOk() && MysteryOk()
      modifies this`lives, this`gameOver, this`lastscore, this`ufoSounding, this`explosions, player`blink
      ensures LivesOk() && MysteryOk() && lives <= old(lives)
      ensures Life() == Hits(old(Life()), score, n)
      ensures explosions == old(explosions) + Repeat(Blast(player.x + player.width / 2.0, player.y), Registered(old(Life()), score, n))
      ensures !old(gameOver) && gameOver ==> lastscore == score && !ufoSounding
      ensures old(gameOver) ==> Life() == old(Life())
    {
      ghost var l0, ex0 := Life(), explosions;
      var h := 0;
      while h < n
        invariant 0 <= h <= n
        invariant Life() == Hits(l0, score, h)
        invariant explosions == ex0 + Repeat(Blast(player.x + player.width / 2.0, player.y), Registered(l0, score, h))
      {
        HandlePlayerHit(player.x + player.width / 2.0, player.y);
        h := h + 1;
      }
      LivesAfterHits(l0, n);
    }

    /** What `Valid` needs about any run of hits from a valid state. */
    lemma LivesAfterHits(l0: LifeState, n: nat)
      requires 0 <= l0.lives <= 3 && (l0.gameOver <==> l0.lives == 0) && 0 <= l0.blink <= BlinkTicks
      requires Life() == Hits(l0, score, n)
      ensures 0 <= lives <= l0.lives && (gameOver <==> lives == 0) && 0 <= player.blink <= BlinkTicks
      ensures !l0.gameOver && gameOver ==> lastscore == score && !ufoSounding
      ensures l0.gameOver ==> Life() == l0
      ensures ufoSounding ==> l0.ufoSounding
      ensures !gameOver ==> lastscore == l0.lastscore
    {
      if l0.gameOver {
        GameOverLatch(l0, score, n);
      } else {
        RepeatedHits(l0, score, n);
        if n > 0 {
          assert Hits(l0, score, n) == Hit(Hits(l0, score, n - 1), score);
          RepeatedHits(l0, score, n - 1);
        }
      }
    }

    /** The mystery-ship countdown, spawn, traverse and despawn. */
    method TickMystery(dt: real, framesRoll: real)
      requires MysteryOk() && 0.0 <= framesRoll < 1.0
      modifies this`mystery, this`mysteryTimer, this`ufoSounding
      ensures MysteryOk()
      ensures Schedule() == SchedulerStep(old(Schedule()), wave, dt, framesRoll)
      ensures old(mystery).None? ==>
        && mysteryTimer == old(mysteryTimer) - 1
        && (mysteryTimer <= 0 ==> mystery == Some(MysteryShipFor(wave)) && ufoSounding)
        && (mysteryTimer > 0 ==> mystery.None? && ufoSounding == old(ufoSounding))
      ensures old(mystery).Some? ==>
        var m' := Flown(old(mystery).value, dt);
        if m'.x > GameW then mystery.None? && mysteryTimer == MysteryFrames(framesRoll) && !ufoSounding
        else mystery == Some(m') && mysteryTimer == old(mysteryTimer) && ufoSounding == old(ufoSounding)
    {
      if mystery.None? {
        mysteryTimer := mysteryTimer - 1;
        if mysteryTimer <= 0 {
          mystery := Some(MysteryShipFor(wave));
          ufoSounding := true;
        }
      } else {
        var m' := Flown(mystery.value, dt);
        mystery := Some(m');
        if m'.x > GameW {
          mystery := None;
          mysteryTimer := MysteryFrames(framesRoll);
          ufoSounding := false;
        }
      }
    }

    /** Formation sweep; a drop (reverse, every enemy down 10, cooldown 10) when due. */
    method FleetTick(dt: real)
      requires FleetOk()
      modifies this`enemies, this`enemyDirection, this`dropCooldown
      ensures FleetOk()
      ensures Formation(enemies, enemyDirection, dropCooldown)
        == FleetStep(old(Formation(enemies, enemyDirection, dropCooldown)), enemySpeed, dt)
    {
      if dropCooldown > 0 {
        dropCooldown := dropCooldown - 1;
      }
      var moved, needDrop := MoveFleet(enemies, SweepOffset(enemyDirection, enemySpeed, dt));
      enemies := moved;
      if needDrop && dropCooldown == 0 {
        enemyDirection := -enemyDirection;
        enemies := DropFleet(enemies);
        dropCooldown := DropCooldownTicks;
      }
    }

    /** With probability `FireChance`, a uniformly chosen living enemy fires. */
    method EnemyFire(fireRoll: real, shooterRoll: real)
      requires 0.0 <= shooterRoll < 1.0
      modifies this`enemyBullets
      ensures enemyBullets == Volley(old(enemyBullets), enemies, fireRoll, shooterRoll)
    {
      if fireRoll < FireChance {
        var shooters := AliveEnemies(enemies);
        if |shooters| > 0 {
          enemyBullets := enemyBullets + [EnemyShot(shooters[PickIndex(shooterRoll, |shooters|)])];
        }
      }
    }

    /** Bullets fly and explosions age, each list by `forEach` with `splice`. */
    method AgeEntities(dt: real)
      modifies player`bullets, this`enemyBullets, this`explosions
      ensures player.bullets == Sweep(old(player.bullets), RisePlayerBullet(dt), AbovePlayfield)
      ensures enemyBullets == Sweep(old(enemyBullets), FallEnemyBullet(dt), BelowPlayfield)
      ensures explosions == Sweep(old(explosions), AgeExplosion, ExplosionOver)
    {
      player.bullets := SweepInPlace(player.bullets, RisePlayerBullet(dt), AbovePlayfield);
      enemyBullets := SweepInPlace(enemyBullets, FallEnemyBullet(dt), BelowPlayfield);
      explosions := SweepInPlace(explosions, AgeExplosion, ExplosionOver);
    }

    /** `handleCollisions`, pass 1: the first player bullet overlapping the mystery ship destroys it. */
    method StrikeMystery(bonusRoll: real, framesRoll: real)
      requires ScoreOk() && MysteryOk() && 0.0 <= bonusRoll < 1.0 && 0.0 <= framesRoll < 1.0
      modifies this`score, this`highscore, this`mystery, this`mysteryTimer, this`ufoSounding
      modifies this`popups, this`explosions, player`bullets
      ensures ScoreOk() && MysteryOk()
      ensures var m := MysteryFold(old(player.bullets), old(mystery));
        var bonus := if m.hit.Some? then Bonus(bonusRoll) else 0;
        && player.bullets == m.survivors && mystery == m.ship
        && score == old(score) + bonus
        && highscore == (if score > old(highscore) then score else old(highscore))
        && mysteryTimer == (if m.hit.Some? then MysteryFrames(framesRoll) else old(mysteryTimer))
        && ufoSounding == (m.hit.None? && old(ufoSounding))
        && popups == old(popups) + HitPopup(m.hit, bonus)
        && explosions == old(explosions) + HitBlast(m.hit)
    {
      MysteryPassShip(player.bullets, mystery);
      var survivors, ship, hit := ResolveMysteryHits(player.bullets, mystery);
      player.bullets := survivors;
      if hit.Some? {
        AwardMystery(hit.value, bonusRoll, framesRoll);
      }
    }

    /** The mystery ship is shot down by `b`: bonus points, popup, explosion, countdown restarted, tone off. */
    method AwardMystery(b: Bullet, bonusRoll: real, framesRoll: real)
      requires ScoreOk() && 0.0 <= bonusRoll < 1.0 && 0.0 <= framesRoll < 1.0
      modifies this`score, this`highscore, this`mystery, this`mysteryTimer, this`ufoSounding, this`popups, this`explosions
      ensures ScoreOk() && MysteryOk()
      ensures score == old(score) + Bonus(bonusRoll)
      ensures highscore == (if score > old(highscore) then score else old(highscore))
      ensures mystery.None? && mysteryTimer == MysteryFrames(framesRoll) && !ufoSounding
      ensures popups == old(popups) + [Popup(b.x, b.y, Bonus(bonusRoll), 0)]
      ensures explosions == old(explosions) + [Blast(b.x, b.y)]
    {
      var bonus := Bonus(bonusRoll);
      AddScore(bonus);
      popups, explosions := popups + [Popup(b.x, b.y, bonus, 0)], explosions + [Blast(b.x, b.y)];
      mystery, mysteryTimer, ufoSounding := None, MysteryFrames(framesRoll), false;
    }

    /** Points scored; the high score follows the score upwards. */
    method AddScore(points: nat)
      requires ScoreOk()
      modifies this`score, this`highscore
      ensures score == old(score) + points && highscore == (if score > old(highscore) then score else old(highscore))
      ensures ScoreOk()
    {
      score := score + points;
      if score > highscore {
        highscore := score;
      }
    }

    /** `handleCollisions`, pass 2: each player bullet kills the first living enemy it overlaps, for 10 points. */
    method StrikeEnemies()
      requires ScoreOk()
      modifies this`score, this`highscore, this`enemies, this`explosions, player`bullets
      ensures ScoreOk()
      ensures var e := EnemyFold(old(player.bullets), old(enemies));
        && player.bullets == e.survivors && enemies == e.enemies
        && score == old(score) + 10 * |e.spent|
        && highscore == (if score > old(highscore) then score else old(highscore))
        && explosions == old(explosions) + Blasts(e.spent)
    {
      var survivors, es, spent := ResolveEnemyHits(player.bullets, enemies);
      AddScore(10 * |spent|);
      player.bullets := survivors;
      enemies, explosions := es, explosions + Blasts(spent);
    }

    /** `handleCollisions`, pass 3: every enemy bullet overlapping the ship is spent and hits the player. */
    method StrikePlayer()
      requires LivesOk() && MysteryOk()
      modifies this`enemyBullets, this`lives, this`gameOver, this`lastscore, this`ufoSounding, this`explosions, player`blink
      ensures LivesOk() && MysteryOk() && lives <= old(lives)
      ensures !old(gameOver) && gameOver ==> lastscore == score && !ufoSounding
      ensures old(gameOver) ==> Life() == old(Life())
      ensures var p := PlayerFold(old(enemyBullets), player.Box());
        && enemyBullets == p.survivors
        && Life() == Hits(old(Life()), score, p.hits)
        && explosions == old(explosions)
             + Repeat(Blast(player.x + player.width / 2.0, player.y), Registered(old(Life()), score, p.hits))
    {
      var survivors, hits := ResolvePlayerHits(enemyBullets, player.Box());
      enemyBullets := survivors;
      ApplyPlayerHits(hits);
    }

    /** `handleCollisions`, pass 4: player bullets, then enemy bullets, each chip the first block they overlap. */
    method StrikeShields()
      modifies this`shields, this`enemyBullets, this`explosions, player`bullets
      ensures var s1 := ShieldFold(old(shields), old(player.bullets));
        var s2 := ShieldFold(s1.blocks, old(enemyBullets));
        && shields == s2.blocks && player.bullets == s1.survivors && enemyBullets == s2.survivors
        && explosions == old(explosions) + Blasts(s1.spent) + Blasts(s2.spent)
    {
      var blocks, playerShots, spentByPlayer := ResolveShieldHits(shields, player.bullets);
      var blocks', enemyShots, spentByEnemies := ResolveShieldHits(blocks, enemyBullets);
      shields, player.bullets, enemyBullets := blocks', playerShots, enemyShots;
      explosions := explosions + Blasts(spentByPlayer) + Blasts(spentByEnemies);
    }

    /** `handleCollisions`: the four passes in order. */
    method HandleCollisions(bonusRoll: real, framesRoll: real)
      requires ScoreOk() && LivesOk() && MysteryOk() && 0.0 <= bonusRoll < 1.0 && 0.0 <= framesRoll < 1.0
      modifies this`score, this`highscore, this`mystery, this`mysteryTimer, this`ufoSounding
      modifies this`popups, this`explosions, this`enemies, this`enemyBullets, this`shields
      modifies this`lives, this`gameOver, this`lastscore, player`bullets, player`blink
      ensures ScoreOk() && LivesOk() && MysteryOk()
      ensures lives <= old(lives) && score >= old(score) && highscore >= old(highscore)
      ensures !old(gameOver) && gameOver ==> lastscore == score && !ufoSounding
    {
      StrikeInvaders(bonusRoll, framesRoll);
      StrikeDefences();
    }

    /** Passes 1 and 2: the player's bullets against the mystery ship, then against the enemies. */
    method StrikeInvaders(bonusRoll: real, framesRoll: real)
      requires ScoreOk() && MysteryOk() && 0.0 <= bonusRoll < 1.0 && 0.0 <= framesRoll < 1.0
      modifies this`score, this`highscore, this`mystery, this`mysteryTimer, this`ufoSounding
      modifies this`popups, this`explosions, this`enemies, player`bullets
      ensures ScoreOk() && MysteryOk() && score >= old(score) && highscore >= old(highscore)
      ensures var m := MysteryFold(old(player.bullets), old(mystery));
        var bonus := if m.hit.Some? then Bonus(bonusRoll) else 0;
        var e := EnemyFold(m.survivors, old(enemies));
        && player.bullets == e.survivors && enemies == e.enemies && mystery == m.ship
        && score == old(score) + bonus + 10 * |e.spent|
        && highscore == (if score > old(highscore) then score else old(highscore))
        && mysteryTimer == (if m.hit.Some? then MysteryFrames(framesRoll) else old(mysteryTimer))
        && ufoSounding == (m.hit.None? && old(ufoSounding))
        && popups == old(popups) + HitPopup(m.hit, bonus)
        && explosions == old(explosions) + HitBlast(m.hit) + Blasts(e.spent)
    {
      StrikeMystery(bonusRoll, framesRoll);
      StrikeEnemies();
    }

    /** Passes 3 and 4: enemy bullets against the player, then all bullets against the shields. */
    method StrikeDefences()
      requires LivesOk() && MysteryOk()
      modifies this`explosions, this`enemyBullets, this`shields
      modifies this`lives, this`gameOver, this`lastscore, this`ufoSounding, player`bullets, player`blink
      ensures LivesOk() && MysteryOk() && lives <= old(lives)
      ensures !old(gameOver) && gameOver ==> lastscore == score && !ufoSounding
    {
      StrikePlayer();
      StrikeShields();
    }

    /** Enemies reaching the player's row die and each hits the player. */
    method CheckBreach()
      requires LivesOk() && MysteryOk()
      modifies this`enemies, this`lives, this`gameOver, this`lastscore, this`ufoSounding, this`explosions, player`blink
      ensures LivesOk() && MysteryOk() && lives <= old(lives)
      ensures !old(gameOver) && gameOver ==> lastscore == score && !ufoSounding
      ensures old(gameOver) ==> Life() == old(Life())
      ensures var b := BreachFold(old(enemies), player.y, old(Life()), score, |old(enemies)|);
        enemies == b.enemies && Life() == b.life && explosions == old(explosions) + b.blasts
      ensures forall j :: 0 <= j < |enemies| ==> !Breaches(enemies[j], player.y)
    {
      ghost var es0, l0, ex0 := enemies, Life(), explosions;
      var j := 0;
      while j < |enemies|
        invariant 0 <= j <= |enemies| == |es0|
        invariant enemies == BreachFold(es0, player.y, l0, score, j).enemies
        invariant Life() == BreachFold(es0, player.y, l0, score, j).life
        invariant explosions == ex0 + BreachFold(es0, player.y, l0, score, j).blasts
        invariant forall i :: j <= i < |es0| ==> enemies[i] == es0[i]
      {
        var e := enemies[j];
        if Breaches(e, player.y) {
          enemies := enemies[j := e.(alive := false)];
          HandlePlayerHit(e.x + e.width / 2.0, e.y + e.height / 2.0);
        }
        j := j + 1;
      }
      BreachAccounting(es0, player.y, l0, score, j);
      LivesAfterHits(l0, CountBreaches(es0, player.y, j));
    }

    /** When every enemy is dead: next wave, faster and larger formation, fresh shields. */
    method NextWave()
      requires WaveOk()
      modifies this`wave, this`enemySpeed, this`enemies, this`shields
      ensures WaveOk()
      ensures CountAlive(old(enemies)) == 0 ==>
        wave == old(wave) + 1 && enemySpeed == EnemySpeed(wave) && enemies == EnemyGrid(wave) && shields == Shields()
      ensures CountAlive(old(enemies)) != 0 ==>
        wave == old(wave) && enemySpeed == old(enemySpeed) && enemies == old(enemies) && shields == old(shields)
      ensures score == old(score) && lives == old(lives) && enemyDirection == old(enemyDirection) && dropCooldown == old(dropCooldown)
    {
      if CountAlive(enemies) == 0 {
        SetUpWave(wave + 1);
      }
    }

    /** `update`: one tick of `dt` frames (`delta * 60`); nothing moves once the game is over. */
    method Update(dt: real, input: Input, rolls: Rolls)
      requires Valid() && RollsInRange(rolls)
      modifies this, player
      ensures Valid() && player == old(player)
      ensures old(gameOver) ==> unchanged(this) && unchanged(player)
      ensures score >= old(score) && highscore >= old(highscore) && lives <= old(lives)
      ensures wave == old(wave) || wave == old(wave) + 1
      ensures !old(gameOver) && gameOver ==> lastscore == score && !ufoSounding
    {
      if gameOver {
        return;
      }
      Advance(dt, input, rolls);
      Resolve(rolls.bonus, rolls.frames);
      NextWave();
    }

    /** The moving half of `update`: timers, mystery ship, formation, shots and ageing. */
    method Advance(dt: real, input: Input, rolls: Rolls)
      requires Valid() && RollsInRange(rolls)
      modifies player`blink, this`popups, this`mystery, this`mysteryTimer, this`ufoSounding
      modifies this`enemies, this`enemyDirection, this`dropCooldown
      modifies this`enemyBullets, player`x, player`bullets, player`cooldown, this`explosions
      ensures Valid()
    {
      AdvanceTimers(dt, rolls.frames);
      AdvanceShots(dt, input, rolls.fire, rolls.shooter);
    }

    /** Blink and popups count down, the mystery ship and the formation move. */
    method AdvanceTimers(dt: real, framesRoll: real)
      requires LivesOk() && MysteryOk() && FleetOk() && 0.0 <= framesRoll < 1.0
      modifies player`blink, this`popups, this`mystery, this`mysteryTimer, this`ufoSounding
      modifies this`enemies, this`enemyDirection, this`dropCooldown
      ensures LivesOk() && MysteryOk() && FleetOk()
      ensures player.blink == Tick(old(player.blink)) && popups == AgePopups(old(popups))
      ensures Schedule() == SchedulerStep(old(Schedule()), wave, dt, framesRoll)
      ensures Formation(enemies, enemyDirection, dropCooldown)
        == FleetStep(old(Formation(enemies, enemyDirection, dropCooldown)), enemySpeed, dt)
    {
      if player.blink > 0 {
        player.blink := player.blink - 1;
      }
      popups := AgePopups(popups);
      TickMystery(dt, framesRoll);
      FleetTick(dt);
    }

    /** Enemies may fire, the ship steers and fires, then bullets fly and explosions age. */
    method AdvanceShots(dt: real, input: Input, fireRoll: real, shooterRoll: real)
      requires ShipOk() && 0.0 <= shooterRoll < 1.0
      modifies this`enemyBullets, player`x, player`bullets, player`cooldown, this`explosions
      ensures ShipOk()
      ensures player.x == Steered(old(player.x), player.width, player.speed, input.left, input.right, dt)
      ensures player.cooldown == NextFireCooldown(old(player.cooldown), input.fire)
    {
      EnemyFire(fireRoll, shooterRoll);
      player.Control(input.left, input.right, input.fire, dt);
      AgeEntities(dt);
    }

    /** The resolving part of `update`: collisions, then enemies reaching the ship. */
    method Resolve(bonusRoll: real, framesRoll: real)
      requires Valid() && 0.0 <= bonusRoll < 1.0 && 0.0 <= framesRoll < 1.0
      modifies this`score, this`highscore, this`mystery, this`mysteryTimer, this`ufoSounding
      modifies this`popups, this`explosions, this`enemies, this`enemyBullets, this`shields
      modifies this`lives, this`gameOver, this`lastscore, player`bullets, player`blink
      ensures Valid() && lives <= old(lives) && score >= old(score) && highscore >= old(highscore)
      ensures !old(gameOver) && gameOver ==> lastscore == score && !ufoSounding
    {
      HandleCollisions(bonusRoll, framesRoll);
      CheckBreach();
    }
  }
}
