/**
 * The records the simulation moves around. Each spatial entity exposes its
 * bounding box; constructors for shots fix the shapes the game uses.
 */
module Entities {
  import opened Basics
  import opened Geometry

  /** A shot, from the player (moving up) or from an enemy (moving down). */
  datatype Bullet = Bullet(x: real, y: real, width: real, height: real, speed: real)
  {
    function Box(): Rect { Rect(x, y, width, height) }
  }

  /** A member of the formation; dead enemies stay in the list. */
  datatype Enemy = Enemy(x: real, y: real, width: real, height: real, alive: bool)
  {
    function Box(): Rect { Rect(x, y, width, height) }
  }

  /** One destructible sub-block of a shield. */
  datatype Block = Block(x: real, y: real, width: real, height: real)
  {
    function Box(): Rect { Rect(x, y, width, height) }
  }

  /** The bonus ship crossing the top of the playfield. */
  datatype Mystery = Mystery(x: real, y: real, width: real, height: real, speed: real)
  {
    function Box(): Rect { Rect(x, y, width, height) }
  }

  /** An explosion and its age in ticks. */
  datatype Explosion = Explosion(x: real, y: real, frame: int)

  /** A floating "+bonus" text and its age in ticks. */
  datatype Popup = Popup(x: real, y: real, bonus: int, frame: int)

  const ExplosionDuration: int := 20
  const PopupDuration: int := 60

  /** The shot `enemyShoot` fires from below the centre of enemy `e`. */
  function EnemyShot(e: Enemy): (r: Bullet)
    ensures r.x + r.width / 2.0 == e.x + e.width / 2.0 && r.y == e.y + e.height && r.speed > 0.0
  {
    Bullet(e.x + e.width / 2.0 - 2.0, e.y + e.height, 4.0, 10.0, 3.0)
  }

  /** The fresh explosion `addExplosion` records at a point. */
  function Blast(x: real, y: real): Explosion
  {
    Explosion(x, y, 0)
  }

  /** One fresh explosion per bullet, in order, at each bullet's corner. */
  function Blasts(bs: seq<Bullet>): (r: seq<Explosion>)
    ensures |r| == |bs|
  {
    if bs == [] then [] else Blasts(bs[..|bs| - 1]) + [Blast(bs[|bs| - 1].x, bs[|bs| - 1].y)]
  }

  /** One explosion per spent bullet, at that bullet's position, in order. */
  lemma {:induction false} BlastsAt(bs: seq<Bullet>)
    ensures forall i :: 0 <= i < |bs| ==> Blasts(bs)[i] == Blast(bs[i].x, bs[i].y)
    decreases |bs|
  {
    if bs != [] {
      BlastsAt(bs[..|bs| - 1]);
    }
  }

  /** Number of enemies still alive. */
  function CountAlive(es: seq<Enemy>): (n: nat)
    ensures n <= |es|
    ensures n == 0 <==> forall j :: 0 <= j < |es| ==> !es[j].alive
  {
    if es == [] then 0 else (if es[0].alive then 1 else 0) + CountAlive(es[1..])
  }

  /** Killing one living enemy lowers the living count by exactly one. */
  lemma {:induction false} CountAliveKill(es: seq<Enemy>, k: nat)
    requires k < |es| && es[k].alive
    ensures CountAlive(es[k := es[k].(alive := false)]) == CountAlive(es) - 1
    decreases |es|
  {
    var es' := es[k := es[k].(alive := false)];
    if k > 0 {
      assert es'[1..] == es[1..][k - 1 := es[k].(alive := false)];
      CountAliveKill(es[1..], k - 1);
    } else {
      assert es'[1..] == es[1..];
    }
  }

  /** The enemies still alive, in list order (`enemies.filter(e => e.alive)`). */
  function AliveEnemies(es: seq<Enemy>): (r: seq<Enemy>)
    ensures |r| == CountAlive(es)
    ensures forall i :: 0 <= i < |r| ==> r[i].alive && r[i] in es
    ensures SubseqOf(r, es)
  {
    if es == [] then []
    else
      var rest := AliveEnemies(es[1..]);
      if es[0].alive then
        assert ([es[0]] + rest)[1..] == rest;
        [es[0]] + rest
      else rest
  }
}
