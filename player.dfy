/**
 * The player's ship: position, shots in flight, fire cooldown and blink
 * counter, updated in place by the tick.
 */
module Ship {
  import opened Basics
  import opened Geometry
  import opened Entities

  /** Ticks between two shots (`player.cooldown = 15`). */
  const FireCooldownTicks: int := 15

  class Player {
    var x: real
    const y: real
    const width: real
    const height: real
    const speed: real
    var bullets: seq<Bullet>
    var cooldown: int
    var blink: int

    /** The ship `startGame` creates: 50 x 20, centred, 60 units above the bottom edge, idle. */
    predicate AtStart()
      reads this
    {
      && x == GameW / 2.0 - 25.0 && y == GameH - 60.0
      && width == 50.0 && height == 20.0 && speed == 5.0
      && bullets == [] && cooldown == 0 && blink == 0
    }

    constructor ()
      ensures AtStart()
    {
      x := GameW / 2.0 - 25.0;
      y := GameH - 60.0;
      width, height, speed := 50.0, 20.0, 5.0;
      bullets, cooldown, blink := [], 0, 0;
    }

    function Box(): Rect
      reads this`x
    {
      Rect(x, y, width, height)
    }

    /** The shot `shoot` fires from just left of the ship's centre. */
    function Shot(): (b: Bullet)
      reads this`x
      ensures b.y == y && b.x + b.width / 2.0 == x + width / 2.0 + 1.0 && b.speed > 0.0
    {
      Bullet(x + width / 2.0 - 2.0, y, 6.0, 16.0, 7.0)
    }

    /** `shoot`: fires only when the cooldown has run out, then reloads it. */
    method Shoot()
      modifies this`bullets, this`cooldown
      ensures FireDue(old(cooldown), true) ==> bullets == old(bullets) + [Shot()] && cooldown == FireCooldownTicks
      ensures !FireDue(old(cooldown), true) ==> bullets == old(bullets) && cooldown == old(cooldown)
    {
      if cooldown > 0 {
        return;
      }
      bullets := bullets + [Shot()];
      cooldown := FireCooldownTicks;
    }

    /**
     * The player part of a tick: steer left, then right (each only while
     * not past that edge), fire if asked, then count the cooldown down.
     */
    method Control(left: bool, right: bool, fire: bool, dt: real)
      modifies this`x, this`bullets, this`cooldown
      ensures x == Steered(old(x), width, speed, left, right, dt)
      ensures bullets == if FireDue(old(cooldown), fire) then old(bullets) + [Shot()] else old(bullets)
      ensures cooldown == NextFireCooldown(old(cooldown), fire)
    {
      if left && x > 0.0 {
        x := x - speed * dt;
      }
      if right && x + width < GameW {
        x := x + speed * dt;
      }
      if fire {
        Shoot();
      }
      if cooldown > 0 {
        cooldown := cooldown - 1;
      }
    }
  }

  /**
   * The ship's `x` after one tick of steering at `speed`: left first, then
   * right, each only while the ship is not already at that edge. With both
   * keys held the two moves cancel, except at an edge.
   */
  function Steered(x: real, width: real, speed: real, left: bool, right: bool, dt: real): (r: real)
    ensures !left && !right ==> r == x
    ensures left && !right && speed * dt >= 0.0 ==> r <= x
    ensures right && !left && speed * dt >= 0.0 ==> r >= x
  {
    var x1 := if left && x > 0.0 then x - speed * dt else x;
    if right && x1 + width < GameW then x1 + speed * dt else x1
  }

  /** A shot leaves on this tick when fire is held and the cooldown is not positive. */
  predicate FireDue(cooldown: int, fire: bool)
  {
    fire && cooldown <= 0
  }

  /** The fire cooldown at the end of a tick. */
  function NextFireCooldown(cooldown: int, fire: bool): int
  {
    Tick(if FireDue(cooldown, fire) then FireCooldownTicks else cooldown)
  }

  /** Which of a run of ticks fire a shot, given the fire button on each. */
  function Shots(cooldown: int, fires: seq<bool>): (r: seq<bool>)
    ensures |r| == |fires|
    decreases |fires|
  {
    if fires == [] then []
    else [FireDue(cooldown, fires[0])] + Shots(NextFireCooldown(cooldown, fires[0]), fires[1..])
  }

  /** With cooldown `c`, no shot leaves before tick `c` (counting from 0). */
  lemma {:induction false} NoShotWhileCooling(c: nat, fires: seq<bool>, j: nat)
    requires j < |fires| && Shots(c, fires)[j]
    ensures j >= c
    decreases j
  {
    if j > 0 && !FireDue(c, fires[0]) {
      NoShotWhileCooling(Tick(c), fires[1..], j - 1);
    }
  }

  /** However the fire button is held, two shots are at least `FireCooldownTicks` ticks apart. */
  lemma {:induction false} ShotsAreSpaced(c: nat, fires: seq<bool>, i: nat, j: nat)
    requires i < j < |fires| && Shots(c, fires)[i] && Shots(c, fires)[j]
    ensures j - i >= FireCooldownTicks
    decreases i
  {
    assert Shots(c, fires)[1..] == Shots(NextFireCooldown(c, fires[0]), fires[1..]);
    if i == 0 {
      NoShotWhileCooling(FireCooldownTicks - 1, fires[1..], j - 1);
    } else {
      ShotsAreSpaced(NextFireCooldown(c, fires[0]), fires[1..], i - 1, j - 1);
    }
  }
}
