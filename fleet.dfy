/**
 * The enemy formation: sideways sweep, edge detection, and the drop with
 * its cooldown latch.
 */
module Fleet {
  import opened Basics
  import opened Geometry
  import opened Entities

  /** Rows fall by this much on a drop. */
  const DropStep: real := 10.0
  /** Ticks during which no new drop may start. */
  const DropCooldownTicks: int := 10

  /** A living enemy moves by `dx`; a dead one stays where it is. */
  function Shifted(e: Enemy, dx: real): Enemy
  {
    if e.alive then e.(x := e.x + dx) else e
  }

  /** Touching or crossing the left or right edge of the playfield. */
  predicate AtEdge(e: Enemy)
  {
    e.x <= 0.0 || e.x + e.width >= GameW
  }

  /** Some living enemy is at an edge. */
  predicate TouchesEdge(es: seq<Enemy>)
  {
    exists j :: 0 <= j < |es| && es[j].alive && AtEdge(es[j])
  }

  /** The formation after one sideways step of `dx`. */
  function ShiftAll(es: seq<Enemy>, dx: real): (r: seq<Enemy>)
    ensures |r| == |es|
  {
    seq(|es|, j requires 0 <= j < |es| => Shifted(es[j], dx))
  }

  /** The `forEach` that moves the living enemies and notes edge contact. */
  method MoveFleet(enemies: seq<Enemy>, dx: real) returns (moved: seq<Enemy>, needDrop: bool)
    ensures moved == ShiftAll(enemies, dx)
    ensures needDrop <==> TouchesEdge(moved)
  {
    moved, needDrop := enemies, false;
    var j := 0;
    while j < |enemies|
      invariant 0 <= j <= |enemies| && |moved| == |enemies|
      invariant forall i :: 0 <= i < j ==> moved[i] == Shifted(enemies[i], dx)
      invariant forall i :: j <= i < |enemies| ==> moved[i] == enemies[i]
      invariant needDrop <==> exists i :: 0 <= i < j && moved[i].alive && AtEdge(moved[i])
    {
      var e := enemies[j];
      if e.alive {
        var e' := e.(x := e.x + dx);
        moved := moved[j := e'];
        if AtEdge(e') {
          needDrop := true;
        }
      }
      j := j + 1;
    }
  }

  /** Every enemy, dead ones included, one `DropStep` lower. */
  function Lowered(es: seq<Enemy>): (r: seq<Enemy>)
    ensures |r| == |es|
    ensures forall j :: 0 <= j < |es| ==> r[j].y == es[j].y + DropStep && r[j] == es[j].(y := r[j].y)
  {
    seq(|es|, j requires 0 <= j < |es| => es[j].(y := es[j].y + DropStep))
  }

  /** The `forEach` of the drop. */
  method DropFleet(enemies: seq<Enemy>) returns (dropped: seq<Enemy>)
    ensures dropped == Lowered(enemies)
  {
    dropped := enemies;
    var j := 0;
    while j < |enemies|
      invariant 0 <= j <= |enemies| && |dropped| == |enemies|
      invariant forall i :: 0 <= i < j ==> dropped[i] == enemies[i].(y := enemies[i].y + DropStep)
      invariant forall i :: j <= i < |enemies| ==> dropped[i] == enemies[i]
    {
      dropped := dropped[j := dropped[j].(y := dropped[j].y + DropStep)];
      j := j + 1;
    }
  }

  /** A drop happens when an edge is touched and the cooldown, after this tick's decrement, is zero. */
  predicate DropDue(cooldown: int, needDrop: bool)
  {
    needDrop && Tick(cooldown) == 0
  }

  /** The drop cooldown after a tick. */
  function NextDropCooldown(cooldown: int, needDrop: bool): int
  {
    if DropDue(cooldown, needDrop) then DropCooldownTicks else Tick(cooldown)
  }

  /** The formation's moving parts: the enemies, the sweep direction and the drop cooldown. */
  datatype Formation = Formation(enemies: seq<Enemy>, direction: int, cooldown: int)

  /** How far the living enemies move sideways in a tick of `dt` frames. */
  function SweepOffset(direction: int, speed: real, dt: real): real
  {
    direction as real * speed * dt
  }

  /** One tick of the formation at `speed`: cool down, sweep, and drop if due. */
  function FleetStep(f: Formation, speed: real, dt: real): (g: Formation)
    ensures |g.enemies| == |f.enemies|
    ensures (f.direction == 1 || f.direction == -1) && 0 <= f.cooldown <= DropCooldownTicks ==>
      (g.direction == 1 || g.direction == -1) && 0 <= g.cooldown <= DropCooldownTicks
  {
    var moved := ShiftAll(f.enemies, SweepOffset(f.direction, speed, dt));
    var edge := TouchesEdge(moved);
    if DropDue(f.cooldown, edge) then Formation(Lowered(moved), -f.direction, DropCooldownTicks)
    else Formation(moved, f.direction, Tick(f.cooldown))
  }

  /**
   * A tick drops exactly when the cooldown has run out and a living enemy
   * touches an edge after the sweep; a drop reverses the direction, lowers
   * every enemy (dead ones too) by `DropStep` and restarts the cooldown,
   * otherwise only living enemies move, sideways.
   */
  lemma {:induction false} FleetStepEffect(f: Formation, speed: real, dt: real)
    requires f.cooldown >= 0
    ensures |FleetStep(f, speed, dt).enemies| == |f.enemies|
    ensures var edge := TouchesEdge(ShiftAll(f.enemies, SweepOffset(f.direction, speed, dt)));
      FleetStep(f, speed, dt).cooldown == NextDropCooldown(f.cooldown, edge)
    ensures var edge := TouchesEdge(ShiftAll(f.enemies, SweepOffset(f.direction, speed, dt)));
      var g := FleetStep(f, speed, dt);
      DropDue(f.cooldown, edge) ==>
        && f.cooldown <= 1 && g.cooldown == DropCooldownTicks && g.direction == -f.direction
        && forall j :: 0 <= j < |g.enemies| ==> g.enemies[j].y == f.enemies[j].y + DropStep
    ensures var edge := TouchesEdge(ShiftAll(f.enemies, SweepOffset(f.direction, speed, dt)));
      var g := FleetStep(f, speed, dt);
      !DropDue(f.cooldown, edge) ==>
        && g.direction == f.direction && 0 <= g.cooldown && (f.cooldown > 0 ==> g.cooldown == f.cooldown - 1)
        && forall j :: 0 <= j < |g.enemies| ==>
             g.enemies[j].y == f.enemies[j].y && (g.enemies[j].x != f.enemies[j].x ==> f.enemies[j].alive)
  {
    var dx := SweepOffset(f.direction, speed, dt);
    var moved := ShiftAll(f.enemies, dx);
    forall j | 0 <= j < |f.enemies|
      ensures moved[j].y == f.enemies[j].y && (moved[j].x != f.enemies[j].x ==> f.enemies[j].alive)
    {
      assert moved[j] == Shifted(f.enemies[j], dx);
    }
  }

  /** Which of a run of ticks drop, given edge contact on each. */
  function Drops(cooldown: int, needs: seq<bool>): (r: seq<bool>)
    ensures |r| == |needs|
    decreases |needs|
  {
    if needs == [] then []
    else [DropDue(cooldown, needs[0])] + Drops(NextDropCooldown(cooldown, needs[0]), needs[1..])
  }

  /** With cooldown `c`, the first drop can come no earlier than tick `c - 1` (counting from 0). */
  lemma {:induction false} NoDropWhileCooling(c: nat, needs: seq<bool>, j: nat)
    requires j < |needs| && Drops(c, needs)[j]
    ensures j + 1 >= c
    decreases j
  {
    if j > 0 && !DropDue(c, needs[0]) {
      NoDropWhileCooling(Tick(c), needs[1..], j - 1);
    }
  }

  /** Whatever the edge contacts, two drops are at least `DropCooldownTicks` ticks apart. */
  lemma {:induction false} DropsAreSpaced(c: nat, needs: seq<bool>, i: nat, j: nat)
    requires i < j < |needs| && Drops(c, needs)[i] && Drops(c, needs)[j]
    ensures j - i >= DropCooldownTicks
    decreases i
  {
    var rest := Drops(NextDropCooldown(c, needs[0]), needs[1..]);
    assert Drops(c, needs)[1..] == rest;
    if i == 0 {
      NoDropWhileCooling(DropCooldownTicks, needs[1..], j - 1);
    } else {
      DropsAreSpaced(NextDropCooldown(c, needs[0]), needs[1..], i - 1, j - 1);
    }
  }
}
