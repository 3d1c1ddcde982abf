/**
 * The collision resolver `handleCollisions`: four passes, in a fixed order,
 * each a left-to-right filter over a bullet list.
 *
 *   1. player bullets against the mystery ship;
 *   2. player bullets against the enemies;
 *   3. enemy bullets against the player;
 *   4. player bullets, then enemy bullets, against the shield blocks.
 *
 * Each pass is specified by a fold over the bullets (`...Step` applied
 * bullet by bullet, so the state a bullet sees includes what earlier
 * bullets did) and implemented by a loop method proved equal to the fold.
 * The lemmas state what each pass promises.
 */
module Collisions {
  import opened Basics
  import opened Geometry
  import opened Entities

  // ---------------------------------------------------------------------
  // Pass 1: player bullets against the mystery ship

  datatype MysteryPass = MysteryPass(survivors: seq<Bullet>, ship: Option<Mystery>, hit: Option<Bullet>)

  function StrikesShip(m: Mystery): Bullet -> bool
  {
    (b: Bullet) => Overlaps(b.Box(), m.Box())
  }

  /** One bullet: if a ship is present and overlapped, the ship is gone and the bullet consumed. */
  function MysteryStep(o: MysteryPass, b: Bullet): MysteryPass
  {
    if o.ship.Some? && StrikesShip(o.ship.value)(b) then MysteryPass(o.survivors, None, Some(b))
    else o.(survivors := o.survivors + [b])
  }

  /** Pass 1 over the whole list: every bullet is kept, or it is the one that hit the ship. */
  function MysteryFold(bullets: seq<Bullet>, ship: Option<Mystery>): (o: MysteryPass)
    ensures o.hit.Some? ==> o.ship.None?
    ensures |o.survivors| + (if o.hit.Some? then 1 else 0) == |bullets|
    decreases |bullets|
  {
    if bullets == [] then MysteryPass([], ship, None)
    else MysteryStep(MysteryFold(bullets[..|bullets| - 1], ship), bullets[|bullets| - 1])
  }

  method ResolveMysteryHits(bullets: seq<Bullet>, ship: Option<Mystery>)
    returns (survivors: seq<Bullet>, shipAfter: Option<Mystery>, hit: Option<Bullet>)
    ensures MysteryPass(survivors, shipAfter, hit) == MysteryFold(bullets, ship)
  {
    survivors, shipAfter, hit := [], ship, None;
    var i := 0;
    while i < |bullets|
      invariant 0 <= i <= |bullets|
      invariant MysteryPass(survivors, shipAfter, hit) == MysteryFold(bullets[..i], ship)
    {
      var b := bullets[i];
      assert bullets[..i + 1][..i] == bullets[..i];
      if shipAfter.Some? && Overlaps(b.Box(), shipAfter.value.Box()) {
        shipAfter, hit := None, Some(b);
      } else {
        survivors := survivors + [b];
      }
      i := i + 1;
    }
    assert bullets[..i] == bullets;
  }

  /** The ship disappears exactly when some bullet hits it. */
  lemma {:induction false} MysteryPassShip(bullets: seq<Bullet>, ship: Option<Mystery>)
    ensures var o := MysteryFold(bullets, ship);
      && (o.hit.Some? ==> ship.Some? && o.ship.None?)
      && (o.hit.None? ==> o.ship == ship)
    decreases |bullets|
  {
    if bullets != [] {
      MysteryPassShip(bullets[..|bullets| - 1], ship);
    }
  }

  /**
   * At most one bullet per tick hits the ship: exactly the first bullet that
   * overlaps it, which is removed; every other bullet survives in order.
   */
  lemma {:induction false} MysteryPassHitsFirstOverlap(bullets: seq<Bullet>, ship: Option<Mystery>)
    ensures ship.None? ==> MysteryFold(bullets, ship) == MysteryPass(bullets, None, None)
    ensures ship.Some? ==>
      match FirstMatch(bullets, StrikesShip(ship.value))
      case None => MysteryFold(bullets, ship) == MysteryPass(bullets, ship, None)
      case Some(k) => MysteryFold(bullets, ship) == MysteryPass(RemoveAt(bullets, k), None, Some(bullets[k]))
    decreases |bullets|
  {
    if bullets != [] {
      var n := |bullets|;
      var pre, x := bullets[..n - 1], bullets[n - 1];
      assert bullets == pre + [x];
      MysteryPassHitsFirstOverlap(pre, ship);
      if ship.Some? {
        FirstMatchSnoc(pre, x, StrikesShip(ship.value));
        match FirstMatch(pre, StrikesShip(ship.value))
        case Some(k) =>
          assert RemoveAt(bullets, k) == RemoveAt(pre, k) + [x];
        case None =>
          assert RemoveAt(bullets, n - 1) == pre;
      }
    }
  }

  // ---------------------------------------------------------------------
  // Pass 2: player bullets against the enemies

  datatype EnemyPass = EnemyPass(survivors: seq<Bullet>, enemies: seq<Enemy>, spent: seq<Bullet>)

  /** Enemy `e` is killed by bullet `b` when it is alive and overlapped. */
  function Kills(b: Bullet): Enemy -> bool
  {
    (e: Enemy) => e.alive && Overlaps(b.Box(), e.Box())
  }

  /** One bullet kills the first living enemy it overlaps, in list order, and is consumed. */
  function EnemyStep(o: EnemyPass, b: Bullet): EnemyPass
  {
    match FirstMatch(o.enemies, Kills(b))
    case None => o.(survivors := o.survivors + [b])
    case Some(k) => EnemyPass(o.survivors, o.enemies[k := o.enemies[k].(alive := false)], o.spent + [b])
  }

  /** Pass 2 over the whole list: every bullet is kept or spent, and the formation keeps its size. */
  function EnemyFold(bullets: seq<Bullet>, enemies: seq<Enemy>): (o: EnemyPass)
    ensures |o.survivors| + |o.spent| == |bullets| && |o.enemies| == |enemies|
    decreases |bullets|
  {
    if bullets == [] then EnemyPass([], enemies, [])
    else EnemyStep(EnemyFold(bullets[..|bullets| - 1], enemies), bullets[|bullets| - 1])
  }

  method ResolveEnemyHits(bullets: seq<Bullet>, enemies: seq<Enemy>)
    returns (survivors: seq<Bullet>, enemiesAfter: seq<Enemy>, spent: seq<Bullet>)
    ensures EnemyPass(survivors, enemiesAfter, spent) == EnemyFold(bullets, enemies)
  {
    survivors, enemiesAfter, spent := [], enemies, [];
    var i := 0;
    while i < |bullets|
      invariant 0 <= i <= |bullets|
      invariant EnemyPass(survivors, enemiesAfter, spent) == EnemyFold(bullets[..i], enemies)
    {
      var b := bullets[i];
      assert bullets[..i + 1][..i] == bullets[..i];
      var k := FindFirst(enemiesAfter, Kills(b));
      match k {
        case None =>
          survivors := survivors + [b];
        case Some(j) =>
          enemiesAfter := enemiesAfter[j := enemiesAfter[j].(alive := false)];
          spent := spent + [b];
      }
      i := i + 1;
    }
    assert bullets[..i] == bullets;
  }

  /**
   * Every bullet is either kept or spent on exactly one kill: the number of
   * living enemies falls by the number of spent bullets.
   */
  lemma {:induction false} EnemyPassAccounting(bullets: seq<Bullet>, enemies: seq<Enemy>)
    ensures var o := EnemyFold(bullets, enemies);
      && |o.survivors| + |o.spent| == |bullets|
      && |o.enemies| == |enemies|
      && CountAlive(o.enemies) + |o.spent| == CountAlive(enemies)
    decreases |bullets|
  {
    if bullets != [] {
      var n := |bullets|;
      EnemyPassAccounting(bullets[..n - 1], enemies);
      var p := EnemyFold(bullets[..n - 1], enemies);
      var o := EnemyFold(bullets, enemies);
      match FirstMatch(p.enemies, Kills(bullets[n - 1]))
      case None =>
        assert o == p.(survivors := p.survivors + [bullets[n - 1]]);
      case Some(k) =>
        FirstMatchIsFirst(p.enemies, Kills(bullets[n - 1]));
        CountAliveKill(p.enemies, k);
        assert o == EnemyPass(p.survivors, p.enemies[k := p.enemies[k].(alive := false)], p.spent + [bullets[n - 1]]);
    }
  }

  /** Enemies never move during the pass, and a dead enemy stays dead. */
  lemma {:induction false} EnemyPassNoRevival(bullets: seq<Bullet>, enemies: seq<Enemy>)
    ensures var o := EnemyFold(bullets, enemies);
      && |o.enemies| == |enemies|
      && (forall j :: 0 <= j < |enemies| ==>
            o.enemies[j].Box() == enemies[j].Box() && (o.enemies[j].alive ==> enemies[j].alive))
    decreases |bullets|
  {
    if bullets != [] {
      EnemyPassNoRevival(bullets[..|bullets| - 1], enemies);
    }
  }

  /**
   * Both bullet lists keep the input order, and a kept bullet overlaps no
   * enemy that is still alive.
   */
  lemma {:induction false} EnemyPassSurvivors(bullets: seq<Bullet>, enemies: seq<Enemy>)
    ensures var o := EnemyFold(bullets, enemies);
      && SubseqOf(o.survivors, bullets) && SubseqOf(o.spent, bullets)
      && (forall i, j :: 0 <= i < |o.survivors| && 0 <= j < |o.enemies| && o.enemies[j].alive ==>
            !Overlaps(o.survivors[i].Box(), o.enemies[j].Box()))
    decreases |bullets|
  {
    if bullets != [] {
      var n := |bullets|;
      var pre, x := bullets[..n - 1], bullets[n - 1];
      assert bullets == pre + [x];
      EnemyPassSurvivors(pre, enemies);
      EnemyPassAccounting(pre, enemies);
      var p := EnemyFold(pre, enemies);
      SubseqExtend(p.survivors, pre, x);
      SubseqExtend(p.spent, pre, x);
      match FirstMatch(p.enemies, Kills(x))
      case None =>
        FirstMatchIsFirst(p.enemies, Kills(x));
        SubseqSnoc(p.survivors, pre, x);
      case Some(k) =>
        SubseqSnoc(p.spent, pre, x);
    }
  }

  // ---------------------------------------------------------------------
  // Pass 3: enemy bullets against the player

  datatype PlayerPass = PlayerPass(survivors: seq<Bullet>, hits: nat)

  /** A bullet overlapping the player is consumed and counts as one hit. */
  function PlayerStep(o: PlayerPass, b: Bullet, player: Rect): PlayerPass
  {
    if Overlaps(b.Box(), player) then o.(hits := o.hits + 1) else o.(survivors := o.survivors + [b])
  }

  /** Pass 3 over the whole list: every bullet is kept or counted as a hit. */
  function PlayerFold(bullets: seq<Bullet>, player: Rect): (o: PlayerPass)
    ensures |o.survivors| + o.hits == |bullets|
    decreases |bullets|
  {
    if bullets == [] then PlayerPass([], 0)
    else PlayerStep(PlayerFold(bullets[..|bullets| - 1], player), bullets[|bullets| - 1], player)
  }

  method ResolvePlayerHits(bullets: seq<Bullet>, player: Rect) returns (survivors: seq<Bullet>, hits: nat)
    ensures PlayerPass(survivors, hits) == PlayerFold(bullets, player)
  {
    survivors, hits := [], 0;
    var i := 0;
    while i < |bullets|
      invariant 0 <= i <= |bullets|
      invariant PlayerPass(survivors, hits) == PlayerFold(bullets[..i], player)
    {
      var b := bullets[i];
      assert bullets[..i + 1][..i] == bullets[..i];
      if Overlaps(b.Box(), player) {
        hits := hits + 1;
      } else {
        survivors := survivors + [b];
      }
      i := i + 1;
    }
    assert bullets[..i] == bullets;
  }

  /**
   * Exactly the bullets overlapping the player are consumed, one hit each;
   * all others survive in order.
   */
  lemma {:induction false} PlayerPassAccounting(bullets: seq<Bullet>, player: Rect)
    ensures var o := PlayerFold(bullets, player);
      && |o.survivors| + o.hits == |bullets|
      && SubseqOf(o.survivors, bullets)
      && (forall i :: 0 <= i < |o.survivors| ==> !Overlaps(o.survivors[i].Box(), player))
      && (forall i :: 0 <= i < |bullets| && !Overlaps(bullets[i].Box(), player) ==> bullets[i] in o.survivors)
      && (o.hits == 0 <==> forall i :: 0 <= i < |bullets| ==> !Overlaps(bullets[i].Box(), player))
    decreases |bullets|
  {
    if bullets != [] {
      var n := |bullets|;
      var pre, x := bullets[..n - 1], bullets[n - 1];
      assert bullets == pre + [x];
      PlayerPassAccounting(pre, player);
      var p := PlayerFold(pre, player);
      if Overlaps(x.Box(), player) {
        SubseqExtend(p.survivors, pre, x);
      } else {
        SubseqSnoc(p.survivors, pre, x);
      }
    }
  }

  // ---------------------------------------------------------------------
  // Pass 4: bullets against the shield blocks (`hitShields`)

  datatype ShieldPass = ShieldPass(blocks: seq<Block>, survivors: seq<Bullet>, spent: seq<Bullet>)

  function Chips(b: Bullet): Block -> bool
  {
    (blk: Block) => Overlaps(b.Box(), blk.Box())
  }

  /** One bullet splices out the first block it overlaps and is consumed. */
  function ShieldStep(o: ShieldPass, b: Bullet): ShieldPass
  {
    match FirstMatch(o.blocks, Chips(b))
    case None => o.(survivors := o.survivors + [b])
    case Some(k) => ShieldPass(RemoveAt(o.blocks, k), o.survivors, o.spent + [b])
  }

  /** `hitShields` over the whole list: each spent bullet costs exactly one block. */
  function ShieldFold(blocks: seq<Block>, bullets: seq<Bullet>): (o: ShieldPass)
    ensures |o.blocks| + |o.spent| == |blocks| && |o.survivors| + |o.spent| == |bullets|
    decreases |bullets|
  {
    if bullets == [] then ShieldPass(blocks, [], [])
    else ShieldStep(ShieldFold(blocks, bullets[..|bullets| - 1]), bullets[|bullets| - 1])
  }

  method ResolveShieldHits(blocks: seq<Block>, bullets: seq<Bullet>)
    returns (blocksAfter: seq<Block>, survivors: seq<Bullet>, spent: seq<Bullet>)
    ensures ShieldPass(blocksAfter, survivors, spent) == ShieldFold(blocks, bullets)
  {
    blocksAfter, survivors, spent := blocks, [], [];
    var i := 0;
    while i < |bullets|
      invariant 0 <= i <= |bullets|
      invariant ShieldPass(blocksAfter, survivors, spent) == ShieldFold(blocks, bullets[..i])
    {
      var b := bullets[i];
      assert bullets[..i + 1][..i] == bullets[..i];
      var k := FindFirst(blocksAfter, Chips(b));
      match k {
        case None =>
          survivors := survivors + [b];
        case Some(j) =>
          blocksAfter := blocksAfter[..j] + blocksAfter[j + 1..];
          spent := spent + [b];
      }
      i := i + 1;
    }
    assert bullets[..i] == bullets;
  }

  /**
   * Each consumed bullet removes exactly one block, and the remaining blocks
   * and both bullet lists keep their order.
   */
  lemma {:induction false} ShieldPassAccounting(blocks: seq<Block>, bullets: seq<Bullet>)
    ensures var o := ShieldFold(blocks, bullets);
      && |o.blocks| + |o.spent| == |blocks|
      && |o.survivors| + |o.spent| == |bullets|
      && SubseqOf(o.blocks, blocks)
      && SubseqOf(o.survivors, bullets) && SubseqOf(o.spent, bullets)
    decreases |bullets|
  {
    if bullets == [] {
      SubseqRefl(blocks);
    } else {
      var n := |bullets|;
      var pre, x := bullets[..n - 1], bullets[n - 1];
      assert bullets == pre + [x];
      ShieldPassAccounting(blocks, pre);
      var p := ShieldFold(blocks, pre);
      var o := ShieldFold(blocks, bullets);
      SubseqExtend(p.survivors, pre, x);
      SubseqExtend(p.spent, pre, x);
      match FirstMatch(p.blocks, Chips(x))
      case None =>
        assert o == p.(survivors := p.survivors + [x]);
        SubseqSnoc(p.survivors, pre, x);
      case Some(k) =>
        assert o == ShieldPass(RemoveAt(p.blocks, k), p.survivors, p.spent + [x]);
        SubseqSnoc(p.spent, pre, x);
        RemoveAtSubseq(p.blocks, k);
        SubseqTrans(RemoveAt(p.blocks, k), p.blocks, blocks);
    }
  }

  /** No bullet of `bs` overlaps any block of `blocks`. */
  predicate Clear(bs: seq<Bullet>, blocks: seq<Block>)
  {
    forall i, j :: 0 <= i < |bs| && 0 <= j < |blocks| ==> !Overlaps(bs[i].Box(), blocks[j].Box())
  }

  /** A bullet that survives the pass overlaps none of the blocks that remain. */
  lemma {:induction false} ShieldPassClears(blocks: seq<Block>, bullets: seq<Bullet>)
    ensures var o := ShieldFold(blocks, bullets); Clear(o.survivors, o.blocks)
    decreases |bullets|
  {
    if bullets != [] {
      var n := |bullets|;
      var pre, x := bullets[..n - 1], bullets[n - 1];
      ShieldPassClears(blocks, pre);
      var p := ShieldFold(blocks, pre);
      var o := ShieldFold(blocks, bullets);
      match FirstMatch(p.blocks, Chips(x))
      case None =>
        assert o == p.(survivors := p.survivors + [x]);
        FirstMatchIsFirst(p.blocks, Chips(x));
        forall i, j | 0 <= i < |o.survivors| && 0 <= j < |o.blocks|
          ensures !Overlaps(o.survivors[i].Box(), o.blocks[j].Box())
        {
          if i == |p.survivors| {
            assert !Chips(x)(p.blocks[j]);
          } else {
            assert o.survivors[i] == p.survivors[i];
          }
        }
      case Some(k) =>
        assert o == ShieldPass(RemoveAt(p.blocks, k), p.survivors, p.spent + [x]);
        forall i, j | 0 <= i < |o.survivors| && 0 <= j < |o.blocks|
          ensures !Overlaps(o.survivors[i].Box(), o.blocks[j].Box())
        {
          assert o.blocks[j] == if j < k then p.blocks[j] else p.blocks[j + 1];
        }
    }
  }
}
