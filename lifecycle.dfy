/**
 * The player life-cycle of `handlePlayerHit`: lives, the blink counter,
 * the game-over latch, the recorded last score and the mystery-ship audio
 * handle (reduced to "is it sounding").
 *
 * Blinking is cosmetic: a hit during the blink window still costs a life.
 */
module LifeCycle {

  datatype LifeState = LifeState(lives: int, gameOver: bool, blink: int, lastscore: int, ufoSounding: bool)

  /** Ticks of blinking after a hit. */
  const BlinkTicks: int := 30

  /** One hit on the player, at the moment the score is `score`. */
  function Hit(l: LifeState, score: int): (r: LifeState)
    ensures l.gameOver ==> r == l
    ensures !l.gameOver ==> r.lives >= 0 && (l.lives > 0 ==> r.lives == l.lives - 1) && r.blink == BlinkTicks
    ensures !l.gameOver ==> (r.gameOver <==> r.lives == 0)
    ensures !l.gameOver && r.gameOver ==> r.lastscore == score && !r.ufoSounding
    ensures !r.gameOver ==> r.lastscore == l.lastscore && r.ufoSounding == l.ufoSounding
  {
    if l.gameOver then l
    else
      var lives := if 0 > l.lives - 1 then 0 else l.lives - 1;
      if lives == 0 then LifeState(lives, true, BlinkTicks, score, false)
      else LifeState(lives, l.gameOver, BlinkTicks, l.lastscore, l.ufoSounding)
  }

  /** `n` hits in a row, at the same score. */
  function Hits(l: LifeState, score: int, n: nat): LifeState
    decreases n
  {
    if n == 0 then l else Hit(Hits(l, score, n - 1), score)
  }

  /** How many of `n` hits in a row land before the game-over latch closes (each adds an explosion). */
  function Registered(l: LifeState, score: int, n: nat): nat
    decreases n
  {
    if n == 0 then 0
    else Registered(l, score, n - 1) + (if Hits(l, score, n - 1).gameOver then 0 else 1)
  }

  /** Once the game is over, any number of further hits changes nothing. */
  lemma {:induction false} GameOverLatch(l: LifeState, score: int, n: nat)
    requires l.gameOver
    ensures Hits(l, score, n) == l && Registered(l, score, n) == 0
    decreases n
  {
    if n > 0 {
      GameOverLatch(l, score, n - 1);
    }
  }

  /**
   * From a running game with `lives >= 1`, `n` hits leave `max(0, lives - n)`
   * lives; the game is over exactly when `n >= lives`; the last score is
   * recorded then, and every hit after the one that ended the game is a
   * no-op.
   */
  lemma {:induction false} RepeatedHits(l: LifeState, score: int, n: nat)
    requires !l.gameOver && l.lives >= 1
    ensures Hits(l, score, n).lives == if n <= l.lives then l.lives - n else 0
    ensures Hits(l, score, n).gameOver <==> n >= l.lives
    ensures n >= l.lives ==> Hits(l, score, n) == Hits(l, score, l.lives as nat)
    ensures n >= l.lives ==> Hits(l, score, n).lastscore == score && !Hits(l, score, n).ufoSounding
    ensures Registered(l, score, n) == if n <= l.lives then n else l.lives
    decreases n
  {
    if n > 0 {
      RepeatedHits(l, score, n - 1);
    }
  }
}
