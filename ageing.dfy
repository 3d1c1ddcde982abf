/**
 * Per-tick ageing of bullets, explosions and popups.
 *
 * Bullets and explosions are advanced by `list.forEach((x, i) => { advance x;
 * if (gone) list.splice(i, 1); })`. Removing the element at index `i` shifts
 * its successor into index `i`, which `forEach` has already visited, so
 * that successor is neither advanced nor tested on this tick. `Sweep` is a
 * declarative description of that outcome; `SweepInPlace` is the index loop
 * the source performs, proved to agree with it.
 */
module Ageing {
  import opened Basics
  import opened Geometry
  import opened Entities

  /** Outcome of one forEach-and-splice pass: a removed element shields its successor. */
  function Sweep<T>(s: seq<T>, step: T -> T, gone: T -> bool): (r: seq<T>)
    ensures |r| <= |s|
    decreases |s|
  {
    if s == [] then []
    else if !gone(step(s[0])) then [step(s[0])] + Sweep(s[1..], step, gone)
    else if |s| == 1 then []
    else [s[1]] + Sweep(s[2..], step, gone)
  }

  /**
   * The loop `forEach` runs: indices up to the original length, skipping
   * indices past the current end, splicing out what leaves.
   */
  method SweepInPlace<T>(s: seq<T>, step: T -> T, gone: T -> bool) returns (list: seq<T>)
    ensures list == Sweep(s, step, gone)
  {
    list := s;
    var n := |s|;
    var k := 0;
    while k < n
      invariant 0 <= k && |list| <= n
      invariant k <= |list| ==> Sweep(s, step, gone) == list[..k] + Sweep(list[k..], step, gone)
      invariant k > |list| ==> Sweep(s, step, gone) == list
      decreases n - k
    {
      if k < |list| {
        var done, x, rest := list[..k], step(list[k]), list[k + 1..];
        SweepFront(list[k..], step, gone);
        assert list[k..][1..] == rest;
        if gone(x) {
          list := done + rest;
          if rest != [] {
            assert rest == [rest[0]] + rest[1..];
            SplitAfter(done, rest[0], rest[1..], Sweep(rest[1..], step, gone));
          }
        } else {
          list := done + [x] + rest;
          SplitAfter(done, x, rest, Sweep(rest, step, gone));
        }
      }
      k := k + 1;
    }
    if k == |list| {
      assert list[..k] == list && list[k..] == [];
    }
  }

  /** One unfolding of `Sweep` at the front of a non-empty list. */
  lemma SweepFront<T>(t: seq<T>, step: T -> T, gone: T -> bool)
    requires t != []
    ensures !gone(step(t[0])) ==> Sweep(t, step, gone) == [step(t[0])] + Sweep(t[1..], step, gone)
    ensures gone(step(t[0])) && |t| == 1 ==> Sweep(t, step, gone) == []
    ensures gone(step(t[0])) && |t| > 1 ==> Sweep(t, step, gone) == [t[1]] + Sweep(t[1..][1..], step, gone)
  {
    assert |t| > 1 ==> t[2..] == t[1..][1..];
  }

  lemma SplitAfter<T>(done: seq<T>, x: T, rest: seq<T>, tail: seq<T>)
    ensures (done + [x] + rest)[..|done| + 1] == done + [x]
    ensures (done + [x] + rest)[|done| + 1..] == rest
    ensures done + [x] + rest == done + ([x] + rest)
    ensures done + ([x] + tail) == (done + [x]) + tail
  {
  }

  /** When nothing leaves, every element is advanced and kept, in order. */
  lemma {:induction false} SweepAdvancesAllWhenNoneLeave<T>(s: seq<T>, step: T -> T, gone: T -> bool)
    requires forall i :: 0 <= i < |s| ==> !gone(step(s[i]))
    ensures |Sweep(s, step, gone)| == |s|
    ensures forall i :: 0 <= i < |s| ==> Sweep(s, step, gone)[i] == step(s[i])
    decreases |s|
  {
    if s != [] {
      SweepAdvancesAllWhenNoneLeave(s[1..], step, gone);
    }
  }

  /** Whatever is left was either advanced and still inside, or taken over from the input unadvanced. */
  lemma {:induction false} SweepResultFromInput<T>(s: seq<T>, step: T -> T, gone: T -> bool)
    ensures forall y :: y in Sweep(s, step, gone) ==>
      y in s || exists x :: x in s && y == step(x) && !gone(y)
    decreases |s|
  {
    if s != [] {
      if !gone(step(s[0])) {
        SweepResultFromInput(s[1..], step, gone);
      } else if |s| > 1 {
        SweepResultFromInput(s[2..], step, gone);
      }
    }
  }

  /** The quirk: of two neighbours that both leave, the second stays, unadvanced. */
  lemma SweepSparesSuccessor<T>(a: T, b: T, rest: seq<T>, step: T -> T, gone: T -> bool)
    requires gone(step(a))
    ensures Sweep([a, b] + rest, step, gone) == [b] + Sweep(rest, step, gone)
  {
    assert ([a, b] + rest)[2..] == rest;
  }

  /** Player bullets rise by `speed * dt`; they leave once above the top edge. */
  function RisePlayerBullet(dt: real): Bullet -> Bullet
  {
    (b: Bullet) => b.(y := b.y - b.speed * dt)
  }
  function AbovePlayfield(b: Bullet): bool { b.y < 0.0 }

  /** Enemy bullets fall by `speed * dt`; they leave once below the bottom edge. */
  function FallEnemyBullet(dt: real): Bullet -> Bullet
  {
    (b: Bullet) => b.(y := b.y + b.speed * dt)
  }
  function BelowPlayfield(b: Bullet): bool { b.y > GameH }

  /** Explosions age by one tick and leave after `ExplosionDuration` ticks. */
  function AgeExplosion(e: Explosion): Explosion { e.(frame := e.frame + 1) }
  function ExplosionOver(e: Explosion): bool { e.frame > ExplosionDuration }

  /** Every popup one tick older. */
  function Older(ps: seq<Popup>): (r: seq<Popup>)
    ensures |r| == |ps| && forall i :: 0 <= i < |ps| ==> r[i] == ps[i].(frame := ps[i].frame + 1)
  {
    seq(|ps|, i requires 0 <= i < |ps| => ps[i].(frame := ps[i].frame + 1))
  }

  /** Number of popups that are still shown once aged by one tick. */
  function CountShown(ps: seq<Popup>): (n: nat)
    ensures n <= |ps|
  {
    if ps == [] then 0 else (if ps[0].frame < PopupDuration then 1 else 0) + CountShown(ps[1..])
  }

  /**
   * `updatePopups`: age every popup by one tick and keep, in order, exactly
   * those still at most `PopupDuration` old.
   */
  function AgePopups(ps: seq<Popup>): (r: seq<Popup>)
    ensures |r| == CountShown(ps) <= |ps|
    ensures SubseqOf(r, Older(ps))
    ensures forall i :: 0 <= i < |r| ==> r[i].frame <= PopupDuration
    ensures forall i :: 0 <= i < |ps| && ps[i].frame < PopupDuration ==> ps[i].(frame := ps[i].frame + 1) in r
  {
    if ps == [] then []
    else
      var p := ps[0].(frame := ps[0].frame + 1);
      var rest := AgePopups(ps[1..]);
      assert forall i :: 1 <= i < |ps| ==> ps[i] == ps[1..][i - 1];
      assert Older(ps) == [p] + Older(ps[1..]);
      assert Older(ps)[1..] == Older(ps[1..]);
      if p.frame <= PopupDuration then
        assert ([p] + rest)[1..] == rest;
        [p] + rest
      else rest
  }

  /** A popup list after `k` ticks. */
  function AgePopupsTimes(ps: seq<Popup>, k: nat): seq<Popup>
    decreases k
  {
    if k == 0 then ps else AgePopupsTimes(AgePopups(ps), k - 1)
  }

  /** A fresh popup is shown for exactly `PopupDuration` ticks. */
  lemma {:induction false} PopupLifetime(p: Popup, k: nat)
    requires p.frame == 0
    ensures k <= PopupDuration ==> AgePopupsTimes([p], k) == [p.(frame := k)]
    ensures k > PopupDuration ==> AgePopupsTimes([p], k) == []
  {
    PopupLifetimeFrom(p, k);
  }

  /** A popup of age `f` is shown, aged, for the remaining `PopupDuration - f` ticks. */
  lemma {:induction false} PopupLifetimeFrom(p: Popup, k: nat)
    requires 0 <= p.frame <= PopupDuration
    ensures p.frame + k <= PopupDuration ==> AgePopupsTimes([p], k) == [p.(frame := p.frame + k)]
    ensures p.frame + k > PopupDuration ==> AgePopupsTimes([p], k) == []
    decreases k
  {
    if k == 0 {
      assert p.(frame := p.frame + k) == p;
    } else if p.frame < PopupDuration {
      var q := p.(frame := p.frame + 1);
      AgeSingle(p);
      assert AgePopupsTimes([p], k) == AgePopupsTimes([q], k - 1);
      PopupLifetimeFrom(q, k - 1);
      assert q.(frame := q.frame + (k - 1)) == p.(frame := p.frame + k);
    } else {
      AgeSingle(p);
      EmptyStaysEmpty(k - 1);
    }
  }

  /** One tick of a single popup. */
  lemma AgeSingle(p: Popup)
    ensures AgePopups([p]) == if p.frame < PopupDuration then [p.(frame := p.frame + 1)] else []
  {
    assert [p][1..] == [];
  }

  /** Ageing no popups for any number of ticks leaves no popups. */
  lemma {:induction false} EmptyStaysEmpty(k: nat)
    ensures AgePopupsTimes([], k) == []
  {
    if k > 0 {
      EmptyStaysEmpty(k - 1);
    }
  }
}
