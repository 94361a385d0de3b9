/** Per-tick movement of the projectiles, the enemies and the explosions, each
    followed by the pruning of what left the screen (src/App.jsx 155-165 and
    211-214). Each is a `map` then a `filter`; survivors keep their order. */
module Movement {
  import opened Seqs
  import opened Entities

  const PlayerBulletSpeed: real := 7.0
  const EnemyBulletSpeed: real := 5.0
  const ExplosionDrift: real := 1.0

  function Climb(b: Bullet): Bullet { b.(y := b.y - PlayerBulletSpeed) }
  function Sink(b: Bullet): Bullet { b.(y := b.y + EnemyBulletSpeed) }
  function Drift(x: Explosion): Explosion { x.(y := x.y + ExplosionDrift) }

  /** Player bullets move up by 7 and survive while still below the top edge;
      the survivors keep their order. */
  function MoveBullets(bs: seq<Bullet>): (r: seq<Bullet>)
    ensures IsSubsequence(r, Map(bs, Climb))
  {
    FilterKeepsOrder(Map(bs, Climb), (b: Bullet) => b.y > 0.0);
    Filter(Map(bs, Climb), (b: Bullet) => b.y > 0.0)
  }

  /** A player bullet survives the move exactly when it is still below the
      top edge, and every survivor is. */
  lemma MoveBulletsKeeps(bs: seq<Bullet>)
    ensures forall i :: 0 <= i < |bs| ==>
              (bs[i].(y := bs[i].y - PlayerBulletSpeed) in MoveBullets(bs) <==> bs[i].y - PlayerBulletSpeed > 0.0)
    ensures forall b :: b in MoveBullets(bs) ==> 0.0 < b.y
    ensures forall b :: multiset(MoveBullets(bs))[b] == if b.y > 0.0 then multiset(Map(bs, Climb))[b] else 0
  {
    FilterMembers(Map(bs, Climb), (b: Bullet) => b.y > 0.0);
    FilterMultiplicity(Map(bs, Climb), (b: Bullet) => b.y > 0.0);
  }

  /** Enemy bullets move down by 5 and survive while above the bottom edge;
      the survivors keep their order. */
  function MoveEnemyBullets(bs: seq<Bullet>, height: real): (r: seq<Bullet>)
    ensures IsSubsequence(r, Map(bs, Sink))
  {
    FilterKeepsOrder(Map(bs, Sink), (b: Bullet) => b.y < height);
    Filter(Map(bs, Sink), (b: Bullet) => b.y < height)
  }

  /** An enemy bullet survives the move exactly when it is still above the
      bottom edge, and every survivor is. */
  lemma MoveEnemyBulletsKeeps(bs: seq<Bullet>, height: real)
    ensures forall i :: 0 <= i < |bs| ==>
              (bs[i].(y := bs[i].y + EnemyBulletSpeed) in MoveEnemyBullets(bs, height) <==> bs[i].y + EnemyBulletSpeed < height)
    ensures forall b :: b in MoveEnemyBullets(bs, height) ==> b.y < height
    ensures forall b :: multiset(MoveEnemyBullets(bs, height))[b] == if b.y < height then multiset(Map(bs, Sink))[b] else 0
  {
    FilterMembers(Map(bs, Sink), (b: Bullet) => b.y < height);
    FilterMultiplicity(Map(bs, Sink), (b: Bullet) => b.y < height);
  }

  /** An enemy falls by its own speed and drifts sideways by `weave` of the
      height it fell from. */
  function Fall(e: Enemy, weave: real -> real): Enemy {
    e.(y := e.y + e.speed, x := e.x + weave(e.y))
  }

  /** Enemies fall and weave, and survive while above the bottom edge; the
      survivors keep their order. */
  function MoveEnemies(es: seq<Enemy>, weave: real -> real, height: real): (r: seq<Enemy>)
    ensures IsSubsequence(r, Map(es, (e: Enemy) => Fall(e, weave)))
  {
    FilterKeepsOrder(Map(es, (e: Enemy) => Fall(e, weave)), (e: Enemy) => e.y < height);
    Filter(Map(es, (e: Enemy) => Fall(e, weave)), (e: Enemy) => e.y < height)
  }

  /** An enemy survives the move exactly when it is still above the bottom
      edge, and every survivor is. */
  lemma MoveEnemiesKeeps(es: seq<Enemy>, weave: real -> real, height: real)
    ensures forall i :: 0 <= i < |es| ==>
              (Fall(es[i], weave) in MoveEnemies(es, weave, height) <==> es[i].y + es[i].speed < height)
    ensures forall e :: e in MoveEnemies(es, weave, height) ==> e.y < height
    ensures forall e :: multiset(MoveEnemies(es, weave, height))[e] ==
              if e.y < height then multiset(Map(es, (e: Enemy) => Fall(e, weave)))[e] else 0
  {
    FilterMembers(Map(es, (e: Enemy) => Fall(e, weave)), (e: Enemy) => e.y < height);
    FilterMultiplicity(Map(es, (e: Enemy) => Fall(e, weave)), (e: Enemy) => e.y < height);
  }

  /** Every enemy left after the move is an input enemy moved, with its id,
      speed and size unchanged; `i` is its place among the inputs. */
  lemma MovedEnemyOrigin(es: seq<Enemy>, weave: real -> real, height: real, e: Enemy) returns (i: nat)
    requires e in MoveEnemies(es, weave, height)
    ensures i < |es| && e == es[i].(y := es[i].y + es[i].speed, x := es[i].x + weave(es[i].y))
  {
    i := FilterMapOrigin(es, (e: Enemy) => Fall(e, weave), (e: Enemy) => e.y < height, e);
  }

  /** Every player bullet left after the move is an input bullet moved up,
      with its id and x unchanged. */
  lemma MovedBulletOrigin(bs: seq<Bullet>, b: Bullet) returns (i: nat)
    requires b in MoveBullets(bs)
    ensures i < |bs| && b == bs[i].(y := bs[i].y - PlayerBulletSpeed)
  {
    i := FilterMapOrigin(bs, Climb, (b: Bullet) => b.y > 0.0, b);
  }

  /** Explosions sink by 1 and are dropped once they reach the bottom edge;
      the rest keep their order. */
  function DriftExplosions(xs: seq<Explosion>, height: real): (r: seq<Explosion>)
    ensures IsSubsequence(r, Map(xs, Drift))
  {
    FilterKeepsOrder(Map(xs, Drift), (x: Explosion) => x.y < height);
    Filter(Map(xs, Drift), (x: Explosion) => x.y < height)
  }

  /** An explosion survives the drift exactly when it is still above the
      bottom edge, and every survivor is. */
  lemma DriftExplosionsKeeps(xs: seq<Explosion>, height: real)
    ensures forall i :: 0 <= i < |xs| ==>
              (xs[i].(y := xs[i].y + ExplosionDrift) in DriftExplosions(xs, height) <==> xs[i].y + ExplosionDrift < height)
    ensures forall x :: x in DriftExplosions(xs, height) ==> x.y < height
    ensures forall x :: multiset(DriftExplosions(xs, height))[x] == if x.y < height then multiset(Map(xs, Drift))[x] else 0
  {
    FilterMembers(Map(xs, Drift), (x: Explosion) => x.y < height);
    FilterMultiplicity(Map(xs, Drift), (x: Explosion) => x.y < height);
  }
}
