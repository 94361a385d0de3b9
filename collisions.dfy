/** Collision resolution (src/App.jsx 66-105) and the player-hit test
    (src/App.jsx 194-208). */
module Collisions {
  import opened Seqs
  import opened Entities

  const ScorePerEnemy: int := 10
  const HitBoxSize: real := 30.0
  const HitDamage: int := 10

  /** A bullet strikes an enemy when it lies in the enemy's closed box. */
  predicate Hits(b: Bullet, e: Enemy) {
    e.x <= b.x <= e.x + e.width && e.y <= b.y <= e.y + e.height
  }

  /** The first bullet of `shots`, in list order, that strikes `e` (`find`):
      there is none exactly when no bullet strikes `e`. */
  function FirstHit(e: Enemy, shots: seq<Bullet>): (r: Option<Bullet>)
    ensures r.None? <==> forall i :: 0 <= i < |shots| ==> !Hits(shots[i], e)
  {
    if shots == [] then None
    else if Hits(shots[0], e) then Some(shots[0])
    else
      var r := FirstHit(e, shots[1..]);
      assert forall i :: 1 <= i < |shots| ==> shots[i] == shots[1..][i - 1];
      r
  }

  /** The bullet `FirstHit` finds strikes `e`, and no bullet before it does;
      `i` is its index. */
  lemma {:induction false} FirstHitIsFirst(e: Enemy, shots: seq<Bullet>) returns (i: nat)
    requires FirstHit(e, shots).Some?
    ensures i < |shots| && shots[i] == FirstHit(e, shots).value && Hits(shots[i], e)
    ensures forall j :: 0 <= j < i ==> !Hits(shots[j], e)
  {
    if Hits(shots[0], e) {
      i := 0;
    } else {
      var k := FirstHitIsFirst(e, shots[1..]);
      i := k + 1;
      assert forall j :: 1 <= j < i ==> shots[j] == shots[1..][j - 1];
    }
  }

  /** The enemies no bullet strikes, in their original order. */
  function Survivors(targets: seq<Enemy>, shots: seq<Bullet>): (r: seq<Enemy>)
    ensures IsSubsequence(r, targets)
  {
    FilterKeepsOrder(targets, (e: Enemy) => FirstHit(e, shots).None?);
    Filter(targets, (e: Enemy) => FirstHit(e, shots).None?)
  }

  /** An enemy survives exactly when it was a target and no bullet strikes it. */
  lemma SurvivorsMembers(targets: seq<Enemy>, shots: seq<Bullet>)
    ensures forall e :: e in Survivors(targets, shots) <==>
              e in targets && forall i :: 0 <= i < |shots| ==> !Hits(shots[i], e)
  {
    FilterMembers(targets, (e: Enemy) => FirstHit(e, shots).None?);
  }

  /** A surviving enemy keeps every copy it had among the targets, and a
      struck one keeps none. */
  lemma SurvivorsCopies(targets: seq<Enemy>, shots: seq<Bullet>)
    ensures forall e :: multiset(Survivors(targets, shots))[e] == if FirstHit(e, shots).None? then multiset(targets)[e] else 0
  {
    FilterMultiplicity(targets, (e: Enemy) => FirstHit(e, shots).None?);
  }

  /** The enemies some bullet strikes, in their original order. */
  function Doomed(targets: seq<Enemy>, shots: seq<Bullet>): (r: seq<Enemy>)
    ensures IsSubsequence(r, targets)
  {
    FilterKeepsOrder(targets, (e: Enemy) => FirstHit(e, shots).Some?);
    Filter(targets, (e: Enemy) => FirstHit(e, shots).Some?)
  }

  /** An enemy is destroyed exactly when it was a target and some bullet
      strikes it. */
  lemma DoomedMembers(targets: seq<Enemy>, shots: seq<Bullet>)
    ensures forall e :: e in Doomed(targets, shots) <==>
              e in targets && exists i :: 0 <= i < |shots| && Hits(shots[i], e)
    ensures forall e :: multiset(Doomed(targets, shots))[e] == if FirstHit(e, shots).Some? then multiset(targets)[e] else 0
  {
    FilterMembers(targets, (e: Enemy) => FirstHit(e, shots).Some?);
    FilterMultiplicity(targets, (e: Enemy) => FirstHit(e, shots).Some?);
  }

  /** Every enemy is either destroyed or survives, so the number destroyed is
      the number of enemies lost. */
  lemma DestroyedCount(targets: seq<Enemy>, shots: seq<Bullet>)
    ensures |Doomed(targets, shots)| == |targets| - |Survivors(targets, shots)|
  {
    FilterSplit(targets, (e: Enemy) => FirstHit(e, shots).None?, (e: Enemy) => FirstHit(e, shots).Some?);
  }

  /** The ids of the bullets spent: for each destroyed enemy, the first bullet
      that strikes it. */
  function SpentIds(targets: seq<Enemy>, shots: seq<Bullet>): set<nat> {
    set e | e in targets && FirstHit(e, shots).Some? :: FirstHit(e, shots).value.id
  }

  /** The explosion that replaces a destroyed enemy: at its centre. */
  function Blast(e: Enemy, id: nat): Explosion {
    Explosion(id, e.x + e.width / 2.0, e.y + e.height / 2.0)
  }

  /** One explosion per destroyed enemy, in order, all carrying the id `blastId`. */
  function Blasts(doomed: seq<Enemy>, blastId: nat): (r: seq<Explosion>)
    ensures |r| == |doomed|
    ensures forall k :: 0 <= k < |r| ==>
              r[k].id == blastId && r[k].x == doomed[k].x + doomed[k].width / 2.0 &&
              r[k].y == doomed[k].y + doomed[k].height / 2.0
  {
    Map(doomed, (e: Enemy) => Blast(e, blastId))
  }

  /** The player bullets left once every bullet whose id was spent is
      removed, in their original order. */
  function RemoveSpent(bs: seq<Bullet>, spent: set<nat>): (r: seq<Bullet>)
    ensures IsSubsequence(r, bs)
  {
    FilterKeepsOrder(bs, (b: Bullet) => b.id !in spent);
    Filter(bs, (b: Bullet) => b.id !in spent)
  }

  /** A bullet is kept exactly when its id was not spent. */
  lemma RemoveSpentMembers(bs: seq<Bullet>, spent: set<nat>)
    ensures forall b :: b in RemoveSpent(bs, spent) <==> b in bs && b.id !in spent
    ensures forall b :: multiset(RemoveSpent(bs, spent))[b] == if b.id !in spent then multiset(bs)[b] else 0
  {
    FilterMembers(bs, (b: Bullet) => b.id !in spent);
    FilterMultiplicity(bs, (b: Bullet) => b.id !in spent);
  }

  /** One more target survives exactly when no bullet strikes it. */
  lemma SurvivorsSnoc(done: seq<Enemy>, e: Enemy, shots: seq<Bullet>)
    ensures Survivors(done + [e], shots) ==
            Survivors(done, shots) + (if FirstHit(e, shots).None? then [e] else [])
  {
    FilterSnoc(done, e, (e: Enemy) => FirstHit(e, shots).None?);
  }

  /** One more target is destroyed exactly when some bullet strikes it. */
  lemma DoomedSnoc(done: seq<Enemy>, e: Enemy, shots: seq<Bullet>)
    ensures Doomed(done + [e], shots) ==
            Doomed(done, shots) + (if FirstHit(e, shots).Some? then [e] else [])
  {
    FilterSnoc(done, e, (e: Enemy) => FirstHit(e, shots).Some?);
  }

  /** One more target spends the first bullet that strikes it, if any. */
  lemma SpentIdsSnoc(done: seq<Enemy>, e: Enemy, shots: seq<Bullet>)
    ensures SpentIds(done + [e], shots) ==
            SpentIds(done, shots) + (if FirstHit(e, shots).Some? then {FirstHit(e, shots).value.id} else {})
  {
    assert forall t :: t in done + [e] <==> t in done || t == e;
  }

  /** The explosions of a list of destroyed enemies extended at the end. */
  lemma BlastsSnoc(doomed: seq<Enemy>, extra: seq<Enemy>, blastId: nat)
    requires |extra| <= 1
    ensures Blasts(doomed + extra, blastId) == Blasts(doomed, blastId) + Blasts(extra, blastId)
  {
    var r, a, b := Blasts(doomed + extra, blastId), Blasts(doomed, blastId), Blasts(extra, blastId);
    assert forall k :: 0 <= k < |r| ==> r[k] == (a + b)[k];
  }

  /** What one more enemy adds to each result of the collision filter. */
  lemma ResolveStep(done: seq<Enemy>, e: Enemy, shots: seq<Bullet>, blastId: nat)
    ensures Survivors(done + [e], shots) ==
            Survivors(done, shots) + (if FirstHit(e, shots).None? then [e] else [])
    ensures Doomed(done + [e], shots) ==
            Doomed(done, shots) + (if FirstHit(e, shots).Some? then [e] else [])
    ensures SpentIds(done + [e], shots) ==
            SpentIds(done, shots) + (if FirstHit(e, shots).Some? then {FirstHit(e, shots).value.id} else {})
    ensures Blasts(Doomed(done + [e], shots), blastId) ==
            Blasts(Doomed(done, shots), blastId) + (if FirstHit(e, shots).Some? then [Blast(e, blastId)] else [])
  {
    SurvivorsSnoc(done, e, shots);
    DoomedSnoc(done, e, shots);
    SpentIdsSnoc(done, e, shots);
    var extra := if FirstHit(e, shots).Some? then [e] else [];
    BlastsSnoc(Doomed(done, shots), extra, blastId);
  }

  /** A bullet can be the first to strike several enemies, so the bullets
      spent never outnumber the enemies destroyed. */
  lemma {:induction false} SpentAtMostDestroyed(targets: seq<Enemy>, shots: seq<Bullet>)
    ensures |SpentIds(targets, shots)| <= |Doomed(targets, shots)|
    decreases |targets|
  {
    if targets != [] {
      var done, e := targets[..|targets| - 1], targets[|targets| - 1];
      assert targets == done + [e];
      ResolveStep(done, e, shots, 0);
      SpentAtMostDestroyed(done, shots);
    }
  }

  /** One bullet in the overlap of two enemies destroys both and is the only
      bullet spent. */
  lemma OneBulletTwoEnemies()
    ensures var first, second, shot := Enemy(0, 100.0, 100.0, 1.0, 50.0, 50.0),
                                       Enemy(1, 120.0, 100.0, 1.0, 50.0, 50.0), Bullet(7, 130.0, 110.0);
            Survivors([first, second], [shot]) == [] &&
            Doomed([first, second], [shot]) == [first, second] &&
            SpentIds([first, second], [shot]) == {7}
  {
    var first, second, shot := Enemy(0, 100.0, 100.0, 1.0, 50.0, 50.0),
                               Enemy(1, 120.0, 100.0, 1.0, 50.0, 50.0), Bullet(7, 130.0, 110.0);
    ResolveStep([], first, [shot], 0);
    assert [] + [first] == [first] && [first] + [second] == [first, second];
    ResolveStep([first], second, [shot], 0);
  }

  /** `checkCollisions`: the enemy filter whose callback also counts the
      destroyed enemies, collects the spent bullet ids and queues one explosion
      per destroyed enemy (all with the id `blastId` the callback captured). */
  method CheckCollisions(targets: seq<Enemy>, shots: seq<Bullet>, blastId: nat)
    returns (survivors: seq<Enemy>, destroyed: nat, spent: set<nat>, blasts: seq<Explosion>)
    ensures survivors == Survivors(targets, shots)
    ensures destroyed == |Doomed(targets, shots)| == |targets| - |survivors|
    ensures spent == SpentIds(targets, shots)
    ensures blasts == Blasts(Doomed(targets, shots), blastId)
  {
    survivors, destroyed, spent, blasts := [], 0, {}, [];
    var i := 0;
    while i < |targets|
      invariant 0 <= i <= |targets|
      invariant survivors == Survivors(targets[..i], shots)
      invariant destroyed == |Doomed(targets[..i], shots)|
      invariant spent == SpentIds(targets[..i], shots)
      invariant blasts == Blasts(Doomed(targets[..i], shots), blastId)
    {
      var enemy := targets[i];
      var hit := FirstHit(enemy, shots);
      assert targets[..i + 1] == targets[..i] + [enemy];
      ResolveStep(targets[..i], enemy, shots, blastId);
      if hit.Some? {
        destroyed := destroyed + 1;
        spent := spent + {hit.value.id};
        blasts := blasts + [Blast(enemy, blastId)];
      } else {
        survivors := survivors + [enemy];
      }
      i := i + 1;
    }
    assert targets[..i] == targets;
    DestroyedCount(targets, shots);
  }

  /** An enemy bullet strikes the player when it lies in the player's 30x30 box. */
  predicate InHitBox(b: Bullet, pos: Vec) {
    pos.x <= b.x <= pos.x + HitBoxSize && pos.y <= b.y <= pos.y + HitBoxSize
  }

  /** Whether some enemy bullet strikes the player (`some`). */
  function PlayerHit(threats: seq<Bullet>, pos: Vec): (hit: bool)
    ensures hit <==> exists i :: 0 <= i < |threats| && InHitBox(threats[i], pos)
  {
    if threats == [] then false
    else if InHitBox(threats[0], pos) then true
    else
      var hit := PlayerHit(threats[1..], pos);
      assert forall i :: 1 <= i < |threats| ==> threats[i] == threats[1..][i - 1];
      hit
  }

  /** The player's health after the hit test of one tick: a hit costs one
      fixed loss however many bullets overlap, and health never drops below 0. */
  function HealthAfter(health: int, hit: bool): (h: int)
    ensures !hit ==> h == health
    ensures hit ==> 0 <= h && health - HitDamage <= h && (h == 0 || h == health - HitDamage)
    ensures hit && 0 < health ==> h < health
    ensures hit ==> (h == 0 <==> health <= HitDamage)
  {
    if hit then (if health - HitDamage > 0 then health - HitDamage else 0) else health
  }
}
