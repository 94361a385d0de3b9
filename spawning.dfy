/** Enemy spawning and enemy fire (src/App.jsx 167-190). Every `Math.random()`
    of the source is a roll in [0, 1) handed in by the caller. */
module Spawning {
  import opened Entities

  const SpawnChance: real := 0.02
  const FireChance: real := 0.005
  const EnemySize: real := 50.0
  const MinEnemySpeed: real := 1.0
  const EnemySpeedRange: real := 2.0

  /** A new enemy from the two rolls `rx` (position) and `rs` (speed): it
      appears at the top edge, fully inside the screen when the screen is at
      least one enemy wide, and falls at a speed in [1, 3). */
  function SpawnEnemy(id: nat, screen: Screen, rx: real, rs: real): (e: Enemy)
    requires 0.0 <= rx < 1.0 && 0.0 <= rs < 1.0
    ensures e.id == id && e.y == 0.0
    ensures e.width == EnemySize && e.height == EnemySize
    ensures MinEnemySpeed <= e.speed < MinEnemySpeed + EnemySpeedRange
    ensures EnemySize <= screen.width ==> 0.0 <= e.x <= screen.width - EnemySize
    ensures screen.width < EnemySize ==> screen.width - EnemySize < e.x <= 0.0
  {
    Enemy(id, Scale(rx, screen.width - EnemySize), 0.0, Scale(rs, EnemySpeedRange) + MinEnemySpeed, EnemySize, EnemySize)
  }

  /** `Math.random() * d`, for a roll `r` in [0, 1): it lies between 0 and
      `d`, and never reaches `d` unless `d` is 0. */
  function Scale(r: real, d: real): (p: real)
    requires 0.0 <= r < 1.0
    ensures 0.0 <= d ==> 0.0 <= p <= d
    ensures 0.0 < d ==> p < d
    ensures d < 0.0 ==> d < p <= 0.0
  {
    assert d < 0.0 ==> r * (-d) < -d;
    r * d
  }

  predicate Fires(roll: real) { roll < FireChance }

  /** How many of `rolls` make their enemy fire. */
  function FiringCount(rolls: seq<real>): nat {
    if rolls == [] then 0 else (if Fires(rolls[0]) then 1 else 0) + FiringCount(rolls[1..])
  }

  /** The bullet an enemy fires: from the middle of its bottom edge. */
  function Muzzle(e: Enemy, id: nat): Bullet {
    Bullet(id, e.x + e.width / 2.0, e.y + e.height)
  }

  /** The bullets `shooters` add, in order, to an enemy-bullet list that holds
      `len` bullets so far; shooter i fires when `rolls[i]` is below the fire
      chance, and each bullet's id is `baseId` plus the list length before it. */
  function Volley(shooters: seq<Enemy>, rolls: seq<real>, baseId: nat, len: nat): (r: seq<Bullet>)
    requires |rolls| == |shooters|
    ensures |r| == FiringCount(rolls)
    ensures forall k :: 0 <= k < |r| ==> r[k].id == baseId + len + k
    decreases |shooters|
  {
    if shooters == [] then []
    else if Fires(rolls[0]) then
      [Muzzle(shooters[0], baseId + len)] + Volley(shooters[1..], rolls[1..], baseId, len + 1)
    else Volley(shooters[1..], rolls[1..], baseId, len)
  }

  /** Every shooter whose roll fires contributes a bullet at its muzzle; `k`
      is that bullet's place in the volley. */
  lemma {:induction false} EveryFiringEnemyShoots(shooters: seq<Enemy>, rolls: seq<real>, baseId: nat, len: nat, i: nat)
    returns (k: nat)
    requires |rolls| == |shooters| && i < |shooters| && Fires(rolls[i])
    ensures k < |Volley(shooters, rolls, baseId, len)|
    ensures Volley(shooters, rolls, baseId, len)[k] == Muzzle(shooters[i], baseId + len + k)
    decreases i
  {
    var tail := shooters[1..];
    if i == 0 {
      k := 0;
    } else if Fires(rolls[0]) {
      var k' := EveryFiringEnemyShoots(tail, rolls[1..], baseId, len + 1, i - 1);
      var rest := Volley(tail, rolls[1..], baseId, len + 1);
      assert Volley(shooters, rolls, baseId, len) == [Muzzle(shooters[0], baseId + len)] + rest;
      assert tail[i - 1] == shooters[i];
      assert rest[k'] == Muzzle(shooters[i], baseId + len + 1 + k');
      k := k' + 1;
    } else {
      k := EveryFiringEnemyShoots(tail, rolls[1..], baseId, len, i - 1);
      assert Volley(shooters, rolls, baseId, len) == Volley(tail, rolls[1..], baseId, len);
      assert tail[i - 1] == shooters[i];
    }
  }

  /** Conversely, every bullet of the volley comes from a shooter whose roll
      fires; `i` is that shooter's index. */
  lemma {:induction false} EveryShotHasAShooter(shooters: seq<Enemy>, rolls: seq<real>, baseId: nat, len: nat, k: nat)
    returns (i: nat)
    requires |rolls| == |shooters| && k < |Volley(shooters, rolls, baseId, len)|
    ensures i < |shooters| && Fires(rolls[i])
    ensures Volley(shooters, rolls, baseId, len)[k] == Muzzle(shooters[i], baseId + len + k)
    decreases |shooters|
  {
    var tail := shooters[1..];
    if Fires(rolls[0]) {
      var rest := Volley(tail, rolls[1..], baseId, len + 1);
      assert Volley(shooters, rolls, baseId, len) == [Muzzle(shooters[0], baseId + len)] + rest;
      if k == 0 {
        i := 0;
      } else {
        var i' := EveryShotHasAShooter(tail, rolls[1..], baseId, len + 1, k - 1);
        assert tail[i'] == shooters[i' + 1];
        i := i' + 1;
      }
    } else {
      assert Volley(shooters, rolls, baseId, len) == Volley(tail, rolls[1..], baseId, len);
      var i' := EveryShotHasAShooter(tail, rolls[1..], baseId, len, k);
      assert tail[i'] == shooters[i' + 1];
      i := i' + 1;
    }
  }

  /** The volley follows enemy order: when shooters `i < j` both fire, the
      bullet of `i` comes before the bullet of `j`; `ki` and `kj` are their
      places in the volley. */
  lemma {:induction false} ShotsInShooterOrder(shooters: seq<Enemy>, rolls: seq<real>, baseId: nat, len: nat, i: nat, j: nat)
    returns (ki: nat, kj: nat)
    requires |rolls| == |shooters| && i < j < |shooters| && Fires(rolls[i]) && Fires(rolls[j])
    ensures ki < kj < |Volley(shooters, rolls, baseId, len)|
    ensures Volley(shooters, rolls, baseId, len)[ki] == Muzzle(shooters[i], baseId + len + ki)
    ensures Volley(shooters, rolls, baseId, len)[kj] == Muzzle(shooters[j], baseId + len + kj)
    decreases i
  {
    var tail := shooters[1..];
    assert tail[j - 1] == shooters[j];
    if Fires(rolls[0]) {
      var rest := Volley(tail, rolls[1..], baseId, len + 1);
      assert Volley(shooters, rolls, baseId, len) == [Muzzle(shooters[0], baseId + len)] + rest;
      if i == 0 {
        var k := EveryFiringEnemyShoots(tail, rolls[1..], baseId, len + 1, j - 1);
        ki, kj := 0, k + 1;
      } else {
        assert tail[i - 1] == shooters[i];
        var a, b := ShotsInShooterOrder(tail, rolls[1..], baseId, len + 1, i - 1, j - 1);
        ki, kj := a + 1, b + 1;
      }
    } else {
      assert Volley(shooters, rolls, baseId, len) == Volley(tail, rolls[1..], baseId, len);
      assert tail[i - 1] == shooters[i];
      ki, kj := ShotsInShooterOrder(tail, rolls[1..], baseId, len, i - 1, j - 1);
    }
  }

  /** The enemy-shooting updater: a copy of the enemy-bullet list onto which
      each firing enemy pushes one bullet. */
  method EnemyFire(prev: seq<Bullet>, shooters: seq<Enemy>, rolls: seq<real>, baseId: nat)
    returns (next: seq<Bullet>)
    requires |rolls| == |shooters|
    ensures next == prev + Volley(shooters, rolls, baseId, |prev|)
  {
    next := prev;
    var i := 0;
    while i < |shooters|
      invariant 0 <= i <= |shooters|
      invariant next + Volley(shooters[i..], rolls[i..], baseId, |next|) == prev + Volley(shooters, rolls, baseId, |prev|)
    {
      assert shooters[i..][1..] == shooters[i + 1..] && rolls[i..][1..] == rolls[i + 1..];
      if rolls[i] < FireChance {
        next := next + [Muzzle(shooters[i], baseId + |next|)];
      }
      i := i + 1;
    }
  }
}
