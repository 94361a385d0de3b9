/** The game state of `App` (src/App.jsx 9-22) and the three ways it changes:
    the 60 Hz tick of the game loop, firing on space-bar release, and restart.

    The interval callback reads the state its closure captured and queues one
    updater per slice; React applies the queued updaters in hook order once
    the callback returns. `Step` is that tick as a function of the captured
    state, `Advance` computes it step by step in the order of the callback,
    and `Game.Tick` commits the result to the game's fields. */
module Simulation {
  import opened Entities
  import Kinematics
  import Movement
  import Spawning
  import Collisions

  const StartHealth: int := 100
  /** Restart puts the ship this far above the bottom edge, centred. */
  const StartLift: real := 100.0
  /** Player bullets leave the ship this far right of its corner. */
  const GunOffset: real := 15.0

  /** Every state slice of the game, as one value. */
  datatype World = World(
    screen: Screen, pos: Vec, vel: Vec, health: int, score: int, gameOver: bool,
    enemies: seq<Enemy>, bullets: seq<Bullet>, enemyBullets: seq<Bullet>, explosions: seq<Explosion>,
    enemyId: nat, bulletId: nat, explosionId: nat)

  /** The `Math.random()` draws of one tick: whether an enemy spawns, its
      position and its speed, and one fire roll per enemy. */
  datatype Rolls = Rolls(spawn: real, spawnX: real, spawnSpeed: real, fire: seq<real>)

  /** The draws are in [0, 1) where they scale something, and there is one
      fire roll per enemy the tick starts with. */
  predicate RollsFit(w: World, rolls: Rolls) {
    0.0 <= rolls.spawnX < 1.0 && 0.0 <= rolls.spawnSpeed < 1.0 && |rolls.fire| == |w.enemies|
  }

  /** The state every game starts in. */
  function Initial(screen: Screen): World {
    World(screen, Vec(screen.width / 2.0, screen.height - StartLift), Vec(0.0, 0.0), StartHealth, 0, false,
          [], [], [], [], 0, 0, 0)
  }

  /** An enemy as spawned: 50x50 and falling at a speed in [1, 3). Movement
      keeps all three. */
  predicate WellFormed(e: Enemy) {
    e.width == Spawning.EnemySize && e.height == Spawning.EnemySize &&
    Spawning.MinEnemySpeed <= e.speed < Spawning.MinEnemySpeed + Spawning.EnemySpeedRange
  }

  /** What holds of every reachable state: health moves in steps of 10 within
      [0, 100] and is 0 exactly when the game is over, the score moves in
      steps of 10, the velocity respects its maximum and every enemy is as
      spawned. */
  predicate Inv(w: World) {
    0 <= w.health <= StartHealth && w.health % Collisions.HitDamage == 0 &&
    (w.gameOver <==> w.health == 0) &&
    0 <= w.score && w.score % Collisions.ScorePerEnemy == 0 &&
    Kinematics.Abs(w.vel.x) <= Kinematics.MaxVelocity &&
    Kinematics.Abs(w.vel.y) <= Kinematics.MaxVelocity &&
    forall e :: e in w.enemies ==> WellFormed(e)
  }

  /** The enemies after the movement and spawn updaters, which is what the
      collision filter sees. */
  function Arrivals(w: World, rolls: Rolls, weave: real -> real): seq<Enemy>
    requires RollsFit(w, rolls)
  {
    var moved := Movement.MoveEnemies(w.enemies, weave, w.screen.height);
    if rolls.spawn < Spawning.SpawnChance
    then moved + [Spawning.SpawnEnemy(w.enemyId, w.screen, rolls.spawnX, rolls.spawnSpeed)]
    else moved
  }

  /** One tick of the game loop. Nothing moves once the game is over. The
      position moves by the captured velocity, the collision filter tests the
      captured player bullets, enemies fire from their captured places and the
      hit test uses the captured enemy bullets and position. The explosions of
      this tick are queued while the enemy updaters run, after the drift
      updater, so they are appended undrifted. */
  function Step(w: World, keys: Keys, rolls: Rolls, weave: real -> real): (next: World)
    requires RollsFit(w, rolls)
    ensures w.gameOver ==> next == w
    ensures next.screen == w.screen
    ensures !w.gameOver ==>
              next.score == w.score + Collisions.ScorePerEnemy * (|Arrivals(w, rolls, weave)| - |next.enemies|)
  {
    if w.gameOver then w
    else
      var arrivals := Arrivals(w, rolls, weave);
      var doomed := Collisions.Doomed(arrivals, w.bullets);
      var kept := Movement.MoveEnemyBullets(w.enemyBullets, w.screen.height);
      var fired := kept + Spawning.Volley(w.enemies, rolls.fire, w.bulletId, |kept|);
      var hit := Collisions.PlayerHit(w.enemyBullets, w.pos);
      var health := Collisions.HealthAfter(w.health, hit);
      Collisions.DestroyedCount(arrivals, w.bullets);
      World(
        screen := w.screen,
        pos := Kinematics.MovePlayer(w.pos, w.vel, w.screen),
        vel := Kinematics.VelocityAfter(w.vel, keys),
        health := health,
        score := w.score + Collisions.ScorePerEnemy * |doomed|,
        gameOver := hit && health <= 0,
        enemies := Collisions.Survivors(arrivals, w.bullets),
        bullets := Collisions.RemoveSpent(Movement.MoveBullets(w.bullets), Collisions.SpentIds(arrivals, w.bullets)),
        enemyBullets := fired,
        explosions := Movement.DriftExplosions(w.explosions, w.screen.height) + Collisions.Blasts(doomed, w.explosionId),
        enemyId := w.enemyId + (if rolls.spawn < Spawning.SpawnChance then 1 else 0),
        bulletId := w.bulletId + |fired|,
        explosionId := w.explosionId + |doomed|)
  }

  /** The interval callback, statement by statement, on the captured state. */
  method Advance(w: World, keys: Keys, rolls: Rolls, weave: real -> real) returns (next: World)
    requires RollsFit(w, rolls)
    ensures next == Step(w, keys, rolls, weave)
  {
    if w.gameOver {
      return w;
    }
    var height := w.screen.height;
    var vel := Kinematics.NextVelocity(w.vel, keys);
    var pos := Kinematics.MovePlayer(w.pos, w.vel, w.screen);
    var bullets := Movement.MoveBullets(w.bullets);
    var enemyBullets := Movement.MoveEnemyBullets(w.enemyBullets, height);
    var enemies := Movement.MoveEnemies(w.enemies, weave, height);

    var enemyId := w.enemyId;
    if rolls.spawn < Spawning.SpawnChance {
      enemies := enemies + [Spawning.SpawnEnemy(w.enemyId, w.screen, rolls.spawnX, rolls.spawnSpeed)];
      enemyId := enemyId + 1;
    }

    enemyBullets := Spawning.EnemyFire(enemyBullets, w.enemies, rolls.fire, w.bulletId);
    var bulletId := w.bulletId + |enemyBullets|;

    var survivors, destroyed, spent, blasts := Collisions.CheckCollisions(enemies, w.bullets, w.explosionId);
    var score := w.score + destroyed * Collisions.ScorePerEnemy;
    bullets := Collisions.RemoveSpent(bullets, spent);

    var health, gameOver := w.health, w.gameOver;
    if Collisions.PlayerHit(w.enemyBullets, w.pos) {
      health := Collisions.HealthAfter(health, true);
      if health <= 0 {
        gameOver := true;
      }
    }

    var explosions := Movement.DriftExplosions(w.explosions, height) + blasts;
    next := World(w.screen, pos, vel, health, score, gameOver, survivors, bullets, enemyBullets, explosions,
                  enemyId, bulletId, w.explosionId + destroyed);
  }

  /** Falling keeps an enemy's size and speed. */
  lemma MovedWellFormed(enemies: seq<Enemy>, weave: real -> real, height: real)
    requires forall e :: e in enemies ==> WellFormed(e)
    ensures forall e :: e in Movement.MoveEnemies(enemies, weave, height) ==> WellFormed(e)
  {
    var moved := Movement.MoveEnemies(enemies, weave, height);
    forall e | e in moved
      ensures WellFormed(e)
    {
      var i := Movement.MovedEnemyOrigin(enemies, weave, height, e);
      assert enemies[i] in enemies;
    }
  }

  /** Moving and spawning only ever produce well-formed enemies. */
  lemma ArrivalsWellFormed(w: World, rolls: Rolls, weave: real -> real)
    requires RollsFit(w, rolls)
    requires forall e :: e in w.enemies ==> WellFormed(e)
    ensures forall e :: e in Arrivals(w, rolls, weave) ==> WellFormed(e)
  {
    MovedWellFormed(w.enemies, weave, w.screen.height);
    var spawned := Spawning.SpawnEnemy(w.enemyId, w.screen, rolls.spawnX, rolls.spawnSpeed);
    assert WellFormed(spawned);
  }

  /** A tick keeps health on its grid of multiples of 10 within [0, 100]. */
  lemma HealthStep(health: int, hit: bool)
    requires 0 <= health <= StartHealth && health % Collisions.HitDamage == 0
    ensures var h := Collisions.HealthAfter(health, hit); 0 <= h <= StartHealth && h % Collisions.HitDamage == 0
  {
  }

  /** Destroying enemies keeps the score on its grid of multiples of 10. */
  lemma ScoreStep(score: int, destroyed: nat)
    requires 0 <= score && score % Collisions.ScorePerEnemy == 0
    ensures var s := score + Collisions.ScorePerEnemy * destroyed; score <= s && s % Collisions.ScorePerEnemy == 0
  {
  }

  /** Every tick keeps the invariant. */
  lemma StepKeepsInv(w: World, keys: Keys, rolls: Rolls, weave: real -> real)
    requires Inv(w) && RollsFit(w, rolls)
    ensures Inv(Step(w, keys, rolls, weave))
  {
    if !w.gameOver {
      var next := Step(w, keys, rolls, weave);
      var arrivals := Arrivals(w, rolls, weave);
      ArrivalsWellFormed(w, rolls, weave);
      Collisions.SurvivorsMembers(arrivals, w.bullets);
      HealthStep(w.health, Collisions.PlayerHit(w.enemyBullets, w.pos));
      ScoreStep(w.score, |Collisions.Doomed(arrivals, w.bullets)|);
    }
  }

  /** A hit removes no enemy bullet: every enemy bullet that stays above the
      bottom edge after its move is still there after the tick. */
  lemma HitKeepsEnemyBullets(w: World, keys: Keys, rolls: Rolls, weave: real -> real)
    requires RollsFit(w, rolls) && !w.gameOver
    ensures forall i :: 0 <= i < |w.enemyBullets| && w.enemyBullets[i].y + Movement.EnemyBulletSpeed < w.screen.height ==>
              Movement.Sink(w.enemyBullets[i]) in Step(w, keys, rolls, weave).enemyBullets
  {
    Movement.MoveEnemyBulletsKeeps(w.enemyBullets, w.screen.height);
  }

  /** The game as React holds it: one field per `useState` slice. */
  class Game {
    var screen: Screen
    var pos: Vec
    var vel: Vec
    var health: int
    var score: int
    var gameOver: bool
    var enemies: seq<Enemy>
    var bullets: seq<Bullet>
    var enemyBullets: seq<Bullet>
    var explosions: seq<Explosion>
    var enemyId: nat
    var bulletId: nat
    var explosionId: nat

    function Snapshot(): World
      reads this
    {
      World(screen, pos, vel, health, score, gameOver, enemies, bullets, enemyBullets, explosions,
            enemyId, bulletId, explosionId)
    }

    ghost predicate Valid()
      reads this
    {
      Inv(Snapshot())
    }

    /** The initial value of every slice. */
    constructor (screen: Screen)
      ensures Snapshot() == Initial(screen)
      ensures Valid()
    {
      this.screen := screen;
      pos := Vec(screen.width / 2.0, screen.height - StartLift);
      vel := Vec(0.0, 0.0);
      health := StartHealth;
      score := 0;
      gameOver := false;
      enemies, bullets, enemyBullets, explosions := [], [], [], [];
      enemyId, bulletId, explosionId := 0, 0, 0;
    }

    /** One run of the game-loop interval: the tick computed from the state
        the callback captured, committed to every slice at once. */
    method Tick(keys: Keys, rolls: Rolls, weave: real -> real)
      requires Valid() && RollsFit(Snapshot(), rolls)
      modifies this
      ensures Snapshot() == Step(old(Snapshot()), keys, rolls, weave)
      ensures Valid()
    {
      var next := Advance(Snapshot(), keys, rolls, weave);
      StepKeepsInv(Snapshot(), keys, rolls, weave);
      Commit(next);
    }

    /** React applying the queued updaters: every slice takes its new value.
        Only a state that satisfies the invariant can be committed. */
    method Commit(w: World)
      requires Inv(w)
      modifies this
      ensures Snapshot() == w
      ensures Valid()
    {
      screen, pos, vel, health, score, gameOver, enemies, bullets, enemyBullets, explosions, enemyId, bulletId, explosionId :=
        w.screen, w.pos, w.vel, w.health, w.score, w.gameOver, w.enemies, w.bullets, w.enemyBullets, w.explosions,
        w.enemyId, w.bulletId, w.explosionId;
    }

    /** Releasing the space bar fires a bullet from the ship's gun. The key
        handler is installed whatever the phase, so this works after game over
        too. */
    method Fire()
      requires Valid()
      modifies this`bullets, this`bulletId
      ensures Valid()
      ensures bullets == old(bullets) + [Bullet(old(bulletId), pos.x + GunOffset, pos.y)]
      ensures bulletId == old(bulletId) + 1
    {
      bullets := bullets + [Bullet(bulletId, pos.x + GunOffset, pos.y)];
      bulletId := bulletId + 1;
    }

    /** The restart button: a fresh ship, health and score, and no enemies or
        bullets. Velocity, explosions and the id counters are left as they are. */
    method Restart()
      requires Valid()
      modifies this
      ensures Valid()
      ensures pos == Vec(screen.width / 2.0, screen.height - StartLift)
      ensures health == StartHealth && score == 0 && !gameOver
      ensures enemies == [] && bullets == [] && enemyBullets == []
      ensures screen == old(screen) && vel == old(vel) && explosions == old(explosions)
      ensures enemyId == old(enemyId) && bulletId == old(bulletId) && explosionId == old(explosionId)
    {
      pos := Vec(screen.width / 2.0, screen.height - StartLift);
      health := StartHealth;
      enemies := [];
      bullets := [];
      enemyBullets := [];
      score := 0;
      gameOver := false;
    }
  }
}
