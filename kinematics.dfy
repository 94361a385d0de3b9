/** The player's ship: the velocity step driven by the arrow keys and the
    position step that keeps the ship on screen (src/App.jsx, 24-28 and 111-152). */
module Kinematics {
  import opened Entities

  const PlayerSpeed: real := 3.0
  const MaxVelocity: real := 10.0
  const Acceleration: real := 0.5
  const MovingFriction: real := 0.98
  const StoppingFriction: real := 0.85
  /** Below this magnitude a velocity component is snapped to zero. */
  const DriftThreshold: real := 0.01
  /** The ship's footprint as the position clamp sees it. */
  const ShipWidth: real := 30.0
  const ShipHeight: real := 50.0

  function Abs(a: real): real { if a < 0.0 then -a else a }
  function Min(a: real, b: real): real { if a <= b then a else b }
  function Max(a: real, b: real): real { if a >= b then a else b }

  predicate AnyHeld(keys: Keys) { keys.left || keys.right || keys.up || keys.down }

  /** Moving friction while some arrow key is held, stopping friction otherwise. */
  function Friction(keys: Keys): real {
    if AnyHeld(keys) then MovingFriction else StoppingFriction
  }

  /** What the two opposite keys of one axis add to that axis. */
  function Thrust(back: bool, forth: bool): real {
    (if forth then Acceleration else 0.0) - (if back then Acceleration else 0.0)
  }

  /** One axis of the velocity step: accumulate `thrust` on `v`, clamp to the
      maximum velocity, damp by `f`, and snap a tiny result to zero. */
  function AxisAfter(v: real, thrust: real, f: real): (r: real)
    requires 0.0 < f < 1.0
    ensures Abs(r) <= f * MaxVelocity
    ensures Abs(r) <= f * Abs(v + thrust)
    ensures r == 0.0 || DriftThreshold <= Abs(r)
    ensures r == 0.0 <==> Abs(f * Max(-MaxVelocity, Min(MaxVelocity, v + thrust))) < DriftThreshold
    ensures r != 0.0 ==> r == f * Max(-MaxVelocity, Min(MaxVelocity, v + thrust))
    ensures 0.0 <= v + thrust ==> 0.0 <= r
    ensures v + thrust <= 0.0 ==> r <= 0.0
  {
    var clamped := Max(-MaxVelocity, Min(MaxVelocity, v + thrust));
    ScaleBound(clamped, MaxVelocity, f);
    ScaleBound(clamped, Abs(v + thrust), f);
    var damped := clamped * f;
    if Abs(damped) < DriftThreshold then 0.0 else damped
  }

  /** Scaling by a positive factor scales a bound on the magnitude. */
  lemma ScaleBound(c: real, m: real, f: real)
    requires Abs(c) <= m && 0.0 < f
    ensures Abs(c * f) <= f * m
    ensures 0.0 <= c ==> 0.0 <= c * f
    ensures c <= 0.0 ==> c * f <= 0.0
  {
  }

  /** The velocity after one tick with `keys` held, starting from `v`. */
  function VelocityAfter(v: Vec, keys: Keys): (r: Vec)
    ensures Abs(r.x) <= MaxVelocity && Abs(r.y) <= MaxVelocity
    ensures r.x == 0.0 || DriftThreshold <= Abs(r.x)
    ensures r.y == 0.0 || DriftThreshold <= Abs(r.y)
  {
    var f := Friction(keys);
    Vec(AxisAfter(v.x, Thrust(keys.left, keys.right), f),
        AxisAfter(v.y, Thrust(keys.up, keys.down), f))
  }

  /** The velocity updater of the game loop, written as the source writes it:
      a copy of the previous velocity changed field by field. */
  method NextVelocity(prev: Vec, keys: Keys) returns (v: Vec)
    ensures v == VelocityAfter(prev, keys)
  {
    v := prev;
    var moving := false;
    if keys.left {
      v := v.(x := v.x - Acceleration);
      moving := true;
    }
    if keys.right {
      v := v.(x := v.x + Acceleration);
      moving := true;
    }
    if keys.up {
      v := v.(y := v.y - Acceleration);
      moving := true;
    }
    if keys.down {
      v := v.(y := v.y + Acceleration);
      moving := true;
    }
    v := v.(x := Max(-MaxVelocity, Min(MaxVelocity, v.x)));
    v := v.(y := Max(-MaxVelocity, Min(MaxVelocity, v.y)));
    var friction := if moving then MovingFriction else StoppingFriction;
    v := v.(x := v.x * friction);
    v := v.(y := v.y * friction);
    if Abs(v.x) < DriftThreshold {
      v := v.(x := 0.0);
    }
    if Abs(v.y) < DriftThreshold {
      v := v.(y := 0.0);
    }
  }

  /** The friction factor is the moving one exactly when some arrow key is held,
      and either way it is strictly between 0 and 1. This is the factor
      `VelocityAfter` damps by; `NextVelocity`, whose `moving` flag is set by
      each held key, is proved to pick the same one. */
  lemma FrictionChoice(keys: Keys)
    ensures Friction(keys) == MovingFriction <==> AnyHeld(keys)
    ensures Friction(keys) == StoppingFriction <==> !AnyHeld(keys)
    ensures 0.0 < Friction(keys) < 1.0
  {
  }

  /** The ship's new top-left corner: the old one moved by the start-of-tick
      velocity times the player speed, clamped to the screen. */
  function MovePlayer(pos: Vec, vel: Vec, screen: Screen): (p: Vec)
    ensures 0.0 <= p.x && 0.0 <= p.y
    ensures ShipWidth <= screen.width ==> p.x <= screen.width - ShipWidth
    ensures ShipHeight <= screen.height ==> p.y <= screen.height - ShipHeight
    ensures screen.width < ShipWidth ==> p.x == 0.0
    ensures screen.height < ShipHeight ==> p.y == 0.0
  {
    Vec(Max(0.0, Min(screen.width - ShipWidth, pos.x + vel.x * PlayerSpeed)),
        Max(0.0, Min(screen.height - ShipHeight, pos.y + vel.y * PlayerSpeed)))
  }

  /** The clamp moves the ship as far as the screen lets it: when the field is
      at least as large as the ship, no on-screen point is nearer to where the
      velocity would take it, and a target already on screen is reached exactly. */
  lemma MovePlayerIsNearest(pos: Vec, vel: Vec, screen: Screen, q: Vec)
    requires ShipWidth <= screen.width && ShipHeight <= screen.height
    requires 0.0 <= q.x <= screen.width - ShipWidth
    requires 0.0 <= q.y <= screen.height - ShipHeight
    ensures Abs(MovePlayer(pos, vel, screen).x - (pos.x + vel.x * PlayerSpeed))
            <= Abs(q.x - (pos.x + vel.x * PlayerSpeed))
    ensures Abs(MovePlayer(pos, vel, screen).y - (pos.y + vel.y * PlayerSpeed))
            <= Abs(q.y - (pos.y + vel.y * PlayerSpeed))
    ensures q == Vec(pos.x + vel.x * PlayerSpeed, pos.y + vel.y * PlayerSpeed) ==> MovePlayer(pos, vel, screen) == q
  {
  }

  const NoKeys: Keys := Keys(false, false, false, false)

  /** The velocity after `n` ticks with no arrow key held. */
  function Coast(v: Vec, n: nat): Vec {
    if n == 0 then v else VelocityAfter(Coast(v, n - 1), NoKeys)
  }

  function Pow(b: real, n: nat): real {
    if n == 0 then 1.0 else b * Pow(b, n - 1)
  }

  lemma {:induction false} PowAdd(b: real, m: nat, n: nat)
    ensures Pow(b, m + n) == Pow(b, m) * Pow(b, n)
  {
    if m > 0 {
      PowAdd(b, m - 1, n);
    }
  }

  lemma {:induction false} PowPositive(b: real, n: nat)
    requires 0.0 < b
    ensures 0.0 < Pow(b, n)
  {
    if n > 0 {
      PowPositive(b, n - 1);
    }
  }

  lemma MulBound(a: real, b: real, x: real, y: real)
    requires 0.0 <= a <= x && 0.0 <= b <= y
    ensures a * b <= x * y
  {
  }

  /** 43 ticks of stopping friction shrink a velocity more than a thousandfold. */
  lemma StoppingFrictionPow43()
    ensures Pow(StoppingFriction, 43) < 0.001
  {
    var b := StoppingFriction;
    PowPositive(b, 3);
    PowPositive(b, 4);
    PowPositive(b, 8);
    PowPositive(b, 16);
    PowPositive(b, 32);
    PowPositive(b, 40);
    assert Pow(b, 2) == 0.7225;
    PowAdd(b, 2, 2);
    PowAdd(b, 4, 4);
    MulBound(Pow(b, 4), Pow(b, 4), 0.522007, 0.522007);
    PowAdd(b, 8, 8);
    MulBound(Pow(b, 8), Pow(b, 8), 0.2725, 0.2725);
    PowAdd(b, 16, 16);
    MulBound(Pow(b, 16), Pow(b, 16), 0.0743, 0.0743);
    PowAdd(b, 32, 8);
    MulBound(Pow(b, 32), Pow(b, 8), 0.00553, 0.2725);
    PowAdd(b, 40, 3);
    assert Pow(b, 3) == 0.614125;
    MulBound(Pow(b, 40), Pow(b, 3), 0.00151, 0.614125);
  }

  /** `m` damped by `n` ticks of stopping friction. */
  function Decayed(m: real, n: nat): real {
    if n == 0 then m else StoppingFriction * Decayed(m, n - 1)
  }

  lemma {:induction false} DecayedIsPow(m: real, n: nat)
    ensures Decayed(m, n) == m * Pow(StoppingFriction, n)
  {
    if n > 0 {
      DecayedIsPow(m, n - 1);
      assert StoppingFriction * (m * Pow(StoppingFriction, n - 1)) == m * (StoppingFriction * Pow(StoppingFriction, n - 1));
    }
  }

  lemma {:induction false} DecayedMonotonic(m: real, k: real, n: nat)
    requires m <= k
    ensures Decayed(m, n) <= Decayed(k, n)
  {
    if n > 0 {
      DecayedMonotonic(m, k, n - 1);
    }
  }

  /** One axis of `Coast`. */
  function CoastAxis(a: real, n: nat): real {
    if n == 0 then a else AxisAfter(CoastAxis(a, n - 1), 0.0, StoppingFriction)
  }

  /** With no key held the two axes evolve independently. */
  lemma {:induction false} CoastByAxis(v: Vec, n: nat)
    ensures Coast(v, n) == Vec(CoastAxis(v.x, n), CoastAxis(v.y, n))
  {
    if n > 0 {
      CoastByAxis(v, n - 1);
      assert Thrust(false, false) == 0.0 && Friction(NoKeys) == StoppingFriction;
    }
  }

  /** With no key held, each tick shrinks a velocity component to at most the
      stopping friction times its size. */
  lemma {:induction false} CoastAxisDecays(a: real, n: nat)
    ensures Abs(CoastAxis(a, n)) <= Decayed(Abs(a), n)
  {
    if n > 0 {
      CoastAxisDecays(a, n - 1);
      var c := CoastAxis(a, n - 1);
      assert Abs(AxisAfter(c, 0.0, StoppingFriction)) <= StoppingFriction * Abs(c);
    }
  }

  /** Friction alone never reverses the direction of motion. */
  lemma {:induction false} CoastAxisKeepsSign(a: real, n: nat)
    ensures 0.0 <= a ==> 0.0 <= CoastAxis(a, n)
    ensures a <= 0.0 ==> CoastAxis(a, n) <= 0.0
  {
    if n > 0 {
      CoastAxisKeepsSign(a, n - 1);
    }
  }

  /** One axis of `IdleStops`: once the friction has shrunk every velocity
      the game allows below the snap threshold, the component is zero. */
  lemma IdleAxisStops(a: real, n: nat)
    requires Abs(a) <= MaxVelocity && 0 < n
    requires MaxVelocity * Pow(StoppingFriction, n) < DriftThreshold
    ensures CoastAxis(a, n) == 0.0
  {
    CoastAxisDecays(a, n);
    DecayedMonotonic(Abs(a), MaxVelocity, n);
    DecayedIsPow(MaxVelocity, n);
    var last := AxisAfter(CoastAxis(a, n - 1), 0.0, StoppingFriction);
    assert CoastAxis(a, n) == last;
  }

  /** Released at any velocity the game can have, the ship stops dead within
      43 ticks: by then each component has fallen below the snap threshold. */
  lemma IdleStops(v: Vec)
    requires Abs(v.x) <= MaxVelocity && Abs(v.y) <= MaxVelocity
    ensures Coast(v, 43) == Vec(0.0, 0.0)
  {
    CoastByAxis(v, 43);
    StoppingFrictionPow43();
    IdleAxisStops(v.x, 43);
    IdleAxisStops(v.y, 43);
  }

  /** With no key held, no velocity component ever reverses its direction. */
  lemma NoOvershoot(v: Vec, n: nat)
    ensures 0.0 <= v.x ==> 0.0 <= Coast(v, n).x
    ensures v.x <= 0.0 ==> Coast(v, n).x <= 0.0
    ensures 0.0 <= v.y ==> 0.0 <= Coast(v, n).y
    ensures v.y <= 0.0 ==> Coast(v, n).y <= 0.0
  {
    CoastByAxis(v, n);
    CoastAxisKeepsSign(v.x, n);
    CoastAxisKeepsSign(v.y, n);
  }
}
