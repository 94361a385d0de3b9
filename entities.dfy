/** The values the game state is made of. Every entity is a record whose
    fields the game loop replaces wholesale (`{ ...enemy, y: ... }`), so each
    one is a datatype. */
module Entities {

  /** A point or a velocity in screen coordinates; y grows downwards. */
  datatype Vec = Vec(x: real, y: real)

  /** The size of the play field (the window). */
  datatype Screen = Screen(width: real, height: real)

  /** Which arrow keys are held down during a tick. */
  datatype Keys = Keys(left: bool, right: bool, up: bool, down: bool)

  /** A hostile ship: top-left corner, fall speed and size. */
  datatype Enemy = Enemy(id: nat, x: real, y: real, speed: real, width: real, height: real)

  /** A projectile, fired by the player or by an enemy. */
  datatype Bullet = Bullet(id: nat, x: real, y: real)

  /** An explosion, placed at the centre of the enemy it replaced. */
  datatype Explosion = Explosion(id: nat, x: real, y: real)
}
