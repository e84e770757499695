/** The game's configuration constants, in the model's exact integer units.
    Vertical speeds are counted in quarter pixels per tick, so that the
    gravity of 0.25 pixel per tick squared is the integer 1. */
module Settings {
  const ScreenWidth: int := 400
  const ScreenHeight: int := 600

  /** GRAVITY = 0.25 pixel per tick per tick, in quarter pixels. */
  const Gravity: int := 1
  /** FLAP_STRENGTH = -7 pixels per tick, in quarter pixels. */
  const FlapStrength: int := -28

  const PipeGap: int := 150
  /** The top of the ground strip, also the death line for the bird's bottom. */
  const GroundTop: int := ScreenHeight - 50
  /** Horizontal scroll of pipes and ground, pixels per tick. */
  const ScrollSpeed: int := 3
  /** A pipe's hitbox is its rectangle inflated by minus this much in each dimension. */
  const HitboxShrink: int := 60

  /** The bird's spawn centre. */
  const SpawnCenterX: int := 100
  const SpawnCenterY: int := ScreenHeight / 2

  /** Bounds of the random gap centre drawn for every new pipe pair. */
  const GapMin: int := 200
  const GapMax: int := 400

  type GapCentre = h: int | GapMin <= h <= GapMax witness GapMin
}
