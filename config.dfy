/** Constants of the game: the window size and the GAME CONFIG block of main.py.
    The player's vertical position and velocity are kept in half-pixel units
    (suffix 2), so that GRAVITY = 0.5 and every value they take is an exact integer. */
module Config {
  const Width: int := 400
  const Height: int := 600

  const HambSize: int := 90
  const PipeW: int := 120
  const PipeH: int := 300
  const PipeGap: int := 180
  const PipeSpeed: int := 3
  const PlayerX: int := 80
  const HitboxReduction: int := 20
  /** The player's hitbox: HitboxReduction inside the sprite on every side, so its
      columns are [HitboxLeft, HitboxLeft + HitboxSize). */
  const HitboxLeft: int := PlayerX + HitboxReduction
  const HitboxSize: int := HambSize - 2 * HitboxReduction

  /** The spawn counter triggers once it exceeds this value. */
  const SpawnThreshold: int := 100
  /** Bounds of random.randint(80, HEIGHT - PIPE_GAP - 80) for a new gap top. */
  const MinGapTop: int := 80
  const MaxGapTop: int := Height - PipeGap - 80
  /** How far the player may leave the playfield before the bounds test fires. */
  const BoundsTolerance: int := 10

  /** GRAVITY = 0.5, the jump velocity -7 and the start height HEIGHT // 2, in half-pixels. */
  const Gravity2: int := 1
  const Jump2: int := -14
  const StartY2: int := 2 * (Height / 2)
}
