/** Fixed game settings: playfield size, player and enemy tuning. */
module Config {
  const CANVAS_WIDTH: int := 800
  const CANVAS_HEIGHT: int := 600

  const INITIAL_HP: int := 3
  const PLAYER_START_X: int := 50
  const PLAYER_START_Y: int := CANVAS_HEIGHT / 2
  const PLAYER_SPEED: int := 5
  const PLAYER_DASH_SPEED: int := 15
  /** Milliseconds of locked dash movement. */
  const PLAYER_DASH_DURATION: int := 150
  /** Milliseconds from the start of one dash until the next may start. */
  const PLAYER_DASH_COOLDOWN: int := 500
  const PLAYER_RADIUS: int := 15

  const ENEMY_RADIUS: int := 20
  const ENEMY_SPEED: int := 3
  /** Milliseconds of animation-frame time between two spawns. */
  const ENEMY_SPAWN_INTERVAL: real := 2000.0
  /** Chance per frame that a resting enemy starts a dash. */
  const ENEMY_DASH_CHANCE: real := 0.01
  const ENEMY_DASH_SPEED_MULTIPLIER: int := 3
  const ENEMY_DASH_DURATION: int := 100

  /** The only enemy type the game spawns (and the constructor's default). */
  const WHITE_BLOOD_CELL: string := "whiteBloodCell"
}
