/** Enemies: one enemy's per-frame movement, its dash, and when it has left the field. */
module Enemies {
  import opened Config

  /** A snapshot of an enemy's fields (`kind` is the source's `type`). */
  datatype EnemyView = EnemyView(
    x: int, y: real,
    speed: int, radius: int, kind: string,
    isDashing: bool, dashEndTime: int,
    originalSpeed: int)

  /** A freshly constructed enemy. */
  function Fresh(x: int, y: real, speed: int, radius: int, kind: string): EnemyView
  {
    EnemyView(x, y, speed, radius, kind, false, 0, speed)
  }

  /** The enemy's leading edge has crossed the left border. */
  predicate Expired(e: EnemyView)
  {
    e.x + e.radius < 0
  }

  /**
   * One enemy update with clock `now` and the random draw `roll` (consulted only by a
   * resting white blood cell).
   */
  function Advance(e: EnemyView, now: int, roll: real): EnemyView
  {
    if e.isDashing then
      var moved := e.(x := e.x - e.speed * ENEMY_DASH_SPEED_MULTIPLIER);
      if now >= e.dashEndTime then moved.(isDashing := false, speed := e.originalSpeed) else moved
    else
      var moved := e.(x := e.x - e.speed);
      if e.kind == WHITE_BLOOD_CELL && !e.isDashing && roll < ENEMY_DASH_CHANCE then
        moved.(isDashing := true, dashEndTime := now + ENEMY_DASH_DURATION)
      else
        moved
  }

  /** Every enemy of `es` advanced once, enemy k with draw rolls[k]. */
  function AdvanceEach(es: seq<EnemyView>, now: int, rolls: seq<real>): (after: seq<EnemyView>)
    requires |rolls| == |es|
    ensures |after| == |es|
    ensures forall k {:trigger after[k]} | 0 <= k < |es| :: after[k] == Advance(es[k], now, rolls[k])
  {
    seq(|es|, k requires 0 <= k < |es| => Advance(es[k], now, rolls[k]))
  }

  /** For each enemy, whether it has left the field. */
  function ExpiredEach(es: seq<EnemyView>): (flags: seq<bool>)
    ensures |flags| == |es|
    ensures forall k {:trigger flags[k]} | 0 <= k < |es| :: flags[k] == Expired(es[k])
  {
    seq(|es|, k requires 0 <= k < |es| => Expired(es[k]))
  }

  /** A live enemy; `Update` moves it in place. */
  class Enemy {
    var x: int
    var y: real
    var speed: int
    var radius: int
    var kind: string
    var isDashing: bool
    var dashEndTime: int
    var originalSpeed: int

    function View(): EnemyView
      reads this
    {
      EnemyView(x, y, speed, radius, kind, isDashing, dashEndTime, originalSpeed)
    }

    constructor (x0: int, y0: real, speed0: int, radius0: int, kind0: string)
      ensures View() == Fresh(x0, y0, speed0, radius0, kind0)
    {
      x, y := x0, y0;
      speed, radius := speed0, radius0;
      kind := kind0;
      isDashing, dashEndTime := false, 0;
      originalSpeed := speed0;
    }

    /** Move one frame; the result says whether the enemy has left the field. */
    method Update(now: int, roll: real) returns (expired: bool)
      modifies this
      ensures View() == Advance(old(View()), now, roll)
      ensures expired <==> Expired(View())
    {
      if isDashing {
        x := x - speed * ENEMY_DASH_SPEED_MULTIPLIER;
        if now >= dashEndTime {
          isDashing := false;
          speed := originalSpeed;
        }
      } else {
        x := x - speed;
        if kind == WHITE_BLOOD_CELL && !isDashing && roll < ENEMY_DASH_CHANCE {
          isDashing := true;
          dashEndTime := now + ENEMY_DASH_DURATION;
        }
      }

      if x + radius < 0 {
        return true;
      }
      return false;
    }
  }

  /**
   * One update moves the enemy left by its speed, three times that while dashing, and
   * leaves its y, radius, type and original speed alone; a speed equal to the original
   * speed stays so.
   */
  lemma AdvanceMoves(e: EnemyView, now: int, roll: real)
    ensures var f := Advance(e, now, roll);
      f.x == e.x - (if e.isDashing then ENEMY_DASH_SPEED_MULTIPLIER * e.speed else e.speed) &&
      f.y == e.y && f.radius == e.radius && f.kind == e.kind &&
      f.originalSpeed == e.originalSpeed &&
      (e.speed == e.originalSpeed ==> f.speed == e.speed)
  {
  }

  /**
   * A dash starts only from rest, only for a white blood cell whose draw is below the
   * dash chance, and then lasts ENEMY_DASH_DURATION; a running dash ends at the first
   * update at or after its end time.
   */
  lemma DashRules(e: EnemyView, now: int, roll: real)
    ensures var f := Advance(e, now, roll);
      (!e.isDashing ==>
        (f.isDashing <==> e.kind == WHITE_BLOOD_CELL && roll < ENEMY_DASH_CHANCE) &&
        (f.isDashing ==> f.dashEndTime == now + ENEMY_DASH_DURATION)) &&
      (e.isDashing ==> (f.isDashing <==> now < e.dashEndTime) && f.dashEndTime == e.dashEndTime)
  {
  }

  /** The enemy after one update per (clock, draw) pair, in order. */
  function AdvanceAll(e: EnemyView, steps: seq<(int, real)>): EnemyView
    decreases |steps|
  {
    if steps == [] then e else AdvanceAll(Advance(e, steps[0].0, steps[0].1), steps[1..])
  }

  /**
   * With a positive speed that equals its original speed, an enemy has moved at least
   * `speed` to the left per update.
   */
  lemma {:induction false} AdvanceAllMovesLeft(e: EnemyView, steps: seq<(int, real)>)
    requires 0 < e.speed == e.originalSpeed
    ensures var f := AdvanceAll(e, steps);
      f.x <= e.x - |steps| * e.speed && f.speed == e.speed && f.radius == e.radius
    decreases |steps|
  {
    if steps != [] {
      var next := Advance(e, steps[0].0, steps[0].1);
      AdvanceMoves(e, steps[0].0, steps[0].1);
      assert next.x <= e.x - e.speed;
      AdvanceAllMovesLeft(next, steps[1..]);
      assert (|steps| - 1) * e.speed + e.speed == |steps| * e.speed;
    }
  }

  /**
   * An enemy as spawned (x = 820, radius 20, speed 3) that is never hit has expired after
   * at most 281 updates, whatever the clock and the random draws.
   */
  lemma SpawnedEnemyLeaves(y: real, steps: seq<(int, real)>)
    requires |steps| >= 281
    ensures Expired(AdvanceAll(Fresh(CANVAS_WIDTH + ENEMY_RADIUS, y, ENEMY_SPEED, ENEMY_RADIUS, WHITE_BLOOD_CELL), steps))
  {
    AdvanceAllMovesLeft(Fresh(CANVAS_WIDTH + ENEMY_RADIUS, y, ENEMY_SPEED, ENEMY_RADIUS, WHITE_BLOOD_CELL), steps);
  }
}
