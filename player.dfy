/** The player record, its per-frame update and the dash request. */
module Players {
  import opened Config
  import opened Keys

  /** A snapshot of the player record's fields. */
  datatype PlayerView = PlayerView(
    x: int, y: int,
    dx: int, dy: int,
    isDashing: bool, dashEndTime: int,
    canDash: bool, dashCooldownEndTime: int)

  /** The record as the game starts. */
  const Start: PlayerView :=
    PlayerView(PLAYER_START_X, PLAYER_START_Y, 0, 0, false, 0, true, 0)

  /** The bounds check for one axis: keep the whole circle inside [0, extent]. */
  function ClampAxis(p: int, extent: int): (r: int)
    requires extent >= 2 * PLAYER_RADIUS
    ensures PLAYER_RADIUS <= r <= extent - PLAYER_RADIUS
    ensures PLAYER_RADIUS <= p <= extent - PLAYER_RADIUS ==> r == p
    ensures p < PLAYER_RADIUS ==> r == PLAYER_RADIUS
    ensures p > extent - PLAYER_RADIUS ==> r == extent - PLAYER_RADIUS
  {
    var low := if p - PLAYER_RADIUS < 0 then PLAYER_RADIUS else p;
    if low + PLAYER_RADIUS > extent then extent - PLAYER_RADIUS else low
  }

  /**
   * Walking velocity along one axis: the key for the negative direction is looked at
   * first, the key for the positive direction second, so the latter wins.
   */
  function SteerAxis(negative: bool, positive: bool): int
  {
    var v := if negative then -PLAYER_SPEED else 0;
    if positive then PLAYER_SPEED else v
  }

  /** The dash-state and velocity phase of the player update. */
  function Steer(p: PlayerView, keys: set<string>, now: int): PlayerView
  {
    if p.isDashing then
      if now >= p.dashEndTime then p.(isDashing := false, dx := 0, dy := 0) else p
    else
      p.(dx := SteerAxis(LeftHeld(keys), RightHeld(keys)),
         dy := SteerAxis(UpHeld(keys), DownHeld(keys)))
  }

  /** The movement phase: apply the velocity, then keep the circle inside the field. */
  function Move(p: PlayerView): PlayerView
  {
    p.(x := ClampAxis(p.x + p.dx, CANVAS_WIDTH), y := ClampAxis(p.y + p.dy, CANVAS_HEIGHT))
  }

  /** The cooldown phase: the dash becomes available once its cooldown is over. */
  function Recharge(p: PlayerView, now: int): PlayerView
  {
    if !p.canDash && now >= p.dashCooldownEndTime then p.(canDash := true) else p
  }

  /** One call of the per-frame player update with the held keys and the clock `now`. */
  function PlayerStep(p: PlayerView, keys: set<string>, now: int): PlayerView
  {
    Recharge(Move(Steer(p, keys, now)), now)
  }

  /** Dash heading in quarter turns from "right" (the canvas y axis points down). */
  function DashQuarterTurns(keys: set<string>): (q: nat)
    ensures q < 4
  {
    if UpHeld(keys) then 3
    else if DownHeld(keys) then 1
    else if LeftHeld(keys) then 2
    else if RightHeld(keys) then 0
    else 0
  }

  /** cos(q * pi / 2), exactly. */
  function CosQuarter(q: nat): int
    requires q < 4
  {
    match q
    case 0 => 1
    case 1 => 0
    case 2 => -1
    case _ => 0
  }

  /** sin(q * pi / 2), exactly. */
  function SinQuarter(q: nat): int
    requires q < 4
  {
    match q
    case 0 => 0
    case 1 => 1
    case 2 => 0
    case _ => -1
  }

  /**
   * The dash velocity: dash speed along one axis, picked by the first held key in the
   * order up, down, left, right, and to the right when none is held.
   */
  function DashVelocity(keys: set<string>): (v: (int, int))
    ensures v.0 * v.0 + v.1 * v.1 == PLAYER_DASH_SPEED * PLAYER_DASH_SPEED
    ensures v == (0, -PLAYER_DASH_SPEED) <==> UpHeld(keys)
    ensures v == (0, PLAYER_DASH_SPEED) <==> !UpHeld(keys) && DownHeld(keys)
    ensures v == (-PLAYER_DASH_SPEED, 0) <==> !UpHeld(keys) && !DownHeld(keys) && LeftHeld(keys)
    ensures v == (PLAYER_DASH_SPEED, 0) <==> !UpHeld(keys) && !DownHeld(keys) && !LeftHeld(keys)
  {
    var q := DashQuarterTurns(keys);
    (CosQuarter(q) * PLAYER_DASH_SPEED, SinQuarter(q) * PLAYER_DASH_SPEED)
  }

  /** A dash request (the dash key going down) at clock `now`. */
  function DashStep(p: PlayerView, keys: set<string>, now: int): PlayerView
  {
    if !p.isDashing && p.canDash then
      var v := DashVelocity(keys);
      p.(isDashing := true,
         dashEndTime := now + PLAYER_DASH_DURATION,
         canDash := false,
         dashCooldownEndTime := now + PLAYER_DASH_COOLDOWN,
         dx := v.0, dy := v.1)
    else
      p
  }

  /** The single player record; the methods update it in place. */
  class Player {
    var x: int
    var y: int
    var dx: int
    var dy: int
    var isDashing: bool
    var dashEndTime: int
    var canDash: bool
    var dashCooldownEndTime: int

    function View(): PlayerView
      reads this
    {
      PlayerView(x, y, dx, dy, isDashing, dashEndTime, canDash, dashCooldownEndTime)
    }

    constructor ()
      ensures View() == Start
    {
      x, y := PLAYER_START_X, PLAYER_START_Y;
      dx, dy := 0, 0;
      isDashing, dashEndTime := false, 0;
      canDash, dashCooldownEndTime := true, 0;
    }

    method Update(keys: set<string>, now: int)
      modifies this
      ensures View() == PlayerStep(old(View()), keys, now)
    {
      SteerPhase(keys, now);
      MovePhase();
      RechargePhase(now);
    }

    /** Handle the dashing state, or recompute the walking velocity from the keys. */
    method SteerPhase(keys: set<string>, now: int)
      modifies this
      ensures View() == Steer(old(View()), keys, now)
    {
      if isDashing {
        if now >= dashEndTime {
          isDashing := false;
          dx := 0;
          dy := 0;
        }
      } else {
        dx := 0;
        dy := 0;
        if UpHeld(keys) {
          dy := -PLAYER_SPEED;
        }
        if DownHeld(keys) {
          dy := PLAYER_SPEED;
        }
        if LeftHeld(keys) {
          dx := -PLAYER_SPEED;
        }
        if RightHeld(keys) {
          dx := PLAYER_SPEED;
        }
      }
    }

    /** Apply the velocity and keep the player within the canvas. */
    method MovePhase()
      modifies this
      ensures View() == Move(old(View()))
    {
      x := x + dx;
      y := y + dy;

      if x - PLAYER_RADIUS < 0 { x := PLAYER_RADIUS; }
      if x + PLAYER_RADIUS > CANVAS_WIDTH { x := CANVAS_WIDTH - PLAYER_RADIUS; }
      if y - PLAYER_RADIUS < 0 { y := PLAYER_RADIUS; }
      if y + PLAYER_RADIUS > CANVAS_HEIGHT { y := CANVAS_HEIGHT - PLAYER_RADIUS; }
    }

    /** Handle the dash cooldown. */
    method RechargePhase(now: int)
      modifies this
      ensures View() == Recharge(old(View()), now)
    {
      if !canDash && now >= dashCooldownEndTime {
        canDash := true;
      }
    }

    method AttemptDash(keys: set<string>, now: int)
      modifies this
      ensures View() == DashStep(old(View()), keys, now)
    {
      if !isDashing && canDash {
        isDashing := true;
        dashEndTime := now + PLAYER_DASH_DURATION;
        canDash := false;
        dashCooldownEndTime := now + PLAYER_DASH_COOLDOWN;

        var dashAngle := 0;
        if UpHeld(keys) {
          dashAngle := 3;
        } else if DownHeld(keys) {
          dashAngle := 1;
        } else if LeftHeld(keys) {
          dashAngle := 2;
        } else if RightHeld(keys) {
          dashAngle := 0;
        }

        dx := CosQuarter(dashAngle) * PLAYER_DASH_SPEED;
        dy := SinQuarter(dashAngle) * PLAYER_DASH_SPEED;
      }
    }
  }

  // Properties of one update and one dash request.

  /** After every update the whole player circle is inside the 800 x 600 field. */
  lemma StaysInField(p: PlayerView, keys: set<string>, now: int)
    ensures var q := PlayerStep(p, keys, now);
      PLAYER_RADIUS <= q.x <= CANVAS_WIDTH - PLAYER_RADIUS &&
      PLAYER_RADIUS <= q.y <= CANVAS_HEIGHT - PLAYER_RADIUS
  {
  }

  /**
   * Walking: each velocity component is one of -5, 0, 5; of two opposing keys the
   * down or right one wins; there is no diagonal normalisation.
   */
  lemma WalkingVelocity(p: PlayerView, keys: set<string>, now: int)
    requires !p.isDashing
    ensures var q := PlayerStep(p, keys, now);
      q.dx in {-PLAYER_SPEED, 0, PLAYER_SPEED} && q.dy in {-PLAYER_SPEED, 0, PLAYER_SPEED} &&
      (q.dx == PLAYER_SPEED <==> RightHeld(keys)) &&
      (q.dx == -PLAYER_SPEED <==> LeftHeld(keys) && !RightHeld(keys)) &&
      (q.dy == PLAYER_SPEED <==> DownHeld(keys)) &&
      (q.dy == -PLAYER_SPEED <==> UpHeld(keys) && !DownHeld(keys)) &&
      !q.isDashing
  {
  }

  /** While a dash lasts its velocity is kept; once it is over the player stops. */
  lemma DashVelocityLocked(p: PlayerView, keys: set<string>, now: int)
    requires p.isDashing
    ensures var q := PlayerStep(p, keys, now);
      (now < p.dashEndTime ==> q.isDashing && q.dx == p.dx && q.dy == p.dy) &&
      (now >= p.dashEndTime ==> !q.isDashing && q.dx == 0 && q.dy == 0 &&
                                q.x == ClampAxis(p.x, CANVAS_WIDTH) && q.y == ClampAxis(p.y, CANVAS_HEIGHT))
  {
  }

  /**
   * The dash becomes available again only in an update at or after the cooldown's end,
   * and a dash request never makes it available.
   */
  lemma CooldownClearsOnlyWhenDue(p: PlayerView, keys: set<string>, now: int)
    ensures !p.canDash ==> (PlayerStep(p, keys, now).canDash <==> now >= p.dashCooldownEndTime)
    ensures DashStep(p, keys, now).canDash ==> p.canDash
  {
  }

  /** A dash request changes nothing unless the player is idle and the dash is ready. */
  lemma DashRequestGuard(p: PlayerView, keys: set<string>, now: int)
    ensures p.isDashing || !p.canDash ==> DashStep(p, keys, now) == p
    ensures !p.isDashing && p.canDash ==>
      var q := DashStep(p, keys, now);
      q.isDashing && !q.canDash &&
      q.dashEndTime == now + PLAYER_DASH_DURATION &&
      q.dashCooldownEndTime == now + PLAYER_DASH_COOLDOWN &&
      (q.dx, q.dy) == DashVelocity(keys) &&
      q.x == p.x && q.y == p.y
  {
  }

  /**
   * A dash requested with no direction key held goes right at dash speed for the whole
   * dash duration, and the first update at its end brings the player to rest.
   */
  lemma DefaultDashGoesRight(p: PlayerView, t: int, later: int)
    requires !p.isDashing && p.canDash
    requires t <= later
    ensures var q := DashStep(p, {}, t);
      (q.dx, q.dy) == (PLAYER_DASH_SPEED, 0) &&
      (later < t + PLAYER_DASH_DURATION ==> PlayerStep(q, {}, later).dx == PLAYER_DASH_SPEED) &&
      (later >= t + PLAYER_DASH_DURATION ==>
         var r := PlayerStep(q, {}, later);
         !r.isDashing && r.dx == 0 && r.dy == 0)
  {
    DashRequestGuard(p, {}, t);
    DashVelocityLocked(DashStep(p, {}, t), {}, later);
  }
}
