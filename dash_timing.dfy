/**
 * Sequences of player events — frame updates and dash requests, each with the clock
 * value it read — and the spacing of successful dashes.
 */
module DashTiming {
  import opened Config
  import opened Players

  datatype PlayerEvent =
    | Frame(keys: set<string>, now: int)      // the per-frame player update
    | DashPress(keys: set<string>, now: int)  // the dash key going down

  function Apply(p: PlayerView, e: PlayerEvent): PlayerView
  {
    match e
    case Frame(keys, now) => PlayerStep(p, keys, now)
    case DashPress(keys, now) => DashStep(p, keys, now)
  }

  /** The player after the events, in order. */
  function Replay(p: PlayerView, events: seq<PlayerEvent>): PlayerView
    decreases |events|
  {
    if events == [] then p else Replay(Apply(p, events[0]), events[1..])
  }

  /** The event starts a dash in state `p`. */
  predicate Fires(p: PlayerView, e: PlayerEvent)
  {
    e.DashPress? && !p.isDashing && p.canDash
  }

  /** The clock never goes back. */
  ghost predicate NonDecreasing(events: seq<PlayerEvent>)
  {
    forall i, j | 0 <= i < j < |events| :: events[i].now <= events[j].now
  }

  lemma {:induction false} ReplayAppend(p: PlayerView, a: seq<PlayerEvent>, b: seq<PlayerEvent>)
    ensures Replay(p, a + b) == Replay(Replay(p, a), b)
    decreases |a|
  {
    if a == [] {
      assert a + b == b;
    } else {
      assert (a + b)[1..] == a[1..] + b;
      ReplayAppend(Apply(p, a[0]), a[1..], b);
    }
  }

  /**
   * The state left by a dash started at `t` and the clock values seen since: either the
   * dash is still unavailable and its cooldown ends at t + PLAYER_DASH_COOLDOWN, or it has
   * become available at a clock value already at or past that point.
   */
  ghost predicate CoolingSince(p: PlayerView, t: int, seen: int)
  {
    if p.canDash then seen >= t + PLAYER_DASH_COOLDOWN
    else p.dashCooldownEndTime == t + PLAYER_DASH_COOLDOWN
  }

  /** After a dash at `t`, no later event with a clock value below t + cooldown starts a dash. */
  lemma {:induction false} NoDashDuringCooldown(p: PlayerView, t: int, seen: int, events: seq<PlayerEvent>, j: int)
    requires CoolingSince(p, t, seen)
    requires NonDecreasing(events)
    requires forall k | 0 <= k < |events| :: seen <= events[k].now
    requires 0 <= j < |events| && Fires(Replay(p, events[..j]), events[j])
    ensures events[j].now >= t + PLAYER_DASH_COOLDOWN
    decreases j
  {
    if j == 0 {
      assert events[..0] == [];
    } else {
      var e := events[0];
      if p.canDash {
        assert seen <= e.now <= events[j].now;
      } else {
        var q := Apply(p, e);
        assert CoolingSince(q, t, e.now);
        assert events[..j] == [e] + events[1..][..j - 1];
        NoDashDuringCooldown(q, t, e.now, events[1..], j - 1);
      }
    }
  }

  /**
   * Two successful dash requests in one run are at least the dash cooldown apart,
   * whatever frames and requests happen between them.
   */
  lemma {:induction false} DashesAtLeastCooldownApart(p: PlayerView, events: seq<PlayerEvent>, i: int, j: int)
    requires NonDecreasing(events)
    requires 0 <= i < j < |events|
    requires Fires(Replay(p, events[..i]), events[i])
    requires Fires(Replay(p, events[..j]), events[j])
    ensures events[j].now >= events[i].now + PLAYER_DASH_COOLDOWN
  {
    var t := events[i].now;
    var after := Replay(p, events[..i + 1]);
    assert events[..i + 1] == events[..i] + [events[i]];
    ReplayAppend(p, events[..i], [events[i]]);
    assert after == DashStep(Replay(p, events[..i]), events[i].keys, t);
    var rest := events[i + 1..];
    assert events[..j] == events[..i + 1] + rest[..j - i - 1];
    ReplayAppend(p, events[..i + 1], rest[..j - i - 1]);
    NoDashDuringCooldown(after, t, t, rest, j - i - 1);
  }
}
