/**
 * The game's global state — the player record, the live enemies, the held keys, the
 * player's hit points and the last spawn time — and one animation frame over it.
 */
module Game {
  import opened Config
  import opened Seqs
  import opened Keys
  import opened Players
  import opened Enemies
  import opened Collisions

  /** The y of a new enemy for the random draw `r` (a draw in [0, 1)). */
  function SpawnY(r: real): (y: real)
    ensures 0.0 <= r < 1.0 ==> ENEMY_RADIUS as real <= y < (CANVAS_HEIGHT - ENEMY_RADIUS) as real
  {
    r * (CANVAS_HEIGHT - ENEMY_RADIUS * 2) as real + ENEMY_RADIUS as real
  }

  /** The spawn gate: more than the spawn interval of frame time since the last spawn. */
  predicate SpawnDue(timestamp: real, lastSpawn: real)
  {
    timestamp - lastSpawn > ENEMY_SPAWN_INTERVAL
  }

  /** For each enemy, whether it overlaps a player centred at (px, py). */
  function HitEach(es: seq<EnemyView>, px: int, py: int): (hits: seq<bool>)
    ensures |hits| == |es|
    ensures forall k {:trigger hits[k]} | 0 <= k < |es| :: hits[k] == Overlaps(px, py, es[k].x, es[k].y, es[k].radius)
  {
    seq(|es|, k requires 0 <= k < |es| => Overlaps(px, py, es[k].x, es[k].y, es[k].radius))
  }

  /** The fields of the enemies from position j on, as values. */
  function ViewsFrom(es: seq<Enemy>, j: int): (vs: seq<EnemyView>)
    requires 0 <= j <= |es|
    reads es
    ensures |vs| == |es| - j
    ensures forall k {:trigger vs[k]} | 0 <= k < |vs| :: vs[k] == es[j + k].View()
    decreases |es| - j
  {
    if j == |es| then [] else [es[j].View()] + ViewsFrom(es, j + 1)
  }

  /** The enemies' fields, as values. */
  function Views(es: seq<Enemy>): (vs: seq<EnemyView>)
    reads es
    ensures |vs| == |es|
    ensures forall k {:trigger vs[k]} | 0 <= k < |es| :: vs[k] == es[k].View()
  {
    ViewsFrom(es, 0)
  }

  class Game {
    const player: Player
    var enemies: seq<Enemy>
    var keys: set<string>
    var playerHP: int
    var lastEnemySpawnTime: real

    /** No enemy is listed twice, and held keys are stored lower-case. */
    ghost predicate Valid()
      reads this
    {
      Distinct(enemies) && LowerCaseKeys(keys)
    }

    constructor ()
      ensures Valid() && fresh(player)
      ensures player.View() == Start
      ensures enemies == [] && keys == {}
      ensures playerHP == INITIAL_HP && lastEnemySpawnTime == 0.0
    {
      player := new Player();
      enemies := [];
      keys := {};
      playerHP := INITIAL_HP;
      lastEnemySpawnTime := 0.0;
    }

    /** A key goes down: remember it (lower-cased); the space bar requests a dash. */
    method KeyDown(key: string, now: int)
      requires Valid()
      modifies this`keys, player
      ensures Valid()
      ensures keys == old(keys) + {ToLower(key)}
      ensures player.View() == if key == " " then DashStep(old(player.View()), keys, now) else old(player.View())
    {
      keys := keys + {ToLower(key)};
      if key == " " {
        player.AttemptDash(keys, now);
      }
    }

    /** A key goes up: it is no longer held. */
    method KeyUp(key: string)
      requires Valid()
      modifies this`keys
      ensures Valid()
      ensures keys == old(keys) - {ToLower(key)}
    {
      keys := keys - {ToLower(key)};
    }

    /** Append a new white blood cell just beyond the right edge. */
    method SpawnEnemy(roll: real)
      requires Valid()
      modifies this`enemies
      ensures Valid()
      ensures |enemies| == |old(enemies)| + 1 && enemies[..|old(enemies)|] == old(enemies)
      ensures fresh(enemies[|old(enemies)|])
      ensures enemies[|old(enemies)|].View() ==
        Fresh(CANVAS_WIDTH + ENEMY_RADIUS, SpawnY(roll), ENEMY_SPEED, ENEMY_RADIUS, WHITE_BLOOD_CELL)
    {
      var y := SpawnY(roll);
      var e := new Enemy(CANVAS_WIDTH + ENEMY_RADIUS, y, ENEMY_SPEED, ENEMY_RADIUS, WHITE_BLOOD_CELL);
      DistinctAppend(enemies, e);
      enemies := enemies + [e];
    }

    /**
     * The spawn gate of the frame: spawn when more than the spawn interval of frame time
     * has passed since the last spawn, and remember this frame's time as the last spawn.
     */
    method SpawnIfDue(timestamp: real, roll: real) returns (spawned: bool)
      requires Valid()
      modifies this`enemies, this`lastEnemySpawnTime
      ensures Valid()
      ensures spawned <==> SpawnDue(timestamp, old(lastEnemySpawnTime))
      ensures lastEnemySpawnTime == if spawned then timestamp else old(lastEnemySpawnTime)
      ensures spawned ==> !SpawnDue(timestamp, lastEnemySpawnTime)
      ensures !spawned ==> enemies == old(enemies)
      ensures Views(enemies) == old(Views(enemies)) +
        if spawned
        then [Fresh(CANVAS_WIDTH + ENEMY_RADIUS, SpawnY(roll), ENEMY_SPEED, ENEMY_RADIUS, WHITE_BLOOD_CELL)]
        else []
      ensures spawned ==>
        |enemies| == |old(enemies)| + 1 && enemies[..|old(enemies)|] == old(enemies) &&
        fresh(enemies[|old(enemies)|]) &&
        enemies[|old(enemies)|].View() ==
          Fresh(CANVAS_WIDTH + ENEMY_RADIUS, SpawnY(roll), ENEMY_SPEED, ENEMY_RADIUS, WHITE_BLOOD_CELL)
    {
      ghost var before := Views(enemies);
      spawned := SpawnDue(timestamp, lastEnemySpawnTime);
      if spawned {
        SpawnEnemy(roll);
        lastEnemySpawnTime := timestamp;
        assert Views(enemies) == before + [enemies[|before|].View()] by {
          assert forall k | 0 <= k < |before| :: Views(enemies)[k] == before[k];
        }
      }
    }

    /**
     * One pass of the update loop at index i. `es` is the list the pass started from, `cur`
     * the fields its enemies hold now and `after` their fields once advanced; the live list
     * holds `es` up to i followed by the survivors after i. The pass advances enemy i and
     * splices it out when its update reports it expired.
     */
    method UpdateAt(ghost es: seq<Enemy>, ghost cur: seq<EnemyView>, ghost after: seq<EnemyView>,
                    i: int, now: int, roll: real) returns (expired: bool, ghost cur': seq<EnemyView>)
      requires Distinct(es) && |cur| == |after| == |es| && 0 <= i < |es|
      requires forall k | 0 <= k < |es| :: es[k].View() == cur[k]
      requires after[i] == Advance(cur[i], now, roll)
      requires enemies == es[..i + 1] + FilterFrom(es, ExpiredEach(after), i + 1)
      modifies this`enemies, es[i]
      ensures expired == Expired(after[i])
      ensures cur' == cur[i := after[i]]
      ensures forall k | 0 <= k < |es| :: es[k].View() == cur'[k]
      ensures enemies == es[..i] + FilterFrom(es, ExpiredEach(after), i)
    {
      ghost var tail := FilterFrom(es, ExpiredEach(after), i + 1);
      assert enemies[i] == es[i];
      var enemy := enemies[i];
      expired := enemy.Update(now, roll);
      cur' := cur[i := after[i]];
      forall k | 0 <= k < |es| ensures es[k].View() == cur'[k] {
        if k != i {
          DistinctAt(es, k, i);
        }
      }
      if expired {
        enemies := enemies[..i] + enemies[i + 1..];
      }
      SpliceStep(es, i, tail, expired);
    }

    /**
     * The update loop: from the last enemy to the first, advance each one and splice it out
     * when its update reports it expired. `es` is the list the loop starts from, `before`
     * its enemies' fields then and `after` their fields once advanced with `rolls`.
     */
    method UpdateEach(ghost es: seq<Enemy>, ghost before: seq<EnemyView>, ghost after: seq<EnemyView>,
                      now: int, rolls: seq<real>)
      requires Distinct(es) && enemies == es && |rolls| >= |es| && |before| == |after| == |es|
      requires forall k | 0 <= k < |es| :: es[k].View() == before[k]
      requires forall k | 0 <= k < |es| :: after[k] == Advance(before[k], now, rolls[k])
      modifies this`enemies, es
      ensures forall k | 0 <= k < |es| :: es[k].View() == after[k]
      ensures enemies == Filter(es, ExpiredEach(after))
    {
      ghost var cur := before;
      var i := |enemies| - 1;
      while i >= 0
        invariant -1 <= i < |es| && |cur| == |es|
        invariant enemies == es[..i + 1] + FilterFrom(es, ExpiredEach(after), i + 1)
        invariant forall k | 0 <= k < |es| :: es[k].View() == cur[k]
        invariant forall k | 0 <= k < |es| :: cur[k] == if k <= i then before[k] else after[k]
        decreases i
      {
        var _, cur' := UpdateAt(es, cur, after, i, now, rolls[i]);
        cur := cur';
        i := i - 1;
      }
      assert es[..0] == [];
    }

    /**
     * Update every enemy, from the last to the first, removing each one whose update
     * reports it expired. Enemy k uses draw rolls[k].
     */
    method UpdateEnemies(now: int, rolls: seq<real>)
      requires Valid()
      requires |rolls| >= |enemies|
      modifies this`enemies, enemies
      ensures Valid()
      ensures forall k | 0 <= k < |old(enemies)| ::
        old(enemies)[k].View() == Advance(old(enemies[k].View()), now, rolls[k])
      ensures enemies == Filter(old(enemies), ExpiredEach(AdvanceEach(old(Views(enemies)), now, rolls[..|old(enemies)|])))
      ensures playerHP == old(playerHP)
    {
      ghost var es := enemies;
      ghost var before := Views(es);
      ghost var after := AdvanceEach(before, now, rolls[..|es|]);
      UpdateEach(es, before, after, now, rolls);
      forall k | 0 <= k < |es| ensures es[k].View() == Advance(old(es[k].View()), now, rolls[k]) {
        assert after[k] == Advance(before[k], now, rolls[..|es|][k]);
      }
      FilterDistinct(es, ExpiredEach(after));
    }

    /**
     * Test every enemy for overlap with the player, visiting index 0, 1, ... of the live
     * array and splicing out each hit enemy at once (a hit costs one hit point unless the
     * player is dashing). An index past the shrunken end is skipped.
     */
    method CheckCollisions()
      requires Valid()
      modifies this`enemies, this`playerHP
      ensures Valid()
      ensures var removed := SpliceMask(HitEach(Views(old(enemies)), player.x, player.y));
        enemies == Filter(old(enemies), removed) &&
        playerHP == old(playerHP) - (if player.isDashing then 0 else Count(removed))
      ensures playerHP <= old(playerHP)
    {
      ghost var es := enemies;
      ghost var hits := HitEach(Views(es), player.x, player.y);
      ghost var hl := hits;
      var n := |enemies|;
      var index := 0;
      while index < n
        invariant index <= n == |es| && |enemies| <= n
        invariant |hl| == |enemies|
        invariant forall k | 0 <= k < |enemies| :: hl[k] == Overlaps(player.x, player.y, enemies[k].x, enemies[k].y, enemies[k].radius)
        invariant SplicePass(enemies, hl, index) == SplicePass(es, hits, 0)
        invariant playerHP == old(playerHP) - (if player.isDashing then 0 else n - |enemies|)
      {
        if index < |enemies| {
          var enemy := enemies[index];
          assert hl[index] == Overlaps(player.x, player.y, enemy.x, enemy.y, enemy.radius);
          if Overlaps(player.x, player.y, enemy.x, enemy.y, enemy.radius) {
            if player.isDashing {
              enemies := enemies[..index] + enemies[index + 1..];
            } else {
              playerHP := playerHP - 1;
              enemies := enemies[..index] + enemies[index + 1..];
            }
            hl := hl[..index] + hl[index + 1..];
          }
        }
        index := index + 1;
      }
      SplicePassRemovesMask(es, hits);
      FilterDistinct(es, SpliceMask(hits));
    }

    /**
     * The enemy half of a frame: advance every enemy and drop the expired ones, then run
     * the collision pass against the moved enemies. `mid` is the list between the two.
     */
    method MoveAndCollide(now: int, rolls: seq<real>) returns (ghost mid: seq<Enemy>)
      requires Valid()
      requires |rolls| >= |enemies|
      modifies this`enemies, this`playerHP, enemies
      ensures Valid()
      ensures Views(old(enemies)) == AdvanceEach(old(Views(enemies)), now, rolls[..|old(enemies)|])
      ensures mid == Filter(old(enemies), ExpiredEach(Views(old(enemies))))
      ensures var removed := SpliceMask(HitEach(Views(mid), player.x, player.y));
        enemies == Filter(mid, removed) &&
        playerHP == old(playerHP) - (if player.isDashing then 0 else Count(removed))
    {
      ghost var es := enemies;
      ghost var advanced := AdvanceEach(Views(es), now, rolls[..|es|]);
      UpdateEnemies(now, rolls);
      mid := enemies;
      assert Views(es) == advanced by {
        forall k | 0 <= k < |es| ensures Views(es)[k] == advanced[k] {
          assert rolls[..|es|][k] == rolls[k];
        }
      }
      CheckCollisions();
    }

    /**
     * One animation frame: update the player, spawn if due, update the enemies, resolve
     * collisions; the result says whether another frame is requested. The ghost results
     * name the intermediate lists: `grown` is the list after the spawn gate, `pre` its
     * enemies' fields at that point, and `mid` the list the collision pass starts from.
     */
    method Tick(now: int, timestamp: real, rolls: seq<real>, spawnRoll: real)
      returns (continues: bool, ghost grown: seq<Enemy>, ghost pre: seq<EnemyView>, ghost mid: seq<Enemy>)
      requires Valid()
      requires |rolls| > |enemies|
      modifies this, player, enemies
      ensures Valid()
      ensures player.View() == PlayerStep(old(player.View()), old(keys), now)
      ensures keys == old(keys)
      ensures lastEnemySpawnTime ==
        if SpawnDue(timestamp, old(lastEnemySpawnTime)) then timestamp else old(lastEnemySpawnTime)
      ensures pre == old(Views(enemies)) +
        if SpawnDue(timestamp, old(lastEnemySpawnTime))
        then [Fresh(CANVAS_WIDTH + ENEMY_RADIUS, SpawnY(spawnRoll), ENEMY_SPEED, ENEMY_RADIUS, WHITE_BLOOD_CELL)]
        else []
      ensures |grown| == |pre| && grown[..|old(enemies)|] == old(enemies)
      ensures Views(grown) == AdvanceEach(pre, now, rolls[..|grown|])
      ensures mid == Filter(grown, ExpiredEach(Views(grown)))
      ensures var removed := SpliceMask(HitEach(Views(mid), player.x, player.y));
        enemies == Filter(mid, removed) &&
        playerHP == old(playerHP) - (if player.isDashing then 0 else Count(removed))
      ensures continues <==> playerHP > 0
    {
      player.Update(keys, now);
      var _ := SpawnIfDue(timestamp, spawnRoll);
      grown := enemies;
      pre := Views(grown);

      mid := MoveAndCollide(now, rolls);
      continues := playerHP > 0;
    }
  }
}
