/** The ranged enemy: it targets the nearest player that is not dead, keeps
    a distance band around it (retreat when too close, approach when too
    far, strafe in between) and fires a five-bullet fan from the shared pool
    on a fixed interval. Distances are compared squared, which orders them
    as the distances do; direction vectors are left unnormalised, which
    scales them by a positive factor and keeps where they point. */
module EnemyAI {
  import opened Common
  import opened Geometry
  import opened Scene
  import opened Projectiles

  const TooCloseDistance: real := 5.0
  const TooFarDistance: real := 7.0
  /** Seconds between volleys. */
  const FireRate: real := 1.2
  /** The fan's angular offsets around the line of sight, in degrees. */
  const FanOffsets: seq<int> := [-40, -20, 0, 20, 40]

  /** FindNearestPlayer skips a player whose PlayerHealth reports dead and
      keeps one that has no PlayerHealth at all. */
  predicate Targetable(p: PlayerView) {
    p.health != Some(false)
  }

  /** Among the first `n` players, `k` is the one the scan settles on: it is
      targetable, no targetable player is nearer, and every targetable
      player before it is strictly farther (the scan's `<` keeps the first
      of equally near players). */
  predicate IsNearestAmong(players: seq<PlayerView>, from: Vec2, n: nat, k: nat)
    requires n <= |players|
  {
    && k < n
    && Targetable(players[k])
    && (forall j :: 0 <= j < n && Targetable(players[j]) ==>
          DistSq(from, players[k].position) <= DistSq(from, players[j].position))
    && (forall j :: 0 <= j < k && Targetable(players[j]) ==>
          DistSq(from, players[j].position) > DistSq(from, players[k].position))
  }

  /** The nearest targetable player, when there is one, is determined. */
  lemma NearestIsUnique(players: seq<PlayerView>, from: Vec2, k1: nat, k2: nat)
    requires IsNearestAmong(players, from, |players|, k1)
    requires IsNearestAmong(players, from, |players|, k2)
    ensures k1 == k2
  {
  }

  /** The position of the first player with id `target`, if the target is
      set and still exists; a destroyed player's reference reads as null. */
  function PositionOf(players: seq<PlayerView>, target: Option<nat>): (r: Option<Vec2>)
    ensures r.Some? ==> target.Some? && exists i :: 0 <= i < |players| && players[i].id == target.value && players[i].position == r.value
    ensures r.None? ==> target.None? || forall i :: 0 <= i < |players| ==> players[i].id != target.value
  {
    if target.None? || players == [] then None
    else if players[0].id == target.value then Some(players[0].position)
    else PositionOf(players[1..], target)
  }

  /** The movement direction for an enemy at `self` and its target at
      `target`. Closer than TooCloseDistance it points straight away from
      the target, farther than TooFarDistance straight at it, and in the
      band between (both ends included) it is the line of sight turned a
      quarter turn counter-clockwise. */
  function MoveDirection(self: Vec2, target: Vec2): (d: Vec2)
    ensures var toward := Sub(target, self);
      && (DistSq(self, target) < TooCloseDistance * TooCloseDistance ==>
            Dot(d, toward) == -NormSq(toward) && Cross(toward, d) == 0.0)
      && (DistSq(self, target) > TooFarDistance * TooFarDistance ==>
            Dot(d, toward) == NormSq(toward) && Cross(toward, d) == 0.0)
      && (TooCloseDistance * TooCloseDistance <= DistSq(self, target) <= TooFarDistance * TooFarDistance ==>
            Dot(d, toward) == 0.0 && Cross(toward, d) == NormSq(toward))
  {
    var distSq := DistSq(self, target);
    if distSq < TooCloseDistance * TooCloseDistance then Sub(self, target)
    else if distSq > TooFarDistance * TooFarDistance then Sub(target, self)
    else
      var toPlayer := Sub(target, self);
      Vec2(-toPlayer.y, toPlayer.x)
  }

  /** What one fixed step did. */
  datatype Step =
    | Idle                                    // not the server
    | Reacquired                              // the target was null: only a new target was looked for
    | Acted(direction: Vec2, shots: seq<Bullet>)  // moved along `direction` and fired `shots` (maybe none)

  class EnemyShooter {
    var position: Vec2
    /** The id of the targeted player, None for a null target. */
    var targetPlayer: Option<nat>
    var lastFireTime: real
    var bulletPool: BulletPool?

    constructor (position: Vec2)
      ensures this.position == position && targetPlayer == None && lastFireTime == 0.0 && bulletPool == null
    {
      this.position := position;
      targetPlayer := None;
      lastFireTime := 0.0;
      bulletPool := null;
    }

    /** Server start: look for a target and for the scene's bullet pool. */
    method OnStartServer(players: seq<PlayerView>, pool: BulletPool?)
      modifies this
      ensures bulletPool == pool && position == old(position) && lastFireTime == old(lastFireTime)
      ensures NearestFound(players)
    {
      FindNearestPlayer(players);
      bulletPool := pool;
    }

    /** The outcome of FindNearestPlayer between two states. With no players
        the target is kept; otherwise it becomes the nearest targetable
        player, or null when every player is dead. */
    twostate predicate NearestFound(players: seq<PlayerView>)
      reads this
    {
      && (|players| == 0 ==> targetPlayer == old(targetPlayer))
      && (|players| > 0 ==>
            (targetPlayer.None? <==> forall j :: 0 <= j < |players| ==> !Targetable(players[j])))
      && (|players| > 0 && targetPlayer.Some? ==>
            exists k: nat :: k < |players| && IsNearestAmong(players, position, |players|, k) && players[k].id == targetPlayer.value)
    }

    method FindNearestPlayer(players: seq<PlayerView>)
      modifies this
      ensures NearestFound(players)
      ensures position == old(position) && lastFireTime == old(lastFireTime) && bulletPool == old(bulletPool)
    {
      if |players| == 0 {
        return;
      }
      var closestDistance: Option<real> := None;  // None stands for +infinity
      var closest: Option<nat> := None;
      for i := 0 to |players|
        invariant position == old(position)
        invariant closest.None? ==> closestDistance.None?
        invariant closest.None? <==> forall j :: 0 <= j < i ==> !Targetable(players[j])
        invariant closest.Some? ==>
          IsNearestAmong(players, position, i, closest.value) &&
          closestDistance == Some(DistSq(position, players[closest.value].position))
      {
        var player := players[i];
        if player.health.Some? && !player.health.value {
          assert !Targetable(players[i]);
          continue;
        }
        var distance := DistSq(position, player.position);
        if closestDistance.None? || distance < closestDistance.value {
          closestDistance := Some(distance);
          closest := Some(i);
        }
      }
      targetPlayer := if closest.None? then None else Some(players[closest.value].id);
    }

    /** Fires a volley unless the interval since the last one has not passed,
        there is no pool or there is no target. A volley takes five distinct
        bullets from the pool, one per fan offset, each placed at the enemy,
        turned by its offset from the line of sight, active, and initialised
        to belong to the pool. */
    method TryShoot(time: real, targetPosition: Option<Vec2>) returns (shots: seq<Bullet>)
      modifies this, bulletPool, if bulletPool != null then set x | x in bulletPool.queue else {}
      ensures bulletPool == old(bulletPool) && position == old(position) && targetPlayer == old(targetPlayer)
      ensures time < old(lastFireTime) + FireRate || bulletPool == null || targetPosition.None? ==>
        shots == [] && lastFireTime == old(lastFireTime) && (bulletPool != null ==> unchanged(bulletPool))
      ensures !(time < old(lastFireTime) + FireRate || bulletPool == null || targetPosition.None?) ==>
        && lastFireTime == time
        && |shots| == |FanOffsets|
        && (forall j :: 0 <= j < |shots| ==>
              && shots[j].active && !shots[j].destroyed
              && shots[j].position == position
              && shots[j].rotation == Heading(Sub(targetPosition.value, position), FanOffsets[j])
              && shots[j].ownerPool == bulletPool && shots[j].lifetimeTimer == 0.0)
        && (forall i, j :: 0 <= i < j < |shots| ==> shots[i] != shots[j])
      ensures bulletPool != null ==> forall j :: 0 <= j < |shots| ==>
        fresh(shots[j]) || (shots[j] in old(bulletPool.queue) && old(Reusable(shots[j])))
      ensures bulletPool != null ==> forall x :: x in old(bulletPool.queue) && x !in shots ==> unchanged(x)
      ensures bulletPool != null ==> forall x :: x in bulletPool.queue ==> x in old(bulletPool.queue) || x in shots
    {
      shots := [];
      if time < lastFireTime + FireRate {
        return;
      }
      if bulletPool == null {
        return;
      }
      if targetPosition.None? {
        return;
      }
      lastFireTime := time;
      var pool := bulletPool;
      var directionToPlayer := Sub(targetPosition.value, position);
      for k := 0 to |FanOffsets|
        invariant |shots| == k
        invariant forall j :: 0 <= j < k ==>
          && shots[j].active && !shots[j].destroyed
          && shots[j].position == position
          && shots[j].rotation == Heading(directionToPlayer, FanOffsets[j])
          && shots[j].ownerPool == pool && shots[j].lifetimeTimer == 0.0
        invariant forall i, j :: 0 <= i < j < k ==> shots[i] != shots[j]
        invariant forall x :: x in pool.queue ==> x in old(pool.queue) || x in shots
        invariant forall j :: 0 <= j < k ==>
          fresh(shots[j]) || (shots[j] in old(pool.queue) && old(Reusable(shots[j])))
        invariant forall x :: x in old(pool.queue) && x !in shots ==> unchanged(x)
        invariant bulletPool == pool && lastFireTime == time
        invariant position == old(position) && targetPlayer == old(targetPlayer)
      {
        label Shot:
        var bullet := pool.GetBullet(position, Heading(directionToPlayer, FanOffsets[k]));
        assert forall j :: 0 <= j < k ==> bullet != shots[j];
        forall j | 0 <= j < k
          ensures unchanged@Shot(shots[j])
        {
          if shots[j] in old@Shot(pool.queue) {
            assert shots[j] != bullet;
          }
        }
        forall x | x in old(pool.queue) && x !in shots && x != bullet
          ensures unchanged@Shot(x)
        {
          if x in old@Shot(pool.queue) {
            assert x != bullet;
          }
        }
        bullet.Initialize(pool);
        shots := shots + [bullet];
      }
    }

    /** One fixed step on the server: a null target (never set, or its player
        destroyed) is only looked for again; otherwise the enemy moves by
        its distance regime and tries to shoot. */
    method FixedUpdate(isServer: bool, players: seq<PlayerView>, time: real) returns (step: Step)
      modifies this, bulletPool, if bulletPool != null then set x | x in bulletPool.queue else {}
      ensures position == old(position) && bulletPool == old(bulletPool)
      ensures !isServer ==> step == Idle && unchanged(this)
      ensures isServer && PositionOf(players, old(targetPlayer)).None? ==>
        step == Reacquired && NearestFound(players) && lastFireTime == old(lastFireTime)
      ensures step.Idle? || step.Reacquired? ==>
        bulletPool != null ==> unchanged(bulletPool) && forall x :: x in bulletPool.queue ==> unchanged(x)
      ensures isServer && PositionOf(players, old(targetPlayer)).Some? ==>
        var target := PositionOf(players, old(targetPlayer)).value;
        && step.Acted?
        && step.direction == MoveDirection(position, target)
        && targetPlayer == old(targetPlayer)
        && (step.shots != [] <==> old(lastFireTime) + FireRate <= time && bulletPool != null)
        && lastFireTime == (if step.shots != [] then time else old(lastFireTime))
        && |step.shots| == (if step.shots == [] then 0 else |FanOffsets|)
        && (forall j :: 0 <= j < |step.shots| ==>
              && step.shots[j].active && !step.shots[j].destroyed
              && step.shots[j].position == position
              && step.shots[j].rotation == Heading(Sub(target, position), FanOffsets[j])
              && step.shots[j].ownerPool == bulletPool && step.shots[j].lifetimeTimer == 0.0)
        && (forall i, j :: 0 <= i < j < |step.shots| ==> step.shots[i] != step.shots[j])
        && (bulletPool != null ==>
              && (forall j :: 0 <= j < |step.shots| ==>
                    var shot := step.shots[j];
                    fresh(shot) || (shot in old(bulletPool.queue) && old(Reusable(shot))))
              && (forall x :: x in old(bulletPool.queue) && x !in step.shots ==> unchanged(x))
              && (forall x :: x in bulletPool.queue ==> x in old(bulletPool.queue) || x in step.shots))
    {
      if !isServer {
        return Idle;
      }
      var targetPosition := PositionOf(players, targetPlayer);
      if targetPosition.None? {
        FindNearestPlayer(players);
        return Reacquired;
      }
      var direction := MoveDirection(position, targetPosition.value);
      var shots := TryShoot(time, targetPosition);
      step := Acted(direction, shots);
    }
  }
}
